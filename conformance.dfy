/** How the client pages and the server agree and where they do not: the two
    transition tables side by side, the client's guards against the server's
    checks, the payloads the client builds against the server's input
    validation, and the wire codes against the labels. */
module Conformance {
  import opened Common
  import opened Domain
  import TicketTypes
  import TicketsController
  import TicketDetailsPage
  import CreateTicketPage

  /** The backend status a wire code stands for. */
  function StatusOf(c: TicketTypes.StatusWire): (s: Status)
    ensures StatusCode(s) == c
  {
    if c == 0 then Open else if c == 1 then InProgress else Closed
  }

  function PriorityOf(c: TicketTypes.PriorityWire): (p: Priority)
    ensures PriorityCode(p) == c
  {
    if c == 0 then Low else if c == 1 then Medium else High
  }

  function CategoryOf(c: TicketTypes.CategoryWire): (k: Category)
    ensures CategoryCode(k) == c
  {
    if c == 0 then IT else if c == 1 then Facilities else General
  }

  /** The client's menu for a loaded ticket offers a move to `to`. */
  predicate ClientOffers(t: TicketTypes.TicketDetails, to: Status)
  {
    StatusCode(to) in TicketDetailsPage.AllowedNextStatuses(Some(t))
  }

  /** The two tables, compared edge by edge: both accept Open->InProgress
      and InProgress->Closed; only the client offers the moves back to Open
      (from InProgress and from Closed); only the server accepts
      Open->Closed. */
  lemma TransitionTablesCompared(t: TicketTypes.TicketDetails, to: Status)
    ensures var from := StatusOf(t.status);
      && (ClientOffers(t, to) && TicketsController.ServerAllows(from, to) <==>
            (from == Open && to == InProgress) || (from == InProgress && to == Closed))
      && (ClientOffers(t, to) && !TicketsController.ServerAllows(from, to) <==>
            from != Open && to == Open)
      && (!ClientOffers(t, to) && TicketsController.ServerAllows(from, to) <==>
            from == Open && to == Closed)
  {
  }

  /** The difference, on concrete tickets: a reopen the client offers is an
      invalid transition at the server, whatever the comment count, and the
      server's direct Open->Closed is not on the client's menu. */
  lemma TransitionTablesDiffer(t: TicketTypes.TicketDetails, n: nat)
    ensures t.status == 1 ==>
      && ClientOffers(t, Open)
      && TicketsController.Decide(InProgress, Open, n)
         == TicketsController.Reject(TicketsController.InvalidTransition(InProgress, Open))
    ensures t.status == 2 ==>
      && ClientOffers(t, Open)
      && TicketsController.Decide(Closed, Open, n)
         == TicketsController.Reject(TicketsController.InvalidTransition(Closed, Open))
    ensures t.status == 0 ==>
      && !ClientOffers(t, Closed)
      && TicketsController.Decide(Open, Closed, n + 1) == TicketsController.Apply(Closed)
  {
  }

  /** The client's close guard is the server's: when the page's comment count
      is the server's, an enabled Close button is never refused for want of
      a comment, and it is the only close the client offers, so it is
      accepted. */
  lemma EnabledCloseIsAccepted(t: TicketTypes.TicketDetails, updating: bool, serverCount: nat)
    requires serverCount == |t.comments|
    requires exists b :: b in TicketDetailsPage.StatusButtons(Some(t), updating) && b.target == 2 && !b.disabled
    ensures TicketsController.Decide(StatusOf(t.status), Closed, serverCount) == TicketsController.Apply(Closed)
  {
    var b :| b in TicketDetailsPage.StatusButtons(Some(t), updating) && b.target == 2 && !b.disabled;
    var menu := TicketDetailsPage.AllowedNextStatuses(Some(t));
    var i :| 0 <= i < |menu| && TicketDetailsPage.StatusButtons(Some(t), updating)[i] == b;
    assert menu[i] == 2;
  }

  /** The comment form is open exactly when the server would not refuse the
      comment as one on a closed ticket. */
  lemma CommentGuardsAgree(t: TicketTypes.TicketDetails)
    ensures TicketDetailsPage.CanAddComment(Some(t)) <==> StatusOf(t.status) != Closed
  {
  }

  /** The body the server binds from the client's comment payload: only the
      message; the author is not a field of the server's input. */
  function CommentDtoOf(p: TicketTypes.CreateCommentPayload): (dto: TicketsController.CreateCommentDto)
    ensures dto.message == p.message
  {
    TicketsController.CreateCommentDto(p.message)
  }

  /** A comment the client sends passes the server's input validation, and
      the server's own trim stores the message exactly as sent, as long as
      the message holds no NEXT LINE (U+0085); `NextLineComment` and
      `NextLineEnding` show what happens otherwise. */
  lemma ClientCommentIsAccepted(author: string, text: string)
    requires TicketDetailsPage.CheckComment(author, text).Ok?
    requires '\U{0085}' !in text
    ensures var dto := CommentDtoOf(TicketDetailsPage.CheckComment(author, text).value);
      && TicketsController.ValidCreateCommentDto(dto)
      && Trim(DotNet, dto.message) == dto.message
  {
    TicketDetailsPage.CheckedCommentIsTrimmed(author, text);
    BrowserTrimmedSurvivesServer(text);
  }

  /** The browser keeps U+0085 when trimming and .NET does not: a message
      of two NEXT LINE characters passes the client's check, and the server's
      `[Required]` refuses it as blank. */
  lemma NextLineComment(author: string)
    requires TicketDetailsPage.AuthorOk(author)
    ensures var r := TicketDetailsPage.CheckComment(author, "\U{0085}\U{0085}");
      && r.Ok? && r.value.message == "\U{0085}\U{0085}"
      && !TicketsController.ValidCreateCommentDto(CommentDtoOf(r.value))
  {
    var twice := "\U{0085}\U{0085}";
    TrimKeeps(Js, twice);
    assert Utf16Length(twice) == 2;
    assert IsBlank(DotNet, twice);
  }

  /** A message ending in NEXT LINE passes both checks, but the server's
      trim stores it without that character, so not as sent. */
  lemma NextLineEnding(author: string)
    requires TicketDetailsPage.AuthorOk(author)
    ensures var r := TicketDetailsPage.CheckComment(author, "ab\U{0085}");
      && r.Ok? && r.value.message == "ab\U{0085}"
      && TicketsController.ValidCreateCommentDto(CommentDtoOf(r.value))
      && Trim(DotNet, r.value.message) == "ab"
  {
    var ending := "ab\U{0085}";
    TrimKeeps(Js, ending);
    assert Utf16Length(ending) == 3;
    assert LeadingBlanks(DotNet, ending) == 0 && TrailingBlanks(DotNet, ending) == 1;
    assert ending[0..2] == "ab";
  }

  /** The body the server binds from the client's ticket payload: title,
      description and the two enumerations; `createdBy` is dropped. */
  function TicketDtoOf(p: TicketTypes.CreateTicketPayload): (dto: TicketsController.CreateTicketDto)
    ensures dto.title == p.title && dto.description == p.description
    ensures CategoryCode(dto.category) == p.category && PriorityCode(dto.priority) == p.priority
  {
    TicketsController.CreateTicketDto(p.title, p.description, CategoryOf(p.category), PriorityOf(p.priority))
  }

  /** A ticket the create form sends passes the server's input validation,
      and the server's own trims store the text exactly as sent, as long as
      the title and the description hold no NEXT LINE (U+0085);
      `NextLineTitle` shows what happens otherwise. */
  lemma ClientTicketIsAccepted(f: CreateTicketPage.Form)
    requires CreateTicketPage.CanSubmit(f, false)
    requires '\U{0085}' !in f.title && '\U{0085}' !in f.description
    ensures var dto := TicketDtoOf(CreateTicketPage.Payload(f));
      && TicketsController.ValidCreateTicketDto(dto)
      && Trim(DotNet, dto.title) == dto.title
      && Trim(DotNet, dto.description) == dto.description
  {
    CreateTicketPage.ValidPayloadIsTrimmed(f);
    BrowserTrimmedSurvivesServer(f.title);
    BrowserTrimmedSurvivesServer(f.description);
    var p := CreateTicketPage.Payload(f);
    assert p.title != [] && p.description != [];
  }

  /** A title of five NEXT LINE characters passes `titleOk` in the browser,
      which does not trim U+0085, and is refused by .NET's `[Required]`:
      whatever the other fields, a form with that title that the client
      submits is one the server rejects. */
  lemma NextLineTitle(f: CreateTicketPage.Form)
    requires f.title == "\U{0085}\U{0085}\U{0085}\U{0085}\U{0085}"
    requires CreateTicketPage.CreatedByOk(f) && CreateTicketPage.DescriptionOk(f)
    ensures CreateTicketPage.CanSubmit(f, false)
    ensures !TicketsController.ValidCreateTicketDto(TicketDtoOf(CreateTicketPage.Payload(f)))
  {
    TrimKeeps(Js, f.title);
    assert Utf16Length(f.title) == 5;
    assert CreateTicketPage.TitleOk(f);
    assert IsBlank(DotNet, f.title);
    assert CreateTicketPage.Payload(f).title == f.title;
  }

  /** The client's labels name the server's statuses by the wire code. */
  lemma StatusLabelsAgree(s: Status)
    ensures TicketDetailsPage.StatusLabel(StatusCode(s))
         == match s
            case Open => "Open"
            case InProgress => "In Progress"
            case Closed => "Closed"
  {
  }
}
