/** The ticket details page: the label maps, the status menu and its guards,
    comment validation, and the comment list order; then the page's own state
    and the handlers that update it. A handler that would call the API returns
    the request it would send; the second half of each handler (after the
    awaited call settles) is a separate method taking the call's outcome. */
module TicketDetailsPage {
  import opened Common
  import opened TicketTypes
  import opened Ordering

  /** `statusLabel`: each of the three labels names exactly one code, the
      last one also standing for every code outside 0..2. */
  function StatusLabel(s: int): (name: string)
    ensures name == "Open" <==> s == 0
    ensures name == "In Progress" <==> s == 1
    ensures name == "Closed" <==> s != 0 && s != 1
  {
    if s == 0 then "Open" else if s == 1 then "In Progress" else "Closed"
  }

  function PriorityLabel(p: int): (name: string)
    ensures name == "Low" <==> p == 0
    ensures name == "Medium" <==> p == 1
    ensures name == "High" <==> p != 0 && p != 1
  {
    if p == 0 then "Low" else if p == 1 then "Medium" else "High"
  }

  function CategoryLabel(c: int): (name: string)
    ensures name == "IT" <==> c == 0
    ensures name == "Facilities" <==> c == 1
    ensures name == "General" <==> c != 0 && c != 1
  {
    if c == 0 then "IT" else if c == 1 then "Facilities" else "General"
  }

  /** The label maps: code 0 and code 1 get their own names and every other
      code falls to the last name; on the three wire codes each map is
      one-to-one. */
  lemma LabelMaps(code: int, a: int, b: int)
    ensures StatusLabel(code) == (if code == 0 then "Open" else if code == 1 then "In Progress" else "Closed")
    ensures PriorityLabel(code) == (if code == 0 then "Low" else if code == 1 then "Medium" else "High")
    ensures CategoryLabel(code) == (if code == 0 then "IT" else if code == 1 then "Facilities" else "General")
    ensures 0 <= a <= 2 && 0 <= b <= 2 && a != b ==>
      StatusLabel(a) != StatusLabel(b) && PriorityLabel(a) != PriorityLabel(b) && CategoryLabel(a) != CategoryLabel(b)
  {
  }

  const CloseWithoutCommentError := "Cannot close a ticket without at least one comment."

  /** Which of the two comment checks failed. */
  datatype CommentProblem = AuthorLength | MessageLength

  /** The error text shown for a failed comment check, which names the
      field that failed. */
  function ProblemText(p: CommentProblem): (text: string)
    ensures 7 <= |text|
    ensures p.AuthorLength? <==> text[..6] == "Author"
    ensures p.MessageLength? <==> text[..7] == "Comment"
  {
    match p
    case AuthorLength =>
      var t := "Author" + " is required and must be 2\U{2013}100 characters.";
      assert t[..6] == "Author" && t[..7][0] != "Comment"[0];
      t
    case MessageLength =>
      var t := "Comment" + " must be 2\U{2013}1000 characters.";
      assert t[..7] == "Comment" && t[..6][0] != "Author"[0];
      t
  }

  /** `ticket?.comments?.length ?? 0` */
  function CommentCount(ticket: Option<TicketDetails>): (n: nat)
    ensures n == 0 <==> ticket.None? || ticket.value.comments == []
  {
    if ticket.None? then 0 else |ticket.value.comments|
  }

  /** The statuses the page offers as buttons: Open -> [InProgress],
      InProgress -> [Open, Closed], Closed -> [Open]; nothing before a ticket
      is loaded. */
  function AllowedNextStatuses(ticket: Option<TicketDetails>): (menu: seq<StatusWire>)
    ensures ticket.None? <==> menu == []
    ensures ticket.Some? ==> ticket.value.status !in menu
    ensures forall i, j :: 0 <= i < j < |menu| ==> menu[i] < menu[j]
  {
    match ticket
    case None => []
    case Some(t) =>
      if t.status == 0 then [1]
      else if t.status == 1 then [0, 2]
      else [0]
  }

  /** `commentCount > 0`: only a loaded ticket with a comment can be
      closed. */
  predicate CanClose(ticket: Option<TicketDetails>)
    ensures CanClose(ticket) <==> ticket.Some? && ticket.value.comments != []
  {
    CommentCount(ticket) > 0
  }

  /** `ticket?.status !== 2`: true while no ticket is loaded, too. */
  predicate CanAddComment(ticket: Option<TicketDetails>)
    ensures ticket.Some? ==> (CanAddComment(ticket) <==> ticket.value.status != 2)
    ensures ticket.None? ==> CanAddComment(ticket)
  {
    ticket.None? || ticket.value.status != 2
  }

  datatype StatusButton = StatusButton(target: StatusWire, disabled: bool)

  /** One button per offered status; a button is disabled while an update is
      in flight, and the Close button also while the ticket has no
      comment. */
  function StatusButtons(ticket: Option<TicketDetails>, statusUpdating: bool): (buttons: seq<StatusButton>)
    ensures |buttons| == |AllowedNextStatuses(ticket)|
    ensures forall i :: 0 <= i < |buttons| ==> buttons[i].target == AllowedNextStatuses(ticket)[i]
    ensures forall b :: b in buttons && !b.disabled ==> !statusUpdating
    ensures forall b :: b in buttons && b.target == 2 && !b.disabled ==> CommentCount(ticket) > 0
    ensures !statusUpdating ==> forall b :: b in buttons && b.target != 2 ==> !b.disabled
    ensures !statusUpdating && CommentCount(ticket) > 0 ==> forall b :: b in buttons ==> !b.disabled
  {
    var menu := AllowedNextStatuses(ticket);
    seq(|menu|, i requires 0 <= i < |menu| =>
      StatusButton(menu[i], statusUpdating || (menu[i] == 2 && !CanClose(ticket))))
  }

  /** The author check: 2..100 code units once trimmed. */
  predicate AuthorOk(author: string)
    ensures AuthorOk(author) ==> 1 <= |Trim(Js, author)| <= 100
  {
    2 <= Utf16Length(Trim(Js, author)) <= 100
  }

  /** The message check: 2..1000 code units once trimmed. */
  predicate MessageOk(text: string)
    ensures MessageOk(text) ==> 1 <= |Trim(Js, text)| <= 1000
  {
    2 <= Utf16Length(Trim(Js, text)) <= 1000
  }

  /** `.length` counts a character outside the Basic Multilingual Plane
      twice, so a one-character author made of such a character passes the
      2-unit lower bound, and one ordinary character does not. */
  lemma SurrogatePairAuthor()
    ensures AuthorOk("\U{1F600}")
    ensures !AuthorOk("a")
  {
    assert Utf16Length("\U{1F600}") == 2;
    assert Trim(Js, "\U{1F600}") == "\U{1F600}" by {
      TrimKeeps(Js, "\U{1F600}");
    }
  }

  /** The checks of `handleAddComment`, author first: the failed check, or
      the payload to send. */
  function CheckComment(author: string, text: string): (r: Result<CreateCommentPayload, CommentProblem>)
    ensures r.Ok? <==> AuthorOk(author) && MessageOk(text)
    ensures r == Err(AuthorLength) <==> !AuthorOk(author)
    ensures r == Err(MessageLength) <==> AuthorOk(author) && !MessageOk(text)
    ensures r.Ok? ==> r.value.author == Trim(Js, author) && r.value.message == Trim(Js, text)
  {
    var a := Trim(Js, author);
    var m := Trim(Js, text);
    if Utf16Length(a) < 2 || Utf16Length(a) > 100 then Err(AuthorLength)
    else if Utf16Length(m) < 2 || Utf16Length(m) > 1000 then Err(MessageLength)
    else Ok(CreateCommentPayload(a, m))
  }

  /** The payload that passes the checks is already trimmed and within the
      bounds, so trimming it again changes nothing. */
  lemma CheckedCommentIsTrimmed(author: string, text: string)
    requires CheckComment(author, text).Ok?
    ensures var p := CheckComment(author, text).value;
      && Trim(Js, p.author) == p.author && 2 <= Utf16Length(p.author) <= 100
      && Trim(Js, p.message) == p.message && 2 <= Utf16Length(p.message) <= 1000
  {
    TrimIdempotent(Js, author);
    TrimIdempotent(Js, text);
  }

  /** The Add Comment button's `disabled` expression. */
  predicate AddCommentDisabled(ticket: Option<TicketDetails>, commentSubmitting: bool, author: string, text: string)
    ensures commentSubmitting ==> AddCommentDisabled(ticket, commentSubmitting, author, text)
    ensures IsBlank(Js, author) || IsBlank(Js, text) ==> AddCommentDisabled(ticket, commentSubmitting, author, text)
  {
    TrimEmptyIffBlank(Js, author);
    TrimEmptyIffBlank(Js, text);
    !CanAddComment(ticket) || commentSubmitting || Utf16Length(Trim(Js, author)) < 2 || Utf16Length(Trim(Js, text)) < 2
  }

  /** On a closed ticket the button is disabled whatever was typed. On an
      open ticket with nothing in flight, input that passes the handler's
      checks enables it; conversely, when the button is enabled, the text
      fields' `maxLength` (100 and 1000) bound the input, so the handler's
      checks pass. */
  lemma AddCommentButton(ticket: Option<TicketDetails>, commentSubmitting: bool, author: string, text: string)
    ensures ticket.Some? && ticket.value.status == 2 ==> AddCommentDisabled(ticket, commentSubmitting, author, text)
    ensures CanAddComment(ticket) && !commentSubmitting && CheckComment(author, text).Ok?
      ==> !AddCommentDisabled(ticket, commentSubmitting, author, text)
    ensures (!AddCommentDisabled(ticket, commentSubmitting, author, text)
             && Utf16Length(author) <= 100 && Utf16Length(text) <= 1000)
      ==> CheckComment(author, text).Ok?
  {
    TrimUtf16Length(Js, author);
    TrimUtf16Length(Js, text);
  }

  function CommentTime(c: CommentItem): int
  {
    c.createdAt
  }

  /** `ticket.comments.slice().sort(byCreatedAt)`: a sorted copy; the
      ticket's own array is not reordered. */
  function DisplayedComments(comments: seq<CommentItem>): (shown: seq<CommentItem>)
    ensures |shown| == |comments|
    ensures forall i, j :: 0 <= i < j < |shown| ==> shown[i].createdAt <= shown[j].createdAt
    ensures multiset(shown) == multiset(comments)
    ensures forall k :: WithKey(shown, CommentTime, k) == WithKey(comments, CommentTime, k)
  {
    var shown := SortBy(comments, CommentTime);
    assert forall i, j :: 0 <= i < j < |shown| ==> CommentTime(shown[i]) <= CommentTime(shown[j]);
    forall k ensures WithKey(shown, CommentTime, k) == WithKey(comments, CommentTime, k) {
      SortByStable(comments, CommentTime, k);
    }
    shown
  }

  /** The status update the page sends. */
  datatype StatusChangeRequest = StatusChangeRequest(ticketId: int, status: StatusWire)

  /** The comment the page sends. */
  datatype CommentRequest = CommentRequest(ticketId: int, payload: CreateCommentPayload)

  class DetailsPage {
    const ticketId: int
    var ticket: Option<TicketDetails>
    var error: Option<string>
    var statusUpdating: bool
    var commentAuthor: string
    var commentText: string
    var commentSubmitting: bool

    constructor (ticketId: int)
      ensures this.ticketId == ticketId
      ensures ticket.None? && error.None? && !statusUpdating && !commentSubmitting
      ensures commentAuthor == "" && commentText == ""
    {
      this.ticketId := ticketId;
      ticket, error := None, None;
      statusUpdating, commentSubmitting := false, false;
      commentAuthor, commentText := "", "";
    }

    /** `load`: clears the error, then stores the fetched ticket or shows the
        failure. */
    method Load(outcome: Result<TicketDetails, string>)
      modifies this
      ensures outcome.Ok? ==> ticket == Some(outcome.value) && error.None?
      ensures outcome.Err? ==> ticket == old(ticket) && error == Some(outcome.error)
      ensures statusUpdating == old(statusUpdating) && commentSubmitting == old(commentSubmitting)
      ensures commentAuthor == old(commentAuthor) && commentText == old(commentText)
    {
      error := None;
      match outcome
      case Ok(data) => ticket := Some(data);
      case Err(message) => error := Some(message);
    }

    /** The two text fields' change handlers. */
    method EditComment(author: string, text: string)
      modifies this
      ensures commentAuthor == author && commentText == text
      ensures ticket == old(ticket) && error == old(error)
      ensures statusUpdating == old(statusUpdating) && commentSubmitting == old(commentSubmitting)
    {
      commentAuthor, commentText := author, text;
    }

    /** `handleStatusChange` up to the API call: with no ticket it does
        nothing; a move to Closed without a comment only sets the error; any
        other request clears the error, marks the update in flight and is
        sent. */
    method HandleStatusChange(next: StatusWire) returns (request: Option<StatusChangeRequest>)
      modifies this
      ensures ticket == old(ticket)
      ensures commentAuthor == old(commentAuthor) && commentText == old(commentText)
      ensures commentSubmitting == old(commentSubmitting)
      ensures old(ticket).None? ==>
                request.None? && error == old(error) && statusUpdating == old(statusUpdating)
      ensures old(ticket).Some? && next == 2 && !CanClose(old(ticket)) ==>
                request.None? && error == Some(CloseWithoutCommentError) && statusUpdating == old(statusUpdating)
      ensures request.Some? <==> old(ticket).Some? && (next == 2 ==> CanClose(old(ticket)))
      ensures request.Some? ==>
                request.value == StatusChangeRequest(old(ticket).value.id, next) && error.None? && statusUpdating
    {
      if ticket.None? {
        return None;
      }
      if next == 2 && !CanClose(ticket) {
        error := Some(CloseWithoutCommentError);
        return None;
      }
      error := None;
      statusUpdating := true;
      request := Some(StatusChangeRequest(ticket.value.id, next));
    }

    /** The rest of `handleStatusChange` once the call settles: on success the
        parent is told (and the page reloads); on failure the message is
        shown; either way the update is no longer in flight. */
    method FinishStatusChange(failure: Option<string>) returns (notifyChanged: bool)
      modifies this
      ensures !statusUpdating
      ensures notifyChanged <==> failure.None?
      ensures error == (if failure.Some? then failure else old(error))
      ensures ticket == old(ticket) && commentSubmitting == old(commentSubmitting)
      ensures commentAuthor == old(commentAuthor) && commentText == old(commentText)
    {
      notifyChanged := failure.None?;
      if failure.Some? {
        error := failure;
      }
      statusUpdating := false;
    }

    /** `handleAddComment` up to the API call: with no ticket it does nothing;
        otherwise an invalid author or message only sets the error, and a
        valid pair clears the error, marks the submission in flight and sends
        the trimmed payload. */
    method HandleAddComment() returns (request: Option<CommentRequest>)
      modifies this
      ensures ticket == old(ticket) && statusUpdating == old(statusUpdating)
      ensures commentAuthor == old(commentAuthor) && commentText == old(commentText)
      ensures old(ticket).None? ==>
                request.None? && error == old(error) && commentSubmitting == old(commentSubmitting)
      ensures old(ticket).Some? ==>
                match CheckComment(commentAuthor, commentText)
                case Err(problem) =>
                  request.None? && error == Some(ProblemText(problem)) && commentSubmitting == old(commentSubmitting)
                case Ok(payload) =>
                  request == Some(CommentRequest(old(ticket).value.id, payload)) && error.None? && commentSubmitting
    {
      if ticket.None? {
        return None;
      }
      // the author check, then the message check, on the trimmed fields
      var author, text := commentAuthor, commentText;
      var checked := CheckComment(author, text);
      if checked.Err? {
        error := Some(ProblemText(checked.error));
        return None;
      }
      error := None;
      commentSubmitting := true;
      request := Some(CommentRequest(ticket.value.id, checked.value));
    }

    /** The rest of `handleAddComment` once the call settles: on success the
        parent is told, the message box is cleared (the author is kept) and
        the page reloads; on failure the message is shown; either way the
        submission is no longer in flight. */
    method FinishAddComment(failure: Option<string>) returns (notifyChanged: bool)
      modifies this
      ensures !commentSubmitting
      ensures notifyChanged <==> failure.None?
      ensures failure.None? ==> commentText == "" && error == old(error)
      ensures failure.Some? ==> commentText == old(commentText) && error == failure
      ensures ticket == old(ticket) && statusUpdating == old(statusUpdating)
      ensures commentAuthor == old(commentAuthor)
    {
      notifyChanged := failure.None?;
      if failure.None? {
        commentText := "";
      } else {
        error := failure;
      }
      commentSubmitting := false;
    }
  }
}
