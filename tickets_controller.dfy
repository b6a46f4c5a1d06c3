/** The tickets REST controller over an in-memory store of the two tables.
    Each action returns either a value or one of the failures the controller
    maps to HTTP: `NotFound` (404) or `Conflict` (409) with its reason. Every
    write goes through the save hook of `Persistence`, with the clock reading
    passed in as `utcNow`. */
module TicketsController {
  import opened Common
  import opened Domain
  import opened Ordering
  import Persistence

  datatype ConflictReason =
    | InvalidTransition(from: Status, to: Status)
    | CloseWithoutComment
    | ClosedTicket

  datatype ApiError = NotFound | Conflict(reason: ConflictReason)

  datatype CreateTicketDto = CreateTicketDto(
    title: string,
    description: string,
    category: Category,
    priority: Priority)

  datatype CreateCommentDto = CreateCommentDto(message: string)

  /** What the data annotations on the create body guarantee before the action
      runs: `[Required]` refuses null, empty and whitespace-only strings, and
      `[MaxLength]` bounds the raw length. */
  predicate ValidCreateTicketDto(dto: CreateTicketDto)
    ensures ValidCreateTicketDto(dto) ==> Trim(DotNet, dto.title) != [] && Trim(DotNet, dto.description) != []
  {
    TrimEmptyIffBlank(DotNet, dto.title);
    TrimEmptyIffBlank(DotNet, dto.description);
    && !IsBlank(DotNet, dto.title) && Utf16Length(dto.title) <= 200
    && !IsBlank(DotNet, dto.description) && Utf16Length(dto.description) <= 2000
  }

  predicate ValidCreateCommentDto(dto: CreateCommentDto)
    ensures ValidCreateCommentDto(dto) ==> Trim(DotNet, dto.message) != []
  {
    TrimEmptyIffBlank(DotNet, dto.message);
    !IsBlank(DotNet, dto.message) && Utf16Length(dto.message) <= 2000
  }

  datatype TicketListItem = TicketListItem(
    id: int,
    title: string,
    category: Category,
    priority: Priority,
    status: Status,
    createdAt: int,
    updatedAt: int,
    commentCount: nat)

  datatype TicketDetailsDto = TicketDetailsDto(
    id: int,
    title: string,
    description: string,
    category: Category,
    priority: Priority,
    status: Status,
    createdAt: int,
    updatedAt: int,
    comments: seq<Comment>)

  /** The two success replies of the status action. */
  datatype StatusReply =
    | StatusUnchanged(status: Status)
    | StatusUpdated(id: int, status: Status, updatedAt: int)

  // ---------------------------------------------------------------------
  // The transition rule

  /** The `(currentStatus, newStatus) switch`: the only edges the server
      accepts. */
  predicate ServerAllows(from: Status, to: Status)
    ensures ServerAllows(from, to) <==> StatusCode(from) < StatusCode(to)
  {
    match (from, to)
    case (Open, InProgress) => true
    case (Open, Closed) => true
    case (InProgress, Closed) => true
    case _ => false
  }

  datatype Decision = Unchanged | Apply(to: Status) | Reject(reason: ConflictReason)

  /** The status action's decision for a ticket with `commentCount` comments,
      in the order the action checks: same status, then the edge, then the
      comment requirement for closing. */
  function Decide(current: Status, requested: Status, commentCount: nat): (d: Decision)
    ensures d.Apply? ==> d.to == requested && StatusCode(current) < StatusCode(requested)
    ensures d.Apply? && requested == Closed ==> commentCount > 0
    ensures d.Reject? ==> requested != current
  {
    if requested == current then Unchanged
    else if !ServerAllows(current, requested) then Reject(InvalidTransition(current, requested))
    else if requested == Closed && commentCount == 0 then Reject(CloseWithoutComment)
    else Apply(requested)
  }

  /** The whole decision table. A same-status request is a no-op and never an
      error; exactly Open->InProgress, Open->Closed and InProgress->Closed are
      accepted edges; every other pair of distinct statuses is an invalid
      transition; closing with no comment is refused, whatever the edge. */
  lemma DecisionTable(current: Status, requested: Status, n: nat)
    ensures Decide(current, requested, n) == Unchanged <==> requested == current
    ensures Decide(current, requested, n).Apply? <==>
      && ((current, requested) in {(Open, InProgress), (Open, Closed), (InProgress, Closed)})
      && (requested == Closed ==> n > 0)
    ensures Decide(current, requested, n) == Reject(InvalidTransition(current, requested)) <==>
      requested != current && (current, requested) !in {(Open, InProgress), (Open, Closed), (InProgress, Closed)}
    ensures Decide(current, requested, n) == Reject(CloseWithoutComment) <==>
      current != Closed && requested == Closed && n == 0
    ensures Decide(current, requested, n).Apply? ==> Decide(current, requested, n).to == requested
  {
  }

  /** Closed is terminal: nothing moves a closed ticket. */
  lemma ClosedIsTerminal(requested: Status, n: nat)
    ensures !Decide(Closed, requested, n).Apply?
  {
  }

  /** A close refused for want of a comment succeeds once a comment exists. */
  lemma CommentUnblocksClose(current: Status, n: nat)
    requires current != Closed
    ensures Decide(current, Closed, 0) == Reject(CloseWithoutComment)
    ensures Decide(current, Closed, n + 1) == Apply(Closed)
  {
  }

  /** Every accepted transition moves strictly forward in
      Open < InProgress < Closed. */
  lemma ApplyAdvances(current: Status, requested: Status, n: nat)
    requires Decide(current, requested, n).Apply?
    ensures StatusCode(Decide(current, requested, n).to) > StatusCode(current)
  {
  }

  /** One status request as the action sees it: the requested status and the
      ticket's comment count at that moment. */
  datatype StatusRequest = StatusRequest(to: Status, commentCount: nat)

  /** The status a ticket ends in after a series of requests. */
  function Run(s: Status, requests: seq<StatusRequest>): Status
    decreases |requests|
  {
    if requests == [] then s
    else
      match Decide(s, requests[0].to, requests[0].commentCount)
      case Apply(t) => Run(t, requests[1..])
      case _ => Run(s, requests[1..])
  }

  /** How many of those requests changed the status. */
  function Applied(s: Status, requests: seq<StatusRequest>): nat
    decreases |requests|
  {
    if requests == [] then 0
    else
      match Decide(s, requests[0].to, requests[0].commentCount)
      case Apply(t) => 1 + Applied(t, requests[1..])
      case _ => Applied(s, requests[1..])
  }

  /** The status history is monotonic: whatever the requests, the status never
      goes back, and each change advances it, so a ticket changes status at
      most twice in its life. */
  lemma {:induction false} HistoryIsMonotonic(s: Status, requests: seq<StatusRequest>)
    ensures StatusCode(Run(s, requests)) >= StatusCode(s)
    ensures Applied(s, requests) <= StatusCode(Run(s, requests)) - StatusCode(s)
    ensures Applied(s, requests) <= 2
    decreases |requests|
  {
    if requests != [] {
      var d := Decide(s, requests[0].to, requests[0].commentCount);
      if d.Apply? {
        ApplyAdvances(s, requests[0].to, requests[0].commentCount);
        HistoryIsMonotonic(d.to, requests[1..]);
      } else {
        HistoryIsMonotonic(s, requests[1..]);
      }
    }
  }

  /** A ticket that never has a comment never reaches Closed. */
  lemma {:induction false} NoCommentNeverClosed(s: Status, requests: seq<StatusRequest>)
    requires s != Closed
    requires forall k :: 0 <= k < |requests| ==> requests[k].commentCount == 0
    ensures Run(s, requests) != Closed
    decreases |requests|
  {
    if requests != [] {
      var d := Decide(s, requests[0].to, requests[0].commentCount);
      if d.Apply? {
        NoCommentNeverClosed(d.to, requests[1..]);
      } else {
        NoCommentNeverClosed(s, requests[1..]);
      }
    }
  }

  // ---------------------------------------------------------------------
  // Read projections

  /** The list projection of one ticket: its own columns and the number of
      stored comments that reference it. */
  function ListItem(t: Ticket, comments: seq<Comment>): (item: TicketListItem)
    ensures item.id == t.id && item.title == t.title && item.status == t.status
    ensures item.category == t.category && item.priority == t.priority
    ensures item.createdAt == t.createdAt && item.updatedAt == t.updatedAt
    ensures item.commentCount <= |comments|
    ensures item.commentCount == 0 <==> forall c :: c in comments ==> c.ticketId != t.id
  {
    var own := CommentsOf(comments, t.id);
    assert own != [] ==> own[0] in own;
    TicketListItem(t.id, t.title, t.category, t.priority, t.status,
                   t.createdAt, t.updatedAt, |own|)
  }

  function ListItems(tickets: seq<Ticket>, comments: seq<Comment>): seq<TicketListItem>
  {
    seq(|tickets|, i requires 0 <= i < |tickets| => ListItem(tickets[i], comments))
  }

  /** `OrderByDescending(t => t.CreatedAt)` as an ascending sort key. */
  function NewestFirst(item: TicketListItem): int
  {
    -item.createdAt
  }

  /** `OrderBy(c => c.CreatedAt)`. */
  function OldestFirst(c: Comment): int
  {
    c.createdAt
  }

  /** The ticket fields of a details reply. */
  function DetailsHeader(d: TicketDetailsDto): Ticket
  {
    Ticket(d.id, d.title, d.description, d.category, d.priority, d.status, d.createdAt, d.updatedAt)
  }

  // ---------------------------------------------------------------------
  // The store

  /** Keys are unique and below the identity counters, every comment belongs
      to a stored ticket, and no ticket is closed without a comment. */
  predicate StoreInvariant(tickets: seq<Ticket>, comments: seq<Comment>, nextTicketId: int, nextCommentId: int)
  {
    && 0 < nextTicketId && 0 < nextCommentId
    && UniqueTicketIds(tickets)
    && (forall t :: t in tickets ==> 0 < t.id < nextTicketId)
    && UniqueCommentIds(comments)
    && (forall c :: c in comments ==> 0 < c.id < nextCommentId)
    && ForeignKeysHold(tickets, comments)
    && (forall t :: t in tickets && t.status == Closed ==> |CommentsOf(comments, t.id)| > 0)
  }

  /** Inserting a new Open ticket under the next identity keeps the
      invariant. */
  lemma InvariantAfterCreate(tickets: seq<Ticket>, comments: seq<Comment>, nextTicketId: int, nextCommentId: int, t: Ticket)
    requires StoreInvariant(tickets, comments, nextTicketId, nextCommentId)
    requires t.id == nextTicketId && t.status == Open
    ensures StoreInvariant(tickets + [t], comments, nextTicketId + 1, nextCommentId)
    ensures TicketIds(tickets + [t]) == TicketIds(tickets) + {t.id}
  {
    var ts := tickets + [t];
    assert forall i :: 0 <= i < |tickets| ==> ts[i] == tickets[i];
    assert forall x :: x in ts ==> x in tickets || x == t;
    assert TicketIds(ts) == TicketIds(tickets) + {t.id};
  }

  /** Inserting a new comment on a stored ticket under the next identity
      keeps the invariant: comment counts only grow. */
  lemma InvariantAfterComment(tickets: seq<Ticket>, comments: seq<Comment>, nextTicketId: int, nextCommentId: int, c: Comment)
    requires StoreInvariant(tickets, comments, nextTicketId, nextCommentId)
    requires c.id == nextCommentId && c.ticketId in TicketIds(tickets)
    ensures StoreInvariant(tickets, comments + [c], nextTicketId, nextCommentId + 1)
  {
    var cs := comments + [c];
    assert forall i :: 0 <= i < |comments| ==> cs[i] == comments[i];
    assert UniqueCommentIds(cs);
    assert ForeignKeysHold(tickets, cs);
    forall t | t in tickets && t.status == Closed ensures |CommentsOf(cs, t.id)| > 0 {
      CommentsOfAppend(comments, c, t.id);
    }
  }

  /** Replacing a row by one with the same key keeps the invariant, provided
      the replacement is not a closed ticket without comments. */
  lemma InvariantAfterStatus(tickets: seq<Ticket>, comments: seq<Comment>, nextTicketId: int, nextCommentId: int, i: nat, t: Ticket)
    requires StoreInvariant(tickets, comments, nextTicketId, nextCommentId)
    requires i < |tickets| && t.id == tickets[i].id
    requires t.status == Closed ==> |CommentsOf(comments, t.id)| > 0
    ensures StoreInvariant(tickets[i := t], comments, nextTicketId, nextCommentId)
    ensures TicketIds(tickets[i := t]) == TicketIds(tickets)
  {
    var ts := tickets[i := t];
    forall x | x in tickets ensures x.id in TicketIds(ts) {
      var k :| 0 <= k < |tickets| && tickets[k] == x;
      assert ts[k].id == x.id;
    }
    forall x | x in ts ensures x.id in TicketIds(tickets) && 0 < x.id < nextTicketId
      && (x.status == Closed ==> |CommentsOf(comments, x.id)| > 0) {
      var k :| 0 <= k < |ts| && ts[k] == x;
      assert tickets[k].id == x.id;
      assert tickets[k] in tickets;
    }
  }

  /** The projection has one item per ticket, and each item carries the
      number of comments of the ticket it was made from. */
  lemma ListItemsCover(tickets: seq<Ticket>, comments: seq<Comment>)
    ensures forall t :: t in tickets ==> ListItem(t, comments) in ListItems(tickets, comments)
    ensures forall item :: item in ListItems(tickets, comments) ==>
              item.commentCount == |CommentsOf(comments, item.id)|
  {
    var items := ListItems(tickets, comments);
    forall t | t in tickets ensures ListItem(t, comments) in items {
      var i :| 0 <= i < |tickets| && tickets[i] == t;
      assert items[i] == ListItem(t, comments);
    }
    forall item | item in items ensures item.commentCount == |CommentsOf(comments, item.id)| {
      var i :| 0 <= i < |items| && items[i] == item;
      assert item == ListItem(tickets[i], comments);
    }
  }

  class TicketStore {
    /** The Tickets table, in insertion order. */
    var tickets: seq<Ticket>
    /** The Comments table, in insertion order. */
    var comments: seq<Comment>
    /** The next values of the two identity columns. */
    var nextTicketId: int
    var nextCommentId: int

    ghost predicate Valid()
      reads this
    {
      StoreInvariant(tickets, comments, nextTicketId, nextCommentId)
    }

    constructor ()
      ensures Valid()
      ensures tickets == [] && comments == []
    {
      tickets, comments := [], [];
      nextTicketId, nextCommentId := 1, 1;
    }

    /** GET /api/tickets: every ticket, newest first, with its comment
        count. */
    function GetAll(): (r: seq<TicketListItem>)
      reads this
      ensures |r| == |tickets|
      ensures forall i, j :: 0 <= i < j < |r| ==> r[i].createdAt >= r[j].createdAt
      ensures multiset(r) == multiset(ListItems(tickets, comments))
      ensures forall t :: t in tickets ==> ListItem(t, comments) in r
      ensures forall item :: item in r ==> item.commentCount == |CommentsOf(comments, item.id)|
    {
      var items := ListItems(tickets, comments);
      var r := SortBy(items, NewestFirst);
      assert forall i, j :: 0 <= i < j < |r| ==> NewestFirst(r[i]) <= NewestFirst(r[j]);
      ListItemsCover(tickets, comments);
      forall x ensures x in r <==> x in items {
        assert x in r <==> x in multiset(r);
        assert x in items <==> x in multiset(items);
      }
      r
    }

    /** GET /api/tickets/{id}: the ticket with its comments oldest first, or
        NotFound. */
    function GetById(id: int): (r: Result<TicketDetailsDto, ApiError>)
      reads this
      ensures r.Err? <==> id !in TicketIds(tickets)
      ensures r.Err? ==> r.error == NotFound
      ensures r.Ok? ==> r.value.id == id && DetailsHeader(r.value) in tickets
      ensures r.Ok? ==> forall i, j :: 0 <= i < j < |r.value.comments| ==>
                          r.value.comments[i].createdAt <= r.value.comments[j].createdAt
      ensures r.Ok? ==> multiset(r.value.comments) == multiset(CommentsOf(comments, id))
    {
      match FindTicket(tickets, id)
      case None => Err(NotFound)
      case Some(t) =>
        var ordered := SortBy(CommentsOf(comments, id), OldestFirst);
        assert forall i, j :: 0 <= i < j < |ordered| ==> OldestFirst(ordered[i]) <= OldestFirst(ordered[j]);
        var d := TicketDetailsDto(t.id, t.title, t.description, t.category, t.priority,
                                  t.status, t.createdAt, t.updatedAt, ordered);
        assert DetailsHeader(d) == t;
        Ok(d)
    }

    /** GET /api/tickets/{id}/comments: the ticket's comments oldest first, or
        NotFound. */
    function GetComments(id: int): (r: Result<seq<Comment>, ApiError>)
      reads this
      ensures r.Err? <==> id !in TicketIds(tickets)
      ensures r.Err? ==> r.error == NotFound
      ensures r.Ok? ==> forall i, j :: 0 <= i < j < |r.value| ==> r.value[i].createdAt <= r.value[j].createdAt
      ensures r.Ok? ==> multiset(r.value) == multiset(CommentsOf(comments, id))
      ensures r.Ok? ==> forall c :: c in r.value ==> c.ticketId == id && c in comments
    {
      if id !in TicketIds(tickets) then Err(NotFound)
      else
        var ordered := SortBy(CommentsOf(comments, id), OldestFirst);
        assert forall i, j :: 0 <= i < j < |ordered| ==> OldestFirst(ordered[i]) <= OldestFirst(ordered[j]);
        assert forall c :: c in ordered ==> c in multiset(CommentsOf(comments, id));
        Ok(ordered)
    }

    /** POST /api/tickets: a new Open ticket with trimmed text, stamped by the
        save. */
    method Create(dto: CreateTicketDto, utcNow: int) returns (created: Ticket)
      requires Valid() && ValidCreateTicketDto(dto)
      modifies this
      ensures Valid()
      ensures created.status == Open
      ensures created.title == Trim(DotNet, dto.title) && created.title != []
      ensures created.description == Trim(DotNet, dto.description) && created.description != []
      ensures created.category == dto.category && created.priority == dto.priority
      ensures created.createdAt == utcNow && created.updatedAt == utcNow
      ensures created.id !in TicketIds(old(tickets))
      ensures tickets == old(tickets) + [created]
      ensures comments == old(comments) && nextCommentId == old(nextCommentId)
    {
      var ticket := Ticket(nextTicketId, Trim(DotNet, dto.title), Trim(DotNet, dto.description),
                           dto.category, dto.priority, Open, 0, 0);
      var entry := Persistence.StampTicket(Persistence.TicketEntry(Persistence.Added, ticket), utcNow);
      created := entry.entity;
      InvariantAfterCreate(tickets, comments, nextTicketId, nextCommentId, created);
      tickets := tickets + [created];
      nextTicketId := nextTicketId + 1;
    }

    /** POST /api/tickets/{id}/comments: NotFound for an absent ticket,
        Conflict for a closed one, otherwise one new comment with the trimmed
        message. The ticket itself is not touched. */
    method AddComment(id: int, dto: CreateCommentDto, utcNow: int) returns (r: Result<Comment, ApiError>)
      requires Valid() && ValidCreateCommentDto(dto)
      modifies this
      ensures Valid()
      ensures tickets == old(tickets) && nextTicketId == old(nextTicketId)
      ensures FindTicket(tickets, id).None? ==> r == Err(NotFound) && comments == old(comments)
      ensures FindTicket(tickets, id).Some? && FindTicket(tickets, id).value.status == Closed ==>
                r == Err(Conflict(ClosedTicket)) && comments == old(comments)
      ensures r.Ok? <==> FindTicket(tickets, id).Some? && FindTicket(tickets, id).value.status != Closed
      ensures r.Ok? ==>
                && r.value.ticketId == id
                && r.value.message == Trim(DotNet, dto.message)
                && r.value.createdAt == utcNow
                && (forall c :: c in old(comments) ==> c.id != r.value.id)
                && comments == old(comments) + [r.value]
    {
      var ticket := FindTicket(tickets, id);
      if ticket.None? {
        return Err(NotFound);
      }
      if ticket.value.status == Closed {
        return Err(Conflict(ClosedTicket));
      }
      var comment := Comment(nextCommentId, id, Trim(DotNet, dto.message), 0);
      var entry := Persistence.StampComment(Persistence.CommentEntry(Persistence.Added, comment), utcNow);
      InvariantAfterComment(tickets, comments, nextTicketId, nextCommentId, entry.entity);
      comments := comments + [entry.entity];
      nextCommentId := nextCommentId + 1;
      r := Ok(entry.entity);
    }

    /** PATCH /api/tickets/{id}/status: NotFound for an absent ticket;
        otherwise the outcome `Decide` gives for the ticket's status and
        comment count. Only an applied transition writes, setting the status
        and, through the save, `UpdatedAt`. */
    method UpdateStatus(id: int, requested: Status, utcNow: int) returns (r: Result<StatusReply, ApiError>)
      requires Valid()
      modifies this
      ensures Valid()
      ensures comments == old(comments)
      ensures nextTicketId == old(nextTicketId) && nextCommentId == old(nextCommentId)
      ensures IndexOf(old(tickets), id).None? ==> r == Err(NotFound) && tickets == old(tickets)
      ensures IndexOf(old(tickets), id).Some? ==>
                var i := IndexOf(old(tickets), id).value;
                var t := old(tickets)[i];
                match Decide(t.status, requested, |CommentsOf(comments, id)|)
                case Unchanged => r == Ok(StatusUnchanged(t.status)) && tickets == old(tickets)
                case Reject(reason) => r == Err(Conflict(reason)) && tickets == old(tickets)
                case Apply(s) =>
                  && r == Ok(StatusUpdated(id, s, utcNow))
                  && tickets == old(tickets)[i := t.(status := s, updatedAt := utcNow)]
    {
      var found := IndexOf(tickets, id);
      if found.None? {
        return Err(NotFound);
      }
      var i := found.value;
      var ticket := tickets[i];
      var newStatus := requested;
      var currentStatus := ticket.status;
      if newStatus == currentStatus {
        return Ok(StatusUnchanged(ticket.status));
      }
      var allowed := ServerAllows(currentStatus, newStatus);
      if !allowed {
        return Err(Conflict(InvalidTransition(currentStatus, newStatus)));
      }
      if newStatus == Closed && |CommentsOf(comments, id)| == 0 {
        return Err(Conflict(CloseWithoutComment));
      }
      var entry := Persistence.StampTicket(
        Persistence.TicketEntry(Persistence.Modified, ticket.(status := newStatus)), utcNow);
      InvariantAfterStatus(tickets, comments, nextTicketId, nextCommentId, i, entry.entity);
      tickets := tickets[i := entry.entity];
      r := Ok(StatusUpdated(entry.entity.id, entry.entity.status, entry.entity.updatedAt));
    }
  }
}
