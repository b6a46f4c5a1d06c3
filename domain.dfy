/** The backend entity model: the `Ticket` and `Comment` records, the three
    closed enumerations and their small-integer wire encoding, and the
    relationship between the two tables (a comment belongs to the ticket whose
    id its `ticketId` holds). Timestamps are integers; the `DateTime` default
    (the value before the save stamps it) is 0. */
module Domain {
  import opened Common

  datatype Status = Open | InProgress | Closed
  datatype Priority = Low | Medium | High
  datatype Category = IT | Facilities | General

  /** The integer each status travels as: Open = 0, InProgress = 1,
      Closed = 2. */
  function StatusCode(s: Status): (c: int)
    ensures 0 <= c <= 2
  {
    match s
    case Open => 0
    case InProgress => 1
    case Closed => 2
  }

  function StatusFromCode(c: int): (s: Option<Status>)
    ensures s.Some? <==> 0 <= c <= 2
  {
    if c == 0 then Some(Open)
    else if c == 1 then Some(InProgress)
    else if c == 2 then Some(Closed)
    else None
  }

  /** The encoding is a bijection between the statuses and 0..2. */
  lemma StatusCodeRoundTrip(s: Status, c: int)
    ensures StatusFromCode(StatusCode(s)) == Some(s)
    ensures StatusFromCode(c) == Some(s) ==> StatusCode(s) == c
    ensures StatusCode(Open) == 0 && StatusCode(InProgress) == 1 && StatusCode(Closed) == 2
  {
  }

  /** `default(TicketStatus)`: the enumeration member whose value is 0. */
  function DefaultStatus(): (s: Status)
    ensures StatusCode(s) == 0
  {
    Open
  }

  function PriorityCode(p: Priority): (c: int)
    ensures 0 <= c <= 2
  {
    match p
    case Low => 0
    case Medium => 1
    case High => 2
  }

  function CategoryCode(k: Category): (c: int)
    ensures 0 <= c <= 2
  {
    match k
    case IT => 0
    case Facilities => 1
    case General => 2
  }

  datatype Ticket = Ticket(
    id: int,
    title: string,
    description: string,
    category: Category,
    priority: Priority,
    status: Status,
    createdAt: int,
    updatedAt: int)

  datatype Comment = Comment(
    id: int,
    ticketId: int,
    message: string,
    createdAt: int)

  function TicketIds(tickets: seq<Ticket>): set<int>
  {
    set t | t in tickets :: t.id
  }

  /** Each row of the table has its own primary key. */
  predicate UniqueTicketIds(tickets: seq<Ticket>)
  {
    forall i, j :: 0 <= i < j < |tickets| ==> tickets[i].id != tickets[j].id
  }

  predicate UniqueCommentIds(comments: seq<Comment>)
  {
    forall i, j :: 0 <= i < j < |comments| ==> comments[i].id != comments[j].id
  }

  /** Every comment references an existing ticket (the foreign key). */
  predicate ForeignKeysHold(tickets: seq<Ticket>, comments: seq<Comment>)
  {
    forall i :: 0 <= i < |comments| ==> comments[i].ticketId in TicketIds(tickets)
  }

  /** The position of the row with primary key `id`, if there is one. */
  function IndexOf(tickets: seq<Ticket>, id: int): (r: Option<nat>)
    ensures r.None? <==> id !in TicketIds(tickets)
    ensures r.Some? ==> r.value < |tickets| && tickets[r.value].id == id
    ensures r.Some? ==> forall k :: 0 <= k < r.value ==> tickets[k].id != id
  {
    if tickets == [] then None
    else if tickets[0].id == id then Some(0)
    else
      var rest := IndexOf(tickets[1..], id);
      assert TicketIds(tickets) == {tickets[0].id} + TicketIds(tickets[1..]) by {
        assert tickets == [tickets[0]] + tickets[1..];
      }
      match rest
      case None => None
      case Some(k) => Some(k + 1)
  }

  /** The row with primary key `id`, if there is one. */
  function FindTicket(tickets: seq<Ticket>, id: int): (r: Option<Ticket>)
    ensures r.None? <==> id !in TicketIds(tickets)
    ensures r.Some? ==> r.value in tickets && r.value.id == id
  {
    match IndexOf(tickets, id)
    case None => None
    case Some(i) => Some(tickets[i])
  }

  /** The comments of one ticket, in table order:
      `Comments.Where(c => c.TicketId == id)`. */
  function CommentsOf(comments: seq<Comment>, ticketId: int): (r: seq<Comment>)
    ensures |r| <= |comments|
    ensures forall c :: c in r <==> c in comments && c.ticketId == ticketId
  {
    if comments == [] then []
    else
      var rest := CommentsOf(comments[1..], ticketId);
      assert comments == [comments[0]] + comments[1..];
      if comments[0].ticketId == ticketId then [comments[0]] + rest else rest
  }

  /** One step of the filter: the first row, if it belongs to the ticket,
      followed by the filtered rest. */
  lemma CommentsOfStep(comments: seq<Comment>, ticketId: int)
    requires comments != []
    ensures CommentsOf(comments, ticketId)
         == (if comments[0].ticketId == ticketId then [comments[0]] else []) + CommentsOf(comments[1..], ticketId)
  {
  }

  /** The filter keeps every comment of the ticket as often as the table
      holds it, and no other comment. */
  lemma {:induction false} CommentsOfCounts(comments: seq<Comment>, ticketId: int, c: Comment)
    ensures multiset(CommentsOf(comments, ticketId))[c]
         == if c.ticketId == ticketId then multiset(comments)[c] else 0
  {
    if comments != [] {
      CommentsOfStep(comments, ticketId);
      assert comments == [comments[0]] + comments[1..];
      assert multiset(comments) == multiset{comments[0]} + multiset(comments[1..]);
      CommentsOfCounts(comments[1..], ticketId, c);
    }
  }

  /** Appending a row extends the owner's comment list by that row and
      leaves every other ticket's list as it was. */
  lemma {:induction false} CommentsOfAppend(comments: seq<Comment>, c: Comment, ticketId: int)
    ensures CommentsOf(comments + [c], ticketId)
         == CommentsOf(comments, ticketId) + (if c.ticketId == ticketId then [c] else [])
  {
    var mine := if c.ticketId == ticketId then [c] else [];
    if comments == [] {
      assert comments + [c] == [c];
      CommentsOfStep([c], ticketId);
      assert [c][1..] == [];
    } else {
      var tail := comments[1..];
      var all := comments + [c];
      var head := if comments[0].ticketId == ticketId then [comments[0]] else [];
      assert all[1..] == tail + [c] && all[0] == comments[0];
      CommentsOfStep(all, ticketId);
      CommentsOfStep(comments, ticketId);
      CommentsOfAppend(tail, c, ticketId);
      var middle := CommentsOf(tail, ticketId);
      assert head + (middle + mine) == (head + middle) + mine;
    }
  }
}
