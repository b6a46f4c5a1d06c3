/** The data context's save hook and relationship rule. Before either save
    path persists, one pass over the tracked entries stamps them with a single
    clock reading: added tickets get both timestamps and, if their status is
    the default, Open; modified tickets get a fresh `UpdatedAt`; added
    comments get `CreatedAt`. Deleting a ticket deletes its comments. */
module Persistence {
  import opened Domain

  /** The change tracker's entity states. */
  datatype EntityState = Detached | Unchanged | Deleted | Modified | Added

  datatype TicketEntry = TicketEntry(state: EntityState, entity: Ticket)
  datatype CommentEntry = CommentEntry(state: EntityState, entity: Comment)

  /** What the first loop of `ApplyTimestamps` does to one ticket entry. */
  function StampTicket(e: TicketEntry, utcNow: int): (r: TicketEntry)
    ensures r.state == e.state
    ensures r.entity == e.entity.(createdAt := r.entity.createdAt, updatedAt := r.entity.updatedAt, status := r.entity.status)
    ensures r.entity.status != e.entity.status ==> e.state == Added && e.entity.status == DefaultStatus()
    ensures r.entity.createdAt != e.entity.createdAt ==> e.state == Added
  {
    var t := e.entity;
    var added :=
      if e.state == Added then
        var stamped := t.(createdAt := utcNow, updatedAt := utcNow);
        if stamped.status == DefaultStatus() then stamped.(status := Open) else stamped
      else t;
    var modified := if e.state == Modified then added.(updatedAt := utcNow) else added;
    e.(entity := modified)
  }

  /** What the second loop of `ApplyTimestamps` does to one comment entry. */
  function StampComment(e: CommentEntry, utcNow: int): (r: CommentEntry)
    ensures r.state == e.state
    ensures r.entity == e.entity.(createdAt := r.entity.createdAt)
    ensures r != e ==> e.state == Added
  {
    if e.state == Added then e.(entity := e.entity.(createdAt := utcNow)) else e
  }

  /** An added ticket gets CreatedAt = UpdatedAt = the clock reading, ends Open
      if its status was the default, and keeps every other field. */
  lemma AddedTicketStamped(e: TicketEntry, utcNow: int)
    requires e.state == Added
    ensures var t := StampTicket(e, utcNow).entity;
      && t.createdAt == utcNow && t.updatedAt == utcNow
      && t.status == (if e.entity.status == DefaultStatus() then Open else e.entity.status)
      && t == e.entity.(createdAt := utcNow, updatedAt := utcNow, status := t.status)
  {
  }

  /** A modified ticket gets UpdatedAt = the clock reading and nothing else
      changes; in particular CreatedAt is untouched. */
  lemma ModifiedTicketStamped(e: TicketEntry, utcNow: int)
    requires e.state == Modified
    ensures StampTicket(e, utcNow).entity == e.entity.(updatedAt := utcNow)
  {
  }

  /** Ticket entries that are neither added nor modified are left alone. */
  lemma OtherTicketUntouched(e: TicketEntry, utcNow: int)
    requires e.state != Added && e.state != Modified
    ensures StampTicket(e, utcNow) == e
  {
  }

  /** Stamping never changes an entry's state or the entity's identity. */
  lemma StampKeepsIdentity(e: TicketEntry, c: CommentEntry, utcNow: int)
    ensures StampTicket(e, utcNow).state == e.state
    ensures StampTicket(e, utcNow).entity.id == e.entity.id
    ensures StampComment(c, utcNow).state == c.state
    ensures StampComment(c, utcNow).entity.id == c.entity.id
    ensures StampComment(c, utcNow).entity.ticketId == c.entity.ticketId
  {
  }

  /** An added comment gets CreatedAt = the clock reading; comments in other
      states are left alone. */
  lemma CommentStamped(e: CommentEntry, utcNow: int)
    ensures e.state == Added ==> StampComment(e, utcNow).entity == e.entity.(createdAt := utcNow)
    ensures e.state != Added ==> StampComment(e, utcNow) == e
  {
  }

  /** Stamping is idempotent for one clock reading: a second pass with the
      same `utcNow` changes nothing. */
  lemma StampIdempotent(e: TicketEntry, c: CommentEntry, utcNow: int)
    ensures StampTicket(StampTicket(e, utcNow), utcNow) == StampTicket(e, utcNow)
    ensures StampComment(StampComment(c, utcNow), utcNow) == StampComment(c, utcNow)
  {
  }

  /** The two loops over the tracked ticket and comment entries, updating the
      entities in place with one clock reading. */
  method ApplyTimestamps(tickets: array<TicketEntry>, comments: array<CommentEntry>, utcNow: int)
    modifies tickets, comments
    ensures forall i :: 0 <= i < tickets.Length ==> tickets[i] == StampTicket(old(tickets[i]), utcNow)
    ensures forall i :: 0 <= i < comments.Length ==> comments[i] == StampComment(old(comments[i]), utcNow)
  {
    for i := 0 to tickets.Length
      invariant forall k :: 0 <= k < i ==> tickets[k] == StampTicket(old(tickets[k]), utcNow)
      invariant forall k :: i <= k < tickets.Length ==> tickets[k] == old(tickets[k])
      invariant forall k :: 0 <= k < comments.Length ==> comments[k] == old(comments[k])
    {
      var entry := tickets[i];
      var t := entry.entity;
      if entry.state == Added {
        t := t.(createdAt := utcNow, updatedAt := utcNow);
        if t.status == DefaultStatus() {
          t := t.(status := Open);
        }
      }
      if entry.state == Modified {
        t := t.(updatedAt := utcNow);
      }
      tickets[i] := entry.(entity := t);
    }
    for i := 0 to comments.Length
      invariant forall k :: 0 <= k < tickets.Length ==> tickets[k] == StampTicket(old(tickets[k]), utcNow)
      invariant forall k :: 0 <= k < i ==> comments[k] == StampComment(old(comments[k]), utcNow)
      invariant forall k :: i <= k < comments.Length ==> comments[k] == old(comments[k])
    {
      var entry := comments[i];
      if entry.state == Added {
        comments[i] := entry.(entity := entry.entity.(createdAt := utcNow));
      }
    }
  }

  /** An entry the base save writes to the database. */
  predicate IsPending(state: EntityState)
  {
    state == Added || state == Modified || state == Deleted
  }

  /** The number of entries the base save writes: those added, modified or
      deleted. */
  function PendingCount(states: seq<EntityState>): (n: nat)
    ensures n <= |states|
    ensures n == 0 <==> forall i :: 0 <= i < |states| ==> !IsPending(states[i])
  {
    if states == [] then 0
    else
      var rest := PendingCount(states[1..]);
      assert forall i :: 0 < i < |states| ==> states[i] == states[1..][i - 1];
      (if IsPending(states[0]) then 1 else 0) + rest
  }

  /** The count is the number of added, modified and deleted entries. */
  lemma {:induction false} PendingCountIsPendingEntries(states: seq<EntityState>)
    ensures PendingCount(states) == multiset(states)[Added] + multiset(states)[Modified] + multiset(states)[Deleted]
  {
    if states != [] {
      assert states == [states[0]] + states[1..];
      assert multiset(states) == multiset{states[0]} + multiset(states[1..]);
      PendingCountIsPendingEntries(states[1..]);
    }
  }

  function TicketStates(entries: seq<TicketEntry>): seq<EntityState>
  {
    seq(|entries|, i requires 0 <= i < |entries| => entries[i].state)
  }

  function CommentStates(entries: seq<CommentEntry>): seq<EntityState>
  {
    seq(|entries|, i requires 0 <= i < |entries| => entries[i].state)
  }

  /** Both `SaveChanges` overrides: stamp first, then let the base
      implementation persist, which reports how many entries it wrote. */
  method SaveChanges(tickets: array<TicketEntry>, comments: array<CommentEntry>, utcNow: int)
    returns (written: nat)
    modifies tickets, comments
    ensures forall i :: 0 <= i < tickets.Length ==> tickets[i] == StampTicket(old(tickets[i]), utcNow)
    ensures forall i :: 0 <= i < comments.Length ==> comments[i] == StampComment(old(comments[i]), utcNow)
    ensures written == PendingCount(TicketStates(tickets[..])) + PendingCount(CommentStates(comments[..]))
  {
    ApplyTimestamps(tickets, comments, utcNow);
    written := PendingCount(TicketStates(tickets[..])) + PendingCount(CommentStates(comments[..]));
  }

  /** The tickets that remain after deleting the one with key `id`. */
  function RemoveTicket(tickets: seq<Ticket>, id: int): (r: seq<Ticket>)
    ensures forall t :: t in r <==> t in tickets && t.id != id
    ensures TicketIds(r) == TicketIds(tickets) - {id}
  {
    if tickets == [] then []
    else
      var rest := RemoveTicket(tickets[1..], id);
      assert tickets == [tickets[0]] + tickets[1..];
      if tickets[0].id == id then rest else [tickets[0]] + rest
  }

  /** The comments that remain after the cascade removes those of ticket `id`. */
  function RemoveCommentsOf(comments: seq<Comment>, id: int): (r: seq<Comment>)
    ensures |r| <= |comments|
    ensures forall i :: 0 <= i < |r| ==> r[i] in comments && r[i].ticketId != id
    ensures forall c :: c in comments && c.ticketId != id ==> c in r
  {
    if comments == [] then []
    else
      var rest := RemoveCommentsOf(comments[1..], id);
      assert comments == [comments[0]] + comments[1..];
      if comments[0].ticketId == id then rest else [comments[0]] + rest
  }

  /** The cascade configured for the Ticket-Comment relationship: deleting a
      ticket deletes every comment whose `TicketId` references it and nothing
      else. */
  function CascadeDelete(tickets: seq<Ticket>, comments: seq<Comment>, id: int)
    : (r: (seq<Ticket>, seq<Comment>))
    ensures id !in TicketIds(r.0)
    ensures forall t :: t in tickets && t.id != id ==> t in r.0
    ensures forall c :: c in r.1 ==> c.ticketId != id
    ensures forall c :: c in comments && c.ticketId != id ==> c in r.1
    ensures forall t :: t in r.0 ==> t in tickets
    ensures forall c :: c in r.1 ==> c in comments
  {
    (RemoveTicket(tickets, id), RemoveCommentsOf(comments, id))
  }

  /** The cascade keeps referential integrity: no comment is left pointing at
      the deleted ticket. Without it the delete would orphan them. */
  lemma CascadeKeepsForeignKeys(tickets: seq<Ticket>, comments: seq<Comment>, id: int)
    requires ForeignKeysHold(tickets, comments)
    ensures var r := CascadeDelete(tickets, comments, id); ForeignKeysHold(r.0, r.1)
  {
    var r := CascadeDelete(tickets, comments, id);
    forall i | 0 <= i < |r.1| ensures r.1[i].ticketId in TicketIds(r.0) {
      var c := r.1[i];
      assert c in comments;
      var j :| 0 <= j < |comments| && comments[j] == c;
      assert c.ticketId in TicketIds(tickets);
    }
  }
}
