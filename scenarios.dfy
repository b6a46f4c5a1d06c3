/** End-to-end runs of the store's actions, each on a fresh store and for
    any well-formed request bodies, whose outcomes follow from the actions'
    contracts alone. */
module Scenarios {
  import opened Common
  import opened Domain
  import opened TicketsController

  /** Create a ticket; closing it at once is refused for want of a comment;
      after one comment the same request closes it. */
  method CloseNeedsComment(dto: CreateTicketDto, note: CreateCommentDto, created: int, commented: int, closed: int)
    returns (first: Result<StatusReply, ApiError>, second: Result<StatusReply, ApiError>, status: Status)
    requires ValidCreateTicketDto(dto) && ValidCreateCommentDto(note)
    ensures first == Err(Conflict(CloseWithoutComment))
    ensures second.Ok? && second.value.StatusUpdated? && second.value.status == Closed
    ensures second.value.updatedAt == closed
    ensures status == Closed
  {
    var store := new TicketStore();
    var t := store.Create(dto, created);
    assert IndexOf(store.tickets, t.id) == Some(0);
    assert CommentsOf(store.comments, t.id) == [];
    first := store.UpdateStatus(t.id, Closed, closed);
    var c := store.AddComment(t.id, note, commented);
    assert FindTicket(store.tickets, t.id) == Some(t);
    assert c.Ok?;
    assert c.value in CommentsOf(store.comments, t.id);
    second := store.UpdateStatus(t.id, Closed, closed);
    status := store.tickets[0].status;
  }

  /** Once closed, a ticket refuses comments and its comment list stays as
      it was. */
  method ClosedRefusesComment(dto: CreateTicketDto, note: CreateCommentDto, late: CreateCommentDto, now: int)
    returns (r: Result<Comment, ApiError>, before: nat, after: nat)
    requires ValidCreateTicketDto(dto) && ValidCreateCommentDto(note) && ValidCreateCommentDto(late)
    ensures r == Err(Conflict(ClosedTicket))
    ensures before == after == 1
  {
    var store := new TicketStore();
    var t := store.Create(dto, now);
    assert IndexOf(store.tickets, t.id) == Some(0);
    var c := store.AddComment(t.id, note, now);
    assert FindTicket(store.tickets, t.id) == Some(t);
    assert c.Ok?;
    assert CommentsOf(store.comments, t.id) == [c.value] by {
      CommentsOfAppend([], c.value, t.id);
      assert store.comments == [] + [c.value];
    }
    var closed := store.UpdateStatus(t.id, Closed, now);
    assert store.tickets[0].status == Closed;
    before := |CommentsOf(store.comments, t.id)|;
    assert FindTicket(store.tickets, t.id) == Some(store.tickets[0]);
    r := store.AddComment(t.id, late, now);
    after := |CommentsOf(store.comments, t.id)|;
  }

  /** Asking for the status a ticket already has is answered "unchanged" and
      leaves `UpdatedAt` at its creation value. */
  method SameStatusIsNoOp(dto: CreateTicketDto, created: int, later: int)
    returns (r: Result<StatusReply, ApiError>, updatedAt: int)
    requires ValidCreateTicketDto(dto)
    ensures r == Ok(StatusUnchanged(Open))
    ensures updatedAt == created
  {
    var store := new TicketStore();
    var t := store.Create(dto, created);
    assert IndexOf(store.tickets, t.id) == Some(0);
    r := store.UpdateStatus(t.id, Open, later);
    updatedAt := store.tickets[0].updatedAt;
  }
}
