/** The client's view of the API's shapes. Enumerations travel as the small
    integers 0..2 (status: Open, InProgress, Closed; priority: Low, Medium,
    High; category: IT, Facilities, General); timestamps are the numbers
    `new Date(...).getTime()` gives. */
module TicketTypes {
  import opened Common

  type StatusWire = c: int | 0 <= c <= 2
  type PriorityWire = c: int | 0 <= c <= 2
  type CategoryWire = c: int | 0 <= c <= 2

  datatype CommentItem = CommentItem(
    id: int,
    ticketId: int,
    author: string,
    message: string,
    createdAt: int)

  datatype TicketDetails = TicketDetails(
    id: int,
    title: string,
    description: string,
    createdBy: string,
    category: CategoryWire,
    priority: PriorityWire,
    status: StatusWire,
    createdAt: int,
    updatedAt: int,
    comments: seq<CommentItem>)

  datatype SortOrder = Newest | Oldest

  /** The list query; an absent filter is `None`. */
  datatype TicketQuery = TicketQuery(
    sort: SortOrder,
    status: Option<int>,
    priority: Option<int>,
    category: Option<int>,
    search: Option<string>)

  datatype CreateTicketPayload = CreateTicketPayload(
    title: string,
    description: string,
    createdBy: string,
    category: CategoryWire,
    priority: PriorityWire)

  datatype CreateCommentPayload = CreateCommentPayload(author: string, message: string)
}
