# Helpdesk ticket lifecycle — a Dafny model

This project models the core of a small helpdesk system. An ASP.NET Core API
stores tickets and their comments. Three React pages list, create and
inspect tickets.

- **Backend.** `TicketsController` offers six actions:
  - list every ticket, newest first, with its comment count;
  - read one ticket with its comments, oldest first;
  - read a ticket's comments;
  - create a ticket;
  - add a comment;
  - change a ticket's status.

  `AppDbContext` stamps timestamps in its save hook and cascades the deletion
  of a ticket to its comments.
- **The status rule.** The server accepts exactly three transitions:
  - Open → In Progress;
  - Open → Closed;
  - In Progress → Closed.

  A request for the current status is a no-op. Closing needs at least one
  comment, and a closed ticket takes no more comments.
- **Frontend.**
  - The details page offers its own menu: Open → [In Progress], In
    Progress → [Open, Closed], Closed → [Open]. It guards closing and
    commenting, and shows comments sorted by time.
  - The create page validates its trimmed fields before it posts.
  - The list page builds the query from its filter controls and switches
    between its three screens.

Modules, one per concern of the source:

| module | file | models |
|---|---|---|
| `Common` | common.dfy | `Option`/`Result`, whitespace trimming, decimal digit strings |
| `Domain` | domain.dfy | `Ticket`, `Comment`, the three enumerations and their wire codes, keys and the comments of a ticket |
| `Ordering` | ordering.dfy | stable sort by an integer key (`OrderBy`, `OrderByDescending`, `Array.prototype.sort`) |
| `Persistence` | persistence.dfy | `ApplyTimestamps` over arrays of tracked entries, `SaveChanges`, the cascade delete |
| `TicketsController` | tickets_controller.dfy | the transition decision, the store class with the six actions, the store invariant |
| `TicketTypes` | ticket_types.dfy | the client's types (codes 0..2, details, query, payloads) |
| `TicketDetailsPage` | ticket_details_page.dfy | menu, buttons, comment checks, comment order, the page class and its handlers |
| `CreateTicketPage` | create_ticket_page.dfy | field checks, helper text, payload, the page class and its submit handler |
| `TicketListPage` | ticket_list_page.dfy | query building, screen selection, the page class and its handlers |
| `Conformance` | conformance.dfy | the client and server transition tables compared, client payloads against server validation |
| `Scenarios` | scenarios.dfy | end-to-end runs on a fresh store |

How the model handles effects:

- **Clock.** The clock (`DateTime.UtcNow`) is a parameter `utcNow`.
- **Timestamps.** They are integers. The unset `DateTime` is 0.
- **Tables.** They are sequences in insertion order. The identity columns
  are counters.
- **Handlers.** A React handler that awaits an API call is split in two. The
  first method returns the request it would send. The second takes the
  call's outcome.

Three behaviours of the source stand out in the model:

- **The list ignores the client's query.** The server's list action
  (`Controllers/TicketsController.cs:18-36`) takes no parameters. The query
  the list page builds (filters, search, sort) is therefore modelled only
  on the client side. `TicketsController.TicketStore.GetAll` always returns
  every ticket, newest first.
- **Server DTOs drop some fields.** The client sends `createdBy` with a new
  ticket and `author` with a comment. The server's input types have neither
  field, so both are dropped (`Conformance.TicketDtoOf`,
  `Conformance.CommentDtoOf`).
- **The two runtimes disagree on whitespace.** JavaScript's `trim()` keeps
  U+0085 (NEXT LINE); .NET's `Trim()` and `[Required]` treat it as
  whitespace (and the reverse holds for U+FEFF). A comment whose message is
  two U+0085 passes the client's check and is refused by the server, and a
  message ending in U+0085 is stored without it
  (`Conformance.NextLineComment`, `Conformance.NextLineEnding`); a title of
  five U+0085 passes the create form and is refused
  (`Conformance.NextLineTitle`).

## Model

| member | source | states |
|---|---|---|
| Common.Trim | frontend/helpdesk-ui/src/pages/CreateTicketPage.tsx:36-38 | removes the runtime's whitespace from both ends (JavaScript's set for the client, .NET's for the server) and never lengthens a string |
| Common.TrimIsInfix | frontend/helpdesk-ui/src/pages/CreateTicketPage.tsx:36-38 | the trimmed string is the infix of the input between a whitespace-only prefix and a whitespace-only suffix |
| Common.TrimEmptyIffBlank | frontend/helpdesk-ui/src/pages/TicketListPage.tsx:66 | trimming yields the empty string exactly when the input is all whitespace, which is the `if (search.trim())` test |
| Common.TrimEndsNonBlank | frontend/helpdesk-ui/src/pages/CreateTicketPage.tsx:36-38 | a non-empty trimmed string starts and ends with non-whitespace |
| Common.TrimIdempotent | backend/Helpdesk.Api/Controllers/TicketsController.cs:73-74 | in either runtime, trimming twice is trimming once |
| Common.BrowserTrimmedSurvivesServer | backend/Helpdesk.Api/Controllers/TicketsController.cs:136 | a text the browser has trimmed, holding no U+0085, is unchanged by .NET's trim and is blank for `[Required]` only when empty |
| Common.Utf16Length | frontend/helpdesk-ui/src/pages/CreateTicketPage.tsx:40-42 | `.length` counts UTF-16 code units: at least the number of characters, at most twice it, equal to it when every character is in the Basic Multilingual Plane, and twice it when every character lies outside it |
| Common.TrimUtf16Length | frontend/helpdesk-ui/src/pages/TicketDetailsPage.tsx:121-128 | trimming never increases the code-unit length, so a field's `maxLength` bounds its trimmed text too |
| Common.DecimalValue | frontend/helpdesk-ui/src/pages/TicketListPage.tsx:63-65 | `Number` of a digit string is non-negative, and a one-digit string reads as its digit |
| Domain.StatusCode | frontend/helpdesk-ui/src/types/ticket.ts:3 | a status travels as a code in 0..2 |
| Domain.StatusFromCode | frontend/helpdesk-ui/src/types/ticket.ts:3 | a code decodes to a status exactly when it is in 0..2 |
| Domain.StatusCodeRoundTrip | frontend/helpdesk-ui/src/types/ticket.ts:3 | encoding and decoding are mutually inverse, and the codes are Open 0, InProgress 1, Closed 2 |
| Domain.DefaultStatus | backend/Helpdesk.Api/Data/AppDbContext.cs:47 | the default status is the one whose code is 0 |
| Domain.PriorityCode | frontend/helpdesk-ui/src/types/ticket.ts:2 | a priority travels as a code in 0..2 |
| Domain.CategoryCode | frontend/helpdesk-ui/src/types/ticket.ts:1 | a category travels as a code in 0..2 |
| Domain.IndexOf | backend/Helpdesk.Api/Controllers/TicketsController.cs:159-164 | the row found is the first row with the key; there is none exactly when no row has the key |
| Domain.FindTicket | backend/Helpdesk.Api/Controllers/TicketsController.cs:125-128 | `FirstOrDefault(t => t.Id == id)`: a stored row with that key, or none exactly when the key is absent |
| Domain.CommentsOf | backend/Helpdesk.Api/Controllers/TicketsController.cs:106-108 | `Where(c => c.TicketId == id)`: a comment is selected iff it is stored and references the ticket |
| Domain.CommentsOfCounts | backend/Helpdesk.Api/Controllers/TicketsController.cs:106-108 | the filter keeps each comment of the ticket exactly as many times as the table holds it, and no other comment |
| Domain.CommentsOfAppend | backend/Helpdesk.Api/Controllers/TicketsController.cs:139-140 | appending a comment extends its ticket's comments by it and leaves every other ticket's comments unchanged |
| Ordering.Insert | backend/Helpdesk.Api/Controllers/TicketsController.cs:59 | insertion keeps the sequence sorted and adds exactly one element |
| Ordering.SortBy | backend/Helpdesk.Api/Controllers/TicketsController.cs:22 | the result is sorted by the key and is a permutation of the input |
| Ordering.InsertStable | frontend/helpdesk-ui/src/pages/TicketDetailsPage.tsx:356-362 | the inserted element comes after every element with the same key |
| Ordering.SortByStable | frontend/helpdesk-ui/src/pages/TicketDetailsPage.tsx:356-362 | the sort is stable: for every key, the elements with that key keep their input order |
| Persistence.StampTicket | backend/Helpdesk.Api/Data/AppDbContext.cs:40-55 | stamping keeps the entry's state and every field but the two timestamps and the status; the status changes only for an added ticket whose status was the default, and `CreatedAt` only for an added ticket |
| Persistence.StampComment | backend/Helpdesk.Api/Data/AppDbContext.cs:57-63 | stamping keeps the entry's state and every field but `CreatedAt`, and changes an entry only when it is added |
| Persistence.AddedTicketStamped | backend/Helpdesk.Api/Data/AppDbContext.cs:42-49 | an added ticket gets both timestamps equal to the clock, Open when its status was the default and its own status otherwise, and no other change |
| Persistence.ModifiedTicketStamped | backend/Helpdesk.Api/Data/AppDbContext.cs:51-54 | a modified ticket gets only `UpdatedAt` equal to the clock |
| Persistence.OtherTicketUntouched | backend/Helpdesk.Api/Data/AppDbContext.cs:40-55 | tickets in any other state are left alone |
| Persistence.StampKeepsIdentity | backend/Helpdesk.Api/Data/AppDbContext.cs:40-63 | stamping never changes an entry's state, key or foreign key |
| Persistence.CommentStamped | backend/Helpdesk.Api/Data/AppDbContext.cs:57-63 | an added comment gets `CreatedAt` equal to the clock; other comments are left alone |
| Persistence.StampIdempotent | backend/Helpdesk.Api/Data/AppDbContext.cs:36-64 | a second pass with the same clock reading changes nothing |
| Persistence.ApplyTimestamps | backend/Helpdesk.Api/Data/AppDbContext.cs:36-64 | the two loops stamp every tracked ticket and comment entry in place, each as the one-entry rule says |
| Persistence.PendingCount | backend/Helpdesk.Api/Data/AppDbContext.cs:27 | the number of entries written is at most the number tracked, and 0 iff none is added, modified or deleted |
| Persistence.PendingCountIsPendingEntries | backend/Helpdesk.Api/Data/AppDbContext.cs:27 | the count is exactly the number of added plus modified plus deleted entries |
| Persistence.SaveChanges | backend/Helpdesk.Api/Data/AppDbContext.cs:24-34 | both save paths stamp first, then report the count of pending entries |
| Persistence.RemoveTicket | backend/Helpdesk.Api/Data/AppDbContext.cs:17-21 | deletion removes exactly the row with the key |
| Persistence.RemoveCommentsOf | backend/Helpdesk.Api/Data/AppDbContext.cs:17-21 | the cascade keeps exactly the comments of other tickets |
| Persistence.CascadeDelete | backend/Helpdesk.Api/Data/AppDbContext.cs:17-21 | after deleting a ticket, neither it nor any of its comments remain, everything else does, and no row is added |
| Persistence.CascadeKeepsForeignKeys | backend/Helpdesk.Api/Data/AppDbContext.cs:17-21 | the cascade preserves referential integrity |
| TicketsController.ValidCreateTicketDto | backend/Helpdesk.Api/Dtos/CreateTicketDto.cs:8-11 | the `[Required, MaxLength]` checks on title and description (not blank by .NET's whitespace, at most 200 and 2000 code units); a valid body's title and description stay non-empty when trimmed |
| TicketsController.ValidCreateCommentDto | backend/Helpdesk.Api/Dtos/CreateCommentDto.cs:7 | the `[Required, MaxLength(2000)]` check on the message, blank by .NET's whitespace; a valid message stays non-empty when trimmed |
| TicketsController.ServerAllows | backend/Helpdesk.Api/Controllers/TicketsController.cs:172-178 | the switch accepts a pair exactly when it moves forward in Open < InProgress < Closed |
| TicketsController.Decide | backend/Helpdesk.Api/Controllers/TicketsController.cs:169-187 | an applied decision moves to the requested status, strictly forward, and closes only with a comment; a rejection is never for the current status |
| TicketsController.DecisionTable | backend/Helpdesk.Api/Controllers/TicketsController.cs:166-184 | an iff characterisation for each outcome: no-op exactly when the status is the same; applied exactly on the three edges, when not closing without a comment; invalid transition exactly off the edges; close-without-comment exactly when closing a non-closed ticket with no comment |
| TicketsController.ClosedIsTerminal | backend/Helpdesk.Api/Controllers/TicketsController.cs:172-178 | nothing moves a closed ticket |
| TicketsController.CommentUnblocksClose | backend/Helpdesk.Api/Controllers/TicketsController.cs:183-184 | a close refused for want of a comment is accepted once a comment exists |
| TicketsController.ApplyAdvances | backend/Helpdesk.Api/Controllers/TicketsController.cs:172-178 | every accepted transition moves strictly forward |
| TicketsController.HistoryIsMonotonic | backend/Helpdesk.Api/Controllers/TicketsController.cs:166-187 | over any series of requests the status never goes back, and it changes at most twice |
| TicketsController.NoCommentNeverClosed | backend/Helpdesk.Api/Controllers/TicketsController.cs:183-184 | a ticket that never has a comment never reaches Closed |
| TicketsController.InvariantAfterCreate | backend/Helpdesk.Api/Controllers/TicketsController.cs:71-81 | inserting an Open ticket under the next key keeps the store invariant (unique keys, foreign keys, no closed ticket without comments) |
| TicketsController.InvariantAfterComment | backend/Helpdesk.Api/Controllers/TicketsController.cs:133-140 | inserting a comment on a stored ticket keeps the store invariant |
| TicketsController.InvariantAfterStatus | backend/Helpdesk.Api/Controllers/TicketsController.cs:186-187 | replacing a row under its key keeps the invariant unless the new row is closed without comments |
| TicketsController.ListItem | backend/Helpdesk.Api/Controllers/TicketsController.cs:23-32 | the projection keeps the ticket's own columns; its comment count is at most the table size and is 0 exactly when no stored comment references the ticket |
| TicketsController.ListItemsCover | backend/Helpdesk.Api/Controllers/TicketsController.cs:23-32 | every ticket has its list item, and each item carries its own ticket's comment count |
| TicketsController.TicketStore.constructor | backend/Helpdesk.Api/Data/AppDbContext.cs:10-11 | an empty store satisfies the invariant |
| TicketsController.TicketStore.GetAll | backend/Helpdesk.Api/Controllers/TicketsController.cs:18-36 | one item per ticket, newest first, a permutation of the projections, each with the ticket's comment count |
| TicketsController.TicketStore.GetById | backend/Helpdesk.Api/Controllers/TicketsController.cs:40-65 | NotFound iff the key is absent; otherwise the stored ticket, with exactly its comments, oldest first |
| TicketsController.TicketStore.GetComments | backend/Helpdesk.Api/Controllers/TicketsController.cs:97-120 | NotFound iff the key is absent; otherwise exactly the ticket's comments, oldest first |
| TicketsController.TicketStore.Create | backend/Helpdesk.Api/Controllers/TicketsController.cs:69-94 | one new Open ticket under a fresh key, with trimmed non-empty text, both timestamps equal to the clock, and the comments untouched; the invariant is kept |
| TicketsController.TicketStore.AddComment | backend/Helpdesk.Api/Controllers/TicketsController.cs:123-153 | NotFound for an absent ticket, Conflict for a closed one (both change nothing); otherwise exactly one new comment with a fresh key, the trimmed message and the clock as `CreatedAt`; the tickets are untouched |
| TicketsController.TicketStore.UpdateStatus | backend/Helpdesk.Api/Controllers/TicketsController.cs:157-196 | NotFound for an absent ticket; otherwise the outcome `Decide` gives, writing only on an applied transition: the new status and `UpdatedAt` equal to the clock, in that row only |
| TicketDetailsPage.LabelMaps | frontend/helpdesk-ui/src/pages/TicketDetailsPage.tsx:28-30 | codes 0 and 1 get their own label and every other code the last one; on 0..2 each map is one-to-one |
| TicketDetailsPage.StatusLabel | frontend/helpdesk-ui/src/pages/TicketDetailsPage.tsx:28 | "Open" exactly for 0, "In Progress" exactly for 1, "Closed" for every other code |
| TicketDetailsPage.PriorityLabel | frontend/helpdesk-ui/src/pages/TicketDetailsPage.tsx:29 | "Low" exactly for 0, "Medium" exactly for 1, "High" for every other code |
| TicketDetailsPage.CategoryLabel | frontend/helpdesk-ui/src/pages/TicketDetailsPage.tsx:30 | "IT" exactly for 0, "Facilities" exactly for 1, "General" for every other code |
| TicketDetailsPage.CommentCount | frontend/helpdesk-ui/src/pages/TicketDetailsPage.tsx:82 | zero exactly when no ticket is loaded or it has no comments |
| TicketDetailsPage.CanClose | frontend/helpdesk-ui/src/pages/TicketDetailsPage.tsx:94 | closing is allowed exactly for a loaded ticket with a comment |
| TicketDetailsPage.CanAddComment | frontend/helpdesk-ui/src/pages/TicketDetailsPage.tsx:95 | for a loaded ticket, commenting is open exactly when it is not closed; with no ticket loaded it is open (`undefined !== 2`) |
| TicketDetailsPage.AllowedNextStatuses | frontend/helpdesk-ui/src/pages/TicketDetailsPage.tsx:84-92 | empty iff no ticket is loaded; never offers the current status; no repeats (ascending) |
| TicketDetailsPage.StatusButtons | frontend/helpdesk-ui/src/pages/TicketDetailsPage.tsx:271-274 | one button per menu entry; an enabled button means no update is in flight; an enabled Close means a comment exists; with no update in flight, every non-close button is enabled, and with a comment as well, every button is |
| TicketDetailsPage.ProblemText | frontend/helpdesk-ui/src/pages/TicketDetailsPage.tsx:124-130 | the author error text begins with "Author" and the message error text with "Comment", each exactly for its own check |
| TicketDetailsPage.SurrogatePairAuthor | frontend/helpdesk-ui/src/pages/TicketDetailsPage.tsx:124 | an author of one character outside the Basic Multilingual Plane is 2 code units and passes the check, while one ordinary character fails it |
| TicketDetailsPage.AuthorOk | frontend/helpdesk-ui/src/pages/TicketDetailsPage.tsx:124 | a passing author has 1 to 100 characters once trimmed (2 to 100 code units) |
| TicketDetailsPage.MessageOk | frontend/helpdesk-ui/src/pages/TicketDetailsPage.tsx:128 | a passing message has 1 to 1000 characters once trimmed (2 to 1000 code units) |
| TicketDetailsPage.CheckComment | frontend/helpdesk-ui/src/pages/TicketDetailsPage.tsx:121-131 | accepted iff both trimmed lengths, in UTF-16 code units, are within 2..100 and 2..1000; the author error iff the author fails; the message error iff the author passes and the message fails; the payload is the trimmed pair |
| TicketDetailsPage.CheckedCommentIsTrimmed | frontend/helpdesk-ui/src/pages/TicketDetailsPage.tsx:121-136 | an accepted payload trims to itself and is within 2..100 and 2..1000 code units |
| TicketDetailsPage.AddCommentDisabled | frontend/helpdesk-ui/src/pages/TicketDetailsPage.tsx:331-336 | the button is disabled while a comment is being submitted and whenever the author or the message is blank |
| TicketDetailsPage.AddCommentButton | frontend/helpdesk-ui/src/pages/TicketDetailsPage.tsx:331-336 | the button is disabled on a closed ticket; on an open ticket with nothing in flight, input that passes the handler's checks enables it; when it is enabled and the fields are within their `maxLength` (100 and 1000 code units, lines 318 and 326), the handler's checks pass |
| TicketDetailsPage.DisplayedComments | frontend/helpdesk-ui/src/pages/TicketDetailsPage.tsx:356-362 | the shown list is a permutation of the comments, ordered by time, stable for equal times |
| TicketDetailsPage.DetailsPage.constructor | frontend/helpdesk-ui/src/pages/TicketDetailsPage.tsx:52-60 | initial state: nothing loaded, no error, nothing in flight, empty comment fields |
| TicketDetailsPage.DetailsPage.Load | frontend/helpdesk-ui/src/pages/TicketDetailsPage.tsx:65-76 | success replaces the ticket and clears the error; failure shows the message and keeps the ticket |
| TicketDetailsPage.DetailsPage.EditComment | frontend/helpdesk-ui/src/pages/TicketDetailsPage.tsx:316-324 | the two fields take the typed values and nothing else changes |
| TicketDetailsPage.DetailsPage.HandleStatusChange | frontend/helpdesk-ui/src/pages/TicketDetailsPage.tsx:97-108 | with no ticket, nothing; closing without a comment only sets that error; otherwise the request for this ticket and status is sent, with the error cleared and the update in flight |
| TicketDetailsPage.DetailsPage.FinishStatusChange | frontend/helpdesk-ui/src/pages/TicketDetailsPage.tsx:108-115 | the parent is notified iff the call succeeded; a failure's message is shown; the update is no longer in flight |
| TicketDetailsPage.DetailsPage.HandleAddComment | frontend/helpdesk-ui/src/pages/TicketDetailsPage.tsx:118-136 | with no ticket, nothing; a failed check shows its message and sends nothing; a passed check sends the trimmed payload for this ticket, clears the error and marks the submission in flight |
| TicketDetailsPage.DetailsPage.FinishAddComment | frontend/helpdesk-ui/src/pages/TicketDetailsPage.tsx:136-144 | on success the parent is notified and the message box cleared (the author kept); on failure the message is shown; the submission is no longer in flight |
| CreateTicketPage.InitialForm | frontend/helpdesk-ui/src/pages/CreateTicketPage.tsx:27-31 | empty text fields, category IT (0), priority Medium (1) |
| CreateTicketPage.CreatedByOk | frontend/helpdesk-ui/src/pages/CreateTicketPage.tsx:40 | a passing name (2..100 code units once trimmed) is not blank |
| CreateTicketPage.TitleOk | frontend/helpdesk-ui/src/pages/CreateTicketPage.tsx:41 | a passing title (5..100 code units once trimmed) is not blank |
| CreateTicketPage.DescriptionOk | frontend/helpdesk-ui/src/pages/CreateTicketPage.tsx:42 | a passing description (10..2000 code units once trimmed) is not blank |
| CreateTicketPage.CanSubmit | frontend/helpdesk-ui/src/pages/CreateTicketPage.tsx:44 | a submittable form has no submission in flight and no blank text field |
| CreateTicketPage.HelperText | frontend/helpdesk-ui/src/pages/CreateTicketPage.tsx:46-51 | no message iff all three fields pass; otherwise the message of the first failing field, each case an iff |
| CreateTicketPage.Payload | frontend/helpdesk-ui/src/pages/CreateTicketPage.tsx:64-70 | the payload holds the trimmed text fields and the selected codes |
| CreateTicketPage.ValidPayloadIsTrimmed | frontend/helpdesk-ui/src/pages/CreateTicketPage.tsx:36-44 | a payload from a passing form trims to itself and is within the three length bounds, in code units |
| CreateTicketPage.HelperTextMatchesGuard | frontend/helpdesk-ui/src/pages/CreateTicketPage.tsx:44-51 | a submittable form has no message; with no submission in flight, submittable iff no message |
| CreateTicketPage.MaxLengthLeavesLowerBounds | frontend/helpdesk-ui/src/pages/CreateTicketPage.tsx:97-115 | within the inputs' `maxLength` (counted in code units), each check reduces to its lower bound |
| CreateTicketPage.CreatePage.constructor | frontend/helpdesk-ui/src/pages/CreateTicketPage.tsx:27-34 | the initial form, nothing in flight, no error |
| CreateTicketPage.CreatePage.Edit | frontend/helpdesk-ui/src/pages/CreateTicketPage.tsx:95-113 | the form takes the edited values and nothing else changes |
| CreateTicketPage.CreatePage.HandleSubmit | frontend/helpdesk-ui/src/pages/CreateTicketPage.tsx:53-70 | sends iff the form can be submitted; the payload is built from the form; a refusal shows the helper text or the fallback message |
| CreateTicketPage.CreatePage.FinishSubmit | frontend/helpdesk-ui/src/pages/CreateTicketPage.tsx:71-76 | success hands the new id to the parent; failure shows the message; either way the submission ends |
| TicketListPage.FilterOf | frontend/helpdesk-ui/src/pages/TicketListPage.tsx:63-65 | no filter iff the selection is empty; otherwise its decimal value |
| TicketListPage.BuildQuery | frontend/helpdesk-ui/src/pages/TicketListPage.tsx:61-68 | sort always; each filter present iff selected, with its decimal value; search present iff not blank, trimmed and non-empty |
| TicketListPage.MenuValueIsCode | frontend/helpdesk-ui/src/pages/TicketListPage.tsx:153-175 | a drop-down value is a selection whose filter is a code in 0..2 |
| TicketListPage.MenuFiltersAreCodes | frontend/helpdesk-ui/src/pages/TicketListPage.tsx:61-68 | with drop-down values, every filter in the query is a code in 0..2 |
| TicketListPage.QuerySearchIsTrimmed | frontend/helpdesk-ui/src/pages/TicketListPage.tsx:66 | the query's search text trims to itself |
| TicketListPage.ScreenFor | frontend/helpdesk-ui/src/pages/TicketListPage.tsx:92-120 | the create form iff create mode; details iff details mode with a selection, for that ticket; the list otherwise |
| TicketListPage.ListPage.constructor | frontend/helpdesk-ui/src/pages/TicketListPage.tsx:51-53 | list mode, no selection, refresh key 0 |
| TicketListPage.ListPage.OnCreated | frontend/helpdesk-ui/src/pages/TicketListPage.tsx:95-99 | shows the new ticket's details and bumps the refresh key |
| TicketListPage.ListPage.OnCancel | frontend/helpdesk-ui/src/pages/TicketListPage.tsx:100-103 | back to the list, selection kept, refresh key bumped |
| TicketListPage.ListPage.OnBack | frontend/helpdesk-ui/src/pages/TicketListPage.tsx:112-116 | back to the list, selection cleared, refresh key bumped |
| TicketListPage.ListPage.OnChanged | frontend/helpdesk-ui/src/pages/TicketListPage.tsx:117 | only the refresh key changes; the screen stays |
| TicketListPage.ListPage.OnRowClick | frontend/helpdesk-ui/src/pages/TicketListPage.tsx:232-235 | shows that ticket's details without a refresh |
| TicketListPage.ListPage.OnCreateClick | frontend/helpdesk-ui/src/pages/TicketListPage.tsx:129 | shows the create form; nothing else changes |
| Conformance.StatusOf | frontend/helpdesk-ui/src/types/ticket.ts:3 | decoding a client status code gives the server status with that code |
| Conformance.PriorityOf | frontend/helpdesk-ui/src/types/ticket.ts:2 | decoding a client priority code gives the server priority with that code |
| Conformance.CategoryOf | frontend/helpdesk-ui/src/types/ticket.ts:1 | decoding a client category code gives the server category with that code |
| Conformance.TransitionTablesCompared | frontend/helpdesk-ui/src/pages/TicketDetailsPage.tsx:84-92 | against the server's table (TicketsController.cs:172-178): both accept exactly Open→InProgress and InProgress→Closed; only the client offers the moves back to Open; only the server accepts Open→Closed |
| Conformance.TransitionTablesDiffer | frontend/helpdesk-ui/src/pages/TicketDetailsPage.tsx:88-90 | the reopen the client offers from InProgress or Closed is an invalid transition at the server; the server's Open→Closed is not on the client's menu |
| Conformance.EnabledCloseIsAccepted | frontend/helpdesk-ui/src/pages/TicketDetailsPage.tsx:271-274 | an enabled Close button, with the server's comment count, is a request the server applies |
| Conformance.CommentGuardsAgree | frontend/helpdesk-ui/src/pages/TicketDetailsPage.tsx:95 | the comment form is open iff the server would not refuse a comment as one on a closed ticket (TicketsController.cs:130-131) |
| Conformance.ClientCommentIsAccepted | frontend/helpdesk-ui/src/pages/TicketDetailsPage.tsx:121-136 | every comment the client sends whose text holds no U+0085 passes the server's validation and is stored as sent |
| Conformance.CommentDtoOf | backend/Helpdesk.Api/Dtos/CreateCommentDto.cs:5-8 | the server's body carries the client's message; the author has no field to bind to |
| Conformance.NextLineComment | backend/Helpdesk.Api/Dtos/CreateCommentDto.cs:7 | with a passing author, a message of two U+0085 passes the client's check and is refused by `[Required]` |
| Conformance.NextLineEnding | backend/Helpdesk.Api/Controllers/TicketsController.cs:136 | with a passing author, the message "ab" followed by U+0085 passes both checks and is stored as "ab", not as sent |
| Conformance.TicketDtoOf | backend/Helpdesk.Api/Dtos/CreateTicketDto.cs:6-19 | the server's body carries the title and description as sent and keeps the category and priority codes; `createdBy` is dropped |
| Conformance.ClientTicketIsAccepted | frontend/helpdesk-ui/src/pages/CreateTicketPage.tsx:53-70 | every ticket the create form sends whose title and description hold no U+0085 passes the server's validation and is stored as sent |
| Conformance.NextLineTitle | backend/Helpdesk.Api/Dtos/CreateTicketDto.cs:8 | a form whose title is five U+0085 and whose other fields pass is submitted by the client and refused by `[Required]` |
| Conformance.StatusLabelsAgree | frontend/helpdesk-ui/src/pages/TicketDetailsPage.tsx:28 | each server status is labelled by its own name |
| Scenarios.CloseNeedsComment | backend/Helpdesk.Api/Controllers/TicketsController.cs:183-187 | on a new ticket, closing is refused for want of a comment; after one comment, the same request closes it and stamps `UpdatedAt` |
| Scenarios.ClosedRefusesComment | backend/Helpdesk.Api/Controllers/TicketsController.cs:130-131 | once closed, a ticket refuses a comment and its comment count stays 1 |
| Scenarios.SameStatusIsNoOp | backend/Helpdesk.Api/Controllers/TicketsController.cs:169-170 | asking for the current status is answered "unchanged" and leaves `UpdatedAt` as created |

## Left out

- Entity Framework plumbing is not modelled: `async`/`await`, `AsNoTracking`, `Include` and HTTP result objects. Actions return a `Result` whose error is `NotFound` or `Conflict(reason)`; the response messages are not modelled.
- Data-annotation validation (`[Required]`, `[MaxLength]`) runs before an action. It is stated as the `ValidCreateTicketDto`/`ValidCreateCommentDto` preconditions of `Create` and `AddComment`. The model's actions never answer 400.
- The `[Required]` enumerations of the request bodies accept any integer: `[Required]` always passes on a value type, and nothing checks that the value is a defined member. This covers the status body and the create body's category and priority (Dtos/CreateTicketDto.cs:14-18). An undefined status would be an invalid transition at the server. An undefined category or priority would be stored as sent (Controllers/TicketsController.cs:75-76). The model's `Status`, `Category` and `Priority` hold only the three members, so `UpdateStatus` and `Create` never see such a value. The client never sends one.
- `TicketsController.TicketStore.GetAll`: rows with equal `CreatedAt` come out in insertion order (the sort is stable). The database gives no order for ties.
- `TicketsController.TicketStore.GetById`: the same tie order applies to the comments. The contract states the order, the permutation and stability only through `Ordering.SortByStable`.
- `Domain.CommentsOf`: its own contract states membership and a length bound. Multiplicities are stated by `Domain.CommentsOfCounts`. The table order is stated only for appends, by `Domain.CommentsOfAppend`.
- Conformance.ClientCommentIsAccepted, Conformance.ClientTicketIsAccepted: both require text without U+0085 (NEXT LINE). .NET counts that character as whitespace and JavaScript does not, so without the requirement the claims are false. `Conformance.NextLineComment`, `Conformance.NextLineEnding` and `Conformance.NextLineTitle` prove the counterexamples.
- Lengths are counted in UTF-16 code units (`Common.Utf16Length`). A model character is a Unicode scalar value, so a string holding a lone surrogate cannot be represented.
- Date parsing (`new Date(createdAt).getTime()`) is not modelled. Timestamps are integers on both sides.
- `Number(...)` of a selection that is not a digit string (`NaN`) is not modelled. `TicketListPage.FilterOf` requires a selection; the drop-downs only produce "" and "0".."2".
- Loading flags, the list's `cancelled` guard, the list's own fetch and its error text, and the reload after each successful handler are not modelled. The reload is `DetailsPage.Load` applied to the new outcome.
- Ticket deletion from the details page (`deleteTicket`, the confirm dialog) is not modelled. TicketsController has no delete action; the cascade a delete relies on is modelled as `Persistence.CascadeDelete`.
- Not modelled:
  - the seed data (`DbSeeder.cs`);
  - the application shell and theme;
  - chip colours and button captions;
  - the "Updating…" / "Adding…" labels.
- `Persistence.SaveChanges` reports how many entries are pending; the database write itself and its failure modes are left out.
