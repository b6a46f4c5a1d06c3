/** The ticket list page: the query built from the filter controls, and the
    small state machine over `mode`, `selectedId` and `refreshKey` that
    decides which of the three screens is shown. */
module TicketListPage {
  import opened Common
  import opened TicketTypes

  /** A value the status, priority and category drop-downs can hold: the
      empty "All" entry or the code of one member. */
  predicate IsMenuValue(s: string)
  {
    s == "" || s == "0" || s == "1" || s == "2"
  }

  /** A selection string that `Number(...)` reads as a decimal integer:
      empty (no filter) or a string of digits. */
  predicate IsSelection(s: string)
  {
    s == "" || IsDigits(s)
  }

  function FilterOf(selection: string): (r: Option<int>)
    requires IsSelection(selection)
    ensures r.None? <==> selection == ""
    ensures r.Some? ==> r.value == DecimalValue(selection) && r.value >= 0
  {
    if selection == "" then None else Some(DecimalValue(selection))
  }

  /** The `query` memo: `sort` always; each drop-down's filter when its
      selection is not empty; the search text, trimmed, when it is not
      blank. */
  function BuildQuery(status: string, priority: string, category: string, search: string, sort: SortOrder)
    : (q: TicketQuery)
    requires IsSelection(status) && IsSelection(priority) && IsSelection(category)
    ensures q.sort == sort
    ensures q.status.Some? <==> status != ""
    ensures q.status.Some? ==> q.status.value == DecimalValue(status)
    ensures q.priority.Some? <==> priority != ""
    ensures q.priority.Some? ==> q.priority.value == DecimalValue(priority)
    ensures q.category.Some? <==> category != ""
    ensures q.category.Some? ==> q.category.value == DecimalValue(category)
    ensures q.search.Some? <==> !IsBlank(Js, search)
    ensures q.search.Some? ==> q.search.value == Trim(Js, search) && q.search.value != []
  {
    var text := Trim(Js, search);
    TicketQuery(
      sort,
      FilterOf(status),
      FilterOf(priority),
      FilterOf(category),
      if text != [] then Some(text) else None)
  }

  /** A drop-down's value is a selection, and the filter it yields is a code
      in 0..2. */
  lemma MenuValueIsCode(s: string)
    requires IsMenuValue(s)
    ensures IsSelection(s)
    ensures FilterOf(s).Some? ==> 0 <= FilterOf(s).value <= 2
  {
    if s != "" {
      assert |s| == 1 && IsDigit(s[0]);
      assert DecimalValue(s) == s[0] as int - '0' as int;
    }
  }

  /** With the drop-downs' values, every filter in the query is a code in
      0..2. */
  lemma MenuFiltersAreCodes(status: string, priority: string, category: string, search: string, sort: SortOrder)
    requires IsMenuValue(status) && IsMenuValue(priority) && IsMenuValue(category)
    ensures IsSelection(status) && IsSelection(priority) && IsSelection(category)
    ensures var q := BuildQuery(status, priority, category, search, sort);
      && (q.status.Some? ==> 0 <= q.status.value <= 2)
      && (q.priority.Some? ==> 0 <= q.priority.value <= 2)
      && (q.category.Some? ==> 0 <= q.category.value <= 2)
  {
    MenuValueIsCode(status);
    MenuValueIsCode(priority);
    MenuValueIsCode(category);
  }

  /** The search text in a query trims to itself: the server's own trimming,
      if any, sees the same text. */
  lemma QuerySearchIsTrimmed(status: string, priority: string, category: string, search: string, sort: SortOrder)
    requires IsSelection(status) && IsSelection(priority) && IsSelection(category)
    ensures var q := BuildQuery(status, priority, category, search, sort);
      q.search.Some? ==> Trim(Js, q.search.value) == q.search.value
  {
    TrimIdempotent(Js, search);
  }

  datatype Mode = List | Create | Details

  /** The screen the page renders. */
  datatype Screen = ListScreen | CreateScreen | DetailsScreen(ticketId: int)

  /** The create form when the mode says so; the details of the selected
      ticket only when the mode is details and a ticket is selected; the list
      otherwise. */
  function ScreenFor(mode: Mode, selectedId: Option<int>): (s: Screen)
    ensures s.CreateScreen? <==> mode.Create?
    ensures s.DetailsScreen? <==> mode.Details? && selectedId.Some?
    ensures s.DetailsScreen? ==> s.ticketId == selectedId.value
    ensures s.ListScreen? <==> mode.List? || (mode.Details? && selectedId.None?)
  {
    if mode.Create? then CreateScreen
    else if mode.Details? && selectedId.Some? then DetailsScreen(selectedId.value)
    else ListScreen
  }

  class ListPage {
    var mode: Mode
    var selectedId: Option<int>
    var refreshKey: int

    /** Every handler keeps a selected ticket behind the details mode, so the
        fallback to the list for an unselected details mode never fires. */
    ghost predicate Valid()
      reads this
    {
      mode.Details? ==> selectedId.Some?
    }

    function CurrentScreen(): Screen
      reads this
    {
      ScreenFor(mode, selectedId)
    }

    constructor ()
      ensures Valid()
      ensures mode == List && selectedId.None? && refreshKey == 0
      ensures CurrentScreen() == ListScreen
    {
      mode := List;
      selectedId := None;
      refreshKey := 0;
    }

    /** The create form's `onCreated`: show the new ticket and refresh. */
    method OnCreated(newId: int)
      modifies this
      ensures Valid()
      ensures mode == Details && selectedId == Some(newId) && refreshKey == old(refreshKey) + 1
      ensures CurrentScreen() == DetailsScreen(newId)
    {
      selectedId := Some(newId);
      mode := Details;
      refreshKey := refreshKey + 1;
    }

    /** The create form's `onCancel`: back to the list and refresh; the
        selection is kept. */
    method OnCancel()
      modifies this
      requires Valid()
      ensures Valid()
      ensures mode == List && selectedId == old(selectedId) && refreshKey == old(refreshKey) + 1
      ensures CurrentScreen() == ListScreen
    {
      mode := List;
      refreshKey := refreshKey + 1;
    }

    /** The details page's `onBack`: back to the list, clear the selection
        and refresh. */
    method OnBack()
      modifies this
      ensures Valid()
      ensures mode == List && selectedId.None? && refreshKey == old(refreshKey) + 1
      ensures CurrentScreen() == ListScreen
    {
      mode := List;
      selectedId := None;
      refreshKey := refreshKey + 1;
    }

    /** The details page's `onChanged`: refresh only. */
    method OnChanged()
      modifies this
      requires Valid()
      ensures Valid()
      ensures mode == old(mode) && selectedId == old(selectedId) && refreshKey == old(refreshKey) + 1
      ensures CurrentScreen() == old(CurrentScreen())
    {
      refreshKey := refreshKey + 1;
    }

    /** A click on a row: show that ticket; the list is not refreshed. */
    method OnRowClick(id: int)
      modifies this
      ensures Valid()
      ensures mode == Details && selectedId == Some(id) && refreshKey == old(refreshKey)
      ensures CurrentScreen() == DetailsScreen(id)
    {
      selectedId := Some(id);
      mode := Details;
    }

    /** The Create Ticket button: show the form; nothing else changes. */
    method OnCreateClick()
      modifies this
      requires Valid()
      ensures Valid()
      ensures mode == Create && selectedId == old(selectedId) && refreshKey == old(refreshKey)
      ensures CurrentScreen() == CreateScreen
    {
      mode := Create;
    }
  }
}
