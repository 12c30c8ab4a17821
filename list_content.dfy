/** Which list the list screen shows, and what a row reports when it is
    swiped away or tapped. */
module ListContent {
  import opened Models
  import opened Actions
  import opened Dao

  /** What the content area holds: nothing, the empty placeholder, or a
      column of task rows. */
  datatype ListView = NoContent | EmptyContent | DisplayTasks(tasks: seq<ToDoTask>)

  /** `HandleListContent`: the placeholder for an empty list, otherwise that
      same list. */
  function HandleListContent(tasks: seq<ToDoTask>): (v: ListView)
    ensures v == EmptyContent <==> tasks == []
    ensures v != EmptyContent ==> v == DisplayTasks(tasks)
    ensures !v.NoContent?
  {
    if |tasks| == 0 then EmptyContent else DisplayTasks(tasks)
  }

  /** `ListContent`: nothing until the sort preference has loaded; the search
      results while the search bar is TRIGGERED; otherwise the list the sort
      preference picks. MEDIUM picks none. */
  function ListContent(
    allTasks: RequestState<seq<ToDoTask>>,
    searchedTasks: RequestState<seq<ToDoTask>>,
    lowPriorityTasks: seq<ToDoTask>,
    highPriorityTasks: seq<ToDoTask>,
    sortState: RequestState<Priority>,
    searchAppBarState: SearchAppBarState): (v: ListView)
    ensures !sortState.Success? ==> v == NoContent
    ensures sortState.Success? && searchAppBarState == TRIGGERED ==>
      v == if searchedTasks.Success? then HandleListContent(searchedTasks.data) else NoContent
    ensures sortState.Success? && searchAppBarState != TRIGGERED ==>
      v == match sortState.data
        case NONE => if allTasks.Success? then HandleListContent(allTasks.data) else NoContent
        case LOW => HandleListContent(lowPriorityTasks)
        case HIGH => HandleListContent(highPriorityTasks)
        case MEDIUM => NoContent
  {
    if sortState.Success? then
      if searchAppBarState == TRIGGERED then
        if searchedTasks.Success? then HandleListContent(searchedTasks.data) else NoContent
      else if sortState.data == NONE then
        if allTasks.Success? then HandleListContent(allTasks.data) else NoContent
      else if sortState.data == LOW then HandleListContent(lowPriorityTasks)
      else if sortState.data == HIGH then HandleListContent(highPriorityTasks)
      else NoContent
    else NoContent
  }

  /** The inputs the view-model hands the list screen when every query was
      run against table `t` and the search used pattern `pattern`. */
  predicate FedFrom(t: TableState, pattern: string,
                    allTasks: RequestState<seq<ToDoTask>>,
                    searchedTasks: RequestState<seq<ToDoTask>>,
                    lowPriorityTasks: seq<ToDoTask>,
                    highPriorityTasks: seq<ToDoTask>)
    requires ValidTable(t)
  {
    && (allTasks.Success? ==> allTasks.data == AllTasks(t))
    && (searchedTasks.Success? ==> searchedTasks.data == Search(t, pattern))
    && lowPriorityTasks == SortByPriority(t, LowFirst)
    && highPriorityTasks == SortByPriority(t, HighFirst)
  }

  /** A row listed by either priority ordering is a row of the table. */
  lemma SortedRowIsRow(t: TableState, order: PriorityOrder, x: ToDoTask)
    requires ValidTable(t) && x in SortByPriority(t, order)
    ensures x.id in t.rows && t.rows[x.id] == x
  {
    assert x in multiset(AllTasks(t));
    ListedRowsAreRows(t);
  }

  /** Every listed row is a row of the table, under its own key. */
  lemma ListedRowsAreRows(t: TableState)
    requires ValidTable(t)
    ensures forall x :: x in AllTasks(t) ==> x.id in t.rows && t.rows[x.id] == x
  {
    var all := AllTasks(t);
    forall x | x in all ensures x.id in t.rows && t.rows[x.id] == x {
      var i :| 0 <= i < |all| && all[i] == x;
    }
  }

  lemma SortedRowsAreRows(t: TableState, order: PriorityOrder)
    requires ValidTable(t)
    ensures forall x :: x in SortByPriority(t, order) ==> x.id in t.rows && t.rows[x.id] == x
  {
    forall x | x in SortByPriority(t, order) ensures x.id in t.rows && t.rows[x.id] == x {
      SortedRowIsRow(t, order, x);
    }
  }

  /** The list shown outside a search, when the view-model's queries ran
      against table `t`: one entry per row, each entry a row, and the
      placeholder only for an empty table. */
  lemma ShownListOutsideSearch(
    t: TableState, pattern: string,
    allTasks: RequestState<seq<ToDoTask>>,
    searchedTasks: RequestState<seq<ToDoTask>>,
    lowPriorityTasks: seq<ToDoTask>,
    highPriorityTasks: seq<ToDoTask>,
    sort: Priority,
    searchAppBarState: SearchAppBarState)
    requires ValidTable(t) && searchAppBarState != TRIGGERED
    requires FedFrom(t, pattern, allTasks, searchedTasks, lowPriorityTasks, highPriorityTasks)
    ensures var v := ListContent(allTasks, searchedTasks, lowPriorityTasks, highPriorityTasks,
                                 Success(sort), searchAppBarState);
      && (v.DisplayTasks? ==> |v.tasks| == |t.rows| && forall x :: x in v.tasks ==> x.id in t.rows && t.rows[x.id] == x)
      && (v == EmptyContent <==> t.rows == map[] && (sort != NONE || allTasks.Success?) && sort != MEDIUM)
  {
    ListedRowsAreRows(t);
    SortedRowsAreRows(t, LowFirst);
    SortedRowsAreRows(t, HighFirst);
  }

  /** While searching, every row on screen is a row of the table that
      matches the search pattern. */
  lemma ShownListWhileSearching(
    t: TableState, pattern: string,
    allTasks: RequestState<seq<ToDoTask>>,
    searchedTasks: RequestState<seq<ToDoTask>>,
    lowPriorityTasks: seq<ToDoTask>,
    highPriorityTasks: seq<ToDoTask>,
    sort: Priority)
    requires ValidTable(t)
    requires FedFrom(t, pattern, allTasks, searchedTasks, lowPriorityTasks, highPriorityTasks)
    ensures var v := ListContent(allTasks, searchedTasks, lowPriorityTasks, highPriorityTasks,
                                 Success(sort), TRIGGERED);
      && (v.NoContent? <==> !searchedTasks.Success?)
      && (v.DisplayTasks? ==> forall x :: x in v.tasks ==>
            x.id in t.rows && t.rows[x.id] == x && RowMatches(x, pattern))
  {
  }

  /** The direction a row was swiped. */
  datatype DismissDirection = StartToEnd | EndToStart

  /** What a row reports through `onSwipeToDelete`. */
  datatype SwipeReport = SwipeReport(action: Action, task: ToDoTask)

  /** A row reports `(DELETE, task)` for itself once it is dismissed towards
      the start, and nothing otherwise. */
  function OnDismiss(dismissedEndToStart: bool, direction: Option<DismissDirection>,
                     task: ToDoTask): (r: Option<SwipeReport>)
    ensures r.Some? <==> dismissedEndToStart && direction == Some(EndToStart)
    ensures r.Some? ==> r.value.action == DELETE && r.value.task == task
  {
    if dismissedEndToStart && direction == Some(EndToStart)
    then Some(SwipeReport(DELETE, task))
    else None
  }

  /** Tapping a row navigates with that row's id, and the task screen then
      selects exactly that row of any table it was listed from. */
  function OnTaskItemClick(task: ToDoTask): (taskId: int)
    ensures forall t :: ValidTable(t) && task in AllTasks(t) ==> SelectedTask(t, taskId) == Some(task)
  {
    task.id
  }
}
