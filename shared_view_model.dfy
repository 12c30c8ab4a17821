/** The view-model shared by the list and task screens: the editable task
    fields, the one-shot action token, the search bar, the request-state
    slots it mirrors the table into, and the dispatch of actions to table
    writes. Coroutine launches run to completion at the call, and each
    collected flow is read once, when it is launched. */
module ViewModel {
  import opened Models
  import opened Actions
  import opened Dao
  import DataStore

  /** The four editable fields of the task screen. */
  datatype TaskFields = TaskFields(id: int, title: string, description: string, priority: Priority)

  /** What `updateTaskFields(null)` resets the fields to. */
  const DefaultFields := TaskFields(0, "", "", LOW)

  /** Every view-model property other than the tables it owns, for stating
      what an operation leaves alone. */
  datatype UiState = UiState(
    action: Action,
    fields: TaskFields,
    searchAppBarState: SearchAppBarState,
    searchTextState: string,
    searchedTasks: RequestState<seq<ToDoTask>>,
    sortState: RequestState<Priority>,
    allTasks: RequestState<seq<ToDoTask>>,
    selectedTask: Option<ToDoTask>)

  /** The row `updateTask` and `deleteTask` build, keyed by the id field:
      it carries back exactly the fields, so a task copied into the fields
      by `updateTaskFields` is rebuilt unchanged. */
  function KeyedRow(f: TaskFields): (row: ToDoTask)
    ensures TaskFields(row.id, row.title, row.description, row.priority) == f
  {
    ToDoTask(f.id, f.title, f.description, f.priority)
  }

  /** The row `addTask` builds: the keyed row's content with id 0, which
      asks the table for a generated key. */
  function NewRow(f: TaskFields): (row: ToDoTask)
    ensures row == KeyedRow(f).(id := 0)
  {
    ToDoTask(0, f.title, f.description, f.priority)
  }

  /** Table keys the app itself can create: `addTask` always asks for a
      generated key, and generated keys start at 1. */
  predicate OnlyGeneratedKeys(t: TableState)
  {
    forall k :: k in t.rows ==> k >= 1
  }

  /** The table write `handleDatabaseAction` issues for an action, given the
      fields at the time of the call. */
  function DispatchTable(t: TableState, f: TaskFields, a: Action): (r: TableState)
    requires ValidTable(t)
    ensures ValidTable(r)
    ensures a == NO_ACTION ==> r == t
    ensures a in {ADD, UNDO} ==>
      && t.nextId !in t.rows
      && r.rows == t.rows[t.nextId := ToDoTask(t.nextId, f.title, f.description, f.priority)]
    ensures a == UPDATE ==>
      && r.rows.Keys == t.rows.Keys
      && (f.id in t.rows ==> r.rows[f.id] == KeyedRow(f))
      && forall k :: k in t.rows && k != f.id ==> r.rows[k] == t.rows[k]
    ensures a == DELETE ==>
      && r.rows.Keys == t.rows.Keys - {f.id}
      && forall k :: k in r.rows ==> r.rows[k] == t.rows[k]
    ensures a == DELETE_ALL ==> AllTasks(r) == []
    ensures OnlyGeneratedKeys(t) ==> OnlyGeneratedKeys(r)
  {
    match a
    case ADD => Insert(t, NewRow(f))
    case UPDATE => Update(t, KeyedRow(f))
    case DELETE => Delete(t, KeyedRow(f))
    case DELETE_ALL => DeleteAll(t)
    case UNDO => Insert(t, NewRow(f))
    case NO_ACTION => t
  }

  /** UNDO re-runs ADD: both insert the fields under a generated key. */
  lemma UndoIsAdd(t: TableState, f: TaskFields)
    requires ValidTable(t)
    ensures DispatchTable(t, f, UNDO) == DispatchTable(t, f, ADD)
  {
  }

  /** DELETE and then UNDO with the fields untouched in between: the row
      keyed by the id field is gone, and a row with the same title,
      description and priority is back under a key the table never held. */
  lemma DeleteThenUndo(t: TableState, f: TaskFields)
    requires ValidTable(t)
    ensures var after := DispatchTable(DispatchTable(t, f, DELETE), f, UNDO);
      && after.rows == (t.rows - {f.id})[t.nextId := ToDoTask(t.nextId, f.title, f.description, f.priority)]
      && after.nextId == t.nextId + 1
    ensures t.nextId !in t.rows && (f.id in t.rows ==> f.id != t.nextId)
  {
  }

  class SharedViewModel {
    /** `MAX_TITLE_LENGTH`, whose value is defined outside this model. */
    const maxTitleLength: int
    const table: TaskTable
    const prefs: DataStore.SortPreferenceStore

    var action: Action
    var id: int
    var title: string
    var description: string
    var priority: Priority
    var searchAppBarState: SearchAppBarState
    var searchTextState: string
    var searchedTasks: RequestState<seq<ToDoTask>>
    var sortState: RequestState<Priority>
    var allTasks: RequestState<seq<ToDoTask>>
    var selectedTask: Option<ToDoTask>

    function Fields(): TaskFields
      reads this
    {
      TaskFields(id, title, description, priority)
    }

    function Ui(): UiState
      reads this
    {
      UiState(action, Fields(), searchAppBarState, searchTextState,
              searchedTasks, sortState, allTasks, selectedTask)
    }

    predicate Valid()
      reads this, table
    {
      table.Valid() && OnlyGeneratedKeys(table.State())
    }

    constructor (maxTitleLength: int, table: TaskTable, prefs: DataStore.SortPreferenceStore)
      requires table.Valid() && OnlyGeneratedKeys(table.State())
      ensures Valid()
      ensures this.maxTitleLength == maxTitleLength && this.table == table && this.prefs == prefs
      ensures Ui() == UiState(NO_ACTION, DefaultFields, CLOSED, "", Idle, Idle, Idle, None)
    {
      this.maxTitleLength := maxTitleLength;
      this.table := table;
      this.prefs := prefs;
      action := NO_ACTION;
      id, title, description, priority := 0, "", "", LOW;
      searchAppBarState := CLOSED;
      searchTextState := "";
      searchedTasks := Idle;
      sortState := Idle;
      allTasks := Idle;
      selectedTask := None;
    }

    /** `searchDatabase`: queries with `%query%` and leaves the search bar
        TRIGGERED. */
    method SearchDatabase(searchQuery: string)
      requires Valid()
      modifies this
      ensures Ui() == old(Ui()).(
        searchedTasks := Success(Search(table.State(), "%" + searchQuery + "%")),
        searchAppBarState := TRIGGERED)
    {
      searchedTasks := Loading;
      searchedTasks := Success(Search(table.State(), "%" + searchQuery + "%"));
      searchAppBarState := TRIGGERED;
    }

    /** `lowPriorityTasks`: every row of the table, with no HIGH row before
        a LOW or MEDIUM one and no MEDIUM row before a LOW one. */
    function LowPriorityTasks(): (tasks: seq<ToDoTask>)
      requires Valid()
      reads this, table
      ensures multiset(tasks) == multiset(AllTasks(table.State()))
      ensures forall i, j :: 0 <= i < j < |tasks| && tasks[i].priority == HIGH ==> tasks[j].priority !in {LOW, MEDIUM}
      ensures forall i, j :: 0 <= i < j < |tasks| && tasks[i].priority == MEDIUM ==> tasks[j].priority != LOW
    {
      var t := table.State();
      var s := SortByPriority(t, LowFirst);
      assert forall i, j :: 0 <= i < j < |s| ==>
          (s[i].priority == HIGH ==> s[j].priority !in {LOW, MEDIUM}) && (s[i].priority == MEDIUM ==> s[j].priority != LOW) by {
        forall i, j | 0 <= i < j < |s|
          ensures (s[i].priority == HIGH ==> s[j].priority !in {LOW, MEDIUM}) && (s[i].priority == MEDIUM ==> s[j].priority != LOW)
        {
          PriorityOrdering(t, i, j);
        }
      }
      s
    }

    /** `highPriorityTasks`: every row of the table, with no LOW row before
        a HIGH or MEDIUM one and no MEDIUM row before a HIGH one. */
    function HighPriorityTasks(): (tasks: seq<ToDoTask>)
      requires Valid()
      reads this, table
      ensures multiset(tasks) == multiset(AllTasks(table.State()))
      ensures forall i, j :: 0 <= i < j < |tasks| && tasks[i].priority == LOW ==> tasks[j].priority !in {HIGH, MEDIUM}
      ensures forall i, j :: 0 <= i < j < |tasks| && tasks[i].priority == MEDIUM ==> tasks[j].priority != HIGH
    {
      var t := table.State();
      var s := SortByPriority(t, HighFirst);
      assert forall i, j :: 0 <= i < j < |s| ==>
          (s[i].priority == LOW ==> s[j].priority !in {HIGH, MEDIUM}) && (s[i].priority == MEDIUM ==> s[j].priority != HIGH) by {
        forall i, j | 0 <= i < j < |s|
          ensures (s[i].priority == LOW ==> s[j].priority !in {HIGH, MEDIUM}) && (s[i].priority == MEDIUM ==> s[j].priority != HIGH)
        {
          PriorityOrdering(t, i, j);
        }
      }
      s
    }

    /** `readSortState`: Success with the priority the stored name denotes.
        A non-IO read failure, or a stored string that names no priority,
        throws inside the launched coroutine, where the surrounding
        try/catch cannot see it: the exception escapes the view-model's
        scope (`escaped`), the slot is left at Loading and never holds
        Error. */
    method ReadSortState(fault: DataStore.ReadFault) returns (escaped: bool)
      modifies this
      ensures var read := DataStore.ReadSortState(prefs.sortKey, fault);
        escaped <==> !(read.Ok? && PriorityValueOf(read.value).Some?)
      ensures var read := DataStore.ReadSortState(prefs.sortKey, fault);
        sortState == if escaped then Loading else Success(PriorityValueOf(read.value).value)
      ensures !sortState.Error?
      ensures Ui() == old(Ui()).(sortState := sortState)
    {
      sortState := Loading;
      escaped := true;
      var read := DataStore.ReadSortState(prefs.sortKey, fault);
      if read.Ok? {
        var p := PriorityValueOf(read.value);
        if p.Some? {
          sortState := Success(p.value);
          escaped := false;
        }
      }
    }

    /** `persisSortState`: writes the priority's name to the preference slot. */
    method PersistSortState(p: Priority)
      modifies prefs
      ensures prefs.sortKey == Some(PriorityName(p))
    {
      prefs.PersistSortState(p);
    }

    /** `getAllTasks`: every row in key order. */
    method GetAllTasks()
      requires Valid()
      modifies this
      ensures Ui() == old(Ui()).(allTasks := Success(AllTasks(table.State())))
    {
      allTasks := Loading;
      allTasks := Success(AllTasks(table.State()));
    }

    /** `getSelectedTask`: the row with that key, or null when there is none
        (the new-task screen asks for key -1). */
    method GetSelectedTask(taskId: int)
      requires Valid()
      modifies this
      ensures Ui() == old(Ui()).(selectedTask := SelectedTask(table.State(), taskId))
    {
      selectedTask := SelectedTask(table.State(), taskId);
    }

    method AddTask()
      requires Valid()
      modifies this, table
      ensures Valid()
      ensures table.State() == Insert(old(table.State()), NewRow(old(Fields())))
      ensures Ui() == old(Ui()).(searchAppBarState := CLOSED)
    {
      table.AddTask(NewRow(Fields()));
      searchAppBarState := CLOSED;
    }

    method UpdateTask()
      requires Valid()
      modifies table
      ensures Valid()
      ensures table.State() == Update(old(table.State()), KeyedRow(Fields()))
    {
      table.UpdateTask(KeyedRow(Fields()));
    }

    method DeleteTask()
      requires Valid()
      modifies table
      ensures Valid()
      ensures table.State() == Delete(old(table.State()), KeyedRow(Fields()))
    {
      table.DeleteTask(KeyedRow(Fields()));
    }

    method DeleteAllTasks()
      requires Valid()
      modifies table
      ensures Valid()
      ensures table.State() == DeleteAll(old(table.State()))
    {
      table.DeleteAllTasks();
    }

    /** `handleDatabaseAction`: the table write for the action, the search
        bar closed after an insert, and the token reset to NO_ACTION in
        every case. */
    method HandleDatabaseAction(a: Action)
      requires Valid()
      modifies this, table
      ensures Valid()
      ensures table.State() == DispatchTable(old(table.State()), old(Fields()), a)
      ensures Ui() == old(Ui()).(
        action := NO_ACTION,
        searchAppBarState := if a in {ADD, UNDO} then CLOSED else old(searchAppBarState))
    {
      match a {
        case ADD => AddTask();
        case UPDATE => UpdateTask();
        case DELETE => DeleteTask();
        case DELETE_ALL => DeleteAllTasks();
        case UNDO => AddTask();
        case NO_ACTION =>
      }
      action := NO_ACTION;
    }

    /** `updateTaskFields`: copies a selected task into the fields, or resets
        them to the new-task defaults when there is none. */
    method UpdateTaskFields(selected: Option<ToDoTask>)
      modifies this
      ensures Fields() == match selected
        case Some(t) => TaskFields(t.id, t.title, t.description, t.priority)
        case None => DefaultFields
      ensures Ui() == old(Ui()).(fields := Fields())
    {
      match selected {
        case Some(t) =>
          id := t.id;
          title := t.title;
          description := t.description;
          priority := t.priority;
        case None =>
          id := 0;
          title := "";
          description := "";
          priority := LOW;
      }
    }

    /** `updateTitle`: accepts a title strictly shorter than the maximum and
        ignores any other. */
    method UpdateTitle(newTitle: string)
      modifies this
      ensures title == if |newTitle| < maxTitleLength then newTitle else old(title)
      ensures Ui() == old(Ui()).(fields := old(Fields()).(title := title))
    {
      if |newTitle| < maxTitleLength {
        title := newTitle;
      }
    }

    /** `validateFields`: both the title and the description are filled in. */
    function ValidateFields(): (valid: bool)
      reads this
      ensures valid <==> title != "" && description != ""
    {
      |title| > 0 && |description| > 0
    }

    /** `updateAction`, which the screens call; its body is not part of this
        model and is taken to be a plain setter. */
    method UpdateAction(newAction: Action)
      modifies this
      ensures Ui() == old(Ui()).(action := newAction)
    {
      action := newAction;
    }

    /** `updateDescription`, taken to be a plain setter. */
    method UpdateDescription(newDescription: string)
      modifies this
      ensures Ui() == old(Ui()).(fields := old(Fields()).(description := newDescription))
    {
      description := newDescription;
    }

    /** `updatePriority`, taken to be a plain setter. */
    method UpdatePriority(newPriority: Priority)
      modifies this
      ensures Ui() == old(Ui()).(fields := old(Fields()).(priority := newPriority))
    {
      priority := newPriority;
    }
  }
}
