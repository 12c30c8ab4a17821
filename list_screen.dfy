/** The decision rules of the list screen: the snackbar's message, label and
    undo trigger, the swipe callback that loads a task into the editable
    fields, and the add button's task-id sentinel. */
module ListScreen {
  import opened Models
  import opened Actions
  import opened Dao
  import opened ViewModel

  /** The fixed message shown after every row was deleted. */
  const DeleteAllMessage: string := "모든 작업이 삭제되었습니다."

  /** The snackbar's action label that offers an undo. */
  const UndoLabel: string := "취소"

  /** The snackbar's action label that only acknowledges. */
  const OkLabel: string := "확인"

  /** The task id the add button navigates with; no generated key is
      negative, so it selects no row. */
  const NewTaskId: int := -1

  predicate NoColon(s: string)
  {
    forall i :: 0 <= i < |s| ==> s[i] != ':'
  }

  /** `setMessage`: the fixed text for DELETE_ALL, otherwise the action's
      name, a colon and a space, and the task title. */
  function SetMessage(a: Action, taskTitle: string): (m: string)
    ensures a == DELETE_ALL ==> m == DeleteAllMessage
    ensures a != DELETE_ALL ==>
      |m| == |ActionName(a)| + 2 + |taskTitle| && m[..|ActionName(a)|] == ActionName(a)
  {
    match a
    case DELETE_ALL => DeleteAllMessage
    case _ => ActionName(a) + ": " + taskTitle
  }

  /** Index of the first colon of `s`, or |s| when there is none. */
  function FirstColon(s: string): (k: nat)
    ensures k <= |s|
    ensures k < |s| ==> s[k] == ':'
  {
    if s == [] then 0
    else if s[0] == ':' then 0
    else 1 + FirstColon(s[1..])
  }

  lemma {:induction false} FirstColonOfNoColon(s: string)
    requires NoColon(s)
    ensures FirstColon(s) == |s|
    decreases |s|
  {
    if s != [] {
      assert NoColon(s[1..]) by {
        forall i | 0 <= i < |s[1..]| ensures s[1..][i] != ':' {
          assert s[1..][i] == s[i + 1];
        }
      }
      FirstColonOfNoColon(s[1..]);
    }
  }

  /** Behind a colon-free prefix, the first colon is the one that follows it. */
  lemma {:induction false} FirstColonAfter(x: string, rest: string)
    requires NoColon(x) && rest != [] && rest[0] == ':'
    ensures FirstColon(x + rest) == |x|
    decreases |x|
  {
    if x == [] {
      assert x + rest == rest;
    } else {
      assert (x + rest)[0] == x[0];
      assert (x + rest)[1..] == x[1..] + rest;
      assert NoColon(x[1..]) by {
        forall i | 0 <= i < |x[1..]| ensures x[1..][i] != ':' {
          assert x[1..][i] == x[i + 1];
        }
      }
      FirstColonAfter(x[1..], rest);
    }
  }

  /** What a reader of the snackbar learns from its message: the action and
      the title, when the message has the `name: title` shape. */
  datatype MessageParts = MessageParts(action: Action, taskTitle: string)

  function ParseMessage(m: string): (r: Option<MessageParts>)
    ensures r.Some? ==> FirstColon(m) < |m|
  {
    var k := FirstColon(m);
    if k + 2 <= |m| && m[k..k + 2] == ": " then
      match ActionValueOf(m[..k])
      case Some(a) => Some(MessageParts(a, m[k + 2..]))
      case None => None
    else None
  }

  /** The snackbar message names its action and title unambiguously: parsing
      it gives both back for every action but DELETE_ALL, whose fixed
      message has no colon and parses to nothing. */
  lemma MessageRoundTrip(a: Action, taskTitle: string)
    ensures a != DELETE_ALL ==> ParseMessage(SetMessage(a, taskTitle)) == Some(MessageParts(a, taskTitle))
    ensures a == DELETE_ALL ==> ParseMessage(SetMessage(a, taskTitle)) == None
  {
    if a == DELETE_ALL {
      FirstColonOfNoColon(DeleteAllMessage);
    } else {
      var name := ActionName(a);
      var m := name + ": " + taskTitle;
      assert m == name + (": " + taskTitle);
      FirstColonAfter(name, ": " + taskTitle);
      assert m[..|name|] == name;
      assert m[|name|..|name| + 2] == ": ";
      assert m[|name| + 2..] == taskTitle;
    }
  }

  /** Two snackbars for actions other than DELETE_ALL show the same message
      only for the same action and title. */
  lemma MessageIdentifiesAction(a: Action, t: string, b: Action, u: string)
    requires a != DELETE_ALL && b != DELETE_ALL
    requires SetMessage(a, t) == SetMessage(b, u)
    ensures a == b && t == u
  {
    MessageRoundTrip(a, t);
    MessageRoundTrip(b, u);
  }

  /** `setActionLabel`: compares the action's name with "DELETE". */
  function SetActionLabel(a: Action): (caption: string)
    ensures caption == UndoLabel <==> a == DELETE
    ensures caption == OkLabel <==> a != DELETE
  {
    if ActionName(a) == "DELETE" then UndoLabel else OkLabel
  }

  /** How the shown snackbar was closed. */
  datatype SnackbarResult = Dismissed | ActionPerformed

  /** `undoDeletedTask`: the action it reports to `onUndoClicked`, if any. */
  function UndoDeletedTask(a: Action, result: SnackbarResult): (undo: Option<Action>)
    ensures undo.Some? <==> result == ActionPerformed && a == DELETE
    ensures undo.Some? ==> undo.value == UNDO
  {
    if result == ActionPerformed && a == DELETE then Some(UNDO) else None
  }

  /** UNDO is only ever requested from a snackbar that offered the undo
      label. */
  lemma UndoOnlyWhenOffered(a: Action, result: SnackbarResult)
    ensures UndoDeletedTask(a, result).Some? ==> SetActionLabel(a) == UndoLabel
  {
  }

  datatype Snackbar = Snackbar(message: string, actionLabel: string)

  /** The snackbar the effect keyed on `a` shows, if any. */
  function SnackbarFor(a: Action, taskTitle: string): (s: Option<Snackbar>)
    ensures s.None? <==> a == NO_ACTION
    ensures s.Some? ==> s.value == Snackbar(SetMessage(a, taskTitle), SetActionLabel(a))
  {
    if a == NO_ACTION then None else Some(Snackbar(SetMessage(a, taskTitle), SetActionLabel(a)))
  }

  /** The effect of `DisplaySnackBar` for `action`, with the user's answer to
      the snackbar given as `result`. For NO_ACTION nothing happens. Otherwise
      one snackbar is shown with the title the fields held at the time, and
      `onComplete(NO_ACTION)` runs at once, because launching the snackbar
      coroutine does not wait for it; the snackbar's result comes later, so
      an undo leaves the token at UNDO. */
  method DisplaySnackBar(vm: SharedViewModel, action: Action, result: SnackbarResult)
    returns (shown: Option<Snackbar>)
    modifies vm
    ensures shown == SnackbarFor(action, old(vm.title))
    ensures vm.Ui() ==
      if action == NO_ACTION then old(vm.Ui())
      else old(vm.Ui()).(action := if UndoDeletedTask(action, result).Some? then UNDO else NO_ACTION)
  {
    if action == NO_ACTION {
      shown := None;
      return;
    }
    shown := Some(Snackbar(SetMessage(action, vm.title), SetActionLabel(action)));
    vm.UpdateAction(NO_ACTION);
    var undo := UndoDeletedTask(action, result);
    if undo.Some? {
      vm.UpdateAction(undo.value);
    }
  }

  /** The two effects the list screen keys on its action, in composition
      order: the view-model runs the table write and resets the token, then
      the snackbar is shown for the same action and may ask for an undo. */
  method OnActionKey(vm: SharedViewModel, action: Action, result: SnackbarResult)
    returns (shown: Option<Snackbar>)
    requires vm.Valid()
    modifies vm, vm.table
    ensures vm.Valid()
    ensures vm.table.State() == DispatchTable(old(vm.table.State()), old(vm.Fields()), action)
    ensures shown == SnackbarFor(action, old(vm.title))
    ensures vm.action == if UndoDeletedTask(action, result).Some? then UNDO else NO_ACTION
    ensures vm.Ui() == old(vm.Ui()).(
      action := vm.action,
      searchAppBarState := if action in {ADD, UNDO} then CLOSED else old(vm.searchAppBarState))
  {
    vm.HandleDatabaseAction(action);
    shown := DisplaySnackBar(vm, action, result);
  }

  /** The `onSwipeToDelete` callback: records the swiped action and loads the
      swiped task into the editable fields, so that the row a following
      DELETE builds is that task itself. */
  method OnSwipeToDelete(vm: SharedViewModel, action: Action, task: ToDoTask)
    modifies vm
    ensures vm.action == action && KeyedRow(vm.Fields()) == task
    ensures vm.Ui() == old(vm.Ui()).(
      action := action,
      fields := TaskFields(task.id, task.title, task.description, task.priority))
  {
    vm.UpdateAction(action);
    vm.UpdateTaskFields(Some(task));
  }

  /** The add button's sentinel selects no row of a table whose keys were
      generated, so the task screen opens empty. */
  lemma FabOpensNewTask(t: TableState)
    requires ValidTable(t) && OnlyGeneratedKeys(t)
    ensures SelectedTask(t, NewTaskId) == None
  {
  }
}
