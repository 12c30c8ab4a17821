/** The task screen: its save gate around `validateFields`, the system back
    handler, and the field editors that write through the view-model. */
module TaskScreen {
  import opened Models
  import opened Actions
  import opened Dao
  import opened ViewModel
  import opened TaskAppBar

  /** The toast shown when a field is missing. */
  const MissingFieldsToast: string := "입력하지 않은 부분이 있습니다."

  /** What a navigation request from the bar ends in. */
  datatype Outcome = Navigate(action: Action) | Toast(message: string)

  /** The bar's navigation callback: NO_ACTION always leaves; every other
      action leaves with that action only when `validateFields` holds, and
      shows the toast otherwise. */
  function OnNavigateRequest(vm: SharedViewModel, action: Action): (o: Outcome)
    reads vm
    ensures action == NO_ACTION ==> o == Navigate(NO_ACTION)
    ensures action != NO_ACTION ==>
      (o == Navigate(action) <==> vm.title != "" && vm.description != "")
    ensures o.Toast? ==> o.message == MissingFieldsToast && action != NO_ACTION
    ensures o.Navigate? ==> o.action == action
  {
    if action == NO_ACTION then Navigate(action)
    else if vm.ValidateFields() then Navigate(action)
    else Toast(MissingFieldsToast)
  }

  /** The system back button leaves without an action. */
  function OnSystemBack(): (o: Outcome)
    ensures o.Navigate? && o.action == NO_ACTION
  {
    Navigate(NO_ACTION)
  }

  /** What reaches the list screen from one press on the task bar: ADD only
      from the new-task bar and UPDATE or DELETE only from the existing-task
      bar, each only with both text fields filled in; never DELETE_ALL or
      UNDO. */
  lemma ListScreenReceives(vm: SharedViewModel, bar: TaskBar, openDialog: bool, button: BarButton)
    ensures var step := Press(bar, openDialog, button);
      step.emitted.Some? && OnNavigateRequest(vm, step.emitted.value).Navigate? ==>
        var a := OnNavigateRequest(vm, step.emitted.value).action;
        && a !in {DELETE_ALL, UNDO}
        && (a == ADD ==> bar.NewTaskBar? && vm.ValidateFields())
        && (a in {UPDATE, DELETE} ==> bar.ExistingTaskBar? && vm.ValidateFields())
  {
  }

  /** The title editor goes through `updateTitle`. */
  method OnTitleChange(vm: SharedViewModel, newTitle: string)
    modifies vm
    ensures vm.title == newTitle || vm.title == old(vm.title)
    ensures vm.title == newTitle <==> |newTitle| < vm.maxTitleLength || newTitle == old(vm.title)
    ensures vm.Ui() == old(vm.Ui()).(fields := old(vm.Fields()).(title := vm.title))
  {
    vm.UpdateTitle(newTitle);
  }

  method OnDescriptionChange(vm: SharedViewModel, newDescription: string)
    modifies vm
    ensures vm.Ui() == old(vm.Ui()).(fields := old(vm.Fields()).(description := newDescription))
  {
    vm.UpdateDescription(newDescription);
  }

  method OnPrioritySelected(vm: SharedViewModel, newPriority: Priority)
    modifies vm
    ensures vm.Ui() == old(vm.Ui()).(fields := old(vm.Fields()).(priority := newPriority))
  {
    vm.UpdatePriority(newPriority);
  }

  /** The task destination: select the row with the route's task id, load it
      (or the defaults) into the fields, and compose the bar for it. The
      add button's -1 opens the new-task bar over default fields. */
  method OpenTaskScreen(vm: SharedViewModel, taskId: int) returns (controls: TaskAppBarControls)
    requires vm.Valid()
    modifies vm
    ensures fresh(controls) && !controls.openDialog
    ensures vm.selectedTask == SelectedTask(vm.table.State(), taskId)
    ensures controls.bar == TaskAppBarFor(vm.selectedTask)
    ensures vm.selectedTask.None? ==> vm.Fields() == DefaultFields && controls.bar == NewTaskBar
    ensures vm.selectedTask.Some? ==>
      KeyedRow(vm.Fields()) == vm.selectedTask.value && vm.selectedTask.value == vm.table.State().rows[taskId]
    ensures taskId < 1 ==> controls.bar == NewTaskBar
    ensures vm.Ui() == old(vm.Ui()).(selectedTask := vm.selectedTask, fields := vm.Fields())
  {
    vm.GetSelectedTask(taskId);
    vm.UpdateTaskFields(vm.selectedTask);
    controls := new TaskAppBarControls(vm.selectedTask);
  }
}
