/** The task screen's top bar: which bar is shown for the selected task, and
    which action each button reports to the screen's navigation callback. */
module TaskAppBar {
  import opened Models
  import opened Actions
  import opened AlertDialog

  /** The new-task bar when no task is selected, the existing-task bar for a
      selected task. */
  datatype TaskBar = NewTaskBar | ExistingTaskBar(task: ToDoTask)

  /** `TaskAppBar`'s choice of bar. */
  function TaskAppBarFor(selectedTask: Option<ToDoTask>): (bar: TaskBar)
    ensures bar.NewTaskBar? <==> selectedTask.None?
    ensures bar.ExistingTaskBar? ==> bar.task == selectedTask.value
  {
    match selectedTask
    case None => NewTaskBar
    case Some(task) => ExistingTaskBar(task)
  }

  /** Every control the two bars compose: the new-task bar has the back
      arrow and the add check; the existing-task bar has the close icon, the
      delete icon, the update check and the delete confirmation dialog. */
  datatype BarButton = BackArrow | AddCheck | CloseIcon | DeleteIcon | UpdateCheck | DialogAnswer(input: DialogInput)

  predicate Composes(bar: TaskBar, button: BarButton)
  {
    match bar
    case NewTaskBar => button in {BackArrow, AddCheck}
    case ExistingTaskBar(_) => button in {CloseIcon, DeleteIcon, UpdateCheck} || button.DialogAnswer?
  }

  /** The action reported to the navigation callback, if any, and the
      delete dialog's visibility afterwards. */
  datatype BarStep = BarStep(emitted: Option<Action>, openDialog: bool)

  /** One press on the bar, with the delete dialog's visibility before it.
      A control the bar does not compose cannot be pressed and changes
      nothing. */
  function Press(bar: TaskBar, openDialog: bool, button: BarButton): (r: BarStep)
    ensures !Composes(bar, button) ==> r == BarStep(None, openDialog)
    ensures bar.NewTaskBar? && r.emitted.Some? ==> r.emitted.value in {NO_ACTION, ADD}
    ensures bar.ExistingTaskBar? && r.emitted.Some? ==> r.emitted.value in {NO_ACTION, UPDATE, DELETE}
    ensures r.emitted == Some(DELETE) <==> bar.ExistingTaskBar? && openDialog && button == DialogAnswer(Confirm)
    ensures bar.ExistingTaskBar? && button == DeleteIcon ==> r == BarStep(None, true)
  {
    match bar
    case NewTaskBar =>
      if button == BackArrow then BarStep(Some(NO_ACTION), openDialog)
      else if button == AddCheck then BarStep(Some(ADD), openDialog)
      else BarStep(None, openDialog)
    case ExistingTaskBar(_) =>
      match button
      case CloseIcon => BarStep(Some(NO_ACTION), openDialog)
      case UpdateCheck => BarStep(Some(UPDATE), openDialog)
      case DeleteIcon => BarStep(None, true)
      case DialogAnswer(input) =>
        var outcome := Answer(openDialog, input);
        BarStep(if outcome.confirmed then Some(DELETE) else None, outcome.open)
      case _ => BarStep(None, openDialog)
  }

  /** Which buttons report which action: the back arrow and the close icon
      report NO_ACTION, the add check ADD and the update check UPDATE. */
  lemma ButtonsReport(bar: TaskBar, openDialog: bool, button: BarButton)
    ensures Press(bar, openDialog, button).emitted == Some(NO_ACTION) <==>
      (bar.NewTaskBar? && button == BackArrow) || (bar.ExistingTaskBar? && button == CloseIcon)
    ensures Press(bar, openDialog, button).emitted == Some(ADD) <==> bar.NewTaskBar? && button == AddCheck
    ensures Press(bar, openDialog, button).emitted == Some(UPDATE) <==> bar.ExistingTaskBar? && button == UpdateCheck
  {
  }

  /** With the dialog closed, no single press reports DELETE; the delete icon
      followed by the dialog's confirm button does. */
  lemma DeleteTakesTwoPresses(task: ToDoTask, button: BarButton)
    ensures Press(ExistingTaskBar(task), false, button).emitted != Some(DELETE)
    ensures var first := Press(ExistingTaskBar(task), false, DeleteIcon);
      Press(ExistingTaskBar(task), first.openDialog, DialogAnswer(Confirm)) == BarStep(Some(DELETE), false)
  {
  }

  /** `ExistingTaskAppBarActions` (and the new-task bar, which has no
      dialog): the bar shown and its remembered dialog flag. */
  class TaskAppBarControls {
    const bar: TaskBar
    var openDialog: bool

    constructor (selectedTask: Option<ToDoTask>)
      ensures bar == TaskAppBarFor(selectedTask) && !openDialog
    {
      bar := TaskAppBarFor(selectedTask);
      openDialog := false;
    }

    method OnPressed(button: BarButton) returns (emitted: Option<Action>)
      modifies this
      ensures BarStep(emitted, openDialog) == Press(bar, old(openDialog), button)
    {
      var step := Press(bar, openDialog, button);
      emitted := step.emitted;
      openDialog := step.openDialog;
    }
  }
}
