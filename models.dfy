/** Value types shared by every layer of the to-do app: the task record,
    its priority, the request-state wrapper and the small UI enums. */
module Models {

  datatype Option<+T> = None | Some(value: T)

  datatype Result<+R, +E> = Ok(value: R) | Err(error: E)

  /** Priority of a task. The table and the preference store hold the
      constant's name; the display colour is not modelled. */
  datatype Priority = HIGH | MEDIUM | LOW | NONE

  /** `Priority.name` */
  function PriorityName(p: Priority): (s: string)
    ensures PriorityValueOf(s) == Some(p)
    ensures s != ""
  {
    match p
    case HIGH => "HIGH"
    case MEDIUM => "MEDIUM"
    case LOW => "LOW"
    case NONE => "NONE"
  }

  /** `Priority.valueOf`: `None` stands for the IllegalArgumentException
      thrown for a string that names no constant. */
  function PriorityValueOf(s: string): (r: Option<Priority>)
    ensures r.Some? <==> s in {"HIGH", "MEDIUM", "LOW", "NONE"}
  {
    if s == "HIGH" then Some(HIGH)
    else if s == "MEDIUM" then Some(MEDIUM)
    else if s == "LOW" then Some(LOW)
    else if s == "NONE" then Some(NONE)
    else None
  }

  /** valueOf only accepts a name, and gives back the constant of that name. */
  lemma PriorityValueOfInverse(s: string)
    ensures PriorityValueOf(s).Some? ==> PriorityName(PriorityValueOf(s).value) == s
  {
  }

  /** A row of the task table. Id 0 asks the table to generate a key. */
  datatype ToDoTask = ToDoTask(id: int, title: string, description: string, priority: Priority)

  /** Lifecycle of an asynchronous read exposed by the view-model. */
  datatype RequestState<+T> = Idle | Loading | Success(data: T) | Error(cause: string)

  datatype SearchAppBarState = CLOSED | OPENED | TRIGGERED

  datatype TrailingIconState = READY_TO_DELETE | READY_TO_CLOSE
}
