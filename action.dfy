/** The one-shot command token and its string codec: the list route carries
    `action.name`, and the list destination decodes it with `toAction`. */
module Actions {
  import opened Models

  datatype Action = ADD | UPDATE | DELETE | DELETE_ALL | UNDO | NO_ACTION

  /** `Action.name` */
  function ActionName(a: Action): (s: string)
    ensures ActionValueOf(s) == Some(a)
    ensures s != ""
  {
    match a
    case ADD => "ADD"
    case UPDATE => "UPDATE"
    case DELETE => "DELETE"
    case DELETE_ALL => "DELETE_ALL"
    case UNDO => "UNDO"
    case NO_ACTION => "NO_ACTION"
  }

  predicate IsActionName(s: string)
  {
    s in {"ADD", "UPDATE", "DELETE", "DELETE_ALL", "UNDO", "NO_ACTION"}
  }

  /** `Action.valueOf`: `None` stands for its IllegalArgumentException. */
  function ActionValueOf(s: string): (r: Option<Action>)
    ensures r.Some? <==> IsActionName(s)
  {
    match s
    case "ADD" => Some(ADD)
    case "UPDATE" => Some(UPDATE)
    case "DELETE" => Some(DELETE)
    case "DELETE_ALL" => Some(DELETE_ALL)
    case "UNDO" => Some(UNDO)
    case "NO_ACTION" => Some(NO_ACTION)
    case _ => None
  }

  /** valueOf accepts exactly the six names and inverts `ActionName`. */
  lemma ActionValueOfInverse(s: string)
    ensures ActionValueOf(s).Some? ==> ActionName(ActionValueOf(s).value) == s
  {
  }

  /** Why `toAction` rejected its argument. */
  datatype ActionError = NoEnumConstant(name: string)

  /** `String?.toAction()`: null or empty decodes to NO_ACTION, anything else
      goes through valueOf, which rejects a string naming no constant. */
  function ToAction(s: Option<string>): (r: Result<Action, ActionError>)
    ensures s.None? || s.value == "" ==> r == Ok(NO_ACTION)
    ensures s.Some? && s.value != "" ==> (r.Ok? <==> IsActionName(s.value))
    ensures s.Some? && s.value != "" && r.Ok? ==> ActionName(r.value) == s.value
    ensures r.Err? ==> r.error == NoEnumConstant(s.value)
  {
    if s.None? || s.value == "" then Ok(NO_ACTION)
    else match ActionValueOf(s.value)
      case Some(a) => Ok(a)
      case None => Err(NoEnumConstant(s.value))
  }

  /** The navigation route embeds `action.name`; decoding it gives the action back. */
  lemma RouteRoundTrip(a: Action)
    ensures ToAction(Some(ActionName(a))) == Ok(a)
  {
  }

  /** A decoded NO_ACTION comes from a missing or empty argument, or from the
      literal name "NO_ACTION" and no other string. */
  lemma NoActionSources(s: Option<string>)
    ensures ToAction(s) == Ok(NO_ACTION) <==> s.None? || s.value == "" || s.value == "NO_ACTION"
  {
  }
}
