/** The list screen's top bar: the default bar with its search and
    delete-all actions while the search bar is CLOSED, and the search field
    with its two-state trailing icon otherwise. Each callback assigns
    view-model state. */
module ListAppBar {
  import opened Models
  import opened Actions
  import opened Dao
  import opened ViewModel
  import opened AlertDialog

  /** Which bar `ListAppBar` composes for a search-bar state. */
  datatype BarKind = DefaultBar | SearchBar

  function BarFor(state: SearchAppBarState): (k: BarKind)
    ensures k == DefaultBar <==> state == CLOSED
  {
    match state
    case CLOSED => DefaultBar
    case _ => SearchBar
  }

  /** The default bar's search icon opens the search bar. */
  method OnSearchClicked(vm: SharedViewModel)
    modifies vm
    ensures BarFor(vm.searchAppBarState) == SearchBar
    ensures vm.Ui() == old(vm.Ui()).(searchAppBarState := OPENED)
  {
    vm.searchAppBarState := OPENED;
  }

  /** The default bar's delete-all callback, once the dialog is confirmed. */
  method OnDeleteAllConfirmed(vm: SharedViewModel)
    modifies vm
    ensures vm.Ui() == old(vm.Ui()).(action := DELETE_ALL)
  {
    vm.action := DELETE_ALL;
  }

  /** Typing in the search field stores the new text. */
  method OnTextChange(vm: SharedViewModel, newText: string)
    modifies vm
    ensures vm.Ui() == old(vm.Ui()).(searchTextState := newText)
  {
    vm.searchTextState := newText;
  }

  /** Closing the search bar returns to the default bar with no text. */
  method OnCloseClicked(vm: SharedViewModel)
    modifies vm
    ensures BarFor(vm.searchAppBarState) == DefaultBar
    ensures vm.Ui() == old(vm.Ui()).(searchAppBarState := CLOSED, searchTextState := "")
  {
    vm.searchAppBarState := CLOSED;
    vm.searchTextState := "";
  }

  /** The keyboard's search action submits exactly the text in the field. */
  method OnSearchImeAction(vm: SharedViewModel)
    requires vm.Valid()
    modifies vm
    ensures vm.Ui() == old(vm.Ui()).(
      searchedTasks := Success(Search(vm.table.State(), "%" + old(vm.searchTextState) + "%")),
      searchAppBarState := TRIGGERED)
  {
    vm.SearchDatabase(vm.searchTextState);
  }

  /** The delete-all action of the default bar: its menu item only opens the
      confirmation dialog, and only a confirmed dialog sets DELETE_ALL. */
  class DeleteAllControl {
    var openDialog: bool

    constructor ()
      ensures !openDialog
    {
      openDialog := false;
    }

    /** The "delete all" menu item. */
    method OnMenuItemClicked()
      modifies this
      ensures openDialog
    {
      openDialog := true;
    }

    /** An answer to the dialog. */
    method OnDialogAnswered(vm: SharedViewModel, input: DialogInput)
      modifies this, vm
      ensures !openDialog
      ensures vm.Ui() == if Answer(old(openDialog), input).confirmed
                         then old(vm.Ui()).(action := DELETE_ALL)
                         else old(vm.Ui())
    {
      var outcome := Answer(openDialog, input);
      if outcome.confirmed {
        OnDeleteAllConfirmed(vm);
      }
      openDialog := outcome.open;
    }
  }

  /** What a click on the trailing close icon does to the search bar. */
  datatype TrailingEffect = ClearText | CloseBar

  /** The trailing icon's state machine, for the icon state and the text in
      the field: the first click only clears; a click on an empty field
      that is ready to close closes the bar and re-arms the icon. */
  function TrailingIconClick(state: TrailingIconState, text: string): (r: (TrailingIconState, TrailingEffect))
    ensures state == READY_TO_DELETE ==> r == (READY_TO_CLOSE, ClearText)
    ensures state == READY_TO_CLOSE && text != "" ==> r == (READY_TO_CLOSE, ClearText)
    ensures state == READY_TO_CLOSE && text == "" ==> r == (READY_TO_DELETE, CloseBar)
  {
    match state
    case READY_TO_DELETE => (READY_TO_CLOSE, ClearText)
    case READY_TO_CLOSE => if |text| > 0 then (READY_TO_CLOSE, ClearText) else (READY_TO_DELETE, CloseBar)
  }

  /** With no typing in between (a clearing click leaves the field empty),
      the bar closes on the first or the second click, from either icon
      state and whatever the text. */
  lemma AtMostTwoClicksClose(state: TrailingIconState, text: string)
    ensures var (s1, e1) := TrailingIconClick(state, text);
      e1 == CloseBar || TrailingIconClick(s1, "").1 == CloseBar
  {
  }

  /** A closing click always leaves the icon armed to clear again. */
  lemma CloseRearmsIcon(state: TrailingIconState, text: string)
    ensures TrailingIconClick(state, text).1 == CloseBar ==> TrailingIconClick(state, text).0 == READY_TO_DELETE
    ensures TrailingIconClick(state, text).1 == CloseBar <==> state == READY_TO_CLOSE && text == ""
  {
  }

  /** `SearchAppBar`, whose remembered icon state is updated in place. */
  class SearchAppBarIcon {
    var trailingIconState: TrailingIconState

    constructor ()
      ensures trailingIconState == READY_TO_DELETE
    {
      trailingIconState := READY_TO_DELETE;
    }

    /** A click on the trailing icon, with the view-model's search text as
        the field's text. */
    method OnTrailingIconClicked(vm: SharedViewModel)
      modifies this, vm
      ensures trailingIconState == TrailingIconClick(old(trailingIconState), old(vm.searchTextState)).0
      ensures TrailingIconClick(old(trailingIconState), old(vm.searchTextState)).1 == ClearText ==>
        vm.Ui() == old(vm.Ui()).(searchTextState := "")
      ensures TrailingIconClick(old(trailingIconState), old(vm.searchTextState)).1 == CloseBar ==>
        vm.Ui() == old(vm.Ui()).(searchAppBarState := CLOSED, searchTextState := "")
    {
      var (next, effect) := TrailingIconClick(trailingIconState, vm.searchTextState);
      match effect {
        case ClearText => OnTextChange(vm, "");
        case CloseBar => OnCloseClicked(vm);
      }
      trailingIconState := next;
    }
  }
}
