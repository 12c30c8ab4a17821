# kotlin-todo: a verified model of the to-do app's core

This project models the core of an Android to-do list app:

- the Room table of tasks and its DAO queries (`ToDoDao`);
- the sort-preference slot of the preferences data store (`DataStoreRepository`);
- the `Action` token and its route codec;
- the `SharedViewModel` that both screens share;
- the decision logic of the list screen: list content, list app bar, snackbar and swipe-to-delete;
- the decision logic of the task screen: the task app bar and the save gate.

It also models the two small callers these files cannot be read without: the confirmation dialog both delete flows go through, and the task destination that loads a task into the editable fields.

The model is built in layers.

- **Values.** The task row, priority, request state and the UI enums are datatypes. The table is a `TableState` value: rows by primary key plus the auto-increment counter.
- **Table writes.** The four writes (insert with IGNORE, update, delete, clear) are functions on `TableState`. The in-place `TaskTable` class is proved against those functions.
- **Queries.** The queries are functions of the table state. Each has its promise proved:
  - the key-order listing, and where a new row goes;
  - the `LIKE` search, proved to be a case-insensitive substring search;
  - the two `ORDER BY CASE` priority orderings, proved to be permutations of the table whose ranked rows are in rank order.
- **View-model.** `SharedViewModel` is a class whose methods update its fields in place. Every method states its whole new state through a `UiState` snapshot. The table writes go through one dispatch function, `DispatchTable`. Lemmas about it cover UNDO after DELETE.
- **Screens.** The screen callbacks are methods on the view-model. The pure decisions they make are functions with their own lemmas:
  - which list is shown;
  - the snackbar text and undo trigger;
  - the trailing-icon state machine;
  - which bar buttons report which action;
  - the toast gate.

Conventions of the model:

- A coroutine launched by the view-model runs to completion at the call.
- A collected flow is read once, when it is launched.
- Kotlin exceptions and nulls become `Result`/`Option` values.

## Model

Source paths are relative to the repository root.

| member | source | states |
|---|---|---|
| Models.PriorityName | app/src/main/java/com/example/todo/data/models/Priority.kt:10-15 | a priority's name is non-empty and `valueOf` maps it back to that priority |
| Models.PriorityValueOf | app/src/main/java/com/example/todo/data/models/Priority.kt:10-15 | `valueOf` succeeds exactly on the four constant names |
| Models.PriorityValueOfInverse | app/src/main/java/com/example/todo/data/models/Priority.kt:10-15 | whatever `valueOf` accepts is the name of the constant it returns |
| Actions.ActionName | app/src/main/java/com/example/todo/util/Action.kt:3-10 | an action's name is non-empty and decodes back to that action |
| Actions.ActionValueOf | app/src/main/java/com/example/todo/util/Action.kt:3-10 | `valueOf` succeeds exactly on the six constant names |
| Actions.ActionValueOfInverse | app/src/main/java/com/example/todo/util/Action.kt:3-10 | whatever `valueOf` accepts is the name of the action it returns |
| Actions.ToAction | app/src/main/java/com/example/todo/util/Action.kt:14-16 | null or empty gives NO_ACTION; any other string succeeds iff it names an action, and then names the result; otherwise the error carries the rejected string |
| Actions.RouteRoundTrip | app/src/main/java/com/example/todo/util/Action.kt:14-16 | decoding the route argument `action.name` gives back the same action |
| Actions.NoActionSources | app/src/main/java/com/example/todo/util/Action.kt:14-16 | NO_ACTION is decoded iff the argument is null, empty or the literal "NO_ACTION" |
| SqlLike.Like | app/src/main/java/com/example/todo/data/ToDoDao.kt:43-45 | every pattern character other than `%` consumes one character, so a match is at least that long, and exactly as long as a pattern without `%` |
| SqlLike.PercentMatchesAll | app/src/main/java/com/example/todo/data/ToDoDao.kt:43-45 | the pattern `%` matches every string |
| SqlLike.LeadingPercent | app/src/main/java/com/example/todo/data/ToDoDao.kt:43-45 | a leading `%` matches iff the rest of the pattern matches some suffix |
| SqlLike.LiteralThenPercent | app/src/main/java/com/example/todo/data/ToDoDao.kt:43-45 | a wildcard-free `q%` matches exactly the strings with prefix q, ignoring ASCII case |
| SqlLike.PrefixMatches | app/src/main/java/com/example/todo/data/ToDoDao.kt:43-45 | a string that starts with q (ignoring ASCII case) matches `q%` whatever q holds |
| SqlLike.SubstringPattern | app/src/main/java/com/example/todo/data/ToDoDao.kt:43-45 | a wildcard-free `%q%` matches exactly the strings containing q, ignoring ASCII case |
| SqlLike.ContainedIsMatched | app/src/main/java/com/example/todo/data/ToDoDao.kt:43-45 | a string containing q matches `%q%` even when q holds wildcards |
| SqlLike.LetterThenPercent | app/src/main/java/com/example/todo/data/ToDoDao.kt:52-54 | `c%` matches iff the string's first character equals c up to ASCII case |
| Dao.Insert | app/src/main/java/com/example/todo/data/ToDoDao.kt:27-29 | id 0 stores the row under a fresh key; an existing key leaves the table unchanged (IGNORE); any other key stores the row as given; the table stays valid |
| Dao.Update | app/src/main/java/com/example/todo/data/ToDoDao.kt:31-33 | only the row with the task's key changes, to the task; a missing key changes nothing; no key is added or removed |
| Dao.Delete | app/src/main/java/com/example/todo/data/ToDoDao.kt:35-37 | exactly the task's key is removed, matching on the primary key only; every other row is untouched |
| Dao.DeleteAll | app/src/main/java/com/example/todo/data/ToDoDao.kt:39-41 | no rows remain and the counter is kept, so keys are never reused |
| Dao.SortedIds | app/src/main/java/com/example/todo/data/ToDoDao.kt:19-21 | lists every key exactly once, in strictly increasing order |
| Dao.AllTasks | app/src/main/java/com/example/todo/data/ToDoDao.kt:19-21 | one entry per row, each entry a row under its own key, every row present, ids strictly increasing |
| Dao.SortedIdsAppend | app/src/main/java/com/example/todo/data/ToDoDao.kt:19-21 | a key above every key is listed last in `ORDER BY id ASC` |
| Dao.NewRowListedLast | app/src/main/java/com/example/todo/data/ToDoDao.kt:19-29 | after inserting a task with id 0, the listing is the old listing plus the new row at the end |
| Dao.SelectedTask | app/src/main/java/com/example/todo/data/ToDoDao.kt:23-25 | finds a row iff the key exists; that row is listed and has the asked-for id |
| Dao.FilterMatching | app/src/main/java/com/example/todo/data/ToDoDao.kt:43-45 | keeps exactly the rows that match, in their order |
| Dao.RowMatches | app/src/main/java/com/example/todo/data/ToDoDao.kt:43-45 | the WHERE clause: a row can match only if its title or its description is long enough for the pattern; SearchIsSubstringSearch gives the exact condition for `%q%` |
| Dao.Search | app/src/main/java/com/example/todo/data/ToDoDao.kt:43-45 | returns exactly the table rows whose title or description matches the pattern, in key order |
| Dao.SearchIsSubstringSearch | app/src/main/java/com/example/todo/data/ToDoDao.kt:43-45 | with `%q%` and a wildcard-free q, a row is found iff its title or description contains q, ignoring ASCII case |
| Dao.SearchFindsContainingRows | app/src/main/java/com/example/todo/data/ToDoDao.kt:43-45 | any row whose title or description contains q is found, whatever q holds |
| Dao.CaseRank | app/src/main/java/com/example/todo/data/ToDoDao.kt:47-70 | a CASE value is NULL exactly for NONE, and otherwise a rank from 1 to 3 |
| Dao.CaseRanks | app/src/main/java/com/example/todo/data/ToDoDao.kt:47-70 | the CASE clauses rank LOW, MEDIUM, HIGH as 1, 2, 3 (low-first) or 3, 2, 1 (high-first), and NONE as NULL in both |
| Dao.InsertByRank | app/src/main/java/com/example/todo/data/ToDoDao.kt:47-70 | inserting into a rank-sorted list keeps it sorted and adds exactly the one row |
| Dao.OrderByRank | app/src/main/java/com/example/todo/data/ToDoDao.kt:47-70 | the result is sorted by rank, with NULL first, and is a permutation of the input |
| Dao.SortByPriority | app/src/main/java/com/example/todo/data/ToDoDao.kt:47-70 | a permutation of the whole table in which any two ranked rows appear in non-decreasing rank |
| Dao.SortKeepsEveryRow | app/src/main/java/com/example/todo/data/ToDoDao.kt:47-70 | every row, NONE rows included, appears in both orderings |
| Dao.PriorityOrdering | app/src/main/java/com/example/todo/data/ToDoDao.kt:47-70 | low-first never lists HIGH before LOW or MEDIUM, nor MEDIUM before LOW; high-first is the mirror |
| Dao.TaskTable.constructor | app/src/main/java/com/example/todo/data/models/ToDoTask.kt:12-15 | starts empty, with the first generated key 1 |
| Dao.TaskTable.AddTask | app/src/main/java/com/example/todo/data/ToDoDao.kt:27-29 | the new table state is `Insert` of the old one, and stays valid |
| Dao.TaskTable.UpdateTask | app/src/main/java/com/example/todo/data/ToDoDao.kt:31-33 | the new table state is `Update` of the old one, and stays valid |
| Dao.TaskTable.DeleteTask | app/src/main/java/com/example/todo/data/ToDoDao.kt:35-37 | the new table state is `Delete` of the old one, and stays valid |
| Dao.TaskTable.DeleteAllTasks | app/src/main/java/com/example/todo/data/ToDoDao.kt:39-41 | the new state is `DeleteAll` of the old one, and the listing is empty |
| DataStore.ReadSortState | app/src/main/java/com/example/todo/data/repositories/DataStoreRepository.kt:61-72 | reads the stored name; an unwritten key or an IOException reads "NONE"; any other exception is an error; a non-"NONE" result was stored |
| DataStore.FreshStoreReadsNone | app/src/main/java/com/example/todo/data/repositories/DataStoreRepository.kt:69-72 | a never-written slot reads as the NONE priority |
| DataStore.SortPreferenceRoundTrip | app/src/main/java/com/example/todo/data/repositories/DataStoreRepository.kt:47-72 | writing a priority's name and reading it back yields that priority |
| DataStore.SortPreferenceStore.constructor | app/src/main/java/com/example/todo/data/repositories/DataStoreRepository.kt:61-72 | a fresh store holds no value under the key |
| DataStore.SortPreferenceStore.PersistSortState | app/src/main/java/com/example/todo/data/repositories/DataStoreRepository.kt:47-51 | the key afterwards holds the priority's name |
| ViewModel.DispatchTable | app/src/main/java/com/example/todo/ui/viewmodels/SharedViewModel.kt:174-255 | per action: ADD and UNDO store the fields under a fresh key; UPDATE rewrites only the keyed row; DELETE removes only that key; DELETE_ALL empties the listing; NO_ACTION changes nothing; keys stay generated |
| ViewModel.KeyedRow | app/src/main/java/com/example/todo/ui/viewmodels/SharedViewModel.kt:190-215 | the row built for an update or delete carries back exactly the four fields, so a task copied into them is rebuilt unchanged |
| ViewModel.NewRow | app/src/main/java/com/example/todo/ui/viewmodels/SharedViewModel.kt:174-185 | the row built for an insert has the fields' content with id 0, which asks the table for a generated key; DispatchTable states where it is stored |
| ViewModel.UndoIsAdd | app/src/main/java/com/example/todo/ui/viewmodels/SharedViewModel.kt:235-249 | UNDO issues the same table write as ADD |
| ViewModel.DeleteThenUndo | app/src/main/java/com/example/todo/ui/viewmodels/SharedViewModel.kt:174-215 | DELETE then UNDO removes the keyed row and brings back its title, description and priority under a new key |
| ViewModel.SharedViewModel.constructor | app/src/main/java/com/example/todo/ui/viewmodels/SharedViewModel.kt:33-56 | NO_ACTION, id 0, empty text, LOW priority, search CLOSED, every request slot Idle, no selected task |
| ViewModel.SharedViewModel.SearchDatabase | app/src/main/java/com/example/todo/ui/viewmodels/SharedViewModel.kt:67-80 | the results are the `%query%` search of the table, the bar is TRIGGERED, nothing else changes |
| ViewModel.SharedViewModel.LowPriorityTasks | app/src/main/java/com/example/todo/ui/viewmodels/SharedViewModel.kt:82-87 | every table row once, with no HIGH row before a LOW or MEDIUM one and no MEDIUM row before a LOW one |
| ViewModel.SharedViewModel.HighPriorityTasks | app/src/main/java/com/example/todo/ui/viewmodels/SharedViewModel.kt:89-94 | every table row once, with no LOW row before a HIGH or MEDIUM one and no MEDIUM row before a HIGH one |
| ViewModel.SharedViewModel.ReadSortState | app/src/main/java/com/example/todo/ui/viewmodels/SharedViewModel.kt:100-113 | Success with the stored priority when the read and `valueOf` both succeed; otherwise the exception escapes the coroutine uncaught, which the method reports, and the slot is left at Loading; the slot never holds Error |
| ViewModel.SharedViewModel.PersistSortState | app/src/main/java/com/example/todo/ui/viewmodels/SharedViewModel.kt:114-118 | the preference slot holds the priority's name |
| ViewModel.SharedViewModel.GetAllTasks | app/src/main/java/com/example/todo/ui/viewmodels/SharedViewModel.kt:133-144 | the slot holds Success of the key-order listing, nothing else changes |
| ViewModel.SharedViewModel.GetSelectedTask | app/src/main/java/com/example/todo/ui/viewmodels/SharedViewModel.kt:154-160 | the selected task is the row under the key, or none |
| ViewModel.SharedViewModel.AddTask | app/src/main/java/com/example/todo/ui/viewmodels/SharedViewModel.kt:174-185 | inserts the fields with id 0 and closes the search bar |
| ViewModel.SharedViewModel.UpdateTask | app/src/main/java/com/example/todo/ui/viewmodels/SharedViewModel.kt:190-200 | updates the row keyed by the id field with the fields |
| ViewModel.SharedViewModel.DeleteTask | app/src/main/java/com/example/todo/ui/viewmodels/SharedViewModel.kt:205-215 | deletes the row keyed by the id field |
| ViewModel.SharedViewModel.DeleteAllTasks | app/src/main/java/com/example/todo/ui/viewmodels/SharedViewModel.kt:224-228 | clears the table |
| ViewModel.SharedViewModel.HandleDatabaseAction | app/src/main/java/com/example/todo/ui/viewmodels/SharedViewModel.kt:233-255 | the table becomes `DispatchTable` of the old table and fields; the token is reset to NO_ACTION; the bar closes only after ADD or UNDO |
| ViewModel.SharedViewModel.UpdateTaskFields | app/src/main/java/com/example/todo/ui/viewmodels/SharedViewModel.kt:260-272 | the fields copy the selected task, or reset to id 0, empty text and LOW |
| ViewModel.SharedViewModel.UpdateTitle | app/src/main/java/com/example/todo/ui/viewmodels/SharedViewModel.kt:276-280 | takes the new title iff it is strictly shorter than the maximum, otherwise keeps the old one |
| ViewModel.SharedViewModel.ValidateFields | app/src/main/java/com/example/todo/ui/viewmodels/SharedViewModel.kt:284-286 | true iff both title and description are non-empty |
| ViewModel.SharedViewModel.UpdateAction | app/src/main/java/com/example/todo/ui/screens/list/ListScreen.kt:80-81 | only the action token changes |
| ViewModel.SharedViewModel.UpdateDescription | app/src/main/java/com/example/todo/ui/screens/task/TaskScreen.kt:66-68 | only the description changes |
| ViewModel.SharedViewModel.UpdatePriority | app/src/main/java/com/example/todo/ui/screens/task/TaskScreen.kt:70-72 | only the priority changes |
| AlertDialog.Answer | app/src/main/java/com/example/todo/components/DisplayAlertDialog.kt:24-77 | every answer closes the dialog; it confirms iff the dialog was open and the yes button was pressed |
| AlertDialog.NoDoubleConfirm | app/src/main/java/com/example/todo/components/DisplayAlertDialog.kt:47-74 | a second answer right after the first never confirms |
| ListScreen.SetMessage | app/src/main/java/com/example/todo/ui/screens/list/ListScreen.kt:168-173 | DELETE_ALL shows the fixed message; any other action shows a message that starts with its name and has room for ": " and the title |
| ListScreen.MessageRoundTrip | app/src/main/java/com/example/todo/ui/screens/list/ListScreen.kt:168-173 | parsing the message gives back the action and the title for every action except DELETE_ALL, whose message parses to nothing |
| ListScreen.MessageIdentifiesAction | app/src/main/java/com/example/todo/ui/screens/list/ListScreen.kt:168-173 | two messages for actions other than DELETE_ALL are equal only for the same action and title |
| ListScreen.SetActionLabel | app/src/main/java/com/example/todo/ui/screens/list/ListScreen.kt:178-184 | the undo label is shown iff the action is DELETE, otherwise the OK label |
| ListScreen.UndoDeletedTask | app/src/main/java/com/example/todo/ui/screens/list/ListScreen.kt:191-201 | UNDO is requested iff the snackbar's action was performed after a DELETE |
| ListScreen.UndoOnlyWhenOffered | app/src/main/java/com/example/todo/ui/screens/list/ListScreen.kt:178-201 | UNDO is only requested from a snackbar that showed the undo label |
| ListScreen.SnackbarFor | app/src/main/java/com/example/todo/ui/screens/list/ListScreen.kt:147-153 | a snackbar is shown iff the action is not NO_ACTION, with that action's message and label |
| ListScreen.DisplaySnackBar | app/src/main/java/com/example/todo/ui/screens/list/ListScreen.kt:123-163 | shows the snackbar for the action with the current title; for any action except NO_ACTION the token ends at NO_ACTION, or at UNDO after an undo |
| ListScreen.OnActionKey | app/src/main/java/com/example/todo/ui/screens/list/ListScreen.kt:55-84 | the table write for the action happens once; the snackbar uses the title from before it; the token ends at NO_ACTION or UNDO; the search bar closes after ADD or UNDO; every other property is kept |
| ListScreen.OnSwipeToDelete | app/src/main/java/com/example/todo/ui/screens/list/ListScreen.kt:106-110 | records the action and loads the swiped task into the fields, so a following DELETE targets that task itself |
| ListScreen.FabOpensNewTask | app/src/main/java/com/example/todo/ui/screens/list/ListScreen.kt:21-36 | the add button's task id -1 selects no row of a table whose keys were generated |
| ListContent.HandleListContent | app/src/main/java/com/example/todo/ui/screens/list/ListContent.kt:103-118 | the empty placeholder iff the list is empty, otherwise that same list |
| ListContent.ListContent | app/src/main/java/com/example/todo/ui/screens/list/ListContent.kt:43-96 | nothing until the sort state has loaded; search results while TRIGGERED; otherwise the list the sort state picks, and nothing for MEDIUM |
| ListContent.ShownListOutsideSearch | app/src/main/java/com/example/todo/ui/screens/list/ListContent.kt:43-96 | outside a search, a shown list has one entry per table row and each entry is a row; the placeholder appears iff the table is empty and a list was chosen |
| ListContent.ShownListWhileSearching | app/src/main/java/com/example/todo/ui/screens/list/ListContent.kt:54-64 | while searching, every shown row is a table row that matches the pattern; nothing is shown until the search has succeeded |
| ListContent.OnDismiss | app/src/main/java/com/example/todo/ui/screens/list/ListContent.kt:145-156 | a row reports (DELETE, itself) iff it was dismissed from end to start |
| ListContent.OnTaskItemClick | app/src/main/java/com/example/todo/ui/screens/list/ListContent.kt:244-246 | tapping a listed row navigates with an id that selects exactly that row |
| ListAppBar.BarFor | app/src/main/java/com/example/todo/ui/screens/list/ListAppBar.kt:48-79 | the default bar iff the search bar state is CLOSED |
| ListAppBar.OnSearchClicked | app/src/main/java/com/example/todo/ui/screens/list/ListAppBar.kt:51-54 | the search bar opens, nothing else changes |
| ListAppBar.OnDeleteAllConfirmed | app/src/main/java/com/example/todo/ui/screens/list/ListAppBar.kt:56-59 | the token becomes DELETE_ALL, nothing else changes |
| ListAppBar.OnTextChange | app/src/main/java/com/example/todo/ui/screens/list/ListAppBar.kt:65-67 | only the search text changes |
| ListAppBar.OnCloseClicked | app/src/main/java/com/example/todo/ui/screens/list/ListAppBar.kt:68-72 | back to the default bar with no search text |
| ListAppBar.OnSearchImeAction | app/src/main/java/com/example/todo/ui/screens/list/ListAppBar.kt:339-343 | the keyboard's search submits exactly the text in the field |
| ListAppBar.DeleteAllControl.constructor | app/src/main/java/com/example/todo/ui/screens/list/ListAppBar.kt:119 | the dialog starts closed |
| ListAppBar.DeleteAllControl.OnMenuItemClicked | app/src/main/java/com/example/todo/ui/screens/list/ListAppBar.kt:130 | the menu item only opens the dialog |
| ListAppBar.DeleteAllControl.OnDialogAnswered | app/src/main/java/com/example/todo/ui/screens/list/ListAppBar.kt:121-127 | DELETE_ALL is set only on a confirmed open dialog; every answer closes it |
| ListAppBar.TrailingIconClick | app/src/main/java/com/example/todo/ui/screens/list/ListAppBar.kt:311-324 | a first click clears and arms the close; a click with text still clears; a click on an empty field closes the bar and re-arms the clear |
| ListAppBar.AtMostTwoClicksClose | app/src/main/java/com/example/todo/ui/screens/list/ListAppBar.kt:311-324 | without typing in between, the bar closes within two clicks from any state |
| ListAppBar.CloseRearmsIcon | app/src/main/java/com/example/todo/ui/screens/list/ListAppBar.kt:316-322 | a click closes iff the icon is ready to close and the field is empty, and closing re-arms the icon |
| ListAppBar.SearchAppBarIcon.constructor | app/src/main/java/com/example/todo/ui/screens/list/ListAppBar.kt:255-257 | the icon starts ready to clear |
| ListAppBar.SearchAppBarIcon.OnTrailingIconClicked | app/src/main/java/com/example/todo/ui/screens/list/ListAppBar.kt:308-325 | the icon follows the state machine; a clearing click empties the text only; a closing click also closes the bar |
| TaskAppBar.TaskAppBarFor | app/src/main/java/com/example/todo/ui/screens/task/TaskAppBar.kt:24-37 | the new-task bar iff no task is selected, otherwise the bar for that task |
| TaskAppBar.Press | app/src/main/java/com/example/todo/ui/screens/task/TaskAppBar.kt:43-204 | the new bar reports only NO_ACTION or ADD and the existing bar only NO_ACTION, UPDATE or DELETE; DELETE iff the open dialog is confirmed; the delete icon only opens the dialog; a control the bar lacks does nothing |
| TaskAppBar.ButtonsReport | app/src/main/java/com/example/todo/ui/screens/task/TaskAppBar.kt:72-204 | NO_ACTION comes exactly from the back arrow or the close icon, ADD from the add check, UPDATE from the update check |
| TaskAppBar.DeleteTakesTwoPresses | app/src/main/java/com/example/todo/ui/screens/task/TaskAppBar.kt:153-177 | with the dialog closed no single press reports DELETE; the delete icon and then confirm do |
| TaskAppBar.TaskAppBarControls.constructor | app/src/main/java/com/example/todo/ui/screens/task/TaskAppBar.kt:154-158 | the bar for the selected task, with its dialog closed |
| TaskAppBar.TaskAppBarControls.OnPressed | app/src/main/java/com/example/todo/ui/screens/task/TaskAppBar.kt:153-177 | reports and updates the dialog flag as `Press` says |
| TaskScreen.OnNavigateRequest | app/src/main/java/com/example/todo/ui/screens/task/TaskScreen.kt:43-52 | NO_ACTION always leaves; any other action leaves with itself iff both fields are filled in, otherwise the missing-fields toast |
| TaskScreen.OnSystemBack | app/src/main/java/com/example/todo/ui/screens/task/TaskScreen.kt:32-34 | the back button leaves with NO_ACTION |
| TaskScreen.ListScreenReceives | app/src/main/java/com/example/todo/ui/screens/task/TaskScreen.kt:41-54 | the list screen gets ADD only from the new bar and UPDATE or DELETE only from an existing task's bar, each only with both fields filled; never DELETE_ALL or UNDO |
| TaskScreen.OnTitleChange | app/src/main/java/com/example/todo/ui/screens/task/TaskScreen.kt:62-64 | the title changes to the new one iff it is short enough, and nothing else changes |
| TaskScreen.OnDescriptionChange | app/src/main/java/com/example/todo/ui/screens/task/TaskScreen.kt:66-68 | only the description changes |
| TaskScreen.OnPrioritySelected | app/src/main/java/com/example/todo/ui/screens/task/TaskScreen.kt:70-72 | only the priority changes |
| TaskScreen.OpenTaskScreen | app/src/main/java/com/example/todo/navigation/destinations/TaskComposable.kt:35-46 | selects the row for the route's id, loads it (or the defaults) into the fields, and builds the matching bar; id -1 opens the new-task bar |

## Left out

- Coroutines, dispatchers and flows are not modelled. Each launch runs at once to completion, and each collected flow is read once. A flow that re-emits after a later table write is not modelled: `allTasks`, `searchedTasks` and `selectedTask` are snapshots taken when their method runs. The empty list that `lowPriorityTasks` and `highPriorityTasks` hold before their first emission is not modelled either.
- Several searches racing for the same result slot are not modelled.
- The `try`/`catch` around each launch never sees an exception from inside the coroutine, so no slot ever holds `RequestState.Error`. The model keeps that constructor but never produces it.
- `addTask` reads the title, description and priority inside the coroutine. Here they are read when the method is called, because coroutines run at once.
- Rendering, layout, colours, animations, the row's 300 ms swipe delay, the dropdown menus' `expanded` flags, and the keyboard and focus handling are left out.
- The snackbar host and the hiding of the current snackbar in `onSwipeToDelete` are left out. The user's answer to the snackbar is a parameter.
- `onSortClicked` in the list app bar is an empty lambda, so no UI path calls `persisSortState`. The view-model method is modelled on its own, and the sort menu is not.
- Navigation, the back stack and dependency injection are not modelled. `ToDoRepository` only forwards to the DAO, so it is folded into the view-model's calls.
- The list destination writes the decoded action into `sharedViewModel.action`. It then calls `ListScreen` without the `action` argument that `ListScreen` declares. The model takes that action as a parameter of `ListScreen.OnActionKey`.
- The `ToDoDaoTest` unit tests are not part of this model.
- `updateAction`, `updateDescription` and `updatePriority` are called by the screens but are not defined in `SharedViewModel.kt`. The model takes each to be a plain setter of its one property.
- The preferences file is one optional string under one key. The kind of read failure is a parameter.
- `SqlLike.Like` folds case for ASCII letters only, as SQLite's default `LIKE` does. It has no `ESCAPE` clause.
- Dao.SortByPriority: states nothing about where NONE rows, whose CASE value is NULL, go relative to ranked rows. The model puts them first, as SQLite orders NULL first, with ties in key order. The source states no tie order.
- Dao.Insert: keys and the auto-increment counter are unbounded integers. The 32-bit `Int` limit of the id column is not modelled.
- ViewModel.SharedViewModel.UpdateTitle: counts characters, whereas Kotlin's `length` counts UTF-16 code units. `MAX_TITLE_LENGTH` is a constructor parameter, because its definition is not part of this model.
- Dao.SortByPriority: neither sort query has a `WHERE` clause, so NONE rows are kept in both orderings (ToDoDao.kt:47-70).
- DataStore.ReadSortState: only an `IOException` is turned into empty preferences; any other exception is rethrown (DataStoreRepository.kt:62-67).
- ViewModel.SharedViewModel.ReadSortState: a rethrown read failure, or a stored name that `Priority.valueOf` rejects, escapes `viewModelScope.launch` uncaught and ends the app. The model only reports it as `escaped` and leaves the slot at Loading; what happens to the app afterwards is not modelled.
- Dao.Search: the search query has no `ORDER BY`, so SQLite promises no order. The model returns the matches in key order, the order a scan of this table gives.
- TaskScreen.OpenTaskScreen: `LaunchedEffect(key1 = taskId)` can run before Room has emitted the selected task, and then copies the previous selection or the defaults into the fields. Because coroutines run at once here, the model always copies the task just selected.
