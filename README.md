# Task board core of join-frontend, in Dafny

join-frontend is an Angular kanban application. Its users keep tasks with a status, a
priority, a due date, assignees and a checklist of subtasks. The contacts they assign
are grouped by the first letter of their last name. This project models the list and
string logic spread across its components and services:

- the board's four status columns and its drag-and-drop handler;
- the subtask progress counter of a task card;
- the summary page's counts, earliest urgent date and greeting;
- the contact list's grouping and in-place updates;
- the three task forms: the add-task dialog, the edit-task dialog and the add-task page.
  This covers their priority buttons, subtask and assignee lists, category check and
  submit guards;
- the task menu's initials, priority icons and status update;
- the password validators and submit guards of the reset-password and signup pages.

Component state is modelled by classes whose fields the methods update. Each method
states its whole new state. The filters, counts and mappings are functions, and what
they promise is proved in lemmas. Service calls, the server's answers, the clock and
form validity that depends on unmodelled controls are all parameters. Where a method
would call a service, it returns the call it would issue (an `Option`) or a flag
saying whether it issues one.

Modules:

- `Seqs`, `Ascii` and `Sorting` hold shared helpers:
  - `Array.filter`, `splice` and `findIndex`;
  - ASCII case mapping;
  - the default string order;
  - a stable sort standing for `Array.prototype.sort`.
- `TaskModel` holds the records of `todo-interface.ts` and the status filters.
- Every other module models one source file.

## Model

`BoardComponent.Project` and `BoardComponent.DropOn` have no rows of their own. They are
the specification functions that `BoardComponent.Board.InitAllTasks` and
`BoardComponent.Board.Drop` are proved against, and what they promise is stated by the
`BoardComponent` lemmas listed below.

| member | source | states |
|---|---|---|
| `TaskModel.WithStatus` | src/app/components/board/board.component.ts:40-43 | the status filter keeps exactly the tasks with that status, and never more than the input |
| `TaskModel.WithPriority` | src/app/components/summary/summary.component.ts:181-183 | the priority filter keeps exactly the tasks with that priority |
| `TaskModel.WithUnknownStatus` | src/app/components/board/board.component.ts:40-43 | the tasks that none of the four column filters takes are those whose status is none of the four |
| `TaskModel.StatusPartition` | src/app/components/board/board.component.ts:40-43 | the four status filters and the unknown-status rest together hold each fetched task exactly as often as it was fetched |
| `TaskModel.StatusCountsAddUp` | src/app/components/board/board.component.ts:40-43 | the column sizes plus the unknown-status count equal the fetched count; the columns alone hold at most that, and all of it when every status is known |
| `BoardComponent.StatusOf` | src/app/components/board/board.component.ts:40-43 | each drop list selects one of the four known statuses |
| `BoardComponent.StatusOfInjective` | src/app/components/board/board.component.ts:40-43 | different columns select different statuses, so a task of known status lands in exactly one column |
| `BoardComponent.MoveItem` | src/app/components/board/board.component.ts:61-62 | a reorder keeps the length and the elements (as a multiset), puts the picked item at the target index, and leaves the other items in their relative order; so no value is added or lost (`BoardComponent.MoveItemKeepsElements`) |
| `BoardComponent.MoveItemInPlace` | src/app/components/board/board.component.ts:61-62 | dropping an item at the index it was picked from changes nothing |
| `BoardComponent.Columns.Set` | src/app/components/board/board.component.ts:60-71 | rebinding one drop list changes that list only |
| `BoardComponent.Board.constructor` | src/app/components/board/board.component.ts:60-71 | the board starts with four empty columns |
| `BoardComponent.Board.InitAllTasks` | src/app/components/board/board.component.ts:37-47 | a successful fetch sets each column to the fetched tasks of its status, in fetched order; a failed fetch leaves all four columns as they were |
| `BoardComponent.Board.Drop` | src/app/components/board/board.component.ts:60-71 | a same-list drop moves the item within that column; a cross-list drop removes it from the source and inserts it into the destination at the drop index; the other columns are untouched |
| `BoardComponent.Board.SetColumn` | src/app/components/board/board.component.ts:60-71 | rebinding one column leaves the other three |
| `BoardComponent.ProjectColumn` | src/app/components/board/board.component.ts:40-43 | after a fetch, each column is exactly the fetched tasks of its status, in fetched order |
| `BoardComponent.ProjectConsistent` | src/app/components/board/board.component.ts:40-43 | after a fetch, every task sits in the column of its status |
| `BoardComponent.ProjectKeepsKnown` | src/app/components/board/board.component.ts:40-43 | the board holds each fetched task of known status as often as it was fetched, and drops only the unknown-status ones |
| `BoardComponent.SetTasks` | src/app/components/board/board.component.ts:60-71 | rebinding a column trades exactly that column's tasks for the new list's |
| `BoardComponent.DropKeepsTasks` | src/app/components/board/board.component.ts:60-71 | a drop neither adds, loses nor alters a task: the board's multiset of tasks is unchanged |
| `BoardComponent.TransferKeepsTasks` | src/app/components/board/board.component.ts:63-69 | a transfer between two lists keeps the combined contents |
| `BoardComponent.ReorderKeepsConsistent` | src/app/components/board/board.component.ts:61-62 | a reorder within one column keeps every task in the column of its status |
| `BoardComponent.TransferLeavesStatus` | src/app/components/board/board.component.ts:63-69 | a cross-list drop does not update the task: it arrives unchanged at the drop index, and its status no longer matches its new column |
| `SubtaskProgress.SubtaskCountsForTask` | src/app/shared/services/task.service.ts:116-123 | `total` is the number of subtasks and `checked` is at most `total`; `checked` is 0 exactly when none is ticked, and equals `total` exactly when all are |
| `SubtaskProgress.CheckedIsTicked` | src/app/shared/services/todo.service.ts:118 | `checked` counts the subtasks whose optional flag is present and true; a missing or false flag counts as unchecked |
| `SubtaskProgress.NoSubtasks` | src/app/shared/services/todo.service.ts:116-122 | a task without subtasks yields 0 of 0 |
| `SubtaskProgress.AppendSubtask` | src/app/shared/services/todo.service.ts:117-118 | appending a subtask raises `total` by one, and raises `checked` by one exactly when the new subtask is ticked |
| `Summary.TotalTasks` | src/app/components/summary/summary.component.ts:136-138 | the total is the length of the task list |
| `Summary.CountWithStatus` | src/app/components/summary/summary.component.ts:145-174 | the number of tasks with exactly that status, at most the total; 0 exactly when none has it, the total exactly when all have it |
| `Summary.TasksTodo` | src/app/components/summary/summary.component.ts:163-165 | counts the `todo` tasks |
| `Summary.TasksInProgress` | src/app/components/summary/summary.component.ts:145-147 | counts the `in_progress` tasks |
| `Summary.TasksAwaitingFeedback` | src/app/components/summary/summary.component.ts:154-156 | counts the `awaiting_feedback` tasks |
| `Summary.TasksDone` | src/app/components/summary/summary.component.ts:172-174 | counts the `done` tasks |
| `Summary.TasksUrgent` | src/app/components/summary/summary.component.ts:181-183 | the number of tasks with priority `urgent`, at most the total, and 0 exactly when none is urgent |
| `Summary.StatusCountsWithinTotal` | src/app/components/summary/summary.component.ts:145-174 | the four status counts sum to at most the total; to exactly the total when every status is one of the four, and to less when one is not |
| `Summary.EarliestDue` | src/app/components/summary/summary.component.ts:94-97 | over a non-empty list the minimum is invalid exactly when some due date is missing; otherwise it is one of the due dates and no later than any of them |
| `Summary.CalculateNearestUrgentTaskDate` | src/app/components/summary/summary.component.ts:93-100 | undefined exactly when the urgent list is empty; otherwise the earliest due date, which is one of the list's dates and no later than any of them |
| `Summary.DueLeTotalPreorder` | src/app/components/summary/summary.component.ts:197-201 | the due-date comparator is total and transitive |
| `Summary.NextUrgentTask` | src/app/components/summary/summary.component.ts:194-203 | the selected task is an urgent task of the list with a due date |
| `Summary.FormatNearestUrgentTaskDate` | src/app/components/summary/summary.component.ts:193-209 | the label shows "No urgent tasks" exactly when no task was selected, and otherwise the selected task's due date |
| `Summary.NextUrgentIsEarliest` | src/app/components/summary/summary.component.ts:194-203 | a task is selected exactly when some task is urgent and dated, and its due date is minimal among those |
| `Summary.FormatShowsEarliest` | src/app/components/summary/summary.component.ts:193-209 | "No urgent tasks" exactly when no task is urgent with a due date; otherwise the date shown is the earliest urgent due date |
| `Summary.GreetingFor` | src/app/components/summary/summary.component.ts:120-129 | morning exactly below 12, afternoon exactly from 12 to 16, evening exactly from 17; so exactly one applies |
| `Summary.SummaryComponent.constructor` | src/app/components/summary/summary.component.ts:13-19 | empty greeting, no tasks, no urgent tasks, no nearest date |
| `Summary.SummaryComponent.InitAllTasks` | src/app/components/summary/summary.component.ts:42-48 | a successful fetch replaces the task list; a failed one leaves it |
| `Summary.SummaryComponent.SetGreeting` | src/app/components/summary/summary.component.ts:120-129 | the greeting becomes the one for the given hour, and nothing else changes |
| `Summary.SummaryComponent.GetNearestUrgentTaskDate` | src/app/components/summary/summary.component.ts:81-83 | stores the earliest urgent due date of `urgentTasks`, and nothing else changes |
| `ContactsComponent.GroupKey` | src/app/components/contacts/contacts.component.ts:70 | the key is the upper-cased first character of the last name, holds no lower-case letter, and is "" exactly for an empty last name |
| `ContactsComponent.KeyLeTotalPreorder` | src/app/components/contacts/contacts.component.ts:78 | the default string order used by `sort()` is total and transitive |
| `ContactsComponent.GroupSizesAddUp` | src/app/components/contacts/contacts.component.ts:69-77 | with each key that occurs listed once, the group sizes sum to the number of contacts |
| `ContactsComponent.GroupExtend` | src/app/components/contacts/contacts.component.ts:69-75 | a further contact joins the end of its own group and no other |
| `ContactsComponent.GroupedStep` | src/app/components/contacts/contacts.component.ts:69-75 | one turn of the `forEach` (create the group if missing, then push) keeps the map equal to the grouping of the contacts seen so far |
| `ContactsComponent.KnownKeyStep` | src/app/components/contacts/contacts.component.ts:74 | a contact whose group exists is pushed onto it, and no key is added |
| `ContactsComponent.NewKeyStep` | src/app/components/contacts/contacts.component.ts:71-74 | a contact with a new key opens its own group, which then holds just that contact |
| `ContactsComponent.GroupedResult` | src/app/components/contacts/contacts.component.ts:77-78 | after the loop, the sorted keys are distinct, sorted, equal to the keys that occur, and their groups hold every contact once |
| `ContactsComponent.SortedKeys` | src/app/components/contacts/contacts.component.ts:78 | sorting distinct keys gives the same keys, sorted and without repeats |
| `ContactsComponent.GroupContacts` | src/app/components/contacts/contacts.component.ts:67-75 | the loop yields one group per key that occurs, each holding that key's contacts in input order, with every key listed once |
| `ContactsComponent.Contacts.constructor` | src/app/components/contacts/contacts.component.ts:17-19 | no groups, no letters, no selection |
| `ContactsComponent.Contacts.SortAndGroupContacts` | src/app/components/contacts/contacts.component.ts:66-79 | each contact is in exactly the group of its key, in input order; `uniqueLetters` is sorted, has no duplicates and equals the set of group keys; the group sizes sum to the contact count |
| `ContactsComponent.Contacts.SelectContact` | src/app/components/contacts/contacts.component.ts:88-90 | the selection becomes the contact, and nothing else changes |
| `ContactsComponent.Contacts.UpdateSelectedContact` | src/app/components/contacts/contacts.component.ts:121-125 | the selection is replaced only when a contact is selected and its id equals the updated one's |
| `ContactsComponent.Contacts.UpdateContactInList` | src/app/components/contacts/contacts.component.ts:135-140 | only the first entry with a matching id is replaced; the length and every other entry stay, and with no match the list is unchanged |
| `ContactsComponent.Contacts.DeselectContact` | src/app/components/contacts/contacts.component.ts:197-199 | the selection becomes null, and nothing else changes |
| `TaskForm.FlagsFor` | src/app/components/dialog-add-task/dialog-add-task.component.ts:175-181 | each priority flag is on exactly when the priority names it |
| `TaskForm.AtMostOneFlag` | src/app/components/dialog-edit-task/dialog-edit-task.component.ts:181-185 | at most one flag is on, and an unknown priority lights none |
| `TaskForm.AnyMatches` | src/app/components/dialog-add-task/dialog-add-task.component.ts:385-388 | `some` holds exactly when some entry matches, that is when `findIndex` finds one |
| `TaskForm.Toggle` | src/app/components/dialog-add-task/dialog-add-task.component.ts:364-375 | without a match the entry is appended; with one, the first match is removed and the rest keep their order |
| `TaskForm.ToggleDecidesValidity` | src/app/components/dialog-add-task/dialog-add-task.component.ts:133 | with nobody assigned the task form is invalid; selecting an unselected contact satisfies the required `assigned_to`, and deselecting one keeps it satisfied exactly when someone else is still assigned |
| `TaskForm.ToggleFlips` | src/app/components/dialog-add-task/dialog-add-task.component.ts:364-388 | on a list with at most one match, a toggle flips whether some entry matches and keeps at most one match |
| `TaskForm.RemovingOnlyMatch` | src/app/components/dialog-add-task/dialog-add-task.component.ts:364-375 | removing the only match leaves none |
| `TaskForm.AppendingOnlyMatch` | src/app/components/dialog-add-task/dialog-add-task.component.ts:364-375 | appending a match to a list without one leaves exactly one |
| `TaskForm.ToggleTwiceRestores` | src/app/components/dialog-add-task/dialog-add-task.component.ts:364-375 | selecting an unselected entry and then deselecting it restores the list |
| `TaskForm.IdMatches` | src/app/components/dialog-add-task/dialog-add-task.component.ts:385-388 | an id is selected exactly when it is in the id list |
| `TaskForm.DistinctIdsMatchOnce` | src/app/components/dialog-add-task/dialog-add-task.component.ts:364-375 | in an id list without repeats, at most one entry holds a given id |
| `TaskForm.ToggleIdMembership` | src/app/components/dialog-add-task/dialog-add-task.component.ts:364-388 | on a repeat-free id list, an absent id is appended and a present one removed, membership flips, and the list stays repeat-free |
| `TaskForm.CategoryExists` | src/app/components/dialog-add-task/dialog-add-task.component.ts:324-326 | true exactly when some category name equals the argument, letters compared without case |
| `TaskForm.CategoryExistsIgnoresCase` | src/app/components/dialog-edit-task/dialog-edit-task.component.ts:338-340 | the answer is the same for a name, its upper-cased form and its lower-cased form |
| `TaskForm.ListedCategoryExists` | src/app/components/dialog-edit-task/dialog-edit-task.component.ts:338-340 | every listed category's name is found, also when typed in upper case |
| `DialogAddTask.CurrentStatusFor` | src/app/components/dialog-add-task/dialog-add-task.component.ts:100-106 | the status passed to the dialog when it is truthy, otherwise `todo`; never empty |
| `DialogAddTask.NewSubtask` | src/app/components/dialog-add-task/dialog-add-task.component.ts:194-197 | a typed subtask has the title and `check` false, and no id |
| `DialogAddTask.SubmitProceeds` | src/app/components/dialog-add-task/dialog-add-task.component.ts:444 | the guard as written skips the create call only when the form is invalid and no category is selected |
| `DialogAddTask.InvalidFormStillSubmits` | src/app/components/dialog-add-task/dialog-add-task.component.ts:444 | under the guard as written, an invalid form with a selected category still submits |
| `DialogAddTask.IntendedSubmitProceeds` | src/app/components/dialog-add-task/dialog-add-task.component.ts:436-441 | the documented guard proceeds exactly when the form is valid and a category is selected |
| `DialogAddTask.IntendedGuardIsStricter` | src/app/components/dialog-add-task/dialog-add-task.component.ts:436-444 | the documented guard never passes an invalid form and passes no more than the written one; the two differ exactly when one condition holds without the other |
| `DialogAddTask.AddTaskDialog.constructor` | src/app/components/dialog-add-task/dialog-add-task.component.ts:125-136 | priority `low` with only the low button lit, empty subtask and assignee lists, no category |
| `DialogAddTask.AddTaskDialog.GetCurrentStatus` | src/app/components/dialog-add-task/dialog-add-task.component.ts:100-106 | the current status becomes the passed status when truthy, else `todo`; the form is untouched |
| `DialogAddTask.AddTaskDialog.SetPriority` | src/app/components/dialog-add-task/dialog-add-task.component.ts:175-181 | the priority becomes `p`, and each flag is on exactly when `p` names it |
| `DialogAddTask.AddTaskDialog.AddSubtask` | src/app/components/dialog-add-task/dialog-add-task.component.ts:191-199 | an empty title changes nothing; any other appends exactly one unticked subtask with that title |
| `DialogAddTask.AddTaskDialog.RemoveSubtask` | src/app/components/dialog-add-task/dialog-add-task.component.ts:207-210 | removes only entry `index`, when there is one; the others keep their order |
| `DialogAddTask.AddTaskDialog.IsSelected` | src/app/components/dialog-add-task/dialog-add-task.component.ts:385-388 | a contact is selected exactly when its id is in `assigned_to` |
| `DialogAddTask.AddTaskDialog.SelectContact` | src/app/components/dialog-add-task/dialog-add-task.component.ts:364-375 | the contact's id is removed where it first occurs, or appended when absent |
| `DialogAddTask.AddTaskDialog.CancelSelection` | src/app/components/dialog-add-task/dialog-add-task.component.ts:395-399 | `assigned_to` is emptied and the menu closes |
| `DialogAddTask.AddTaskDialog.CategoryExistsHere` | src/app/components/dialog-add-task/dialog-add-task.component.ts:324-326 | some loaded category has the name, letters compared without case |
| `DialogAddTask.AddTaskDialog.OnSubmit` | src/app/components/dialog-add-task/dialog-add-task.component.ts:442-446 | marks the form submitted and changes nothing else; issues the create call unless the form is invalid and no category is selected (the guard as written; see Findings), where a valid form needs valid other controls and at least one assignee; so with nobody assigned the call goes out only when a category is selected |
| `DialogAddTask.AddTaskDialog.CreateNewCategory` | src/app/components/dialog-add-task/dialog-add-task.component.ts:335-354 | no create call for an invalid form or an existing name (case-insensitive), and an existing name sets `categoryAlreadyExist`; a successful create selects the new category |
| `DialogEditTask.MirrorSubtask` | src/app/components/dialog-edit-task/dialog-edit-task.component.ts:150-154 | a loaded subtask's form group copies its id, title and `checked` flag |
| `DialogEditTask.NewSubtask` | src/app/components/dialog-edit-task/dialog-edit-task.component.ts:243-246 | a typed subtask has the title and the key `checked` (not `check`) false |
| `DialogEditTask.EditTaskDialog.constructor` | src/app/components/dialog-edit-task/dialog-edit-task.component.ts:89-100 | keeps the task id it was opened for; an empty priority with no button lit, empty lists, no task loaded |
| `DialogEditTask.EditTaskDialog.UpdateAssignedTo` | src/app/components/dialog-edit-task/dialog-edit-task.component.ts:166-172 | `assigned_to` becomes the ids of the given contacts in order, earlier entries gone; a contact is selected exactly when its id is among them |
| `DialogEditTask.EditTaskDialog.AddSubtaskToDb` | src/app/components/dialog-edit-task/dialog-edit-task.component.ts:147-157 | the subtask array mirrors the task's subtasks (id, title, checked) in order, earlier entries discarded |
| `DialogEditTask.EditTaskDialog.ShowCurrentTaskPrio` | src/app/components/dialog-edit-task/dialog-edit-task.component.ts:181-185 | each flag is on exactly when the priority names it; an unknown priority lights none; the form values stay |
| `DialogEditTask.EditTaskDialog.UpdateFormWithTask` | src/app/components/dialog-edit-task/dialog-edit-task.component.ts:129-140 | the form takes the task's title, description, due date, category, priority and status, lights its priority and mirrors its subtasks |
| `DialogEditTask.EditTaskDialog.LoadTaskById` | src/app/components/dialog-edit-task/dialog-edit-task.component.ts:110-119 | a failed fetch changes nothing; a loaded task fills title, description, due date, category, priority and status, lights its priority, mirrors its subtasks and assignee ids in order, and leaves the categories and the menu as they were |
| `DialogEditTask.EditTaskDialog.SetPriority` | src/app/components/dialog-edit-task/dialog-edit-task.component.ts:224-230 | the priority becomes `p`, and each flag is on exactly when `p` names it |
| `DialogEditTask.EditTaskDialog.AddSubtask` | src/app/components/dialog-edit-task/dialog-edit-task.component.ts:240-248 | an empty title changes nothing; any other appends exactly one subtask with `checked` false |
| `DialogEditTask.EditTaskDialog.RemoveSubtask` | src/app/components/dialog-edit-task/dialog-edit-task.component.ts:256-259 | removes only entry `index`, when there is one |
| `DialogEditTask.EditTaskDialog.IsSelected` | src/app/components/dialog-edit-task/dialog-edit-task.component.ts:415-418 | a contact is selected exactly when its id is in `assigned_to` |
| `DialogEditTask.EditTaskDialog.SelectContact` | src/app/components/dialog-edit-task/dialog-edit-task.component.ts:394-405 | the contact's id is removed where it first occurs, or appended when absent |
| `DialogEditTask.EditTaskDialog.CancelSelection` | src/app/components/dialog-edit-task/dialog-edit-task.component.ts:425-429 | `assigned_to` is emptied and the menu closes |
| `DialogEditTask.EditTaskDialog.ToggleAssignedToMenu` | src/app/components/dialog-edit-task/dialog-edit-task.component.ts:452-455 | the menu opens when closed and closes when open |
| `DialogEditTask.EditTaskDialog.CreateNewCategory` | src/app/components/dialog-edit-task/dialog-edit-task.component.ts:349-368 | no create call for an invalid form or an existing name (case-insensitive), and an existing name sets `categoryAlreadyExist`; a successful create selects the new category |
| `DialogEditTask.EditTaskDialog.CategoryExistsHere` | src/app/components/dialog-edit-task/dialog-edit-task.component.ts:338-340 | some loaded category has the name, letters compared without case |
| `DialogEditTask.EditTaskDialog.OnSubmit` | src/app/components/dialog-edit-task/dialog-edit-task.component.ts:473-483 | the update call is issued exactly when the other controls are valid and someone is assigned; it names the dialog's task id and carries the form's current value |
| `AddTaskPage.NamesakeDeselects` | src/app/components/add-task/add-task.component.ts:198-229 | matching is by name, not id: with one contact selected, selecting a different contact of the same name deselects the first |
| `AddTaskPage.SelectFlips` | src/app/components/add-task/add-task.component.ts:198-229 | on a list with each name at most once, a toggle flips whether the name is selected, keeps names unique, and undoes itself on an unselected contact |
| `AddTaskPage.AddTask.constructor` | src/app/components/add-task/add-task.component.ts:53-67 | the form starts at priority `medium` while only the `low` button is lit, so the flags disagree with the priority |
| `AddTaskPage.AddTask.SetPriority` | src/app/components/add-task/add-task.component.ts:101-107 | the priority becomes `p`, and each flag is on exactly when `p` names it |
| `AddTaskPage.AddTask.AddSubtask` | src/app/components/add-task/add-task.component.ts:111-117 | always appends exactly one subtask with an empty title and `check` false |
| `AddTaskPage.AddTask.RemoveSubtask` | src/app/components/add-task/add-task.component.ts:120-123 | removes only entry `index`, when there is one |
| `AddTaskPage.AddTask.IsSelected` | src/app/components/add-task/add-task.component.ts:220-229 | a contact is selected exactly when some entry has its first and last name |
| `AddTaskPage.AddTask.SelectContact` | src/app/components/add-task/add-task.component.ts:198-216 | the first entry with the same name is removed, or the contact is appended when there is none |
| `AddTaskPage.AddTask.ToggleAssignedToMenu` | src/app/components/add-task/add-task.component.ts:249-251 | the menu opens when closed and closes when open |
| `AddTaskPage.AddTask.CancelSelection` | src/app/components/add-task/add-task.component.ts:232-236 | `assigned_to` is emptied and the menu flips rather than closes |
| `AddTaskPage.AddTask.OnSubmit` | src/app/components/add-task/add-task.component.ts:132-142 | the create call is issued exactly when the other controls are valid and someone is assigned; never with an empty `assigned_to` |
| `TaskMenu.StatusesAreBoardColumns` | src/app/components/task-menu/task-menu.component.ts:17 | the allowed statuses are exactly the four board statuses, none listed twice |
| `TaskMenu.FirstChar` | src/app/components/task-menu/task-menu.component.ts:163 | the first character of a name, or nothing for a missing or empty name |
| `TaskMenu.GetInitials` | src/app/components/task-menu/task-menu.component.ts:162-165 | the upper-cased first letter of the first name followed by that of the last name; at most two characters, none lower-case; empty exactly when both names are missing or empty |
| `TaskMenu.InitialsIgnoreRest` | src/app/components/task-menu/task-menu.component.ts:162-165 | only the first letter of each name matters |
| `TaskMenu.GetPriorityImage` | src/app/components/task-menu/task-menu.component.ts:117-127 | low, medium and urgent map to their three icon paths, and every other priority to "" |
| `TaskMenu.PriorityImagesDistinct` | src/app/components/task-menu/task-menu.component.ts:117-127 | different priorities get different icons |
| `TaskMenu.TaskMenuDialog.constructor` | src/app/components/task-menu/task-menu.component.ts:15-17 | no task is loaded |
| `TaskMenu.TaskMenuDialog.LoadTaskById` | src/app/components/task-menu/task-menu.component.ts:66-84 | a successful fetch loads the task; a failed one leaves it |
| `TaskMenu.TaskMenuDialog.UpdateTaskStatus` | src/app/components/task-menu/task-menu.component.ts:139-150 | an update call is made exactly when a task is loaded and the status is allowed; it names the loaded task and carries only the new status |
| `Passwords.CheckPasswords` | src/app/components/reset-password/reset-password.component.ts:47-55 | no error for a missing group or for equal passwords; `notSame` otherwise |
| `Passwords.PasswordValid` | src/app/components/reset-password/reset-password.component.ts:37 | `required` and `minLength(6)` together accept exactly a password of six or more characters |
| `Passwords.ResetFormValid` | src/app/components/reset-password/reset-password.component.ts:35-40 | the reset form is valid exactly when the password has six or more characters and the confirmation repeats it |
| `Passwords.SignupFormValid` | src/app/components/signup/signup.component.ts:31-51 | the signup form is valid exactly when username, first name, last name and e-mail are non-empty, the e-mail is well formed, and the password has six or more characters and is repeated |
| `Passwords.ResetFormIsInvalid` | src/app/components/reset-password/reset-password.component.ts:93 | after a form reset both passwords are null: they match, yet the form is invalid |
| `ResetPassword.ResetPasswordPage.constructor` | src/app/components/reset-password/reset-password.component.ts:13-16 | empty passwords, button enabled, no message |
| `ResetPassword.ResetPasswordPage.ToggleButton` | src/app/components/reset-password/reset-password.component.ts:91-94 | sets the button state; enabling it also resets the form, disabling it leaves the form |
| `ResetPassword.ResetPasswordPage.HandleError` | src/app/components/reset-password/reset-password.component.ts:121-122 | the failure message shows; nothing else changes |
| `ResetPassword.ResetPasswordPage.ErrorTimerFires` | src/app/components/reset-password/reset-password.component.ts:123-126 | when the error timer fires the button comes back, the form is reset and the message goes |
| `ResetPassword.ResetPasswordPage.HandleSuccess` | src/app/components/reset-password/reset-password.component.ts:111-115 | the success message shows and the button stays disabled |
| `ResetPassword.ResetPasswordPage.PerformResetPassword` | src/app/components/reset-password/reset-password.component.ts:74-85 | the button is disabled; a missing token shows the failure and makes no call; a token sends itself and the password, and the server's answer decides success or failure |
| `ResetPassword.ResetPasswordPage.OnSubmit` | src/app/components/reset-password/reset-password.component.ts:60-69 | marks the form submitted. An invalid form shows the failure, makes no call and changes nothing else. A valid form disables the button: without a token it shows the failure and makes no call; with one it sends the token and the checked password, and the server's answer shows success or failure, the other message kept |
| `Signup.SignupPage.constructor` | src/app/components/signup/signup.component.ts:31-40 | all controls empty, no error shown |
| `Signup.SignupPage.OnSubmit` | src/app/components/signup/signup.component.ts:54-71 | an invalid form returns before any call; a valid form sends its fields; a refused signup sets `userAlreadyExists` |
| `Seqs.Filter` | src/app/components/board/board.component.ts:40-43 | `Array.filter`: keeps exactly the elements that pass, never more than the input; empty exactly when none passes |
| `Seqs.FilterAppend` | src/app/shared/services/todo.service.ts:118 | filtering distributes over concatenation |
| `Seqs.RemoveAt` | src/app/components/board/board.component.ts:63-69 | taking out entry `i` shifts the later entries down and keeps the others in order |
| `Seqs.InsertAt` | src/app/components/board/board.component.ts:63-69 | inserting at `j` puts the item there, and removing it again restores the list |
| `Seqs.Splice1` | src/app/components/dialog-add-task/dialog-add-task.component.ts:207-210 | `FormArray.removeAt(i)`: drops entry `i` when there is one and otherwise leaves the list as it was |
| `Seqs.CountWhere` | src/app/shared/services/todo.service.ts:118 | the number of elements that pass: at most the length, 0 exactly when none passes, the full length exactly when all pass |
| `Seqs.FilterLength` | src/app/shared/services/todo.service.ts:118 | `filter(...).length` is that count |
| `Seqs.FirstIndexWhere` | src/app/components/contacts/contacts.component.ts:136 | `findIndex`: -1 exactly when nothing matches, otherwise the first match |
| `Sorting.SortBy` | src/app/components/contacts/contacts.component.ts:78 | sorting is a permutation of its input |
| `Sorting.SortBySorted` | src/app/components/summary/summary.component.ts:197-201 | under a total preorder the sorted list is sorted |
| `Sorting.SortByFirstIsLeast` | src/app/components/summary/summary.component.ts:203 | the first element after sorting is an input element no greater than any other |
| `Ascii.Upper` | src/app/components/task-menu/task-menu.component.ts:163 | `toUpperCase` maps each ASCII lower-case letter to upper case and keeps every other character |
| `Ascii.Lower` | src/app/components/dialog-add-task/dialog-add-task.component.ts:325 | `toLowerCase` maps each ASCII upper-case letter to lower case and keeps every other character |
| `Ascii.LowerForgetsCase` | src/app/components/dialog-add-task/dialog-add-task.component.ts:325 | lower-casing forgets case: upper-casing first, or lower-casing twice, changes nothing |
| `Ascii.StrLeTotal` | src/app/components/contacts/contacts.component.ts:78 | any two strings are ordered one way or the other |
| `Ascii.StrLeAntisymmetric` | src/app/components/contacts/contacts.component.ts:78 | two strings ordered both ways are equal |

## Left out

- Service calls (`getAllTodos`, `createTask`, `updateTask`, `createCategory`, `resetPassword`, `signup`) are not modelled as I/O. A fetch is a parameter whose `None` stands for a thrown error. A call is an issued flag or an `Option` describing what is sent. The server's answer is a boolean parameter.
- Timers (`setTimeout`) are left out. The reset-password error timer is a separate event (`ResetPassword.ResetPasswordPage.ErrorTimerFires`). The timers that clear `categoryAlreadyExist` and `userAlreadyExists`, and the navigation delays, are not modelled.
- Router navigation, dialog open and close, `localStorage`, console output, document-click handlers and `stopPropagation` are not modelled.
- Change-notification subjects (`taskUpdated`, `categoryListUpdated`) are not modelled, and neither is the reload of the category list after a create.
- Dates are integer timestamps. An empty due date is `None`, standing for the invalid `Date` it becomes. A non-empty string that does not parse as a date is not distinguished. Locale formatting (`formatDate`) is left abstract: the label carries the timestamp.
- Case mapping is ASCII only. Unicode case rules of `toUpperCase` and `toLowerCase` are not modelled.
- `BoardComponent.MoveItem`: the drag-drop module's `moveItemInArray` and `transferArrayItem` are modelled for in-range indices only, as remove-then-insert. Their index clamping is not modelled.
- `Seqs.Splice1`: `FormArray.removeAt` is modelled for non-negative indices. Its handling of negative indices is not modelled.
- `Passwords.SignupFormValid`: the e-mail pattern of `Validators.email` is a boolean parameter, not a regular expression.
- The validity of the task forms' controls other than `assigned_to` (title, description, due date, category) is a parameter, `otherControlsValid`, because those controls are not modelled. `assigned_to` is modelled, and its `Validators.required` is part of `TaskForm.TaskFormValid`. The FormArrays are modelled as sequences.
- Strings are sequences of Unicode code points, while JavaScript strings are sequences of UTF-16 code units. The two agree within the Basic Multilingual Plane and differ outside it:
- `Passwords.PasswordValid` counts code points, where `minLength(6)` counts code units. A password of three emoji passes in the source and fails here.
- `TaskMenu.FirstChar` and `ContactsComponent.GroupKey` take a whole character, where `[0]` in the source takes the first half of a surrogate pair.
- `Ascii.StrLe` orders characters above U+FFFF after U+E000 to U+FFFF. The source's code-unit order puts them before.
- `Summary.FormatNearestUrgentTaskDate`: the in-place sort of a local array is modelled as a stable insertion sort on a value. Only the selected task matters to the result.
- `urgentTasks` on the summary page is never filled by the component. `Summary.CalculateNearestUrgentTaskDate` is therefore a function of an explicit list.
- task-interface.ts is not part of this model. The task shape of the `TaskData` interface is taken to be the one of `TodoData` in todo-interface.ts.
- The window-width check, the mobile greeting, the user name lookup, `deleteTask`, `deleteContact`, `addContact`, the subtask edits of the task menu, `membersSelected`, `preselectContact`, `onSubmitAndNavigate`, the category menu handlers and `onClear` are not part of the core and are not modelled.

## Findings

| source | as written | input that shows it | evidently intended | confidence | as-written member | corrected member |
|---|---|---|---|---|---|---|
| src/app/components/dialog-add-task/dialog-add-task.component.ts:444 | the submission is aborted only when the form is invalid and no category is selected | an invalid task form (say, an empty title) with a category selected: the create call is still issued | abort when the form is invalid or no category is selected, as the comment at lines 436-441 says | not executed | `DialogAddTask.InvalidFormStillSubmits` | `DialogAddTask.IntendedGuardIsStricter` |
