/**
 * The edit-task dialog
 * (src/app/components/dialog-edit-task/dialog-edit-task.component.ts): it
 * rebuilds its form lists from the loaded task, lets the user edit them like
 * the add dialog does, and guards the category-create and update calls.
 */
module DialogEditTask {
  import opened Seqs
  import opened Ascii
  import opened TaskModel
  import opened TaskForm

  /** The form group `addSubtaskToDb` pushes for a loaded subtask: its id, title and `checked` flag. */
  function MirrorSubtask(st: Subtask): (e: SubtaskEntry)
    ensures e.id == st.id && e.title == st.title && e.checked == st.checked && e.check.None?
  {
    SubtaskEntry(st.id, st.title, None, st.checked)
  }

  /** A subtask typed into the edit dialog: a title and the `checked` key (not `check`), unticked. */
  function NewSubtask(title: string): (e: SubtaskEntry)
    ensures e.title == Some(title) && e.checked == Some(false) && e.check.None? && e.id.None?
  {
    SubtaskEntry(None, Some(title), None, Some(false))
  }

  /** Every field of the edit dialog, as one value. */
  datatype EditState = EditState(
    task: Option<Task>,
    title: string,
    description: string,
    dueDate: Option<int>,
    categoryId: Option<int>,
    priority: string,
    status: string,
    flags: PriorityFlags,
    subtasks: seq<SubtaskEntry>,
    assignedTo: seq<int>,
    assignedToMenu: bool,
    categories: seq<Category>,
    selectedCategory: Option<Category>,
    categoryAlreadyExist: bool)

  /** An `updateTask` call: the task id from the dialog's data and the form's value. */
  datatype TaskUpdate = TaskUpdate(
    taskId: int,
    title: string,
    description: string,
    dueDate: Option<int>,
    categoryId: Option<int>,
    priority: string,
    status: string,
    assignedTo: seq<int>,
    subtasks: seq<SubtaskEntry>)

  class EditTaskDialog {
    /** `data.taskId`, the id of the task the dialog was opened for. */
    const taskId: int
    var task: Option<Task>
    var title: string
    var description: string
    var dueDate: Option<int>
    var categoryId: Option<int>
    var priority: string
    var status: string
    var prioUrgent: bool
    var prioMedium: bool
    var prioLow: bool
    var subtasks: seq<SubtaskEntry>
    var assignedTo: seq<int>
    var assignedToMenu: bool
    var categories: seq<Category>
    var selectedCategory: Option<Category>
    var categoryAlreadyExist: bool

    /** The state after `initFormGroup`: an empty priority and no button lit. */
    constructor (taskId: int)
      ensures this.taskId == taskId
      ensures State() == EditState(None, "", "", None, None, "", "todo", PriorityFlags(false, false, false),
                                   [], [], false, [], None, false)
      ensures Flags() == FlagsFor(priority)
    {
      this.taskId := taskId;
      task, title, description, dueDate, categoryId := None, "", "", None, None;
      priority, status := "", "todo";
      prioUrgent, prioMedium, prioLow := false, false, false;
      subtasks, assignedTo, assignedToMenu := [], [], false;
      categories, selectedCategory, categoryAlreadyExist := [], None, false;
    }

    function Flags(): PriorityFlags
      reads this
    {
      PriorityFlags(prioUrgent, prioMedium, prioLow)
    }

    /** The whole dialog state. */
    function State(): EditState
      reads this
    {
      EditState(task, title, description, dueDate, categoryId, priority, status, Flags(),
                subtasks, assignedTo, assignedToMenu, categories, selectedCategory, categoryAlreadyExist)
    }

    /**
     * `updateAssignedTo`: clears `assigned_to` and pushes the id of each
     * contact in turn, so the list holds exactly their ids in order.
     */
    method UpdateAssignedTo(contacts: seq<Contact>)
      modifies this
      ensures |assignedTo| == |contacts|
      ensures forall i :: 0 <= i < |contacts| ==> assignedTo[i] == contacts[i].id
      ensures forall c: Contact :: IsSelected(c) <==> exists i :: 0 <= i < |contacts| && contacts[i].id == c.id
      ensures State() == old(State()).(assignedTo := assignedTo)
    {
      assignedTo := [];
      for i := 0 to |contacts|
        invariant |assignedTo| == i
        invariant forall k :: 0 <= k < i ==> assignedTo[k] == contacts[k].id
        invariant State() == old(State()).(assignedTo := assignedTo)
      {
        assignedTo := assignedTo + [contacts[i].id];
      }
      forall c: Contact ensures IsSelected(c) <==> exists i :: 0 <= i < |contacts| && contacts[i].id == c.id {
        if IsSelected(c) {
          var k :| 0 <= k < |assignedTo| && assignedTo[k] == c.id;
          assert contacts[k].id == c.id;
        }
      }
    }

    /**
     * `addSubtaskToDb`: clears `subtasks` and pushes one group per subtask of
     * the task, so the list mirrors the task's subtasks in order.
     */
    method AddSubtaskToDb(t: Task)
      modifies this
      ensures |subtasks| == |t.subtasks|
      ensures forall i :: 0 <= i < |t.subtasks| ==> subtasks[i] == MirrorSubtask(t.subtasks[i])
      ensures State() == old(State()).(subtasks := subtasks)
    {
      subtasks := [];
      for i := 0 to |t.subtasks|
        invariant |subtasks| == i
        invariant forall k :: 0 <= k < i ==> subtasks[k] == MirrorSubtask(t.subtasks[k])
        invariant State() == old(State()).(subtasks := subtasks)
      {
        subtasks := subtasks + [MirrorSubtask(t.subtasks[i])];
      }
    }

    /** `showCurrentTaskPrio`: only the flags change. */
    method ShowCurrentTaskPrio(p: string)
      modifies this
      ensures Flags() == FlagsFor(p)
      ensures State() == old(State()).(flags := FlagsFor(p))
    {
      prioLow := p == "low";
      prioMedium := p == "medium";
      prioUrgent := p == "urgent";
    }

    /** `updateFormWithTask`: patches the scalar fields, lights the task's priority and mirrors its subtasks. */
    method UpdateFormWithTask(t: Task)
      modifies this
      ensures title == t.title && description == t.description && dueDate == t.dueDate
      ensures categoryId == t.category.id && priority == t.priority && status == t.status
      ensures Flags() == FlagsFor(t.priority)
      ensures |subtasks| == |t.subtasks|
      ensures forall i :: 0 <= i < |t.subtasks| ==> subtasks[i] == MirrorSubtask(t.subtasks[i])
      ensures State() == old(State()).(title := t.title, description := t.description, dueDate := t.dueDate,
                                       categoryId := t.category.id, priority := t.priority, status := t.status,
                                       flags := FlagsFor(t.priority), subtasks := subtasks)
    {
      title, description, dueDate := t.title, t.description, t.dueDate;
      categoryId, priority, status := t.category.id, t.priority, t.status;
      ShowCurrentTaskPrio(t.priority);
      AddSubtaskToDb(t);
    }

    /**
     * `loadTaskById`, with the fetch as a parameter: a failed fetch changes
     * nothing; a loaded task fills the form, its subtasks and its assignees,
     * and leaves the categories and the menu as they were.
     */
    method LoadTaskById(fetched: Option<Task>)
      modifies this
      ensures fetched.None? ==> State() == old(State())
      ensures fetched.Some? ==>
                && task == fetched
                && title == fetched.value.title && description == fetched.value.description
                && dueDate == fetched.value.dueDate && categoryId == fetched.value.category.id
                && priority == fetched.value.priority && status == fetched.value.status
                && Flags() == FlagsFor(fetched.value.priority)
                && |subtasks| == |fetched.value.subtasks|
                && (forall i :: 0 <= i < |subtasks| ==> subtasks[i] == MirrorSubtask(fetched.value.subtasks[i]))
                && |assignedTo| == |fetched.value.assignedTo|
                && (forall i :: 0 <= i < |assignedTo| ==> assignedTo[i] == fetched.value.assignedTo[i].id)
      ensures fetched.Some? ==>
                State() == old(State()).(task := fetched, title := fetched.value.title,
                                         description := fetched.value.description, dueDate := fetched.value.dueDate,
                                         categoryId := fetched.value.category.id, priority := fetched.value.priority,
                                         status := fetched.value.status, flags := FlagsFor(fetched.value.priority),
                                         subtasks := subtasks, assignedTo := assignedTo)
    {
      if fetched.Some? {
        task := fetched;
        UpdateFormWithTask(fetched.value);
        UpdateAssignedTo(fetched.value.assignedTo);
      }
    }

    /** `setPriority`: the form's priority becomes `p` and the buttons light up accordingly. */
    method SetPriority(p: string)
      modifies this
      ensures priority == p && Flags() == FlagsFor(p)
      ensures State() == old(State()).(priority := p, flags := FlagsFor(p))
    {
      priority := p;
      prioUrgent := p == "urgent";
      prioMedium := p == "medium";
      prioLow := p == "low";
    }

    /** `addSubtask`: an empty title is ignored; any other is appended with `checked` false. */
    method AddSubtask(subtaskTitle: string)
      modifies this
      ensures subtaskTitle == "" ==> subtasks == old(subtasks)
      ensures subtaskTitle != "" ==> subtasks == old(subtasks) + [NewSubtask(subtaskTitle)]
      ensures State() == old(State()).(subtasks := subtasks)
    {
      if subtaskTitle != "" {
        subtasks := subtasks + [NewSubtask(subtaskTitle)];
      }
    }

    /** `removeSubtask`: `FormArray.removeAt` drops entry `index` when there is one. */
    method RemoveSubtask(index: nat)
      modifies this
      ensures index < |old(subtasks)| ==> subtasks == RemoveAt(old(subtasks), index)
      ensures |old(subtasks)| <= index ==> subtasks == old(subtasks)
      ensures State() == old(State()).(subtasks := subtasks)
    {
      subtasks := Splice1(subtasks, index);
    }

    /** `isSelected`: some control of `assigned_to` holds the contact's id. */
    function IsSelected(contact: Contact): (r: bool)
      reads this
      ensures r <==> contact.id in assignedTo
    {
      IdMatches(assignedTo, contact.id);
      AnyMatches(assignedTo, IdIs(contact.id))
    }

    /** `selectContact`: removes the contact's id where it first occurs, or appends it. */
    method SelectContact(contact: Contact)
      modifies this
      ensures assignedTo == Toggle(old(assignedTo), contact.id, IdIs(contact.id))
      ensures State() == old(State()).(assignedTo := assignedTo)
    {
      if IsSelected(contact) {
        var index := FirstIndexWhere(assignedTo, IdIs(contact.id));
        if index != -1 {
          assignedTo := Splice1(assignedTo, index);
        }
      } else {
        assignedTo := assignedTo + [contact.id];
      }
    }

    /** `cancelSelection`: nobody is assigned and the menu closes. */
    method CancelSelection()
      modifies this
      ensures State() == old(State()).(assignedTo := [], assignedToMenu := false)
    {
      assignedTo := [];
      assignedToMenu := false;
    }

    /** `toggleAssignedToMenu`: the menu opens when closed and closes when open. */
    method ToggleAssignedToMenu()
      modifies this
      ensures State() == old(State()).(assignedToMenu := !old(assignedToMenu))
    {
      assignedToMenu := !assignedToMenu;
    }

    /**
     * `createNewCategory`, with the category form's validity and the
     * server's answer as parameters. Nothing happens for an invalid form; a
     * name already present in any case sets `categoryAlreadyExist` and
     * issues no call; otherwise the create call is issued and, when it
     * succeeds, the new category becomes the selected one.
     */
    method CreateNewCategory(formValid: bool, data: Category, createSucceeds: bool) returns (createIssued: bool)
      modifies this
      ensures createIssued <==> formValid && !CategoryExists(old(categories), data.name)
      ensures categoryAlreadyExist == (if formValid && CategoryExists(old(categories), data.name) then true
                                       else old(categoryAlreadyExist))
      ensures selectedCategory == (if createIssued && createSucceeds then Some(data) else old(selectedCategory))
      ensures State() == old(State()).(categoryAlreadyExist := categoryAlreadyExist,
                                       selectedCategory := selectedCategory)
    {
      createIssued := false;
      if formValid {
        if !CategoryExists(categories, data.name) {
          createIssued := true;
          if createSucceeds {
            selectedCategory := Some(data);
          }
        } else {
          categoryAlreadyExist := true;
        }
      }
    }

    /** `categoryExists` over the loaded categories. */
    function CategoryExistsHere(name: string): (r: bool)
      reads this
      ensures r <==> exists i :: 0 <= i < |categories| && Lower(categories[i].name) == Lower(name)
    {
      CategoryExists(categories, name)
    }

    /**
     * `onSubmit`: when the form is valid (the other controls valid and
     * someone assigned), the update call is issued for the dialog's task id
     * with the form's current value; otherwise nothing is sent.
     */
    method OnSubmit(otherControlsValid: bool) returns (update: Option<TaskUpdate>)
      ensures update.Some? <==> TaskFormValid(otherControlsValid, assignedTo)
      ensures update.Some? ==> update.value.taskId == taskId && update.value.assignedTo != []
      ensures update.Some? ==>
                update.value == TaskUpdate(taskId, title, description, dueDate, categoryId, priority, status,
                                           assignedTo, subtasks)
    {
      update := None;
      if otherControlsValid && assignedTo != [] {
        update := Some(TaskUpdate(taskId, title, description, dueDate, categoryId, priority, status,
                                  assignedTo, subtasks));
      }
    }
  }
}
