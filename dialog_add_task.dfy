/**
 * The add-task dialog
 * (src/app/components/dialog-add-task/dialog-add-task.component.ts): the
 * status a new task starts in, the priority buttons, the subtask and
 * assignee FormArrays, and the guard in front of the create call.
 */
module DialogAddTask {
  import opened Seqs
  import opened Ascii
  import opened TaskModel
  import opened TaskForm

  /** `getCurrentStatus`: the status passed to the dialog when it is truthy (a non-empty string), else `todo`. */
  function CurrentStatusFor(dataStatus: Option<string>): (s: string)
    ensures dataStatus.Some? && dataStatus.value != "" ==> s == dataStatus.value
    ensures !(dataStatus.Some? && dataStatus.value != "") ==> s == "todo"
    ensures s != ""
  {
    if dataStatus.Some? && dataStatus.value != "" then dataStatus.value else "todo"
  }

  /** A subtask typed into the dialog: a title and the `check` key, unticked. */
  function NewSubtask(title: string): (e: SubtaskEntry)
    ensures e.title == Some(title) && e.check == Some(false) && e.checked.None? && e.id.None?
  {
    SubtaskEntry(None, Some(title), Some(false), None)
  }

  /**
   * The guard of `onSubmit` as written: the create call is skipped only when
   * the form is invalid and no category is selected.
   */
  function SubmitProceeds(formValid: bool, categorySelected: bool): (r: bool)
    ensures !r <==> !formValid && !categorySelected
    ensures formValid ==> r
  {
    !(!formValid && !categorySelected)
  }

  /** So an invalid form goes to the create call as soon as a category is selected. */
  lemma InvalidFormStillSubmits()
    ensures SubmitProceeds(false, true)
  {
  }

  /**
   * The guard the method's own documentation describes: the submission is
   * aborted when the form is invalid or no category is selected.
   */
  function IntendedSubmitProceeds(formValid: bool, categorySelected: bool): (r: bool)
    ensures r <==> formValid && categorySelected
  {
    formValid && categorySelected
  }

  /**
   * The intended guard never lets an invalid form through, and it lets
   * through no more than the written one; the two differ exactly when one
   * of the two conditions holds without the other.
   */
  lemma IntendedGuardIsStricter(formValid: bool, categorySelected: bool)
    ensures IntendedSubmitProceeds(formValid, categorySelected) ==> formValid
    ensures IntendedSubmitProceeds(formValid, categorySelected) ==> SubmitProceeds(formValid, categorySelected)
    ensures (IntendedSubmitProceeds(formValid, categorySelected) != SubmitProceeds(formValid, categorySelected))
            <==> formValid != categorySelected
  {
  }

  /** Every field of the add-task dialog, as one value. */
  datatype DialogState = DialogState(
    currentStatus: string,
    priority: string,
    flags: PriorityFlags,
    subtasks: seq<SubtaskEntry>,
    assignedTo: seq<int>,
    assignedToMenu: bool,
    categories: seq<Category>,
    selectedCategory: Option<Category>,
    categoryAlreadyExist: bool,
    submitted: bool)

  class AddTaskDialog {
    var currentStatus: string
    var priority: string
    var prioUrgent: bool
    var prioMedium: bool
    var prioLow: bool
    var subtasks: seq<SubtaskEntry>
    var assignedTo: seq<int>
    var assignedToMenu: bool
    var categories: seq<Category>
    var selectedCategory: Option<Category>
    var categoryAlreadyExist: bool
    var submitted: bool

    /** The state after `initFormGroup`: priority `low`, with only the low button lit. */
    constructor ()
      ensures State() == DialogState("todo", "low", PriorityFlags(false, false, true), [], [], false, [], None, false, false)
      ensures Flags() == FlagsFor(priority)
    {
      currentStatus, priority := "todo", "low";
      prioUrgent, prioMedium, prioLow := false, false, true;
      subtasks, assignedTo, assignedToMenu := [], [], false;
      categories, selectedCategory, categoryAlreadyExist, submitted := [], None, false, false;
    }

    function Flags(): PriorityFlags
      reads this
    {
      PriorityFlags(prioUrgent, prioMedium, prioLow)
    }

    /** The whole dialog state. */
    function State(): DialogState
      reads this
    {
      DialogState(currentStatus, priority, Flags(), subtasks, assignedTo, assignedToMenu,
                  categories, selectedCategory, categoryAlreadyExist, submitted)
    }

    /** `getCurrentStatus`, with `data.status` as a parameter. */
    method GetCurrentStatus(dataStatus: Option<string>)
      modifies this
      ensures currentStatus == CurrentStatusFor(dataStatus)
      ensures State() == old(State()).(currentStatus := CurrentStatusFor(dataStatus))
    {
      if dataStatus.Some? && dataStatus.value != "" {
        currentStatus := dataStatus.value;
      } else {
        currentStatus := "todo";
      }
    }

    /** `setPriority`: the form's priority becomes `p` and the buttons light up accordingly. */
    method SetPriority(p: string)
      modifies this
      ensures priority == p && Flags() == FlagsFor(p)
      ensures State() == old(State()).(priority := p, flags := FlagsFor(p))
    {
      priority := p;
      prioUrgent := p == "urgent";
      prioMedium := p == "medium";
      prioLow := p == "low";
    }

    /** `addSubtask`: an empty title is ignored; any other is appended, unticked. */
    method AddSubtask(title: string)
      modifies this
      ensures title == "" ==> subtasks == old(subtasks)
      ensures title != "" ==> subtasks == old(subtasks) + [NewSubtask(title)]
      ensures State() == old(State()).(subtasks := subtasks)
    {
      if title != "" {
        subtasks := subtasks + [NewSubtask(title)];
      }
    }

    /** `removeSubtask`: `FormArray.removeAt` drops entry `index` when there is one. */
    method RemoveSubtask(index: nat)
      modifies this
      ensures index < |old(subtasks)| ==> subtasks == RemoveAt(old(subtasks), index)
      ensures |old(subtasks)| <= index ==> subtasks == old(subtasks)
      ensures State() == old(State()).(subtasks := subtasks)
    {
      subtasks := Splice1(subtasks, index);
    }

    /** `isSelected`: some control of `assigned_to` holds the contact's id. */
    function IsSelected(contact: Contact): (r: bool)
      reads this
      ensures r <==> contact.id in assignedTo
    {
      IdMatches(assignedTo, contact.id);
      AnyMatches(assignedTo, IdIs(contact.id))
    }

    /** `selectContact`: removes the contact's id where it first occurs, or appends it. */
    method SelectContact(contact: Contact)
      modifies this
      ensures assignedTo == Toggle(old(assignedTo), contact.id, IdIs(contact.id))
      ensures State() == old(State()).(assignedTo := assignedTo)
    {
      if IsSelected(contact) {
        var index := FirstIndexWhere(assignedTo, IdIs(contact.id));
        if index != -1 {
          assignedTo := Splice1(assignedTo, index);
        }
      } else {
        assignedTo := assignedTo + [contact.id];
      }
    }

    /** `cancelSelection`: nobody is assigned and the menu closes. */
    method CancelSelection()
      modifies this
      ensures State() == old(State()).(assignedTo := [], assignedToMenu := false)
    {
      assignedTo := [];
      assignedToMenu := false;
    }

    /** `categoryExists` over the loaded categories. */
    function CategoryExistsHere(name: string): (r: bool)
      reads this
      ensures r <==> exists i :: 0 <= i < |categories| && Lower(categories[i].name) == Lower(name)
    {
      CategoryExists(categories, name)
    }

    /**
     * `onSubmit` as written: marks the form submitted, then gives up only
     * when the form is invalid and no category is selected, so an invalid
     * form with a category still issues the create call (see
     * `InvalidFormStillSubmits`; the guard meant is `IntendedSubmitProceeds`).
     * The form is valid when the other controls are and someone is assigned.
     */
    method OnSubmit(otherControlsValid: bool) returns (createIssued: bool)
      modifies this
      ensures createIssued == SubmitProceeds(TaskFormValid(otherControlsValid, old(assignedTo)),
                                             old(selectedCategory).Some?)
      ensures createIssued && old(assignedTo) == [] ==> old(selectedCategory).Some?
      ensures State() == old(State()).(submitted := true)
    {
      submitted := true;
      if !(otherControlsValid && assignedTo != []) && selectedCategory.None? {
        return false;
      }
      createIssued := true;
    }

    /**
     * `createNewCategory`, with the category form's validity and the
     * server's answer as parameters: the same guard as in the edit dialog.
     */
    method CreateNewCategory(formValid: bool, data: Category, createSucceeds: bool) returns (createIssued: bool)
      modifies this
      ensures createIssued <==> formValid && !CategoryExists(old(categories), data.name)
      ensures categoryAlreadyExist == (if formValid && CategoryExists(old(categories), data.name) then true
                                       else old(categoryAlreadyExist))
      ensures selectedCategory == (if createIssued && createSucceeds then Some(data) else old(selectedCategory))
      ensures State() == old(State()).(categoryAlreadyExist := categoryAlreadyExist,
                                       selectedCategory := selectedCategory)
    {
      createIssued := false;
      if formValid {
        if !CategoryExists(categories, data.name) {
          createIssued := true;
          if createSucceeds {
            selectedCategory := Some(data);
          }
        } else {
          categoryAlreadyExist := true;
        }
      }
    }
  }
}
