/**
 * The add-task page (src/app/components/add-task/add-task.component.ts).
 * Unlike the dialogs, its `assigned_to` FormArray holds whole contacts, and
 * a contact counts as selected when an entry has the same first and last
 * name, whatever its id.
 */
module AddTaskPage {
  import opened Seqs
  import opened TaskModel
  import opened TaskForm

  /** The `findIndex`/`some` predicate: same `firstname` and same `lastname`. */
  function SameName(contact: Contact): Contact -> bool {
    (c: Contact) => c.firstname == contact.firstname && c.lastname == contact.lastname
  }

  /** The group `addSubtask` pushes: an empty title and `check` false. */
  const BlankSubtask: SubtaskEntry := SubtaskEntry(None, Some(""), Some(false), None)

  /**
   * Two different contacts who share a name cannot both be selected: with
   * one of them selected, selecting the other removes the first.
   */
  lemma NamesakeDeselects(a: Contact, b: Contact)
    requires a.firstname == b.firstname && a.lastname == b.lastname
    ensures Toggle([a], b, SameName(b)) == []
  {
    assert SameName(b)(a);
    assert FirstIndexWhere([a], SameName(b)) == 0;
  }

  /**
   * On a list where each name appears at most once, `selectContact` flips
   * whether the contact counts as selected, keeps names unique, and undoes
   * itself when applied twice to a contact not yet selected.
   */
  lemma SelectFlips(list: seq<Contact>, contact: Contact)
    requires AtMostOneMatch(list, SameName(contact))
    ensures AnyMatches(Toggle(list, contact, SameName(contact)), SameName(contact)) <==> !AnyMatches(list, SameName(contact))
    ensures AtMostOneMatch(Toggle(list, contact, SameName(contact)), SameName(contact))
    ensures !AnyMatches(list, SameName(contact)) ==>
              Toggle(Toggle(list, contact, SameName(contact)), contact, SameName(contact)) == list
  {
    assert SameName(contact)(contact);
    ToggleFlips(list, contact, SameName(contact));
    if !AnyMatches(list, SameName(contact)) {
      ToggleTwiceRestores(list, contact, SameName(contact));
    }
  }

  /** Every field of the add-task page, as one value. */
  datatype PageState = PageState(
    priority: string,
    flags: PriorityFlags,
    subtasks: seq<SubtaskEntry>,
    assignedTo: seq<Contact>,
    assignedToMenu: bool)

  class AddTask {
    var priority: string
    var prioUrgent: bool
    var prioMedium: bool
    var prioLow: bool
    var subtasks: seq<SubtaskEntry>
    var assignedTo: seq<Contact>
    var assignedToMenu: bool

    /**
     * The state after `initFormGroup`. The form starts at priority `medium`
     * while the field initialisers light the `low` button.
     */
    constructor ()
      ensures Flags() != FlagsFor(priority)
      ensures State() == PageState("medium", PriorityFlags(false, false, true), [], [], false)
    {
      priority := "medium";
      prioUrgent, prioMedium, prioLow := false, false, true;
      subtasks, assignedTo, assignedToMenu := [], [], false;
    }

    function Flags(): PriorityFlags
      reads this
    {
      PriorityFlags(prioUrgent, prioMedium, prioLow)
    }

    /** The whole page state. */
    function State(): PageState
      reads this
    {
      PageState(priority, Flags(), subtasks, assignedTo, assignedToMenu)
    }

    /** `setPriority`: the form's priority becomes `p` and the buttons light up accordingly. */
    method SetPriority(p: string)
      modifies this
      ensures priority == p && Flags() == FlagsFor(p)
      ensures State() == old(State()).(priority := p, flags := FlagsFor(p))
    {
      priority := p;
      prioUrgent := p == "urgent";
      prioMedium := p == "medium";
      prioLow := p == "low";
    }

    /** `addSubtask`: always appends one blank, unticked entry; there is no title to check. */
    method AddSubtask()
      modifies this
      ensures subtasks == old(subtasks) + [BlankSubtask]
      ensures |subtasks| == |old(subtasks)| + 1
      ensures State() == old(State()).(subtasks := subtasks)
    {
      subtasks := subtasks + [BlankSubtask];
    }

    /** `removeSubtask`: `FormArray.removeAt` drops entry `index` when there is one. */
    method RemoveSubtask(index: nat)
      modifies this
      ensures index < |old(subtasks)| ==> subtasks == RemoveAt(old(subtasks), index)
      ensures |old(subtasks)| <= index ==> subtasks == old(subtasks)
      ensures State() == old(State()).(subtasks := subtasks)
    {
      subtasks := Splice1(subtasks, index);
    }

    /** `isSelected`: some entry has the contact's first and last name. */
    function IsSelected(contact: Contact): (r: bool)
      reads this
      ensures r <==> exists i :: 0 <= i < |assignedTo|
                        && assignedTo[i].firstname == contact.firstname && assignedTo[i].lastname == contact.lastname
    {
      AnyMatches(assignedTo, SameName(contact))
    }

    /** `selectContact`: removes the first namesake, or appends the contact itself. */
    method SelectContact(contact: Contact)
      modifies this
      ensures assignedTo == Toggle(old(assignedTo), contact, SameName(contact))
      ensures State() == old(State()).(assignedTo := assignedTo)
    {
      if IsSelected(contact) {
        var index := FirstIndexWhere(assignedTo, SameName(contact));
        if index != -1 {
          assignedTo := Splice1(assignedTo, index);
        }
      } else {
        assignedTo := assignedTo + [contact];
      }
    }

    /** `toggleAssignedToMenu`. */
    method ToggleAssignedToMenu()
      modifies this
      ensures State() == old(State()).(assignedToMenu := !old(assignedToMenu))
    {
      assignedToMenu := !assignedToMenu;
    }

    /** `cancelSelection`: nobody is assigned, and the menu flips rather than closes. */
    method CancelSelection()
      modifies this
      ensures State() == old(State()).(assignedTo := [], assignedToMenu := !old(assignedToMenu))
    {
      assignedTo := [];
      ToggleAssignedToMenu();
    }

    /**
     * `onSubmit`: the create call is issued exactly when the form is valid,
     * which needs at least one assignee besides valid other controls.
     */
    method OnSubmit(otherControlsValid: bool) returns (createIssued: bool)
      ensures createIssued <==> TaskFormValid(otherControlsValid, assignedTo)
      ensures createIssued ==> assignedTo != []
    {
      createIssued := false;
      if otherControlsValid && assignedTo != [] {
        createIssued := true;
      }
    }
  }
}
