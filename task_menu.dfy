/**
 * The task menu dialog (src/app/components/task-menu/task-menu.component.ts):
 * the initials badge, the priority icon, and the guarded status update.
 */
module TaskMenu {
  import opened Ascii
  import opened TaskModel

  /** The `statuses` list: the statuses a task may be moved to from the menu. */
  const Statuses: seq<string> := ["todo", "in_progress", "awaiting_feedback", "done"]

  /** They are the statuses the board has columns for, and none is listed twice. */
  lemma StatusesAreBoardColumns()
    ensures Statuses == KnownStatuses
    ensures forall i, j :: 0 <= i < j < |Statuses| ==> Statuses[i] != Statuses[j]
  {
  }

  /** `name?.[0] ?? ''`: the first character, or nothing for a missing or empty name. */
  function FirstChar(name: Option<string>): (r: string)
    ensures |r| <= 1
    ensures r == [] <==> name.None? || name.value == []
    ensures r != [] ==> r[0] == name.value[0]
  {
    if name.Some? && name.value != [] then [name.value[0]] else []
  }

  /**
   * `getInitials`: the first letters of the two names, upper-cased, first
   * name first. A missing or empty name contributes nothing.
   */
  function GetInitials(firstname: Option<string>, lastname: Option<string>): (r: string)
    ensures |r| <= 2
    ensures |r| == |FirstChar(firstname)| + |FirstChar(lastname)|
    ensures r == [] <==> (firstname.None? || firstname.value == []) && (lastname.None? || lastname.value == [])
    ensures forall i :: 0 <= i < |r| ==> !IsLower(r[i])
    ensures firstname.Some? && firstname.value != [] ==> r[0] == UpperChar(firstname.value[0])
    ensures lastname.Some? && lastname.value != [] ==> r[|r| - 1] == UpperChar(lastname.value[0])
  {
    Upper(FirstChar(firstname) + FirstChar(lastname))
  }

  /** Only the first letter of each name matters. */
  lemma InitialsIgnoreRest(first: string, last: string, moreFirst: string, moreLast: string)
    requires first != [] && last != []
    ensures GetInitials(Some(first + moreFirst), Some(last + moreLast)) == GetInitials(Some(first), Some(last))
  {
    assert (first + moreFirst)[0] == first[0];
    assert (last + moreLast)[0] == last[0];
  }

  /** `getPriorityImage`: the icon of each of the three priorities, and no icon for anything else. */
  function GetPriorityImage(prio: string): (r: string)
    ensures prio == "low" ==> r == "assets/img/prio_low_white.png"
    ensures prio == "medium" ==> r == "assets/img/prio_medium.png"
    ensures prio == "urgent" ==> r == "assets/img/prio_urgent.png"
    ensures r == "" <==> prio != "low" && prio != "medium" && prio != "urgent"
  {
    match prio
    case "low" => "assets/img/prio_low_white.png"
    case "medium" => "assets/img/prio_medium.png"
    case "urgent" => "assets/img/prio_urgent.png"
    case _ => ""
  }

  /** Different priorities get different icons. */
  lemma PriorityImagesDistinct(p: string, q: string)
    requires GetPriorityImage(p) != ""
    ensures GetPriorityImage(p) == GetPriorityImage(q) <==> p == q
  {
  }

  /** The body `updateTaskStatus` sends: the new status and nothing else. */
  datatype StatusPayload = StatusPayload(status: string)

  /** An `updateTask` call: which task, and with what. */
  datatype UpdateCall = UpdateCall(taskId: int, payload: StatusPayload)

  class TaskMenuDialog {
    var task: Option<Task>

    constructor ()
      ensures task.None?
    {
      task := None;
    }

    /** `loadtaskbyId`, with the fetch as a parameter: a failed fetch leaves the task as it was. */
    method LoadTaskById(fetched: Option<Task>)
      modifies this
      ensures task == (if fetched.Some? then fetched else old(task))
    {
      if fetched.Some? {
        task := fetched;
      }
    }

    /**
     * `updateTaskStatus`: the update call is issued only when a task is
     * loaded and the status is listed; it names the loaded task and carries
     * only the new status. The task itself is not changed here.
     */
    method UpdateTaskStatus(newStatus: string) returns (call: Option<UpdateCall>)
      ensures call.Some? <==> task.Some? && newStatus in Statuses
      ensures call.Some? ==> call.value == UpdateCall(task.value.id, StatusPayload(newStatus))
      ensures call.Some? ==> call.value.payload.status in KnownStatuses
    {
      call := None;
      if task.Some? && newStatus in Statuses {
        call := Some(UpdateCall(task.value.id, StatusPayload(newStatus)));
      }
    }
  }
}
