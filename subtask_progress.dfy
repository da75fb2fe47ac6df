/**
 * The progress counter of a task card (`getSubtaskCountsForTask`, identical
 * in the task and the todo service): how many subtasks there are and how
 * many of them are ticked. A subtask counts as ticked only when its optional
 * `checked` flag is present and true.
 */
module SubtaskProgress {
  import opened Seqs
  import opened TaskModel

  datatype Counts = Counts(total: nat, checked: nat)

  /** The filter predicate `st => st.checked`: an absent flag is falsy. */
  function IsChecked(): Subtask -> bool {
    (st: Subtask) => st.checked == Some(true)
  }

  /**
   * `getSubtaskCountsForTask`: `total` is the length of the subtask list and
   * `checked` the length of its ticked part. Being a function of its
   * argument, it leaves the task as it was.
   */
  function SubtaskCountsForTask(task: Task): (r: Counts)
    ensures r.total == |task.subtasks|
    ensures r.checked <= r.total
    ensures r.checked == 0 <==> forall i :: 0 <= i < |task.subtasks| ==> task.subtasks[i].checked != Some(true)
    ensures r.checked == r.total <==> forall i :: 0 <= i < |task.subtasks| ==> task.subtasks[i].checked == Some(true)
  {
    Counts(|task.subtasks|, |Filter(task.subtasks, IsChecked())|)
  }

  /** So `checked` is the number of subtasks whose flag is present and true. */
  lemma CheckedIsTicked(task: Task)
    ensures SubtaskCountsForTask(task).checked == CountWhere(task.subtasks, IsChecked())
  {
    FilterLength(task.subtasks, IsChecked());
  }

  /** A task without subtasks shows 0 of 0. */
  lemma NoSubtasks(task: Task)
    requires task.subtasks == []
    ensures SubtaskCountsForTask(task) == Counts(0, 0)
  {
  }

  /**
   * Appending a subtask raises `total` by one, and `checked` by one exactly
   * when the new subtask is ticked; a missing or false flag leaves it.
   */
  lemma AppendSubtask(task: Task, st: Subtask)
    ensures var after := SubtaskCountsForTask(task.(subtasks := task.subtasks + [st]));
            var before := SubtaskCountsForTask(task);
            && after.total == before.total + 1
            && after.checked == before.checked + (if st.checked == Some(true) then 1 else 0)
  {
    FilterAppend(task.subtasks, [st], IsChecked());
    assert Filter([st], IsChecked()) == (if st.checked == Some(true) then [st] else []) by {
      assert [st][1..] == [];
    }
  }
}
