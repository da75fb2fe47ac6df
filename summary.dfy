/**
 * The summary page (src/app/components/summary/summary.component.ts): task
 * counts per status and priority, the earliest urgent due date, and the
 * greeting chosen by the hour of day.
 */
module Summary {
  import opened Seqs
  import opened Sorting
  import opened TaskModel

  /** What `new Date(Math.min(...))` yields; `undefined` when there are no dates. */
  datatype NearestDate = Undefined | InvalidDate | At(time: int)

  /** The string `formatNearestUrgentTaskDate` shows; the date formatting itself is not modelled. */
  datatype UrgentLabel = NoUrgentTasks | DueOn(time: int)

  /** `getTotalTasks`. */
  function TotalTasks(tasks: seq<Task>): (n: nat)
    ensures n == |tasks|
  {
    |tasks|
  }

  /**
   * `tasks.filter(task => task.status === status).length`: the number of
   * tasks with exactly `status`, no more than there are tasks.
   */
  function CountWithStatus(tasks: seq<Task>, status: string): (n: nat)
    ensures n == CountWhere(tasks, StatusIs(status))
    ensures n <= |tasks|
    ensures n == 0 <==> forall i :: 0 <= i < |tasks| ==> tasks[i].status != status
    ensures n == |tasks| <==> forall i :: 0 <= i < |tasks| ==> tasks[i].status == status
  {
    FilterLength(tasks, StatusIs(status));
    |WithStatus(tasks, status)|
  }

  /** `getTasksTodo`. */
  function TasksTodo(tasks: seq<Task>): (n: nat)
    ensures n == CountWithStatus(tasks, "todo")
  {
    |WithStatus(tasks, "todo")|
  }

  /** `getTasksInProgress`. */
  function TasksInProgress(tasks: seq<Task>): (n: nat)
    ensures n == CountWithStatus(tasks, "in_progress")
  {
    |WithStatus(tasks, "in_progress")|
  }

  /** `getTasksAwaitingFeedback`. */
  function TasksAwaitingFeedback(tasks: seq<Task>): (n: nat)
    ensures n == CountWithStatus(tasks, "awaiting_feedback")
  {
    |WithStatus(tasks, "awaiting_feedback")|
  }

  /** `getTasksDone`. */
  function TasksDone(tasks: seq<Task>): (n: nat)
    ensures n == CountWithStatus(tasks, "done")
  {
    |WithStatus(tasks, "done")|
  }

  /** `getTasksUrgent`: the tasks of priority `urgent`, whatever their status. */
  function TasksUrgent(tasks: seq<Task>): (n: nat)
    ensures n == CountWhere(tasks, PriorityIs("urgent"))
    ensures n <= |tasks|
    ensures n == 0 <==> forall i :: 0 <= i < |tasks| ==> tasks[i].priority != "urgent"
  {
    FilterLength(tasks, PriorityIs("urgent"));
    |WithPriority(tasks, "urgent")|
  }

  /**
   * The four status counts never exceed the total, and reach it exactly when
   * every task has one of the four statuses.
   */
  lemma StatusCountsWithinTotal(tasks: seq<Task>)
    ensures TasksTodo(tasks) + TasksInProgress(tasks) + TasksAwaitingFeedback(tasks) + TasksDone(tasks)
              <= TotalTasks(tasks)
    ensures (forall i :: 0 <= i < |tasks| ==> tasks[i].status in KnownStatuses) ==>
              TasksTodo(tasks) + TasksInProgress(tasks) + TasksAwaitingFeedback(tasks) + TasksDone(tasks)
                == TotalTasks(tasks)
    ensures (exists i :: 0 <= i < |tasks| && tasks[i].status !in KnownStatuses) ==>
              TasksTodo(tasks) + TasksInProgress(tasks) + TasksAwaitingFeedback(tasks) + TasksDone(tasks)
                < TotalTasks(tasks)
  {
    StatusCountsAddUp(tasks);
    if exists i :: 0 <= i < |tasks| && tasks[i].status !in KnownStatuses {
      var i :| 0 <= i < |tasks| && tasks[i].status !in KnownStatuses;
      assert tasks[i] in WithUnknownStatus(tasks);
    }
  }

  /**
   * The earliest of the due dates of a non-empty list. A missing date is an
   * invalid `Date`, and one invalid time makes `Math.min` invalid too.
   */
  function EarliestDue(urgent: seq<Task>): (r: NearestDate)
    requires urgent != []
    ensures !r.Undefined?
    ensures r.InvalidDate? <==> exists i :: 0 <= i < |urgent| && urgent[i].dueDate.None?
    ensures r.At? ==> exists i :: 0 <= i < |urgent| && urgent[i].dueDate == Some(r.time)
    ensures r.At? ==> forall i :: 0 <= i < |urgent| ==> r.time <= urgent[i].dueDate.value
  {
    var head := urgent[0].dueDate;
    if |urgent| == 1 then
      if head.None? then InvalidDate else At(head.value)
    else
      var rest := EarliestDue(urgent[1..]);
      assert forall i :: 1 <= i < |urgent| ==> urgent[i] == urgent[1..][i - 1];
      if head.None? || rest.InvalidDate? then InvalidDate
      else if head.value <= rest.time then At(head.value)
      else At(rest.time)
  }

  /**
   * `calculateNearestUrgentTaskDate` over the urgent list: undefined exactly
   * when the list is empty; otherwise the least due date, which is one of the
   * list's dates and no later than any of them.
   */
  function CalculateNearestUrgentTaskDate(urgent: seq<Task>): (r: NearestDate)
    ensures r.Undefined? <==> urgent == []
    ensures r.InvalidDate? <==> exists i :: 0 <= i < |urgent| && urgent[i].dueDate.None?
    ensures r.At? ==> exists i :: 0 <= i < |urgent| && urgent[i].dueDate == Some(r.time)
    ensures r.At? ==> forall i :: 0 <= i < |urgent| ==> r.time <= urgent[i].dueDate.value
  {
    if urgent == [] then Undefined else EarliestDue(urgent)
  }

  /** The filter predicate `task => task.priority === 'urgent' && task.due_date`. */
  function UrgentWithDate(): Task -> bool {
    (t: Task) => t.priority == "urgent" && t.dueDate.Some?
  }

  /** The time a due date stands for; the comparator only meets tasks that have one. */
  function DueTime(t: Task): int {
    if t.dueDate.Some? then t.dueDate.value else 0
  }

  /** The comparator `(a, b) => dateA.getTime() - dateB.getTime()`, as "not after". */
  function DueLe(): (Task, Task) -> bool {
    (a: Task, b: Task) => DueTime(a) <= DueTime(b)
  }

  lemma DueLeTotalPreorder()
    ensures TotalPreorder(DueLe())
  {
  }

  /**
   * The task `formatNearestUrgentTaskDate` picks: the head of the urgent,
   * dated tasks sorted by due date, if there is one.
   */
  function NextUrgentTask(tasks: seq<Task>): (r: Option<Task>)
    ensures r.Some? ==> r.value in tasks && r.value.priority == "urgent" && r.value.dueDate.Some?
  {
    var sorted := SortBy(Filter(tasks, UrgentWithDate()), DueLe());
    if sorted == [] then None
    else
      assert sorted[0] in multiset(sorted);
      Some(sorted[0])
  }

  /** `formatNearestUrgentTaskDate`, with the date left unformatted. */
  function FormatNearestUrgentTaskDate(tasks: seq<Task>): (r: UrgentLabel)
    ensures r.NoUrgentTasks? <==> NextUrgentTask(tasks).None?
    ensures r.DueOn? ==> NextUrgentTask(tasks).value.dueDate == Some(r.time)
  {
    match NextUrgentTask(tasks)
    case None => NoUrgentTasks
    case Some(t) => DueOn(DueTime(t))
  }

  /**
   * There is a next urgent task exactly when some task is urgent and dated,
   * and it is one of those with the earliest due date.
   */
  lemma NextUrgentIsEarliest(tasks: seq<Task>)
    ensures NextUrgentTask(tasks).None? <==>
              forall i :: 0 <= i < |tasks| ==> !(tasks[i].priority == "urgent" && tasks[i].dueDate.Some?)
    ensures NextUrgentTask(tasks).Some? ==>
              var t := NextUrgentTask(tasks).value;
              && t in tasks && t.priority == "urgent" && t.dueDate.Some?
              && forall i :: 0 <= i < |tasks| && tasks[i].priority == "urgent" && tasks[i].dueDate.Some? ==>
                   t.dueDate.value <= tasks[i].dueDate.value
  {
    var dated := Filter(tasks, UrgentWithDate());
    var sorted := SortBy(dated, DueLe());
    if sorted != [] {
      DueLeTotalPreorder();
      SortByFirstIsLeast(dated, DueLe());
      forall i | 0 <= i < |tasks| && tasks[i].priority == "urgent" && tasks[i].dueDate.Some?
        ensures sorted[0].dueDate.value <= tasks[i].dueDate.value
      {
        assert tasks[i] in dated;
        assert DueLe()(sorted[0], tasks[i]);
      }
    }
  }

  /** The label reads "No urgent tasks" exactly when no task is urgent and dated; otherwise it shows the earliest such date. */
  lemma FormatShowsEarliest(tasks: seq<Task>)
    ensures FormatNearestUrgentTaskDate(tasks).NoUrgentTasks? <==>
              forall i :: 0 <= i < |tasks| ==> !(tasks[i].priority == "urgent" && tasks[i].dueDate.Some?)
    ensures FormatNearestUrgentTaskDate(tasks).DueOn? ==>
              && (exists i :: 0 <= i < |tasks| && tasks[i].priority == "urgent"
                    && tasks[i].dueDate == Some(FormatNearestUrgentTaskDate(tasks).time))
              && forall i :: 0 <= i < |tasks| && tasks[i].priority == "urgent" && tasks[i].dueDate.Some? ==>
                   FormatNearestUrgentTaskDate(tasks).time <= tasks[i].dueDate.value
  {
    NextUrgentIsEarliest(tasks);
  }

  /** `setGreeting`'s choice: before noon, before five, or later. */
  function GreetingFor(hour: int): (g: string)
    ensures g == "Good morning" <==> hour < 12
    ensures g == "Good afternoon" <==> 12 <= hour < 17
    ensures g == "Good evening" <==> 17 <= hour
  {
    if hour < 12 then "Good morning"
    else if hour < 17 then "Good afternoon"
    else "Good evening"
  }

  class SummaryComponent {
    var greeting: string
    var tasks: seq<Task>
    var urgentTasks: seq<Task>
    var nearestUrgentTaskDate: NearestDate

    constructor ()
      ensures greeting == "" && tasks == [] && urgentTasks == [] && nearestUrgentTaskDate == Undefined
    {
      greeting, tasks, urgentTasks, nearestUrgentTaskDate := "", [], [], Undefined;
    }

    /** `initAllTasks`, with the fetch as a parameter: a failed fetch leaves the list as it was. */
    method InitAllTasks(fetched: Option<seq<Task>>)
      modifies this
      ensures tasks == (if fetched.Some? then fetched.value else old(tasks))
      ensures greeting == old(greeting) && urgentTasks == old(urgentTasks)
      ensures nearestUrgentTaskDate == old(nearestUrgentTaskDate)
    {
      if fetched.Some? {
        tasks := fetched.value;
      }
    }

    /** `setGreeting`, with the clock's hour passed in. */
    method SetGreeting(hour: int)
      modifies this
      ensures greeting == GreetingFor(hour)
      ensures tasks == old(tasks) && urgentTasks == old(urgentTasks)
      ensures nearestUrgentTaskDate == old(nearestUrgentTaskDate)
    {
      if hour < 12 {
        greeting := "Good morning";
      } else if hour < 17 {
        greeting := "Good afternoon";
      } else {
        greeting := "Good evening";
      }
    }

    /** `getNearestUrgentTaskDate`: stores the earliest date of `urgentTasks`. */
    method GetNearestUrgentTaskDate()
      modifies this
      ensures nearestUrgentTaskDate == CalculateNearestUrgentTaskDate(urgentTasks)
      ensures greeting == old(greeting) && tasks == old(tasks) && urgentTasks == old(urgentTasks)
    {
      nearestUrgentTaskDate := CalculateNearestUrgentTaskDate(urgentTasks);
    }
  }
}
