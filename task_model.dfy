/**
 * The records of the task board (src/app/shared/todo-interface.ts) and the
 * status and priority filters that the board and the summary apply to a
 * fetched task list.
 */
module TaskModel {
  import opened Seqs

  /** An optional value: JavaScript's `undefined`/`null` is `None`. */
  datatype Option<T> = None | Some(value: T)

  /** A checklist line of a task; every field is optional. */
  datatype Subtask = Subtask(id: Option<int>, title: Option<string>, checked: Option<bool>)

  datatype Contact = Contact(
    id: int, firstname: string, lastname: string, email: string, phone: Option<string>, color: string)

  datatype Category = Category(id: Option<int>, name: string, color: string)

  /**
   * A task. `status` and `priority` are strings: the interface names closed
   * sets of values, but nothing checks what the backend sends. A due date is
   * an integer timestamp, `None` standing for the empty (falsy) date string.
   */
  datatype Task = Task(
    id: int,
    title: string,
    description: string,
    dueDate: Option<int>,
    category: Category,
    priority: string,
    status: string,
    assignedTo: seq<Contact>,
    subtasks: seq<Subtask>)

  /** The four statuses the board has a column for. */
  const KnownStatuses: seq<string> := ["todo", "in_progress", "awaiting_feedback", "done"]

  /** The filter predicate `task => task.status === status`. */
  function StatusIs(status: string): Task -> bool {
    (t: Task) => t.status == status
  }

  /** The filter predicate `task => task.priority === priority`. */
  function PriorityIs(priority: string): Task -> bool {
    (t: Task) => t.priority == priority
  }

  /** Holds of a task whose status is none of the four. */
  function UnknownStatus(): Task -> bool {
    (t: Task) => t.status !in KnownStatuses
  }

  /** `tasks.filter(task => task.status === status)`. */
  function WithStatus(tasks: seq<Task>, status: string): (r: seq<Task>)
    ensures |r| <= |tasks|
    ensures forall t :: t in r <==> t in tasks && t.status == status
  {
    Filter(tasks, StatusIs(status))
  }

  /** `tasks.filter(task => task.priority === priority)`. */
  function WithPriority(tasks: seq<Task>, priority: string): (r: seq<Task>)
    ensures |r| <= |tasks|
    ensures forall t :: t in r <==> t in tasks && t.priority == priority
  {
    Filter(tasks, PriorityIs(priority))
  }

  /** The tasks no column takes: their status is none of the four. */
  function WithUnknownStatus(tasks: seq<Task>): (r: seq<Task>)
    ensures forall t :: t in r <==> t in tasks && t.status !in KnownStatuses
  {
    Filter(tasks, UnknownStatus())
  }

  /**
   * The four status filters and the unknown-status rest partition the task
   * list: every task is taken by exactly one of them, as often as it occurs.
   */
  lemma {:induction false} StatusPartition(tasks: seq<Task>)
    ensures multiset(WithStatus(tasks, "todo")) + multiset(WithStatus(tasks, "in_progress"))
          + multiset(WithStatus(tasks, "awaiting_feedback")) + multiset(WithStatus(tasks, "done"))
          + multiset(WithUnknownStatus(tasks)) == multiset(tasks)
  {
    if tasks != [] {
      var t, rest := tasks[0], tasks[1..];
      StatusPartition(rest);
      SplitHead(tasks);
      var a := StatusStep(tasks, "todo");
      var b := StatusStep(tasks, "in_progress");
      var c := StatusStep(tasks, "awaiting_feedback");
      var d := StatusStep(tasks, "done");
      var u := UnknownStep(tasks);
      TakenOnce(t);
      Regroup(a, b, c, d, u, multiset(WithStatus(rest, "todo")), multiset(WithStatus(rest, "in_progress")),
        multiset(WithStatus(rest, "awaiting_feedback")), multiset(WithStatus(rest, "done")),
        multiset(WithUnknownStatus(rest)));
    }
  }

  /** A task is taken by exactly one of the four status filters and the unknown-status filter. */
  lemma TakenOnce(t: Task)
    ensures (if t.status == "todo" then multiset{t} else multiset{})
          + (if t.status == "in_progress" then multiset{t} else multiset{})
          + (if t.status == "awaiting_feedback" then multiset{t} else multiset{})
          + (if t.status == "done" then multiset{t} else multiset{})
          + (if t.status !in KnownStatuses then multiset{t} else multiset{}) == multiset{t}
  {
  }

  lemma Regroup<T>(a: multiset<T>, b: multiset<T>, c: multiset<T>, d: multiset<T>, u: multiset<T>,
                   a': multiset<T>, b': multiset<T>, c': multiset<T>, d': multiset<T>, u': multiset<T>)
    ensures (a + a') + (b + b') + (c + c') + (d + d') + (u + u') == (a + b + c + d + u) + (a' + b' + c' + d' + u')
  {
  }

  /** What the status filter takes from the head of a non-empty list. */
  lemma StatusStep(tasks: seq<Task>, status: string) returns (head: multiset<Task>)
    requires tasks != []
    ensures head == if tasks[0].status == status then multiset{tasks[0]} else multiset{}
    ensures multiset(WithStatus(tasks, status)) == head + multiset(WithStatus(tasks[1..], status))
  {
    FilterCons(tasks, StatusIs(status));
    head := if tasks[0].status == status then multiset{tasks[0]} else multiset{};
  }

  /** What the unknown-status filter takes from the head of a non-empty list. */
  lemma UnknownStep(tasks: seq<Task>) returns (head: multiset<Task>)
    requires tasks != []
    ensures head == if tasks[0].status !in KnownStatuses then multiset{tasks[0]} else multiset{}
    ensures multiset(WithUnknownStatus(tasks)) == head + multiset(WithUnknownStatus(tasks[1..]))
  {
    FilterCons(tasks, UnknownStatus());
    head := if tasks[0].status !in KnownStatuses then multiset{tasks[0]} else multiset{};
  }

  /** So the four filters together hold at most the fetched count, and all of it when every status is known. */
  lemma StatusCountsAddUp(tasks: seq<Task>)
    ensures |WithStatus(tasks, "todo")| + |WithStatus(tasks, "in_progress")|
          + |WithStatus(tasks, "awaiting_feedback")| + |WithStatus(tasks, "done")|
          + |WithUnknownStatus(tasks)| == |tasks|
    ensures |WithStatus(tasks, "todo")| + |WithStatus(tasks, "in_progress")|
          + |WithStatus(tasks, "awaiting_feedback")| + |WithStatus(tasks, "done")| <= |tasks|
    ensures (forall i :: 0 <= i < |tasks| ==> tasks[i].status in KnownStatuses) ==>
              |WithStatus(tasks, "todo")| + |WithStatus(tasks, "in_progress")|
              + |WithStatus(tasks, "awaiting_feedback")| + |WithStatus(tasks, "done")| == |tasks|
  {
    StatusPartition(tasks);
    var all := multiset(WithStatus(tasks, "todo")) + multiset(WithStatus(tasks, "in_progress"))
             + multiset(WithStatus(tasks, "awaiting_feedback")) + multiset(WithStatus(tasks, "done"))
             + multiset(WithUnknownStatus(tasks));
    assert |all| == |multiset(tasks)|;
  }
}
