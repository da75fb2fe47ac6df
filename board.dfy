/**
 * The board (src/app/components/board/board.component.ts): four status
 * columns projected from the fetched task list, and the drag-drop handler
 * that reorders one column or moves a task between two of them.
 */
module BoardComponent {
  import opened Seqs
  import opened TaskModel

  /** The four drop lists; `event.container` is one of them. */
  datatype ColumnId = TodoList | InProgressList | AwaitingFeedbackList | DoneList

  /** The status each column's filter selects. */
  function StatusOf(c: ColumnId): (s: string)
    ensures s in KnownStatuses
  {
    match c
    case TodoList => "todo"
    case InProgressList => "in_progress"
    case AwaitingFeedbackList => "awaiting_feedback"
    case DoneList => "done"
  }

  /** Different columns select different statuses. */
  lemma StatusOfInjective(c: ColumnId, d: ColumnId)
    requires c != d
    ensures StatusOf(c) != StatusOf(d)
  {
  }

  /**
   * `moveItemInArray(s, from, to)` for indices in range: the item at `from`
   * is taken out and put back at `to`.
   */
  function MoveItem<T>(s: seq<T>, from: nat, to: nat): (r: seq<T>)
    requires from < |s| && to < |s|
    ensures |r| == |s|
    ensures r[to] == s[from]
    ensures multiset(r) == multiset(s)
    ensures RemoveAt(r, to) == RemoveAt(s, from)
  {
    InsertAt(RemoveAt(s, from), to, s[from])
  }

  /** Dropping an item where it was picked up changes nothing. */
  lemma MoveItemInPlace<T>(s: seq<T>, i: nat)
    requires i < |s|
    ensures MoveItem(s, i, i) == s
  {
    var r := MoveItem(s, i, i);
    forall k | 0 <= k < |s| ensures r[k] == s[k] {
      if k < i {
        assert r[k] == RemoveAt(r, i)[k] == RemoveAt(s, i)[k];
      } else if k > i {
        assert r[k] == RemoveAt(r, i)[k - 1] == RemoveAt(s, i)[k - 1];
      }
    }
  }

  /** The lists bound to the four drop lists. */
  datatype Columns = Columns(todo: seq<Task>, inProgress: seq<Task>, awaitingFeedback: seq<Task>, done: seq<Task>)
  {
    /** The list bound to drop list `c`. */
    function Get(c: ColumnId): seq<Task> {
      match c
      case TodoList => todo
      case InProgressList => inProgress
      case AwaitingFeedbackList => awaitingFeedback
      case DoneList => done
    }

    /** The same lists with the one of `c` replaced by `s`. */
    function Set(c: ColumnId, s: seq<Task>): (r: Columns)
      ensures r.Get(c) == s
      ensures forall d :: d != c ==> r.Get(d) == Get(d)
    {
      match c
      case TodoList => this.(todo := s)
      case InProgressList => this.(inProgress := s)
      case AwaitingFeedbackList => this.(awaitingFeedback := s)
      case DoneList => this.(done := s)
    }

    /** Every task on the board, with multiplicity. */
    ghost function Tasks(): multiset<Task> {
      multiset(todo) + multiset(inProgress) + multiset(awaitingFeedback) + multiset(done)
    }

    /** Every task sits in the column of its status. */
    ghost predicate Consistent() {
      forall c, t :: t in Get(c) ==> t.status == StatusOf(c)
    }
  }

  /** The columns `initAllTasks` builds from a fetched list: one status filter per column. */
  function Project(all: seq<Task>): Columns {
    Columns(WithStatus(all, "todo"), WithStatus(all, "in_progress"),
            WithStatus(all, "awaiting_feedback"), WithStatus(all, "done"))
  }

  /**
   * The columns after a drop: within one column the item moves from
   * `previousIndex` to `currentIndex` (`moveItemInArray`); across columns it
   * leaves the source and is inserted into the destination at `currentIndex`
   * (`transferArrayItem`).
   */
  function DropOn(cols: Columns, previous: ColumnId, current: ColumnId, previousIndex: nat, currentIndex: nat): Columns
    requires DropInRange(cols, previous, current, previousIndex, currentIndex)
  {
    if previous == current then
      cols.Set(current, MoveItem(cols.Get(current), previousIndex, currentIndex))
    else
      var item := cols.Get(previous)[previousIndex];
      var cols' := cols.Set(previous, RemoveAt(cols.Get(previous), previousIndex));
      cols'.Set(current, InsertAt(cols'.Get(current), currentIndex, item))
  }

  /** The indices the drag-drop module reports: a source item, and a slot in the destination. */
  predicate DropInRange(cols: Columns, previous: ColumnId, current: ColumnId, previousIndex: nat, currentIndex: nat) {
    && previousIndex < |cols.Get(previous)|
    && (previous == current ==> currentIndex < |cols.Get(current)|)
    && (previous != current ==> currentIndex <= |cols.Get(current)|)
  }

  /** Moving an item within a list neither adds nor loses a value. */
  lemma MoveItemKeepsElements<T>(s: seq<T>, from: nat, to: nat)
    requires from < |s| && to < |s|
    ensures forall x :: x in MoveItem(s, from, to) <==> x in s
  {
    var r := MoveItem(s, from, to);
    forall x ensures x in r <==> x in s {
      // membership is read off the multisets, which `MoveItem` keeps equal
      assert x in multiset(r) <==> x in multiset(s);
    }
  }

  class Board {
    var todo: seq<Task>
    var inProgress: seq<Task>
    var awaitingFeedback: seq<Task>
    var done: seq<Task>

    constructor ()
      ensures State() == Columns([], [], [], [])
    {
      todo, inProgress, awaitingFeedback, done := [], [], [], [];
    }

    /** The four column fields as one value. */
    function State(): Columns
      reads this
    {
      Columns(todo, inProgress, awaitingFeedback, done)
    }

    /**
     * `initAllTasks`: `fetched` is what `getAllTodos` resolved to, `None` when
     * it threw. A successful fetch replaces each column by the fetched tasks
     * of its status, in fetched order; a failed one leaves the board alone.
     */
    method InitAllTasks(fetched: Option<seq<Task>>)
      modifies this
      ensures fetched.None? ==> State() == old(State())
      ensures fetched.Some? ==> State() == Project(fetched.value)
    {
      if fetched.Some? {
        var all := fetched.value;
        todo := WithStatus(all, "todo");
        inProgress := WithStatus(all, "in_progress");
        awaitingFeedback := WithStatus(all, "awaiting_feedback");
        done := WithStatus(all, "done");
      }
    }

    /** `drop`: the container lists change as `DropOn` says, and nothing else does. */
    method Drop(previous: ColumnId, current: ColumnId, previousIndex: nat, currentIndex: nat)
      requires DropInRange(State(), previous, current, previousIndex, currentIndex)
      modifies this
      ensures State() == DropOn(old(State()), previous, current, previousIndex, currentIndex)
    {
      if previous == current {
        SetColumn(current, MoveItem(State().Get(current), previousIndex, currentIndex));
      } else {
        var item := State().Get(previous)[previousIndex];
        SetColumn(previous, RemoveAt(State().Get(previous), previousIndex));
        SetColumn(current, InsertAt(State().Get(current), currentIndex, item));
      }
    }

    /** Rebinds drop list `c` to `s`. */
    method SetColumn(c: ColumnId, s: seq<Task>)
      modifies this
      ensures State() == old(State()).Set(c, s)
    {
      match c
      case TodoList => todo := s;
      case InProgressList => inProgress := s;
      case AwaitingFeedbackList => awaitingFeedback := s;
      case DoneList => done := s;
    }
  }

  /** Each column of the projection is the fetched tasks of that column's status, in fetched order. */
  lemma ProjectColumn(all: seq<Task>, c: ColumnId)
    ensures Project(all).Get(c) == WithStatus(all, StatusOf(c))
  {
    match c
    case TodoList =>
    case InProgressList =>
    case AwaitingFeedbackList =>
    case DoneList =>
  }

  /** The projection puts every task in the column of its status. */
  lemma ProjectConsistent(all: seq<Task>)
    ensures Project(all).Consistent()
  {
    forall c: ColumnId, t: Task | t in Project(all).Get(c) ensures t.status == StatusOf(c) {
      ProjectColumn(all, c);
    }
  }

  /** The projection keeps every fetched task of a known status exactly as often as it was fetched, and no other. */
  lemma ProjectKeepsKnown(all: seq<Task>)
    ensures Project(all).Tasks() + multiset(WithUnknownStatus(all)) == multiset(all)
  {
    StatusPartition(all);
  }

  /** Rebinding one column trades that column's tasks for the new list's. */
  lemma SetTasks(cols: Columns, c: ColumnId, s: seq<Task>)
    ensures cols.Set(c, s).Tasks() + multiset(cols.Get(c)) == cols.Tasks() + multiset(s)
  {
    match c
    case TodoList =>
    case InProgressList =>
    case AwaitingFeedbackList =>
    case DoneList =>
  }

  /** A drop neither adds, loses nor alters a task. */
  lemma DropKeepsTasks(cols: Columns, previous: ColumnId, current: ColumnId, previousIndex: nat, currentIndex: nat)
    requires DropInRange(cols, previous, current, previousIndex, currentIndex)
    ensures DropOn(cols, previous, current, previousIndex, currentIndex).Tasks() == cols.Tasks()
  {
    if previous == current {
      SetTasks(cols, current, MoveItem(cols.Get(current), previousIndex, currentIndex));
    } else {
      TransferKeepsTasks(cols, previous, current, previousIndex, currentIndex);
    }
  }

  /** Taking an item out of one list and inserting it into another keeps the board's tasks. */
  lemma TransferKeepsTasks(cols: Columns, previous: ColumnId, current: ColumnId, previousIndex: nat, currentIndex: nat)
    requires previous != current
    requires previousIndex < |cols.Get(previous)| && currentIndex <= |cols.Get(current)|
    ensures var item := cols.Get(previous)[previousIndex];
            var cols' := cols.Set(previous, RemoveAt(cols.Get(previous), previousIndex));
            cols'.Set(current, InsertAt(cols'.Get(current), currentIndex, item)).Tasks() == cols.Tasks()
  {
    var source := cols.Get(previous);
    var item := source[previousIndex];
    var removed := RemoveAt(source, previousIndex);
    var cols' := cols.Set(previous, removed);
    var inserted := InsertAt(cols'.Get(current), currentIndex, item);
    SetTasks(cols, previous, removed);
    SetTasks(cols', current, inserted);
    MultisetShuffle(cols.Tasks(), cols'.Tasks(), cols.Set(previous, removed).Set(current, inserted).Tasks(),
                    multiset(source), multiset(removed), multiset(cols.Get(current)), multiset(inserted), item);
  }

  /** The multiset arithmetic of a transfer, away from any list. */
  lemma MultisetShuffle<T>(before: multiset<T>, middle: multiset<T>, after: multiset<T>,
                           source: multiset<T>, removed: multiset<T>, dest: multiset<T>, inserted: multiset<T>, x: T)
    requires middle + source == before + removed
    requires after + dest == middle + inserted
    requires source == removed + multiset{x}
    requires inserted == dest + multiset{x}
    ensures after == before
  {
    forall y ensures after[y] == before[y] {
      assert (middle + source)[y] == (before + removed)[y];
      assert (after + dest)[y] == (middle + inserted)[y];
      assert (removed + multiset{x})[y] == source[y];
      assert (dest + multiset{x})[y] == inserted[y];
    }
  }

  /** Reordering within a column keeps the board consistent. */
  lemma ReorderKeepsConsistent(cols: Columns, c: ColumnId, previousIndex: nat, currentIndex: nat)
    requires DropInRange(cols, c, c, previousIndex, currentIndex)
    requires cols.Consistent()
    ensures DropOn(cols, c, c, previousIndex, currentIndex).Consistent()
  {
    MoveItemKeepsElements(cols.Get(c), previousIndex, currentIndex);
  }

  /**
   * A move to another column does not update the task: from a consistent
   * board, the dropped task keeps the status of the column it left, which is
   * not the status of the column it now sits in.
   */
  lemma TransferLeavesStatus(cols: Columns, previous: ColumnId, current: ColumnId, previousIndex: nat, currentIndex: nat)
    requires DropInRange(cols, previous, current, previousIndex, currentIndex)
    requires previous != current
    requires cols.Consistent()
    ensures DropOn(cols, previous, current, previousIndex, currentIndex).Get(current)[currentIndex]
              == cols.Get(previous)[previousIndex]
    ensures DropOn(cols, previous, current, previousIndex, currentIndex).Get(current)[currentIndex].status
              != StatusOf(current)
  {
    StatusOfInjective(previous, current);
  }
}
