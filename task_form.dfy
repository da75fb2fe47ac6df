/**
 * What the three task forms (the add-task page, the add-task dialog and the
 * edit-task dialog) share: the entries of their subtask FormArrays, the
 * priority flags, the toggle of an entry in the `assigned_to` FormArray, and
 * the case-insensitive lookup of a category name.
 */
module TaskForm {
  import opened Seqs
  import opened Ascii
  import opened TaskModel

  /**
   * The value of one group in a `subtasks` FormArray. The forms build it
   * with different keys: `check` for a new subtask of the add forms,
   * `checked` for a new or loaded subtask of the edit dialog. A key the group
   * does not have is `None`.
   */
  datatype SubtaskEntry = SubtaskEntry(id: Option<int>, title: Option<string>, check: Option<bool>, checked: Option<bool>)

  /**
   * The task form's `valid`. Its `assigned_to` FormArray carries
   * `Validators.required`, so an empty list makes the form invalid whatever
   * the other controls (title, description, date, category) hold.
   */
  predicate TaskFormValid<T>(otherControlsValid: bool, assignedTo: seq<T>)
  {
    otherControlsValid && assignedTo != []
  }

  /** The three priority buttons' highlight flags. */
  datatype PriorityFlags = PriorityFlags(urgent: bool, medium: bool, low: bool)

  /** The flags `setPriority(p)` and `showCurrentTaskPrio(p)` set: each one is on iff `p` names it. */
  function FlagsFor(p: string): (f: PriorityFlags)
    ensures f.urgent <==> p == "urgent"
    ensures f.medium <==> p == "medium"
    ensures f.low <==> p == "low"
  {
    PriorityFlags(p == "urgent", p == "medium", p == "low")
  }

  /** At most one flag is on; none is for a priority outside the three. */
  lemma {:induction false} AtMostOneFlag(p: string)
    ensures var f := FlagsFor(p);
            && !(f.urgent && f.medium) && !(f.urgent && f.low) && !(f.medium && f.low)
            && (p != "urgent" && p != "medium" && p != "low" <==> !f.urgent && !f.medium && !f.low)
  {
  }

  /** `list.some(matches)`, one element at a time. */
  function AnyMatches<T>(list: seq<T>, matches: T -> bool): (r: bool)
    ensures r <==> exists i :: 0 <= i < |list| && matches(list[i])
    ensures r <==> FirstIndexWhere(list, matches) != -1
  {
    if list == [] then false
    else if matches(list[0]) then true
    else
      assert forall i :: 1 <= i < |list| ==> list[i] == list[1..][i - 1];
      AnyMatches(list[1..], matches)
  }

  /**
   * The `selectContact` toggle on a FormArray: when some entry matches, the
   * first one that does is removed; otherwise `x` is appended.
   */
  function Toggle<T>(list: seq<T>, x: T, matches: T -> bool): (r: seq<T>)
    ensures !AnyMatches(list, matches) ==> r == list + [x]
    ensures AnyMatches(list, matches) ==>
              r == RemoveAt(list, FirstIndexWhere(list, matches))
  {
    if AnyMatches(list, matches) then
      RemoveAt(list, FirstIndexWhere(list, matches))
    else
      list + [x]
  }

  /** No two entries match. */
  ghost predicate AtMostOneMatch<T>(list: seq<T>, matches: T -> bool) {
    forall i, j :: 0 <= i < |list| && 0 <= j < |list| && matches(list[i]) && matches(list[j]) ==> i == j
  }

  /**
   * Toggling flips whether an entry matches, as long as the appended value
   * matches and at most one entry did; the toggled list keeps that property.
   */
  lemma ToggleFlips<T>(list: seq<T>, x: T, matches: T -> bool)
    requires matches(x)
    requires AtMostOneMatch(list, matches)
    ensures AnyMatches(Toggle(list, x, matches), matches) <==> !AnyMatches(list, matches)
    ensures AtMostOneMatch(Toggle(list, x, matches), matches)
  {
    if AnyMatches(list, matches) {
      RemovingOnlyMatch(list, matches);
    } else {
      AppendingOnlyMatch(list, x, matches);
    }
  }
  /**
   * How a selection decides the assignee half of the form's validity: with
   * nobody assigned the form is invalid; selecting an unselected contact
   * always satisfies `Validators.required`, and deselecting one leaves it
   * satisfied exactly when someone else is still assigned.
   */
  lemma ToggleDecidesValidity<T>(otherControlsValid: bool, list: seq<T>, x: T, matches: T -> bool)
    requires matches(x)
    ensures !TaskFormValid<T>(otherControlsValid, [])
    ensures !AnyMatches(list, matches) ==>
              (TaskFormValid(otherControlsValid, Toggle(list, x, matches)) <==> otherControlsValid)
    ensures AnyMatches(list, matches) ==>
              (TaskFormValid(otherControlsValid, Toggle(list, x, matches)) <==> otherControlsValid && |list| > 1)
  {
    if AnyMatches(list, matches) {
      assert |Toggle(list, x, matches)| == |list| - 1;
    }
  }


  /** Removing the first match of a list with at most one match leaves no match. */
  lemma RemovingOnlyMatch<T>(list: seq<T>, matches: T -> bool)
    requires AtMostOneMatch(list, matches)
    requires AnyMatches(list, matches)
    ensures forall i :: 0 <= i < |list| - 1 ==> !matches(RemoveAt(list, FirstIndexWhere(list, matches))[i])
  {
    var k := FirstIndexWhere(list, matches);
    var r := RemoveAt(list, k);
    forall i | 0 <= i < |r| ensures !matches(r[i]) {
      if i < k {
        assert r[i] == list[i];
      } else {
        assert r[i] == list[i + 1];
      }
    }
  }

  /** Appending a match to a list without one gives a list with exactly one. */
  lemma AppendingOnlyMatch<T>(list: seq<T>, x: T, matches: T -> bool)
    requires matches(x)
    requires !AnyMatches(list, matches)
    ensures AnyMatches(list + [x], matches)
    ensures AtMostOneMatch(list + [x], matches)
  {
    var r := list + [x];
    assert matches(r[|list|]);
    forall i | 0 <= i < |list| ensures !matches(r[i]) {
      assert r[i] == list[i];
    }
  }

  /** Selecting an unselected entry and then deselecting it restores the list. */
  lemma ToggleTwiceRestores<T>(list: seq<T>, x: T, matches: T -> bool)
    requires matches(x)
    requires !AnyMatches(list, matches)
    ensures Toggle(Toggle(list, x, matches), x, matches) == list
  {
    var once := list + [x];
    assert forall i :: 0 <= i < |list| ==> once[i] == list[i];
    assert once[|list|] == x;
    assert FirstIndexWhere(once, matches) == |list|;
    assert RemoveAt(once, |list|) == list;
  }

  /** The `findIndex`/`some` predicate `control => control.value === id`. */
  function IdIs(id: int): int -> bool {
    (v: int) => v == id
  }

  /** An id is in the list exactly when some entry matches it. */
  lemma IdMatches(ids: seq<int>, id: int)
    ensures AnyMatches(ids, IdIs(id)) <==> id in ids
  {
    if id in ids {
      var k :| 0 <= k < |ids| && ids[k] == id;
      assert IdIs(id)(ids[k]);
    }
  }

  /** In a list without repeats at most one entry holds a given id. */
  lemma DistinctIdsMatchOnce(ids: seq<int>, id: int)
    requires Distinct(ids)
    ensures AtMostOneMatch(ids, IdIs(id))
  {
  }

  /**
   * On an id list without repeats, `selectContact` appends an absent id and
   * removes a present one, so `isSelected` flips and no id is repeated.
   */
  lemma ToggleIdMembership(ids: seq<int>, id: int)
    requires Distinct(ids)
    ensures id !in ids ==> Toggle(ids, id, IdIs(id)) == ids + [id]
    ensures id in ids ==> |Toggle(ids, id, IdIs(id))| == |ids| - 1
    ensures id in Toggle(ids, id, IdIs(id)) <==> id !in ids
    ensures Distinct(Toggle(ids, id, IdIs(id)))
  {
    var r := Toggle(ids, id, IdIs(id));
    IdMatches(ids, id);
    IdMatches(r, id);
    DistinctIdsMatchOnce(ids, id);
    ToggleFlips(ids, id, IdIs(id));
    if id in ids {
      RemoveKeepsDistinct(ids, FirstIndexWhere(ids, IdIs(id)));
    } else {
      DistinctAppend(ids, id);
    }
  }

  /** The `some` predicate `category => category.name.toLowerCase() === name.toLowerCase()`. */
  function SameNameIgnoringCase(name: string): Category -> bool {
    (c: Category) => Lower(c.name) == Lower(name)
  }

  /** `categoryExists`: some category has this name, letters compared without case. */
  function CategoryExists(categories: seq<Category>, name: string): (r: bool)
    ensures r <==> exists i :: 0 <= i < |categories| && Lower(categories[i].name) == Lower(name)
  {
    AnyMatches(categories, SameNameIgnoringCase(name))
  }

  /** The check does not see case: a name and its upper-cased form find the same categories. */
  lemma CategoryExistsIgnoresCase(categories: seq<Category>, name: string)
    ensures CategoryExists(categories, Upper(name)) == CategoryExists(categories, name)
    ensures CategoryExists(categories, Lower(name)) == CategoryExists(categories, name)
  {
    LowerForgetsCase(name);
  }

  /** A listed category's name is found, in whatever case it is typed. */
  lemma ListedCategoryExists(categories: seq<Category>, i: nat)
    requires i < |categories|
    ensures CategoryExists(categories, categories[i].name)
    ensures CategoryExists(categories, Upper(categories[i].name))
  {
    LowerForgetsCase(categories[i].name);
  }
}
