/**
 * Sequence operations the components build on: the `filter` of arrays, the
 * splice-style removal and insertion of the drag-drop helpers and of
 * Angular's FormArray, and `findIndex`.
 */
module Seqs {

  /** No element occurs twice. */
  ghost predicate Distinct<T>(s: seq<T>) {
    forall i, j :: 0 <= i < j < |s| ==> s[i] != s[j]
  }

  /** `s.filter(f)`: the elements satisfying `f`, in their original order. */
  function Filter<T(!new)>(s: seq<T>, f: T -> bool): (r: seq<T>)
    ensures |r| <= |s|
    ensures forall x :: x in r <==> x in s && f(x)
    ensures |r| == 0 <==> forall i :: 0 <= i < |s| ==> !f(s[i])
    ensures |r| == |s| <==> forall i :: 0 <= i < |s| ==> f(s[i])
  {
    if s == [] then []
    else if f(s[0]) then [s[0]] + Filter(s[1..], f)
    else Filter(s[1..], f)
  }

  /** Reference count of the elements satisfying `f`, one element at a time. */
  function CountWhere<T>(s: seq<T>, f: T -> bool): (n: nat)
    ensures n <= |s|
    ensures n == 0 <==> forall i :: 0 <= i < |s| ==> !f(s[i])
    ensures n == |s| <==> forall i :: 0 <= i < |s| ==> f(s[i])
  {
    if s == [] then 0 else (if f(s[0]) then 1 else 0) + CountWhere(s[1..], f)
  }

  /** The filtered list is as long as the number of elements satisfying `f`. */
  lemma {:induction false} FilterLength<T(!new)>(s: seq<T>, f: T -> bool)
    ensures |Filter(s, f)| == CountWhere(s, f)
  {
    if s != [] {
      FilterLength(s[1..], f);
    }
  }

  /** One step of the filter: the head is kept exactly when it satisfies `f`. */
  lemma FilterCons<T(!new)>(s: seq<T>, f: T -> bool)
    requires s != []
    ensures multiset(Filter(s, f)) == (if f(s[0]) then multiset{s[0]} else multiset{}) + multiset(Filter(s[1..], f))
  {
  }

  /** Filtering distributes over concatenation, so the order of `s` is kept. */
  lemma {:induction false} FilterAppend<T(!new)>(a: seq<T>, b: seq<T>, f: T -> bool)
    ensures Filter(a + b, f) == Filter(a, f) + Filter(b, f)
  {
    if a == [] {
      assert a + b == b;
    } else {
      AppendTail(a, b);
      FilterAppend(a[1..], b, f);
      var head := if f(a[0]) then [a[0]] else [];
      assert Filter(a + b, f) == head + (Filter(a[1..], f) + Filter(b, f));
      AppendAssociates(head, Filter(a[1..], f), Filter(b, f));
    }
  }

  /** A non-empty list is its head followed by its tail. */
  lemma SplitHead<T>(s: seq<T>)
    requires s != []
    ensures multiset(s) == multiset{s[0]} + multiset(s[1..])
  {
    assert s == [s[0]] + s[1..];
  }

  /** The head and tail of a concatenation with a non-empty left part. */
  lemma AppendTail<T>(a: seq<T>, b: seq<T>)
    requires a != []
    ensures (a + b)[0] == a[0]
    ensures (a + b)[1..] == a[1..] + b
  {
  }

  lemma AppendAssociates<T>(x: seq<T>, y: seq<T>, z: seq<T>)
    ensures x + (y + z) == (x + y) + z
  {
  }

  /** What filtering keeps and what it drops together make up the input. */
  lemma {:induction false} FilterSplits<T(!new)>(s: seq<T>, f: T -> bool)
    ensures multiset(Filter(s, f)) + multiset(Filter(s, x => !f(x))) == multiset(s)
    ensures |Filter(s, f)| + |Filter(s, x => !f(x))| == |s|
  {
    if s != [] {
      FilterSplits(s[1..], f);
      SplitHead(s);
    }
  }

  /** `s.splice(i, 1)` with `i` in range: the element at `i` is taken out. */
  function RemoveAt<T>(s: seq<T>, i: nat): (r: seq<T>)
    requires i < |s|
    ensures |r| == |s| - 1
    ensures multiset(r) + multiset{s[i]} == multiset(s)
    ensures forall k :: 0 <= k < i ==> r[k] == s[k]
    ensures forall k :: i <= k < |r| ==> r[k] == s[k + 1]
  {
    assert s == s[..i] + [s[i]] + s[i + 1..];
    s[..i] + s[i + 1..]
  }

  /** `s.splice(j, 0, x)` with `j` in range: `x` is placed at index `j`. */
  function InsertAt<T>(s: seq<T>, j: nat, x: T): (r: seq<T>)
    requires j <= |s|
    ensures |r| == |s| + 1
    ensures r[j] == x
    ensures multiset(r) == multiset(s) + multiset{x}
    ensures RemoveAt(r, j) == s
  {
    var r := s[..j] + [x] + s[j..];
    assert s == s[..j] + s[j..];
    assert r[..j] == s[..j] && r[j + 1..] == s[j..];
    r
  }

  /**
   * `s.splice(i, 1)` for any `i >= 0`: removes the element at `i` when there is
   * one and leaves `s` alone otherwise (Angular's `FormArray.removeAt`).
   */
  function Splice1<T>(s: seq<T>, i: nat): (r: seq<T>)
    ensures i < |s| ==> r == RemoveAt(s, i)
    ensures |s| <= i ==> r == s
  {
    if i < |s| then s[..i] + s[i + 1..] else s
  }

  /** `s.findIndex(p)`: the first index whose element satisfies `p`, or -1. */
  function FirstIndexWhere<T>(s: seq<T>, p: T -> bool): (r: int)
    ensures -1 <= r < |s|
    ensures r == -1 <==> forall i :: 0 <= i < |s| ==> !p(s[i])
    ensures 0 <= r ==> p(s[r]) && forall i :: 0 <= i < r ==> !p(s[i])
  {
    if s == [] then -1
    else if p(s[0]) then 0
    else
      var k := FirstIndexWhere(s[1..], p);
      if k == -1 then -1 else k + 1
  }

  /** A distinct sequence holds every value at most once. */
  lemma {:induction false} DistinctOccursOnce<T>(s: seq<T>, x: T)
    requires Distinct(s)
    ensures multiset(s)[x] <= 1
  {
    if s != [] {
      assert s == [s[0]] + s[1..];
      assert Distinct(s[1..]) by {
        forall i, j | 0 <= i < j < |s[1..]| ensures s[1..][i] != s[1..][j] {
          assert s[1..][i] == s[i + 1] && s[1..][j] == s[j + 1];
        }
      }
      DistinctOccursOnce(s[1..], x);
      if x == s[0] {
        assert x !in s[1..] by {
          forall k | 0 <= k < |s[1..]| ensures s[1..][k] != x {
            assert s[1..][k] == s[k + 1];
          }
        }
      }
    }
  }

  /** Appending a new value keeps a sequence distinct. */
  lemma DistinctAppend<T>(s: seq<T>, x: T)
    requires Distinct(s)
    requires x !in s
    ensures Distinct(s + [x])
  {
    var r := s + [x];
    forall i, j | 0 <= i < j < |r| ensures r[i] != r[j] {
      if j == |s| {
        assert r[i] == s[i];
      } else {
        assert r[i] == s[i] && r[j] == s[j];
      }
    }
  }

  /** Removing an element keeps a sequence distinct. */
  lemma RemoveKeepsDistinct<T>(s: seq<T>, k: nat)
    requires k < |s|
    requires Distinct(s)
    ensures Distinct(RemoveAt(s, k))
  {
    var r := RemoveAt(s, k);
    forall i, j | 0 <= i < j < |r| ensures r[i] != r[j] {
      var i' := if i < k then i else i + 1;
      var j' := if j < k then j else j + 1;
      assert r[i] == s[i'] && r[j] == s[j'];
    }
  }

  /** Two sequences with the same elements are distinct together. */
  lemma DistinctPermutation<T>(s: seq<T>, r: seq<T>)
    requires multiset(s) == multiset(r)
    requires Distinct(s)
    ensures Distinct(r)
  {
    forall i, j | 0 <= i < j < |r| ensures r[i] != r[j] {
      if r[i] == r[j] {
        assert r == r[..j] + [r[j]] + r[j + 1..];
        assert r[i] in r[..j];
        assert multiset(r)[r[j]] >= 2;
        DistinctOccursOnce(s, r[j]);
      }
    }
  }
}
