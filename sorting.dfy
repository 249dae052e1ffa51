/**
 * A stable sort by a caller-given "comes no later than" relation, the
 * behaviour `Array.prototype.sort` guarantees for a consistent comparator
 * (`le(a, b)` stands for `compare(a, b) <= 0`) and the tie order this model
 * gives `QuerySet.order_by`.
 *
 * `Sort` is the specification (insertion from the right, so equal elements
 * keep their input order); `SortInPlace` rearranges an array to exactly that
 * result.  The lemmas show the result is ordered, a permutation of the input,
 * and keeps the relative order of every class of equal elements.
 */
module StableSort {

  /** Every two elements are comparable one way or the other. */
  ghost predicate Total<T(!new)>(le: (T, T) -> bool)
  {
    forall a, b :: le(a, b) || le(b, a)
  }

  ghost predicate Transitive<T(!new)>(le: (T, T) -> bool)
  {
    forall a, b, c :: le(a, b) && le(b, c) ==> le(a, c)
  }

  /** Each element comes no later than its successor. */
  ghost predicate Sorted<T>(s: seq<T>, le: (T, T) -> bool)
  {
    forall i :: 0 < i < |s| ==> le(s[i - 1], s[i])
  }

  /** Insert x after the last element that may precede it. */
  function Insert<T>(s: seq<T>, x: T, le: (T, T) -> bool): seq<T>
  {
    if s == [] then [x]
    else if le(s[|s| - 1], x) then s + [x]
    else Insert(s[..|s| - 1], x, le) + [s[|s| - 1]]
  }

  function Sort<T>(s: seq<T>, le: (T, T) -> bool): seq<T>
  {
    if s == [] then [] else Insert(Sort(s[..|s| - 1], le), s[|s| - 1], le)
  }

  /** Where Insert puts x. */
  function InsertPos<T>(s: seq<T>, x: T, le: (T, T) -> bool): (k: nat)
    ensures k <= |s|
  {
    if s == [] then 0
    else if le(s[|s| - 1], x) then |s|
    else InsertPos(s[..|s| - 1], x, le)
  }

  /** Insert splices x in at InsertPos: everything after it may not precede x. */
  lemma {:induction false} InsertSplit<T>(s: seq<T>, x: T, le: (T, T) -> bool)
    ensures var k := InsertPos(s, x, le);
      && Insert(s, x, le) == s[..k] + [x] + s[k..]
      && (k > 0 ==> le(s[k - 1], x))
      && (forall i :: k <= i < |s| ==> !le(s[i], x))
  {
    if s != [] && !le(s[|s| - 1], x) {
      var init := s[..|s| - 1];
      InsertSplit(init, x, le);
      var k := InsertPos(init, x, le);
      assert init[..k] == s[..k];
      assert init[k..] + [s[|s| - 1]] == s[k..];
    }
  }

  lemma InsertPermutes<T>(s: seq<T>, x: T, le: (T, T) -> bool)
    ensures multiset(Insert(s, x, le)) == multiset(s) + multiset{x}
  {
    InsertSplit(s, x, le);
    var k := InsertPos(s, x, le);
    assert s == s[..k] + s[k..];
  }

  lemma InsertSorted<T(!new)>(s: seq<T>, x: T, le: (T, T) -> bool)
    requires Total(le) && Sorted(s, le)
    ensures Sorted(Insert(s, x, le), le)
  {
    InsertSplit(s, x, le);
    var k := InsertPos(s, x, le);
    var r := Insert(s, x, le);
    forall i | 0 < i < |r|
      ensures le(r[i - 1], r[i])
    {
      if i < k {
        assert r[i - 1] == s[i - 1] && r[i] == s[i];
      } else if i == k {
        assert r[i - 1] == s[k - 1] && r[i] == x;
      } else if i == k + 1 {
        assert r[i - 1] == x && r[i] == s[k];
        assert le(s[k], x) || le(x, s[k]);
      } else {
        assert r[i - 1] == s[i - 2] && r[i] == s[i - 1];
      }
    }
  }

  /** The result is ordered and a permutation of the input. */
  lemma {:induction false} SortSortedPermutation<T(!new)>(s: seq<T>, le: (T, T) -> bool)
    requires Total(le)
    ensures Sorted(Sort(s, le), le)
    ensures multiset(Sort(s, le)) == multiset(s)
    ensures |Sort(s, le)| == |s|
  {
    if s != [] {
      var init := s[..|s| - 1];
      SortSortedPermutation(init, le);
      InsertSorted(Sort(init, le), s[|s| - 1], le);
      InsertPermutes(Sort(init, le), s[|s| - 1], le);
      assert s == init + [s[|s| - 1]];
    }
  }

  /** Adjacent ordering extends to every pair when the relation is transitive. */
  lemma {:induction false} SortedPairwise<T(!new)>(s: seq<T>, le: (T, T) -> bool, i: int, j: int)
    requires Transitive(le) && Sorted(s, le)
    requires 0 <= i < j < |s|
    ensures le(s[i], s[j])
    decreases j - i
  {
    if i + 1 < j {
      SortedPairwise(s, le, i, j - 1);
    }
  }

  // ------------------------------------------------------------- stability

  /** a and b compare equal. */
  ghost predicate Tied<T>(le: (T, T) -> bool, a: T, b: T)
  {
    le(a, b) && le(b, a)
  }

  /** The elements of s tied with y, in their order in s. */
  ghost function TiedWith<T>(s: seq<T>, le: (T, T) -> bool, y: T): seq<T>
  {
    if s == [] then []
    else (if Tied(le, s[0], y) then [s[0]] else []) + TiedWith(s[1..], le, y)
  }

  lemma {:induction false} TiedWithAppend<T>(a: seq<T>, b: seq<T>, le: (T, T) -> bool, y: T)
    ensures TiedWith(a + b, le, y) == TiedWith(a, le, y) + TiedWith(b, le, y)
  {
    if a == [] {
      assert a + b == b;
    } else {
      assert (a + b)[0] == a[0];
      assert (a + b)[1..] == a[1..] + b;
      TiedWithAppend(a[1..], b, le, y);
      var h: seq<T> := if Tied(le, a[0], y) then [a[0]] else [];
      assert TiedWith(a + b, le, y) == h + TiedWith(a[1..] + b, le, y);
      assert TiedWith(a, le, y) == h + TiedWith(a[1..], le, y);
    }
  }

  /** No element of s is tied with y. */
  lemma {:induction false} TiedWithNone<T>(s: seq<T>, le: (T, T) -> bool, y: T)
    requires forall i :: 0 <= i < |s| ==> !Tied(le, s[i], y)
    ensures TiedWith(s, le, y) == []
  {
    if s != [] {
      TiedWithNone(s[1..], le, y);
    }
  }

  /** Nothing after x's position is tied with anything x is tied with. */
  lemma AfterInsertPosNotTied<T(!new)>(s: seq<T>, x: T, le: (T, T) -> bool, y: T)
    requires Transitive(le) && Tied(le, x, y)
    ensures TiedWith(s[InsertPos(s, x, le)..], le, y) == []
  {
    InsertSplit(s, x, le);
    var t := s[InsertPos(s, x, le)..];
    forall i | 0 <= i < |t|
      ensures !Tied(le, t[i], y)
    {
      assert !le(t[i], x);
    }
    TiedWithNone(t, le, y);
  }

  /** Inserting x adds it after every element it is tied with. */
  lemma InsertStable<T(!new)>(s: seq<T>, x: T, le: (T, T) -> bool, y: T)
    requires Transitive(le)
    ensures TiedWith(Insert(s, x, le), le, y) == TiedWith(s, le, y) + TiedWith([x], le, y)
  {
    InsertSplit(s, x, le);
    var k := InsertPos(s, x, le);
    var front, back := s[..k], s[k..];
    assert s == front + back;
    TiedWithAppend(front + [x], back, le, y);
    TiedWithAppend(front, [x], le, y);
    TiedWithAppend(front, back, le, y);
    if Tied(le, x, y) {
      AfterInsertPosNotTied(s, x, le, y);
    } else {
      assert TiedWith([x], le, y) == [] + TiedWith([x][1..], le, y);
    }
  }

  /** Equal elements keep their input order: each tie class is the same subsequence before and after. */
  lemma {:induction false} SortStable<T(!new)>(s: seq<T>, le: (T, T) -> bool, y: T)
    requires Transitive(le)
    ensures TiedWith(Sort(s, le), le, y) == TiedWith(s, le, y)
  {
    if s != [] {
      var init := s[..|s| - 1];
      SortStable(init, le, y);
      InsertStable(Sort(init, le), s[|s| - 1], le, y);
      assert s == init + [s[|s| - 1]];
      TiedWithAppend(init, [s[|s| - 1]], le, y);
    }
  }

  // --------------------------------------------------------- in-place sort

  /** Insert is determined by where the right-to-left scan stops. */
  lemma {:induction false} InsertAt<T>(s: seq<T>, j: nat, x: T, le: (T, T) -> bool)
    requires j <= |s| && (j == 0 || le(s[j - 1], x))
    requires forall k :: j <= k < |s| ==> !le(s[k], x)
    ensures Insert(s, x, le) == s[..j] + [x] + s[j..]
  {
    if j < |s| {
      var init := s[..|s| - 1];
      InsertAt(init, j, x, le);
      assert init[..j] == s[..j];
      assert init[j..] + [s[|s| - 1]] == s[j..];
      assert Insert(s, x, le) == Insert(init, x, le) + [s[|s| - 1]];
    } else if s != [] {
      assert Insert(s, x, le) == s + [x];
      assert s[..j] == s && s[j..] == [];
    }
  }

  /** Shifts a[j..i] one place right, for the longest run ending at i whose elements may not precede x. */
  method ShiftGreater<T>(a: array<T>, i: nat, x: T, le: (T, T) -> bool) returns (j: nat)
    requires i < a.Length
    modifies a
    ensures j <= i
    ensures j == 0 || le(old(a[j - 1]), x)
    ensures forall k :: j <= k < i ==> !le(old(a[k]), x)
    ensures forall k :: 0 <= k < j ==> a[k] == old(a[k])
    ensures forall k :: j < k <= i ==> a[k] == old(a[k - 1])
    ensures forall k :: i < k < a.Length ==> a[k] == old(a[k])
  {
    j := i;
    while j > 0 && !le(a[j - 1], x)
      invariant j <= i
      invariant forall k :: 0 <= k < j ==> a[k] == old(a[k])
      invariant forall k :: j < k <= i ==> a[k] == old(a[k - 1])
      invariant forall k :: i < k < a.Length ==> a[k] == old(a[k])
      invariant forall k :: j <= k < i ==> !le(old(a[k]), x)
    {
      a[j] := a[j - 1];
      j := j - 1;
    }
  }

  /** Moves a[i] left past every element of a[..i] that may not precede it. */
  method InsertInPlace<T>(a: array<T>, i: nat, le: (T, T) -> bool)
    requires i < a.Length
    modifies a
    ensures a[..i + 1] == Insert(old(a[..i]), old(a[i]), le)
    ensures forall k :: i < k < a.Length ==> a[k] == old(a[k])
  {
    ghost var sorted := a[..i];
    var x := a[i];
    var j := ShiftGreater(a, i, x, le);
    a[j] := x;
    InsertAt(sorted, j, x, le);
    ghost var spliced := sorted[..j] + [x] + sorted[j..];
    forall k | 0 <= k <= i
      ensures a[k] == spliced[k]
    {
      if k < j {
        assert spliced[k] == sorted[k];
      } else if j < k {
        assert spliced[k] == sorted[k - 1];
      }
    }
    assert a[..i + 1] == spliced;
  }

  /** Rearranges a in place into Sort(old(a[..]), le). */
  method SortInPlace<T>(a: array<T>, le: (T, T) -> bool)
    modifies a
    ensures a[..] == Sort(old(a[..]), le)
  {
    ghost var input := a[..];
    var i := 0;
    while i < a.Length
      invariant 0 <= i <= a.Length
      invariant a[..i] == Sort(input[..i], le)
      invariant forall k :: i <= k < a.Length ==> a[k] == input[k]
    {
      assert input[..i + 1][..i] == input[..i];
      InsertInPlace(a, i, le);
      i := i + 1;
    }
    assert input[..a.Length] == input;
  }
}
