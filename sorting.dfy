/**
  The stable sort by offset that `PatchBytes` performs on the recorded
  edits before validating them. `StableSort` is the specification (an
  insertion sort written as a function); `SortByOffset` is the in-place
  insertion sort on an array that is proved to compute it. The lemmas state
  what a stable sort promises: the result is ordered by offset, is a
  permutation of the input, keeps the records of each offset in their
  recorded order, and is the only sequence with those properties.
 */
module StableSorting {
  import opened Patches

  /** Offsets never decrease along `s`. */
  predicate Sorted(s: seq<Patch>)
  {
    forall i, j :: 0 <= i < j < |s| ==> s[i].offset <= s[j].offset
  }

  /** The records of `s` whose offset is `k`, in their order in `s`. */
  function AtOffset(s: seq<Patch>, k: int): seq<Patch>
  {
    if s == [] then []
    else AtOffset(s[..|s| - 1], k) + (if s[|s| - 1].offset == k then [s[|s| - 1]] else [])
  }

  /** Places `p` after every record of `s` whose offset is at most its own,
      scanning from the back as the in-place insertion sort does. */
  function Insert(s: seq<Patch>, p: Patch): seq<Patch>
  {
    if s == [] || s[|s| - 1].offset <= p.offset then s + [p]
    else Insert(s[..|s| - 1], p) + [s[|s| - 1]]
  }

  /** Stable insertion sort by offset: each record, in recording order, is
      inserted after all earlier records with an offset not greater than its own. */
  function StableSort(s: seq<Patch>): seq<Patch>
  {
    if s == [] then [] else Insert(StableSort(s[..|s| - 1]), s[|s| - 1])
  }

  // ---------------------------------------------------------------------
  // Insert

  /** A non-empty list is its front followed by its last record. */
  lemma SplitLast(s: seq<Patch>)
    requires s != []
    ensures s == s[..|s| - 1] + [s[|s| - 1]]
  {
  }

  lemma {:induction false} InsertPermutes(s: seq<Patch>, p: Patch)
    ensures multiset(Insert(s, p)) == multiset(s) + multiset{p}
  {
    if s == [] || s[|s| - 1].offset <= p.offset {
    } else {
      var init, last := s[..|s| - 1], s[|s| - 1];
      InsertPermutes(init, p);
      SplitLast(s);
    }
  }

  /** A record with an offset at least every offset of a sorted list can
      follow it. */
  lemma SortedAppend(s: seq<Patch>, x: Patch)
    requires Sorted(s)
    requires forall i :: 0 <= i < |s| ==> s[i].offset <= x.offset
    ensures Sorted(s + [x])
  {
  }

  lemma {:induction false} InsertKeepsSorted(s: seq<Patch>, p: Patch)
    requires Sorted(s)
    ensures Sorted(Insert(s, p))
  {
    if s == [] || s[|s| - 1].offset <= p.offset {
    } else {
      var init, last := s[..|s| - 1], s[|s| - 1];
      InsertKeepsSorted(init, p);
      var r := Insert(init, p);
      forall i | 0 <= i < |r|
        ensures r[i].offset <= last.offset
      {
        InsertPermutes(init, p);
        assert r[i] in multiset(r);
        assert r[i] in multiset(init) || r[i] == p;
        if r[i] != p {
          var j :| 0 <= j < |init| && init[j] == r[i];
          assert s[j] == r[i];
        }
      }
      SortedAppend(r, last);
    }
  }

  lemma {:induction false} AtOffsetOfConcat(a: seq<Patch>, b: seq<Patch>, k: int)
    ensures AtOffset(a + b, k) == AtOffset(a, k) + AtOffset(b, k)
  {
    if b == [] {
      assert a + b == a;
    } else {
      assert (a + b)[..|a + b| - 1] == a + b[..|b| - 1];
      AtOffsetOfConcat(a, b[..|b| - 1], k);
    }
  }

  lemma {:induction false} InsertAtOffset(s: seq<Patch>, p: Patch, k: int)
    ensures AtOffset(Insert(s, p), k) == AtOffset(s, k) + (if p.offset == k then [p] else [])
  {
    if s == [] || s[|s| - 1].offset <= p.offset {
      AtOffsetOfConcat(s, [p], k);
      assert AtOffset([p], k) == AtOffset([], k) + (if p.offset == k then [p] else []) by {
        assert [p][..0] == [];
      }
    } else {
      var init, last := s[..|s| - 1], s[|s| - 1];
      InsertAtOffset(init, p, k);
      var r := Insert(init, p);
      assert (r + [last])[..|r + [last]| - 1] == r;
    }
  }

  /** With `R` the records after the insertion point and `L` those before
      it, inserting `p` yields `L + [p] + R`. */
  lemma {:induction false} InsertBetween(l: seq<Patch>, r: seq<Patch>, p: Patch)
    requires l == [] || l[|l| - 1].offset <= p.offset
    requires forall i :: 0 <= i < |r| ==> r[i].offset > p.offset
    ensures Insert(l + r, p) == l + [p] + r
  {
    if r == [] {
      assert l + r == l;
    } else {
      var init, last := r[..|r| - 1], r[|r| - 1];
      assert Insert(l + r, p) == Insert(l + init, p) + [last] by {
        SplitLast(r);
        assert l + r == l + init + [last];
        InsertBeforeGreater(l + init, last, p);
      }
      InsertBetween(l, init, p);
      assert l + [p] + init + [last] == l + [p] + r by {
        SplitLast(r);
      }
    }
  }

  /** A record is inserted before a last record with a greater offset. */
  lemma InsertBeforeGreater(t: seq<Patch>, x: Patch, p: Patch)
    requires x.offset > p.offset
    ensures Insert(t + [x], p) == Insert(t, p) + [x]
  {
    assert (t + [x])[..|t + [x]| - 1] == t;
  }

  // ---------------------------------------------------------------------
  // StableSort

  /** Recording one more record inserts it into the sorted list. */
  lemma StableSortAppend(s: seq<Patch>, p: Patch)
    ensures StableSort(s + [p]) == Insert(StableSort(s), p)
  {
    assert (s + [p])[..|s|] == s;
  }

  lemma {:induction false} StableSortPermutes(s: seq<Patch>)
    ensures multiset(StableSort(s)) == multiset(s)
    ensures |StableSort(s)| == |s|
  {
    if s != [] {
      var init, last := s[..|s| - 1], s[|s| - 1];
      StableSortPermutes(init);
      InsertPermutes(StableSort(init), last);
      SplitLast(s);
      assert |StableSort(s)| == |multiset(StableSort(s))|;
    }
  }

  lemma {:induction false} StableSortIsSorted(s: seq<Patch>)
    ensures Sorted(StableSort(s))
  {
    if s != [] {
      StableSortIsSorted(s[..|s| - 1]);
      InsertKeepsSorted(StableSort(s[..|s| - 1]), s[|s| - 1]);
    }
  }

  /** Records with equal offsets keep their recording order: for every
      offset, the records at that offset appear in the same order before
      and after sorting. */
  lemma {:induction false} StableSortIsStable(s: seq<Patch>, k: int)
    ensures AtOffset(StableSort(s), k) == AtOffset(s, k)
  {
    if s != [] {
      var init, last := s[..|s| - 1], s[|s| - 1];
      StableSortIsStable(init, k);
      InsertAtOffset(StableSort(init), last, k);
    }
  }

  /** Sorting an already sorted list changes nothing; in particular
      sorting twice is sorting once. */
  lemma {:induction false} StableSortOfSorted(s: seq<Patch>)
    requires Sorted(s)
    ensures StableSort(s) == s
  {
    if s != [] {
      var init, last := s[..|s| - 1], s[|s| - 1];
      StableSortOfSorted(init);
      assert s == init + [last];
    }
  }

  lemma StableSortIdempotent(s: seq<Patch>)
    ensures StableSort(StableSort(s)) == StableSort(s)
  {
    StableSortIsSorted(s);
    StableSortOfSorted(StableSort(s));
  }

  lemma {:induction false} InAtOffset(s: seq<Patch>, k: int, x: Patch)
    requires x in AtOffset(s, k)
    ensures x.offset == k
    ensures exists i :: 0 <= i < |s| && s[i] == x
  {
    var init, last := s[..|s| - 1], s[|s| - 1];
    if x in AtOffset(init, k) {
      InAtOffset(init, k, x);
      var i :| 0 <= i < |init| && init[i] == x;
      assert s[i] == x;
    } else {
      assert x == last;
    }
  }

  lemma LastHasClass(s: seq<Patch>)
    requires s != []
    ensures AtOffset(s, s[|s| - 1].offset) == AtOffset(s[..|s| - 1], s[|s| - 1].offset) + [s[|s| - 1]]
  {
  }

  /** In a sorted sequence every offset that has records is at most the
      offset of the last record. */
  lemma ClassBelowLast(s: seq<Patch>, k: int)
    requires Sorted(s) && AtOffset(s, k) != []
    ensures s != [] && k <= s[|s| - 1].offset
  {
    InAtOffset(s, k, AtOffset(s, k)[0]);
    var i :| 0 <= i < |s| && s[i] == AtOffset(s, k)[0];
  }

  /** Two sorted sequences with the same records at the offsets of their
      last records end with the same record: the last record of the
      greatest offset. */
  lemma SameClassesSameLast(a: seq<Patch>, b: seq<Patch>)
    requires Sorted(a) && Sorted(b) && a != [] && b != []
    requires AtOffset(a, a[|a| - 1].offset) == AtOffset(b, a[|a| - 1].offset)
    requires AtOffset(a, b[|b| - 1].offset) == AtOffset(b, b[|b| - 1].offset)
    ensures a[|a| - 1] == b[|b| - 1]
  {
    var x, y := a[|a| - 1], b[|b| - 1];
    LastHasClass(a);
    LastHasClass(b);
    ClassBelowLast(b, x.offset);
    ClassBelowLast(a, y.offset);
    var c := AtOffset(a, x.offset);
    assert y.offset == x.offset;
    assert c == AtOffset(a[..|a| - 1], x.offset) + [x];
    assert c[|c| - 1] == x;
    assert c == AtOffset(b[..|b| - 1], x.offset) + [y];
    assert c[|c| - 1] == y;
  }

  /** Removing the same last record from two sequences with the same
      records at every offset leaves the same records at every offset. */
  lemma SameClassesWithoutLast(a: seq<Patch>, b: seq<Patch>, a': seq<Patch>, b': seq<Patch>, x: Patch)
    requires a == a' + [x] && b == b' + [x]
    requires forall k :: AtOffset(a, k) == AtOffset(b, k)
    ensures forall k :: AtOffset(a', k) == AtOffset(b', k)
  {
    forall k
      ensures AtOffset(a', k) == AtOffset(b', k)
    {
      assert a[..|a| - 1] == a' && b[..|b| - 1] == b';
      assert a[|a| - 1] == x && b[|b| - 1] == x;
      assert AtOffset(a, k) == AtOffset(b, k);
      if k == x.offset {
        assert AtOffset(a, k) == AtOffset(a', k) + [x];
        assert AtOffset(b, k) == AtOffset(b', k) + [x];
        assert AtOffset(a', k) == AtOffset(a, k)[..|AtOffset(a, k)| - 1];
        assert AtOffset(b', k) == AtOffset(b, k)[..|AtOffset(b, k)| - 1];
      } else {
        assert AtOffset(a, k) == AtOffset(a', k);
        assert AtOffset(b, k) == AtOffset(b', k);
      }
    }
  }

  /** Two sorted sequences with the same records at every offset, in the
      same order, are equal. */
  lemma {:induction false} SortedWithSameClassesEqual(a: seq<Patch>, b: seq<Patch>)
    requires Sorted(a) && Sorted(b)
    requires forall k :: AtOffset(a, k) == AtOffset(b, k)
    ensures a == b
    decreases |a| + |b|
  {
    if a == [] {
      if b != [] {
        LastHasClass(b);
      }
    } else if b == [] {
      LastHasClass(a);
    } else {
      var a', b', x := a[..|a| - 1], b[..|b| - 1], a[|a| - 1];
      assert a == a' + [x] && b == b' + [x] by {
        assert AtOffset(a, x.offset) == AtOffset(b, x.offset);
        assert AtOffset(a, b[|b| - 1].offset) == AtOffset(b, b[|b| - 1].offset);
        SameClassesSameLast(a, b);
      }
      SameClassesWithoutLast(a, b, a', b', x);
      assert Sorted(a') && Sorted(b');
      SortedWithSameClassesEqual(a', b');
    }
  }

  /** The stable sort is unique: any sequence ordered by offset that keeps
      the records of every offset in their recorded order is StableSort(s). */
  lemma StableSortUnique(s: seq<Patch>, r: seq<Patch>)
    requires Sorted(r)
    requires forall k :: AtOffset(r, k) == AtOffset(s, k)
    ensures r == StableSort(s)
  {
    StableSortIsSorted(s);
    forall k
      ensures AtOffset(r, k) == AtOffset(StableSort(s), k)
    {
      StableSortIsStable(s, k);
    }
    SortedWithSameClassesEqual(r, StableSort(s));
  }

  /** Recording orders that agree on the order of the records at every
      offset sort to the same list. */
  lemma SameClassesSameSort(s: seq<Patch>, t: seq<Patch>)
    requires forall k :: AtOffset(s, k) == AtOffset(t, k)
    ensures StableSort(s) == StableSort(t)
  {
    StableSortIsSorted(s);
    forall k
      ensures AtOffset(StableSort(s), k) == AtOffset(t, k)
    {
      StableSortIsStable(s, k);
    }
    StableSortUnique(t, StableSort(s));
  }

  // ---------------------------------------------------------------------
  // The in-place sort

  /** Swapping positions `j - 1` and `j` moves the hole of
      `a[..j] + a[j + 1..i + 1]` one place left without changing it. */
  lemma SwapKeepsRest(before: seq<Patch>, after: seq<Patch>, j: int, i: int)
    requires 0 < j <= i < |before| == |after|
    requires after == before[j - 1 := before[j]][j := before[j - 1]]
    ensures after[..j - 1] + after[j..i + 1] == before[..j] + before[j + 1..i + 1]
  {
    assert after[..j - 1] == before[..j - 1];
    assert after[j..i + 1] == [before[j - 1]] + before[j + 1..i + 1];
    assert before[..j] == before[..j - 1] + [before[j - 1]];
  }

  /** One step of `SinkInto`: swapping the sinking record `x` at `j` with
      its greater left neighbour keeps every loop invariant one place to
      the left and leaves the records after `i` alone. */
  lemma SinkStep(before: seq<Patch>, after: seq<Patch>, j: int, i: int, sorted: seq<Patch>, x: Patch)
    requires 0 < j <= i < |before| == |after|
    requires after == before[j - 1 := before[j]][j := before[j - 1]]
    requires before[j] == x && before[j - 1].offset > x.offset
    requires before[..j] + before[j + 1..i + 1] == sorted
    requires forall k :: j < k <= i ==> before[k].offset > x.offset
    ensures after[j - 1] == x
    ensures after[..j - 1] + after[j..i + 1] == sorted
    ensures forall k :: j - 1 < k <= i ==> after[k].offset > x.offset
    ensures after[i + 1..] == before[i + 1..]
  {
    SwapKeepsRest(before, after, j, i);
  }

  /** When `SinkInto` stops, the sinking record `x` sits after every
      record of `sorted` with an offset at most its own and before the
      greater ones, which is where `Insert` puts it. */
  lemma SinkDone(t: seq<Patch>, j: int, i: int, sorted: seq<Patch>, x: Patch)
    requires 0 <= j <= i < |t| && t[j] == x
    requires t[..j] + t[j + 1..i + 1] == sorted
    requires j == 0 || t[j - 1].offset <= x.offset
    requires forall k :: j < k <= i ==> t[k].offset > x.offset
    ensures t[..i + 1] == Insert(sorted, x)
  {
    InsertBetween(t[..j], t[j + 1..i + 1], x);
    assert t[..i + 1] == t[..j] + [x] + t[j + 1..i + 1];
  }

  /** Moves `a[i]` down past the records of the sorted prefix `a[..i]`
      whose offset is strictly greater, so that `a[..i + 1]` is sorted. */
  method SinkInto(a: array<Patch>, i: nat)
    requires i < a.Length
    modifies a
    ensures a[..i + 1] == Insert(old(a[..i]), old(a[i]))
    ensures a[i + 1..] == old(a[i + 1..])
  {
    ghost var sorted := a[..i];
    ghost var x := a[i];
    var j := i;
    while j > 0 && a[j - 1].offset > a[j].offset
      invariant 0 <= j <= i
      invariant a[j] == x
      invariant a[..j] + a[j + 1..i + 1] == sorted
      invariant forall k :: j < k <= i ==> a[k].offset > x.offset
      invariant a[i + 1..] == old(a[i + 1..])
    {
      ghost var before := a[..];
      a[j - 1], a[j] := a[j], a[j - 1];
      SinkStep(before, a[..], j, i, sorted, x);
      j := j - 1;
    }
    SinkDone(a[..], j, i, sorted, x);
  }

  /** One pass of `SortByOffset`: inserting the next record into the
      sorted prefix extends the stably sorted prefix by one record and
      leaves the unsorted rest as it was. */
  lemma SortStep(orig: seq<Patch>, before: seq<Patch>, after: seq<Patch>, i: int)
    requires 0 <= i < |orig| == |before| == |after|
    requires before[..i] == StableSort(orig[..i]) && before[i..] == orig[i..]
    requires after[..i + 1] == Insert(before[..i], before[i]) && after[i + 1..] == before[i + 1..]
    ensures after[..i + 1] == StableSort(orig[..i + 1])
    ensures after[i + 1..] == orig[i + 1..]
  {
    assert before[i] == orig[i];
    assert orig[..i + 1][..i] == orig[..i];
  }

  /** Stable insertion sort of `a` by offset, in place. */
  method SortByOffset(a: array<Patch>)
    modifies a
    ensures a[..] == StableSort(old(a[..]))
  {
    ghost var orig := a[..];
    var i := 0;
    while i < a.Length
      invariant 0 <= i <= a.Length
      invariant a[..i] == StableSort(orig[..i])
      invariant a[i..] == orig[i..]
    {
      ghost var before := a[..];
      SinkInto(a, i);
      SortStep(orig, before, a[..], i);
      i := i + 1;
    }
    assert orig[..a.Length] == orig;
  }
}
