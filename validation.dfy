/**
  The validation pass of `PatchBytes`: the sorted records are checked one
  after the other, and the first failing check of the first failing record
  is reported. Each record is checked for a negative offset, then a
  negative length, then a span reaching past the end of the input, then a
  span reaching past the start of the NEXT record in sorted order.
 */
module Validation {
  import opened Patches
  import opened StableSorting

  /** The record that follows position `i` in sorted order, if any. */
  function NextOf(s: seq<Patch>, i: nat): Option<Patch>
    requires i < |s|
  {
    if i + 1 < |s| then Some(s[i + 1]) else None
  }

  /** The checks made on one record, in the order they are made, against
      an input of length `n` and the record that follows it. */
  function CheckRecord(p: Patch, next: Option<Patch>, n: int): Option<PatchError>
  {
    if p.offset < 0 then Some(NegativeOffset(p))
    else if p.length < 0 then Some(NegativeLength(p))
    else if End(p) > n then Some(OutOfRange(p))
    else if next.Some? && End(p) > next.value.offset then Some(Conflict(p, next.value))
    else None
  }

  /** The outcome of checking `s[i..]`: the first failure, or None. */
  function ValidateFrom(s: seq<Patch>, i: nat, n: int): Option<PatchError>
    decreases |s| - i
  {
    if i >= |s| then None
    else if CheckRecord(s[i], NextOf(s, i), n).Some? then CheckRecord(s[i], NextOf(s, i), n)
    else ValidateFrom(s, i + 1, n)
  }

  /** The outcome of the validation pass over the sorted records `s`. */
  function Validate(s: seq<Patch>, n: int): Option<PatchError>
  {
    ValidateFrom(s, 0, n)
  }

  /** The validation loop of `PatchBytes`: it stops at the first record
      that fails a check. */
  method CheckPatches(s: seq<Patch>, n: int) returns (err: Option<PatchError>)
    ensures err == Validate(s, n)
  {
    for i := 0 to |s|
      invariant ValidateFrom(s, i, n) == Validate(s, n)
    {
      var p := s[i];
      if p.offset < 0 {
        return Some(NegativeOffset(p));
      }
      if p.length < 0 {
        return Some(NegativeLength(p));
      }
      if p.offset + p.length > n {
        return Some(OutOfRange(p));
      }
      if i + 1 < |s| {
        var next := s[i + 1];
        if p.offset + p.length > next.offset {
          return Some(Conflict(p, next));
        }
      }
    }
    return None;
  }

  // ---------------------------------------------------------------------
  // What the outcome means

  lemma {:induction false} ValidateFromFirstFailure(s: seq<Patch>, i: nat, n: int)
    requires i <= |s|
    ensures ValidateFrom(s, i, n).None? <==>
              forall j :: i <= j < |s| ==> CheckRecord(s[j], NextOf(s, j), n).None?
    ensures ValidateFrom(s, i, n).Some? ==>
              exists j :: i <= j < |s| && ValidateFrom(s, i, n) == CheckRecord(s[j], NextOf(s, j), n)
                          && forall l :: i <= l < j ==> CheckRecord(s[l], NextOf(s, l), n).None?
    decreases |s| - i
  {
    if i < |s| && CheckRecord(s[i], NextOf(s, i), n).None? {
      ValidateFromFirstFailure(s, i + 1, n);
      if ValidateFrom(s, i, n).Some? {
        var j :| i + 1 <= j < |s| && ValidateFrom(s, i + 1, n) == CheckRecord(s[j], NextOf(s, j), n)
                 && forall l :: i + 1 <= l < j ==> CheckRecord(s[l], NextOf(s, l), n).None?;
        assert forall l :: i <= l < j ==> CheckRecord(s[l], NextOf(s, l), n).None?;
      }
    }
  }

  /** Validation reports the failure of the first record, in sorted order,
      that fails any check, and only when some record fails. */
  lemma ValidateFindsFirstFailure(s: seq<Patch>, n: int)
    ensures Validate(s, n).None? <==> forall j :: 0 <= j < |s| ==> CheckRecord(s[j], NextOf(s, j), n).None?
    ensures Validate(s, n).Some? ==>
              exists j :: 0 <= j < |s| && Validate(s, n) == CheckRecord(s[j], NextOf(s, j), n)
                          && forall l :: 0 <= l < j ==> CheckRecord(s[l], NextOf(s, l), n).None?
  {
    ValidateFromFirstFailure(s, 0, n);
  }

  /** Each error kind names record(s) of `s` that fail exactly that check
      and pass the checks made before it; a conflict names a record and its
      successor in sorted order, and when `s` is sorted the successor starts
      inside the first record's consumed span. */
  lemma ValidateErrorMeaning(s: seq<Patch>, n: int)
    ensures match Validate(s, n)
      case None => true
      case Some(NegativeOffset(p)) => p in s && p.offset < 0
      case Some(NegativeLength(p)) => p in s && 0 <= p.offset && p.length < 0
      case Some(OutOfRange(p)) => p in s && 0 <= p.offset && 0 <= p.length && End(p) > n
      case Some(Conflict(p, q)) =>
        && (exists i :: 0 <= i < |s| - 1 && s[i] == p && s[i + 1] == q)
        && 0 <= p.offset && 0 <= p.length && End(p) <= n && q.offset < End(p)
        && (Sorted(s) ==> p.offset <= q.offset)
  {
    ValidateFindsFirstFailure(s, n);
    if Validate(s, n).Some? {
      var j :| 0 <= j < |s| && Validate(s, n) == CheckRecord(s[j], NextOf(s, j), n);
      CheckRecordMeaning(s, j, n);
    }
  }

  /** What the checks on the record at `j` report, in terms of `s`. */
  lemma CheckRecordMeaning(s: seq<Patch>, j: int, n: int)
    requires 0 <= j < |s|
    ensures match CheckRecord(s[j], NextOf(s, j), n)
      case None => true
      case Some(NegativeOffset(p)) => p in s && p.offset < 0
      case Some(NegativeLength(p)) => p in s && 0 <= p.offset && p.length < 0
      case Some(OutOfRange(p)) => p in s && 0 <= p.offset && 0 <= p.length && End(p) > n
      case Some(Conflict(p, q)) =>
        && (exists i :: 0 <= i < |s| - 1 && s[i] == p && s[i + 1] == q)
        && 0 <= p.offset && 0 <= p.length && End(p) <= n && q.offset < End(p)
        && (Sorted(s) ==> p.offset <= q.offset)
  {
    assert s[j] in s;
    if j + 1 < |s| {
      assert Sorted(s) ==> s[j].offset <= s[j + 1].offset;
    }
  }

  /** The chain of neighbour checks implies that every record's span ends
      before every later record starts. */
  lemma {:induction false} NeighboursGivePairwise(s: seq<Patch>, i: int, j: int)
    requires forall l :: 0 <= l < |s| ==> 0 <= s[l].length
    requires forall l :: 0 <= l < |s| - 1 ==> End(s[l]) <= s[l + 1].offset
    requires 0 <= i < j < |s|
    ensures End(s[i]) <= s[j].offset
    decreases j - i
  {
    if j > i + 1 {
      NeighboursGivePairwise(s, i + 1, j);
      assert End(s[i]) <= s[i + 1].offset <= End(s[i + 1]);
    }
  }

  /** Validation succeeds exactly when every record lies inside the input
      and the consumed spans are pairwise disjoint and in order. Touching
      spans and a span ending at the end of the input are accepted; only
      strictly greater ends fail. */
  lemma ValidateOkIffApplicable(s: seq<Patch>, n: int)
    ensures Validate(s, n).None? <==> Applicable(s, n)
  {
    ValidateFindsFirstFailure(s, n);
    if Validate(s, n).None? {
      forall l | 0 <= l < |s|
        ensures WellFormed(s[l], n)
        ensures l < |s| - 1 ==> End(s[l]) <= s[l + 1].offset
      {
        assert CheckRecord(s[l], NextOf(s, l), n).None?;
      }
      forall i, j | 0 <= i < j < |s|
        ensures End(s[i]) <= s[j].offset
      {
        NeighboursGivePairwise(s, i, j);
      }
    }
    if Applicable(s, n) {
      forall l | 0 <= l < |s|
        ensures CheckRecord(s[l], NextOf(s, l), n).None?
      {
        assert WellFormed(s[l], n);
        if l + 1 < |s| {
          assert End(s[l]) <= s[l + 1].offset;
        }
      }
    }
  }

  /** In sorted order the smallest offset comes first, so a negative offset
      anywhere is reported as NegativeOffset of the first record, before any
      other failure. */
  lemma NegativeOffsetReportedFirst(s: seq<Patch>, n: int)
    requires Sorted(s)
    requires exists i :: 0 <= i < |s| && s[i].offset < 0
    ensures Validate(s, n) == Some(NegativeOffset(s[0]))
  {
    var i :| 0 <= i < |s| && s[i].offset < 0;
    assert s[0].offset <= s[i].offset;
  }
}
