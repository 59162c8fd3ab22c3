/**
  Worked cases of the patcher's documented behaviour. Each states, for a
  sequence of recording calls and an input, the outcome `PatchBytes`
  returns, which by its postcondition is `Patched(Recorded(calls), input)`.
  Byte sequences are written as numbers; the text they spell is given in
  the comments (a = 97, b = 98, ... z = 122, space = 32).

  The general lemmas at the top compute the parts of an outcome (the
  records made, their sorted order, validation and the output) for a few
  records given as parameters; each case then only fills in its values.
 */
module PatcherExamples {
  import opened Patches
  import opened StableSorting
  import opened Validation
  import opened Splicing
  import opened Patching

  // ---------------------------------------------------------------------
  // Assembling an outcome

  /** A successful outcome from its parts: the sorted records, their
      validation and the output built from them. */
  lemma OutcomeIs(calls: seq<Call>, s: seq<Patch>, input: seq<byte>, out: seq<byte>)
    requires StableSort(Recorded(calls)) == s
    requires Applicable(s, |input|) && Splice(input, s, 0) == out
    ensures Patched(Recorded(calls), input) == Success(out)
  {
    ValidateOkIffApplicable(s, |input|);
  }

  /** A failing outcome from the sorted records and the error their
      validation reports. */
  lemma FailureIs(calls: seq<Call>, s: seq<Patch>, input: seq<byte>, e: PatchError)
    requires StableSort(Recorded(calls)) == s
    requires Validate(s, |input|) == Some(e)
    ensures Patched(Recorded(calls), input) == Failure(e)
  {
  }

  /** The outcome of a single call that records `p`, when `p` lies inside
      the input: the bytes before it, its data, the bytes after its span. */
  lemma OneRecord(c: Call, p: Patch, input: seq<byte>, out: seq<byte>)
    requires RecordOf(c) == [p] && WellFormed(p, |input|)
    requires input[..p.offset] + p.data + input[End(p)..] == out
    ensures Patched(Recorded([c]), input) == Success(out)
  {
    OneRecordSorted(c, p);
    OneRecordOutput(input, p, out);
    OutcomeIs([c], [p], input, out);
  }

  lemma OneRecordSorted(c: Call, p: Patch)
    requires RecordOf(c) == [p]
    ensures StableSort(Recorded([c])) == [p]
  {
    RecordedAppends([], c);
    assert [] + [c] == [c];
    StableSortOfSorted([p]);
  }

  lemma OneRecordOutput(input: seq<byte>, p: Patch, out: seq<byte>)
    requires WellFormed(p, |input|)
    requires input[..p.offset] + p.data + input[End(p)..] == out
    ensures Applicable([p], |input|) && Splice(input, [p], 0) == out
  {
    SpliceOne(input, p);
    assert [p] + [] == [p];
    assert input[0..p.offset] == input[..p.offset];
  }

  /** The outcome of a single call whose record `p` fails a check. */
  lemma OneRecordFails(c: Call, p: Patch, input: seq<byte>, e: PatchError)
    requires RecordOf(c) == [p] && CheckRecord(p, None, |input|) == Some(e)
    ensures Patched(Recorded([c]), input) == Failure(e)
  {
    RecordedAppends([], c);
    assert [] + [c] == [c];
    StableSortOfSorted([p]);
    assert Validate([p], |input|) == CheckRecord(p, NextOf([p], 0), |input|);
    FailureIs([c], [p], input, e);
  }

  // ---------------------------------------------------------------------
  // The records a few calls make

  lemma RecordedOfTwo(c0: Call, c1: Call)
    ensures Recorded([c0, c1]) == RecordOf(c0) + RecordOf(c1)
  {
    RecordedAppends([], c0);
    assert [] + [c0] == [c0];
    RecordedAppends([c0], c1);
    assert [c0] + [c1] == [c0, c1];
  }

  lemma RecordedOfThree(c0: Call, c1: Call, c2: Call)
    ensures Recorded([c0, c1, c2]) == RecordOf(c0) + RecordOf(c1) + RecordOf(c2)
  {
    RecordedOfTwo(c0, c1);
    RecordedAppends([c0, c1], c2);
    assert [c0, c1] + [c2] == [c0, c1, c2];
  }

  lemma RecordedOfFour(c0: Call, c1: Call, c2: Call, c3: Call)
    ensures Recorded([c0, c1, c2, c3]) == RecordOf(c0) + RecordOf(c1) + RecordOf(c2) + RecordOf(c3)
  {
    RecordedOfThree(c0, c1, c2);
    RecordedAppends([c0, c1, c2], c3);
    assert [c0, c1, c2] + [c3] == [c0, c1, c2, c3];
  }

  lemma RecordedOfFive(c0: Call, c1: Call, c2: Call, c3: Call, c4: Call)
    ensures Recorded([c0, c1, c2, c3, c4])
         == RecordOf(c0) + RecordOf(c1) + RecordOf(c2) + RecordOf(c3) + RecordOf(c4)
  {
    RecordedOfFour(c0, c1, c2, c3);
    RecordedAppends([c0, c1, c2, c3], c4);
    assert [c0, c1, c2, c3] + [c4] == [c0, c1, c2, c3, c4];
  }

  // ---------------------------------------------------------------------
  // Sorting, validating and splicing a few records

  lemma SortTwo(p: Patch, q: Patch)
    ensures StableSort([p, q]) == if q.offset < p.offset then [q, p] else [p, q]
  {
    StableSortAppend([], p);
    assert [] + [p] == [p];
    StableSortAppend([p], q);
    assert [p] + [q] == [p, q];
  }

  lemma SortThree(p: Patch, q: Patch, r: Patch)
    requires p.offset <= q.offset <= r.offset
    ensures StableSort([p, q, r]) == [p, q, r]
  {
    StableSortOfSorted([p, q, r]);
  }

  /** Two records where the second starts inside the first's span. */
  lemma ConflictTwo(p: Patch, q: Patch, n: int)
    requires WellFormed(p, n) && q.offset < End(p)
    ensures Validate([p, q], n) == Some(Conflict(p, q))
  {
  }

  /** One step of the cursor walk: the gap before the first record, its
      data, then the walk over the rest from the end of its span. */
  lemma SpliceStep(input: seq<byte>, p: Patch, s: seq<Patch>, cursor: int)
    requires Applicable([p] + s, |input|) && 0 <= cursor <= p.offset
    ensures WellFormed(p, |input|) && Applicable(s, |input|)
    ensures forall i :: 0 <= i < |[p] + s| ==> cursor <= ([p] + s)[i].offset
    ensures forall i :: 0 <= i < |s| ==> End(p) <= s[i].offset
    ensures Splice(input, [p] + s, cursor) == input[cursor..p.offset] + p.data + Splice(input, s, End(p))
  {
    var t := [p] + s;
    assert t[0] == p && t[1..] == s;
    assert WellFormed(t[0], |input|);
    forall i | 0 <= i < |t|
      ensures cursor <= t[i].offset
    {
      if i > 0 {
        assert End(t[0]) <= t[i].offset;
      }
    }
    forall i | 0 <= i < |s|
      ensures End(p) <= s[i].offset && WellFormed(s[i], |input|)
    {
      assert t[i + 1] == s[i];
      assert WellFormed(t[i + 1], |input|);
    }
    forall i, j | 0 <= i < j < |s|
      ensures End(s[i]) <= s[j].offset
    {
      assert t[i + 1] == s[i] && t[j + 1] == s[j];
    }
  }

  /** The output for one to four records in range and apart, written as
      the cursor walk produces it: each record takes the gap before it and
      its data, and the walk goes on from the end of its span. */
  lemma SpliceOne(input: seq<byte>, p: Patch)
    requires WellFormed(p, |input|)
    ensures Applicable([p], |input|)
    ensures Splice(input, [p], 0) == input[..p.offset] + p.data + input[End(p)..]
  {
    ApplicableCons(p, [], |input|);
    SpliceStep(input, p, [], 0);
    assert [p] + [] == [p];
  }

  lemma SpliceTwo(input: seq<byte>, p: Patch, q: Patch)
    requires WellFormed(p, |input|) && WellFormed(q, |input|) && End(p) <= q.offset
    ensures Applicable([p, q], |input|)
    ensures Splice(input, [p, q], 0)
         == input[..p.offset] + p.data + (input[End(p)..q.offset] + q.data + input[End(q)..])
  {
    var t := [p] + ([q] + []);
    assert Applicable(t, |input|) && Splice(input, t, 0)
        == input[..p.offset] + p.data + (input[End(p)..q.offset] + q.data + input[End(q)..]) by {
      ApplicableCons(q, [], |input|);
      ApplicableCons(p, [q] + [], |input|);
      SpliceStep(input, q, [], End(p));
      SpliceStep(input, p, [q] + [], 0);
      assert input[0..p.offset] == input[..p.offset];
    }
    assert t == [p, q];
  }

  lemma SpliceThree(input: seq<byte>, p: Patch, q: Patch, r: Patch)
    requires WellFormed(p, |input|) && WellFormed(q, |input|) && WellFormed(r, |input|)
    requires End(p) <= q.offset && End(q) <= r.offset
    ensures Applicable([p, q, r], |input|)
    ensures Splice(input, [p, q, r], 0)
         == input[..p.offset] + p.data + (input[End(p)..q.offset] + q.data
            + (input[End(q)..r.offset] + r.data + input[End(r)..]))
  {
    SpliceThreeLinked(input, p, q, r);
    assert [p] + ([q] + ([r] + [])) == [p, q, r];
  }

  /** `SpliceThree` on the list built record by record. */
  lemma SpliceThreeLinked(input: seq<byte>, p: Patch, q: Patch, r: Patch)
    requires WellFormed(p, |input|) && WellFormed(q, |input|) && WellFormed(r, |input|)
    requires End(p) <= q.offset && End(q) <= r.offset
    ensures Applicable([p] + ([q] + ([r] + [])), |input|)
    ensures Splice(input, [p] + ([q] + ([r] + [])), 0)
         == input[..p.offset] + p.data + (input[End(p)..q.offset] + q.data
            + (input[End(q)..r.offset] + r.data + input[End(r)..]))
  {
    ApplicableCons(r, [], |input|);
    ApplicableCons(q, [r] + [], |input|);
    ApplicableCons(p, [q] + ([r] + []), |input|);
    SpliceStep(input, r, [], End(q));
    SpliceStep(input, q, [r] + [], End(p));
    SpliceStep(input, p, [q] + ([r] + []), 0);
    assert input[0..p.offset] == input[..p.offset];
  }

  lemma SpliceFour(input: seq<byte>, p: Patch, q: Patch, r: Patch, t: Patch)
    requires WellFormed(p, |input|) && WellFormed(q, |input|) && WellFormed(r, |input|) && WellFormed(t, |input|)
    requires End(p) <= q.offset && End(q) <= r.offset && End(r) <= t.offset
    ensures Applicable([p, q, r, t], |input|)
    ensures Splice(input, [p, q, r, t], 0)
         == input[..p.offset] + p.data + (input[End(p)..q.offset] + q.data
            + (input[End(q)..r.offset] + r.data + (input[End(r)..t.offset] + t.data + input[End(t)..])))
  {
    SpliceFourLinked(input, p, q, r, t);
    assert [p] + ([q] + ([r] + ([t] + []))) == [p, q, r, t];
  }

  /** `SpliceFour` on the list built record by record. */
  lemma SpliceFourLinked(input: seq<byte>, p: Patch, q: Patch, r: Patch, t: Patch)
    requires WellFormed(p, |input|) && WellFormed(q, |input|) && WellFormed(r, |input|) && WellFormed(t, |input|)
    requires End(p) <= q.offset && End(q) <= r.offset && End(r) <= t.offset
    ensures Applicable([p] + ([q] + ([r] + ([t] + []))), |input|)
    ensures Splice(input, [p] + ([q] + ([r] + ([t] + []))), 0)
         == input[..p.offset] + p.data + (input[End(p)..q.offset] + q.data
            + (input[End(q)..r.offset] + r.data + (input[End(r)..t.offset] + t.data + input[End(t)..])))
  {
    ApplicableCons(t, [], |input|);
    ApplicableCons(r, [t] + [], |input|);
    ApplicableCons(q, [r] + ([t] + []), |input|);
    ApplicableCons(p, [q] + ([r] + ([t] + [])), |input|);
    SpliceStep(input, t, [], End(r));
    SpliceStep(input, r, [t] + [], End(q));
    SpliceStep(input, q, [r] + ([t] + []), End(p));
    SpliceStep(input, p, [q] + ([r] + ([t] + [])), 0);
    assert input[0..p.offset] == input[..p.offset];
  }

  // ---------------------------------------------------------------------
  // Deleting

  /** Deleting [1,3) and the touching [3,4) of "abcde" gives "ae". */
  lemma DeleteTouching()
    ensures Patched(Recorded([DeleteCall(1, 2), DeleteCall(3, 1)]), [97, 98, 99, 100, 101])
         == Success([97, 101])
  {
    DeleteTouchingSorted();
    DeleteTouchingOutput();
    OutcomeIs([DeleteCall(1, 2), DeleteCall(3, 1)], [Patch(1, 2, []), Patch(3, 1, [])],
              [97, 98, 99, 100, 101], [97, 101]);
  }

  lemma DeleteTouchingSorted()
    ensures StableSort(Recorded([DeleteCall(1, 2), DeleteCall(3, 1)])) == [Patch(1, 2, []), Patch(3, 1, [])]
  {
    RecordedOfTwo(DeleteCall(1, 2), DeleteCall(3, 1));
    SortTwo(Patch(1, 2, []), Patch(3, 1, []));
  }

  lemma DeleteTouchingOutput()
    ensures Applicable([Patch(1, 2, []), Patch(3, 1, [])], 5)
    ensures Splice([97, 98, 99, 100, 101], [Patch(1, 2, []), Patch(3, 1, [])], 0) == [97, 101]
  {
    var p, q := Patch(1, 2, []), Patch(3, 1, []);
    var input: seq<byte> := [97, 98, 99, 100, 101];
    SpliceTwo(input, p, q);
    assert input[..1] == [97] && input[3..3] == [] && input[4..] == [101];
  }

  /** Deletions recorded right to left are applied in offset order:
      deleting 3 and then 1 in "abcde" gives "ace". */
  lemma DeleteOutOfOrder()
    ensures Patched(Recorded([DeleteCall(3, 1), DeleteCall(1, 1)]), [97, 98, 99, 100, 101])
         == Success([97, 99, 101])
  {
    DeleteOutOfOrderSorted();
    DeleteOutOfOrderOutput();
    OutcomeIs([DeleteCall(3, 1), DeleteCall(1, 1)], [Patch(1, 1, []), Patch(3, 1, [])],
              [97, 98, 99, 100, 101], [97, 99, 101]);
  }

  lemma DeleteOutOfOrderSorted()
    ensures StableSort(Recorded([DeleteCall(3, 1), DeleteCall(1, 1)])) == [Patch(1, 1, []), Patch(3, 1, [])]
  {
    RecordedOfTwo(DeleteCall(3, 1), DeleteCall(1, 1));
    SortTwo(Patch(3, 1, []), Patch(1, 1, []));
  }

  lemma DeleteOutOfOrderOutput()
    ensures Applicable([Patch(1, 1, []), Patch(3, 1, [])], 5)
    ensures Splice([97, 98, 99, 100, 101], [Patch(1, 1, []), Patch(3, 1, [])], 0) == [97, 99, 101]
  {
    var p, q := Patch(1, 1, []), Patch(3, 1, []);
    var input: seq<byte> := [97, 98, 99, 100, 101];
    SpliceTwo(input, p, q);
    assert input[..1] == [97] && input[2..3] == [99] && input[4..] == [101];
  }

  /** Deleting [1,4) and [2,3) of "abcde" conflicts, naming both records. */
  lemma DeleteConflict()
    ensures Patched(Recorded([DeleteCall(1, 3), DeleteCall(2, 1)]), [97, 98, 99, 100, 101])
         == Failure(Conflict(Patch(1, 3, []), Patch(2, 1, [])))
  {
    DeleteConflictSorted();
    ConflictTwo(Patch(1, 3, []), Patch(2, 1, []), 5);
    FailureIs([DeleteCall(1, 3), DeleteCall(2, 1)], [Patch(1, 3, []), Patch(2, 1, [])],
              [97, 98, 99, 100, 101], Conflict(Patch(1, 3, []), Patch(2, 1, [])));
  }

  lemma DeleteConflictSorted()
    ensures StableSort(Recorded([DeleteCall(1, 3), DeleteCall(2, 1)])) == [Patch(1, 3, []), Patch(2, 1, [])]
  {
    RecordedOfTwo(DeleteCall(1, 3), DeleteCall(2, 1));
    SortTwo(Patch(1, 3, []), Patch(2, 1, []));
  }

  /** Deleting [5,6) of the five bytes "abcde" is out of range. */
  lemma DeleteOutOfRange()
    ensures Patched(Recorded([DeleteCall(5, 1)]), [97, 98, 99, 100, 101])
         == Failure(OutOfRange(Patch(5, 1, [])))
  {
    OneRecordFails(DeleteCall(5, 1), Patch(5, 1, []), [97, 98, 99, 100, 101], OutOfRange(Patch(5, 1, [])));
  }

  /** A negative offset or length is recorded as given and reported when
      applied. */
  lemma DeleteNegative()
    ensures Patched(Recorded([DeleteCall(-1, 2)]), [97, 98, 99, 100, 101])
         == Failure(NegativeOffset(Patch(-1, 2, [])))
    ensures Patched(Recorded([DeleteCall(2, -1)]), [97, 98, 99, 100, 101])
         == Failure(NegativeLength(Patch(2, -1, [])))
  {
    OneRecordFails(DeleteCall(-1, 2), Patch(-1, 2, []), [97, 98, 99, 100, 101], NegativeOffset(Patch(-1, 2, [])));
    OneRecordFails(DeleteCall(2, -1), Patch(2, -1, []), [97, 98, 99, 100, 101], NegativeLength(Patch(2, -1, [])));
  }

  /** Deleting [1,3) of "abcde" gives "ade". */
  lemma DeleteOne()
    ensures Patched(Recorded([DeleteCall(1, 2)]), [97, 98, 99, 100, 101]) == Success([97, 100, 101])
  {
    OneRecord(DeleteCall(1, 2), Patch(1, 2, []), [97, 98, 99, 100, 101], [97, 100, 101]);
  }

  /** Deleting nothing at the end of "abcde" records nothing and gives
      "abcde" back. */
  lemma DeleteNothingAtEnd()
    ensures Patched(Recorded([DeleteCall(5, 0)]), [97, 98, 99, 100, 101]) == Success([97, 98, 99, 100, 101])
  {
    RecordedAppends([], DeleteCall(5, 0));
    assert [] + [DeleteCall(5, 0)] == [DeleteCall(5, 0)];
    PatchedNothing([97, 98, 99, 100, 101]);
  }

  /** Inserting nothing and rewriting nothing with nothing record nothing. */
  lemma ZeroLengthCallsRecordNothing()
    ensures Recorded([InsertCall(1, []), RewriteCall(2, 0, [])]) == []
  {
    RecordedEmptyIffNoOps([InsertCall(1, []), RewriteCall(2, 0, [])]);
  }

  // ---------------------------------------------------------------------
  // Inserting and rewriting

  /** Inserting "bcd" at 1 of "ae" gives "abcde". */
  lemma InsertOne()
    ensures Patched(Recorded([InsertCall(1, [98, 99, 100])]), [97, 101]) == Success([97, 98, 99, 100, 101])
  {
    OneRecord(InsertCall(1, [98, 99, 100]), Patch(1, 0, [98, 99, 100]), [97, 101], [97, 98, 99, 100, 101]);
  }

  /** Inserting "z" at -1 is reported as a negative offset. */
  lemma InsertNegativeOffset()
    ensures Patched(Recorded([InsertCall(-1, [122])]), [97, 98, 99, 100, 101])
         == Failure(NegativeOffset(Patch(-1, 0, [122])))
  {
    OneRecordFails(InsertCall(-1, [122]), Patch(-1, 0, [122]), [97, 98, 99, 100, 101],
                   NegativeOffset(Patch(-1, 0, [122])));
  }

  /** Inserting "e" at the end of "abcd" is in range and gives "abcde". */
  lemma InsertAtEnd()
    ensures Patched(Recorded([InsertCall(4, [101])]), [97, 98, 99, 100])
         == Success([97, 98, 99, 100, 101])
  {
    OneRecord(InsertCall(4, [101]), Patch(4, 0, [101]), [97, 98, 99, 100], [97, 98, 99, 100, 101]);
  }

  /** Inserting "z" at 10 of "abcde" is out of range. */
  lemma InsertOutOfRange()
    ensures Patched(Recorded([InsertCall(10, [122])]), [97, 98, 99, 100, 101])
         == Failure(OutOfRange(Patch(10, 0, [122])))
  {
    OneRecordFails(InsertCall(10, [122]), Patch(10, 0, [122]), [97, 98, 99, 100, 101],
                   OutOfRange(Patch(10, 0, [122])));
  }

  /** Insertions recorded right to left are applied in offset order:
      "d" at 2, then "b" at 1, in "ace" gives "abcde". */
  lemma InsertOutOfOrder()
    ensures Patched(Recorded([InsertCall(2, [100]), InsertCall(1, [98])]), [97, 99, 101])
         == Success([97, 98, 99, 100, 101])
  {
    InsertOutOfOrderSorted();
    InsertOutOfOrderOutput();
    OutcomeIs([InsertCall(2, [100]), InsertCall(1, [98])], [Patch(1, 0, [98]), Patch(2, 0, [100])],
              [97, 99, 101], [97, 98, 99, 100, 101]);
  }

  lemma InsertOutOfOrderSorted()
    ensures StableSort(Recorded([InsertCall(2, [100]), InsertCall(1, [98])])) == [Patch(1, 0, [98]), Patch(2, 0, [100])]
  {
    RecordedOfTwo(InsertCall(2, [100]), InsertCall(1, [98]));
    SortTwo(Patch(2, 0, [100]), Patch(1, 0, [98]));
  }

  lemma InsertOutOfOrderOutput()
    ensures Applicable([Patch(1, 0, [98]), Patch(2, 0, [100])], 3)
    ensures Splice([97, 99, 101], [Patch(1, 0, [98]), Patch(2, 0, [100])], 0) == [97, 98, 99, 100, 101]
  {
    var p, q := Patch(1, 0, [98]), Patch(2, 0, [100]);
    var input: seq<byte> := [97, 99, 101];
    SpliceTwo(input, p, q);
    assert input[..1] == [97] && input[1..2] == [99] && input[2..] == [101];
  }

  /** Inserting "b", "c" and "d" at offset 1 of "ae" gives "abcde":
      insertions at one offset keep their call order. */
  lemma InsertMultiple()
    ensures Patched(Recorded([InsertCall(1, [98]), InsertCall(1, [99]), InsertCall(1, [100])]), [97, 101])
         == Success([97, 98, 99, 100, 101])
  {
    InsertMultipleSorted();
    InsertMultipleOutput();
    OutcomeIs([InsertCall(1, [98]), InsertCall(1, [99]), InsertCall(1, [100])],
              [Patch(1, 0, [98]), Patch(1, 0, [99]), Patch(1, 0, [100])], [97, 101], [97, 98, 99, 100, 101]);
  }

  lemma InsertMultipleSorted()
    ensures StableSort(Recorded([InsertCall(1, [98]), InsertCall(1, [99]), InsertCall(1, [100])]))
         == [Patch(1, 0, [98]), Patch(1, 0, [99]), Patch(1, 0, [100])]
  {
    var p, q, r := Patch(1, 0, [98]), Patch(1, 0, [99]), Patch(1, 0, [100]);
    RecordedOfThree(InsertCall(1, [98]), InsertCall(1, [99]), InsertCall(1, [100]));
    assert [p] + [q] + [r] == [p, q, r];
    SortThree(p, q, r);
  }

  lemma InsertMultipleOutput()
    ensures Applicable([Patch(1, 0, [98]), Patch(1, 0, [99]), Patch(1, 0, [100])], 2)
    ensures Splice([97, 101], [Patch(1, 0, [98]), Patch(1, 0, [99]), Patch(1, 0, [100])], 0)
         == [97, 98, 99, 100, 101]
  {
    var p, q, r := Patch(1, 0, [98]), Patch(1, 0, [99]), Patch(1, 0, [100]);
    var input: seq<byte> := [97, 101];
    SpliceThree(input, p, q, r);
    assert input[..1] == [97] && input[1..1] == [] && input[1..] == [101];
  }

  /** Rewriting [0,2) of "abc" with "x" and the touching [2,3) with "yz"
      gives "xyz". */
  lemma RewriteTouching()
    ensures Patched(Recorded([RewriteCall(0, 2, [120]), RewriteCall(2, 1, [121, 122])]), [97, 98, 99])
         == Success([120, 121, 122])
  {
    RewriteTouchingSorted();
    RewriteTouchingOutput();
    OutcomeIs([RewriteCall(0, 2, [120]), RewriteCall(2, 1, [121, 122])],
              [Patch(0, 2, [120]), Patch(2, 1, [121, 122])], [97, 98, 99], [120, 121, 122]);
  }

  lemma RewriteTouchingSorted()
    ensures StableSort(Recorded([RewriteCall(0, 2, [120]), RewriteCall(2, 1, [121, 122])]))
         == [Patch(0, 2, [120]), Patch(2, 1, [121, 122])]
  {
    RecordedOfTwo(RewriteCall(0, 2, [120]), RewriteCall(2, 1, [121, 122]));
    SortTwo(Patch(0, 2, [120]), Patch(2, 1, [121, 122]));
  }

  lemma RewriteTouchingOutput()
    ensures Applicable([Patch(0, 2, [120]), Patch(2, 1, [121, 122])], 3)
    ensures Splice([97, 98, 99], [Patch(0, 2, [120]), Patch(2, 1, [121, 122])], 0) == [120, 121, 122]
  {
    var p, q := Patch(0, 2, [120]), Patch(2, 1, [121, 122]);
    var input: seq<byte> := [97, 98, 99];
    SpliceTwo(input, p, q);
    assert input[..0] == [] && input[2..2] == [] && input[3..] == [];
  }

  /** Inserting "z" at the end of "abc" gives "abcz". */
  lemma InsertAtEndOfAbc()
    ensures Patched(Recorded([InsertCall(3, [122])]), [97, 98, 99]) == Success([97, 98, 99, 122])
  {
    OneRecord(InsertCall(3, [122]), Patch(3, 0, [122]), [97, 98, 99], [97, 98, 99, 122]);
  }

  /** Rewriting [1,2) of "abc" with "xyz" gives "axyzc". */
  lemma RewriteOne()
    ensures Patched(Recorded([RewriteCall(1, 1, [120, 121, 122])]), [97, 98, 99])
         == Success([97, 120, 121, 122, 99])
  {
    OneRecord(RewriteCall(1, 1, [120, 121, 122]), Patch(1, 1, [120, 121, 122]), [97, 98, 99],
              [97, 120, 121, 122, 99]);
  }

  /** A rewrite of nothing is an insertion: "b" at 1 of "ac" gives "abc". */
  lemma RewriteAsInsert()
    ensures Patched(Recorded([RewriteCall(1, 0, [98])]), [97, 99]) == Success([97, 98, 99])
  {
    OneRecord(RewriteCall(1, 0, [98]), Patch(1, 0, [98]), [97, 99], [97, 98, 99]);
  }

  /** A rewrite with nothing is a deletion: [1,2) of "abc" gives "ac". */
  lemma RewriteAsDelete()
    ensures Patched(Recorded([RewriteCall(1, 1, [])]), [97, 98, 99]) == Success([97, 99])
  {
    OneRecord(RewriteCall(1, 1, []), Patch(1, 1, []), [97, 98, 99], [97, 99]);
  }

  /** Rewriting [0,2) of "abc" with "x" and [1,2) with "yz" conflicts,
      naming both records. */
  lemma RewriteConflict()
    ensures Patched(Recorded([RewriteCall(0, 2, [120]), RewriteCall(1, 1, [121, 122])]), [97, 98, 99])
         == Failure(Conflict(Patch(0, 2, [120]), Patch(1, 1, [121, 122])))
  {
    RewriteConflictSorted();
    ConflictTwo(Patch(0, 2, [120]), Patch(1, 1, [121, 122]), 3);
    FailureIs([RewriteCall(0, 2, [120]), RewriteCall(1, 1, [121, 122])],
              [Patch(0, 2, [120]), Patch(1, 1, [121, 122])], [97, 98, 99],
              Conflict(Patch(0, 2, [120]), Patch(1, 1, [121, 122])));
  }

  lemma RewriteConflictSorted()
    ensures StableSort(Recorded([RewriteCall(0, 2, [120]), RewriteCall(1, 1, [121, 122])]))
         == [Patch(0, 2, [120]), Patch(1, 1, [121, 122])]
  {
    RecordedOfTwo(RewriteCall(0, 2, [120]), RewriteCall(1, 1, [121, 122]));
    SortTwo(Patch(0, 2, [120]), Patch(1, 1, [121, 122]));
  }

  // ---------------------------------------------------------------------
  // Combinations

  /** On "abcde": insert "k" at 3, delete [1,2), insert "l" at 3, rewrite
      [3,4) with "xyz" gives "acklxyze". */
  lemma Combined()
    ensures Patched(Recorded([InsertCall(3, [107]), DeleteCall(1, 1), InsertCall(3, [108]),
                              RewriteCall(3, 1, [120, 121, 122])]),
                    [97, 98, 99, 100, 101])
         == Success([97, 99, 107, 108, 120, 121, 122, 101])
  {
    CombinedSorted();
    CombinedOutput();
    OutcomeIs([InsertCall(3, [107]), DeleteCall(1, 1), InsertCall(3, [108]), RewriteCall(3, 1, [120, 121, 122])],
              [Patch(1, 1, []), Patch(3, 0, [107]), Patch(3, 0, [108]), Patch(3, 1, [120, 121, 122])],
              [97, 98, 99, 100, 101], [97, 99, 107, 108, 120, 121, 122, 101]);
  }

  /** The sorted order of the records of `Combined`: the deletion at 1
      moves in front, the three edits at 3 keep their call order. */
  lemma CombinedSorted()
    ensures StableSort(Recorded([InsertCall(3, [107]), DeleteCall(1, 1), InsertCall(3, [108]),
                                 RewriteCall(3, 1, [120, 121, 122])]))
         == [Patch(1, 1, []), Patch(3, 0, [107]), Patch(3, 0, [108]), Patch(3, 1, [120, 121, 122])]
  {
    var p0, p1, p2, p3 := Patch(3, 0, [107]), Patch(1, 1, []), Patch(3, 0, [108]), Patch(3, 1, [120, 121, 122]);
    RecordedOfFour(InsertCall(3, [107]), DeleteCall(1, 1), InsertCall(3, [108]), RewriteCall(3, 1, [120, 121, 122]));
    assert [p0] + [p1] + [p2] + [p3] == [p0, p1, p2, p3];
    SortCombined(p0, p1, p2, p3);
  }

  lemma SortCombined(p0: Patch, p1: Patch, p2: Patch, p3: Patch)
    requires p0.offset == 3 && p1.offset == 1 && p2.offset == 3 && p3.offset == 3
    ensures StableSort([p0, p1, p2, p3]) == [p1, p0, p2, p3]
  {
    assert StableSort([p0, p1, p2]) == [p1, p0, p2] by {
      SortTwo(p0, p1);
      StableSortAppend([p0, p1], p2);
      assert [p0, p1] + [p2] == [p0, p1, p2];
      assert [p1, p0] + [p2] == [p1, p0, p2];
    }
    StableSortAppend([p0, p1, p2], p3);
    assert [p0, p1, p2] + [p3] == [p0, p1, p2, p3];
    assert [p1, p0, p2] + [p3] == [p1, p0, p2, p3];
  }

  lemma CombinedOutput()
    ensures Applicable([Patch(1, 1, []), Patch(3, 0, [107]), Patch(3, 0, [108]), Patch(3, 1, [120, 121, 122])], 5)
    ensures Splice([97, 98, 99, 100, 101],
                   [Patch(1, 1, []), Patch(3, 0, [107]), Patch(3, 0, [108]), Patch(3, 1, [120, 121, 122])], 0)
         == [97, 99, 107, 108, 120, 121, 122, 101]
  {
    var p, q, r, t := Patch(1, 1, []), Patch(3, 0, [107]), Patch(3, 0, [108]), Patch(3, 1, [120, 121, 122]);
    var input: seq<byte> := [97, 98, 99, 100, 101];
    SpliceFour(input, p, q, r, t);
    assert input[..1] == [97] && input[2..3] == [99] && input[3..3] == [] && input[4..] == [101];
  }

  /** On "abcde": insert "g" at 0, insert "f" at 4, delete [1,2), rewrite
      [2,3) with "uvw", rewrite [3,5) with "xyz". In sorted order the last
      rewrite is followed by the insertion at 4, inside its span. */
  lemma CombinedConflict()
    ensures Patched(Recorded([InsertCall(0, [103]), InsertCall(4, [102]), DeleteCall(1, 1),
                              RewriteCall(2, 1, [117, 118, 119]), RewriteCall(3, 2, [120, 121, 122])]),
                    [97, 98, 99, 100, 101])
         == Failure(Conflict(Patch(3, 2, [120, 121, 122]), Patch(4, 0, [102])))
  {
    CombinedConflictSorted();
    CombinedConflictValidated();
    FailureIs([InsertCall(0, [103]), InsertCall(4, [102]), DeleteCall(1, 1),
               RewriteCall(2, 1, [117, 118, 119]), RewriteCall(3, 2, [120, 121, 122])],
              [Patch(0, 0, [103]), Patch(1, 1, []), Patch(2, 1, [117, 118, 119]),
               Patch(3, 2, [120, 121, 122]), Patch(4, 0, [102])],
              [97, 98, 99, 100, 101], Conflict(Patch(3, 2, [120, 121, 122]), Patch(4, 0, [102])));
  }

  lemma CombinedConflictSorted()
    ensures StableSort(Recorded([InsertCall(0, [103]), InsertCall(4, [102]), DeleteCall(1, 1),
                                 RewriteCall(2, 1, [117, 118, 119]), RewriteCall(3, 2, [120, 121, 122])]))
         == [Patch(0, 0, [103]), Patch(1, 1, []), Patch(2, 1, [117, 118, 119]),
             Patch(3, 2, [120, 121, 122]), Patch(4, 0, [102])]
  {
    var p0, p1, p2, p3, p4 := Patch(0, 0, [103]), Patch(4, 0, [102]), Patch(1, 1, []),
                              Patch(2, 1, [117, 118, 119]), Patch(3, 2, [120, 121, 122]);
    RecordedOfFive(InsertCall(0, [103]), InsertCall(4, [102]), DeleteCall(1, 1),
                   RewriteCall(2, 1, [117, 118, 119]), RewriteCall(3, 2, [120, 121, 122]));
    assert [p0] + [p1] + [p2] + [p3] + [p4] == [p0, p1, p2, p3, p4];
    SortCombinedConflict(p0, p1, p2, p3, p4);
  }

  /** Inserting `p` into `l + [x]`, where `p` belongs after all of `l` but
      before `x`, puts it just before `x`. */
  lemma InsertBeforeLast(l: seq<Patch>, x: Patch, p: Patch)
    requires l != [] && l[|l| - 1].offset <= p.offset < x.offset
    ensures Insert(l + [x], p) == l + [p, x]
  {
    InsertBetween(l, [x], p);
    assert l + [p] + [x] == l + [p, x];
  }

  /** The sorted order of the records of `CombinedConflict`, one insertion
      step at a time: the records at 1, 2 and 3 each go in before the
      insertion at 4. */
  lemma SortCombinedConflict(p0: Patch, p1: Patch, p2: Patch, p3: Patch, p4: Patch)
    requires p0.offset == 0 && p1.offset == 4 && p2.offset == 1 && p3.offset == 2 && p4.offset == 3
    ensures StableSort([p0, p1, p2, p3, p4]) == [p0, p2, p3, p4, p1]
  {
    assert StableSort([p0, p1, p2, p3, p4]) == Insert([p0, p2, p3, p1], p4) by {
      SortCombinedConflictFour(p0, p1, p2, p3);
      StableSortAppend([p0, p1, p2, p3], p4);
      assert [p0, p1, p2, p3] + [p4] == [p0, p1, p2, p3, p4];
    }
    assert Insert([p0, p2, p3, p1], p4) == [p0, p2, p3, p4, p1] by {
      InsertBeforeLast([p0, p2, p3], p1, p4);
      assert [p0, p2, p3] + [p1] == [p0, p2, p3, p1];
      assert [p0, p2, p3] + [p4, p1] == [p0, p2, p3, p4, p1];
    }
  }

  lemma SortCombinedConflictFour(p0: Patch, p1: Patch, p2: Patch, p3: Patch)
    requires p0.offset == 0 && p1.offset == 4 && p2.offset == 1 && p3.offset == 2
    ensures StableSort([p0, p1, p2, p3]) == [p0, p2, p3, p1]
  {
    SortCombinedConflictThree(p0, p1, p2);
    StableSortAppend([p0, p1, p2], p3);
    assert [p0, p1, p2] + [p3] == [p0, p1, p2, p3];
    InsertBeforeLast([p0, p2], p1, p3);
    assert [p0, p2] + [p1] == [p0, p2, p1];
    assert [p0, p2] + [p3, p1] == [p0, p2, p3, p1];
  }

  lemma SortCombinedConflictThree(p0: Patch, p1: Patch, p2: Patch)
    requires p0.offset == 0 && p1.offset == 4 && p2.offset == 1
    ensures StableSort([p0, p1, p2]) == [p0, p2, p1]
  {
    SortTwo(p0, p1);
    StableSortAppend([p0, p1], p2);
    assert [p0, p1] + [p2] == [p0, p1, p2];
    InsertBeforeLast([p0], p1, p2);
    assert [p0] + [p1] == [p0, p1];
    assert [p0] + [p2, p1] == [p0, p2, p1];
  }

  lemma CombinedConflictValidated()
    ensures Validate([Patch(0, 0, [103]), Patch(1, 1, []), Patch(2, 1, [117, 118, 119]),
                      Patch(3, 2, [120, 121, 122]), Patch(4, 0, [102])], 5)
         == Some(Conflict(Patch(3, 2, [120, 121, 122]), Patch(4, 0, [102])))
  {
    ValidateCombinedConflict(Patch(0, 0, [103]), Patch(1, 1, []), Patch(2, 1, [117, 118, 119]),
                             Patch(3, 2, [120, 121, 122]), Patch(4, 0, [102]));
  }

  /** Validation of the sorted records of `CombinedConflict`: the first
      three are in range and apart, the fourth reaches past the fifth. */
  lemma ValidateCombinedConflict(p0: Patch, p1: Patch, p2: Patch, p3: Patch, p4: Patch)
    requires p0.offset == 0 && p0.length == 0
    requires p1.offset == 1 && p1.length == 1
    requires p2.offset == 2 && p2.length == 1
    requires p3.offset == 3 && p3.length == 2
    requires p4.offset == 4 && p4.length == 0
    ensures Validate([p0, p1, p2, p3, p4], 5) == Some(Conflict(p3, p4))
  {
    var s := [p0, p1, p2, p3, p4];
    assert ValidateFrom(s, 3, 5) == Some(Conflict(p3, p4));
    assert ValidateFrom(s, 2, 5) == ValidateFrom(s, 3, 5);
    assert ValidateFrom(s, 1, 5) == ValidateFrom(s, 2, 5);
  }

  /** A rewrite of [3,4) of "abcde" with "xyz" recorded before an
      insertion of "k" at 3 stays before it after sorting and conflicts. */
  lemma RewriteThenInsertAtOneOffset()
    ensures Patched(Recorded([RewriteCall(3, 1, [120, 121, 122]), InsertCall(3, [107])]), [97, 98, 99, 100, 101])
         == Failure(Conflict(Patch(3, 1, [120, 121, 122]), Patch(3, 0, [107])))
  {
    RewriteThenInsertSorted();
    ConflictTwo(Patch(3, 1, [120, 121, 122]), Patch(3, 0, [107]), 5);
    FailureIs([RewriteCall(3, 1, [120, 121, 122]), InsertCall(3, [107])],
              [Patch(3, 1, [120, 121, 122]), Patch(3, 0, [107])], [97, 98, 99, 100, 101],
              Conflict(Patch(3, 1, [120, 121, 122]), Patch(3, 0, [107])));
  }

  lemma RewriteThenInsertSorted()
    ensures StableSort(Recorded([RewriteCall(3, 1, [120, 121, 122]), InsertCall(3, [107])]))
         == [Patch(3, 1, [120, 121, 122]), Patch(3, 0, [107])]
  {
    RecordedOfTwo(RewriteCall(3, 1, [120, 121, 122]), InsertCall(3, [107]));
    SortTwo(Patch(3, 1, [120, 121, 122]), Patch(3, 0, [107]));
  }

  /** The same two edits recorded the other way round give "abckxyze". */
  lemma InsertThenRewriteAtOneOffset()
    ensures Patched(Recorded([InsertCall(3, [107]), RewriteCall(3, 1, [120, 121, 122])]), [97, 98, 99, 100, 101])
         == Success([97, 98, 99, 107, 120, 121, 122, 101])
  {
    InsertThenRewriteSorted();
    InsertThenRewriteOutput();
    OutcomeIs([InsertCall(3, [107]), RewriteCall(3, 1, [120, 121, 122])],
              [Patch(3, 0, [107]), Patch(3, 1, [120, 121, 122])], [97, 98, 99, 100, 101],
              [97, 98, 99, 107, 120, 121, 122, 101]);
  }

  lemma InsertThenRewriteSorted()
    ensures StableSort(Recorded([InsertCall(3, [107]), RewriteCall(3, 1, [120, 121, 122])]))
         == [Patch(3, 0, [107]), Patch(3, 1, [120, 121, 122])]
  {
    RecordedOfTwo(InsertCall(3, [107]), RewriteCall(3, 1, [120, 121, 122]));
    SortTwo(Patch(3, 0, [107]), Patch(3, 1, [120, 121, 122]));
  }

  lemma InsertThenRewriteOutput()
    ensures Applicable([Patch(3, 0, [107]), Patch(3, 1, [120, 121, 122])], 5)
    ensures Splice([97, 98, 99, 100, 101], [Patch(3, 0, [107]), Patch(3, 1, [120, 121, 122])], 0)
         == [97, 98, 99, 107, 120, 121, 122, 101]
  {
    var p, q := Patch(3, 0, [107]), Patch(3, 1, [120, 121, 122]);
    var input: seq<byte> := [97, 98, 99, 100, 101];
    SpliceTwo(input, p, q);
    assert input[..3] == [97, 98, 99] && input[3..3] == [] && input[4..] == [101];
  }

  /** Only neighbours in sorted order are compared, and the sort keeps call
      order at one offset, so whether an insertion and a rewrite at the
      same offset conflict depends on the order they were recorded in. */
  lemma RecordingOrderAtOneOffsetMatters()
    ensures Patched(Recorded([RewriteCall(3, 1, [120, 121, 122]), InsertCall(3, [107])]), [97, 98, 99, 100, 101]).Failure?
    ensures Patched(Recorded([InsertCall(3, [107]), RewriteCall(3, 1, [120, 121, 122])]), [97, 98, 99, 100, 101]).Success?
  {
    RewriteThenInsertAtOneOffset();
    InsertThenRewriteAtOneOffset();
  }

  // ---------------------------------------------------------------------
  // The example of the package documentation

  /** "The brown fox jumps twice over the lazy horse", in the pieces the
      edits below cut it into. */
  const BrownFox: seq<byte> := FoxThe + FoxBrown + FoxTwice + FoxOver + FoxHorse
  // "The"
  const FoxThe: seq<byte> := [84, 104, 101]
  // " brown fox jumps "
  const FoxBrown: seq<byte> := [32, 98, 114, 111, 119, 110, 32, 102, 111, 120, 32, 106, 117, 109, 112, 115, 32]
  // "twice "
  const FoxTwice: seq<byte> := [116, 119, 105, 99, 101, 32]
  // "over the lazy "
  const FoxOver: seq<byte> := [111, 118, 101, 114, 32, 116, 104, 101, 32, 108, 97, 122, 121, 32]
  // "horse"
  const FoxHorse: seq<byte> := [104, 111, 114, 115, 101]
  // " quick"
  const Quick: seq<byte> := [32, 113, 117, 105, 99, 107]
  // "dog"
  const Dog: seq<byte> := [100, 111, 103]

  /** "The quick brown fox jumps over the lazy dog", written in word groups. */
  const QuickFox: seq<byte> :=
    [84, 104, 101] + [32, 113, 117, 105, 99, 107] + [32, 98, 114, 111, 119, 110, 32, 102, 111, 120, 32, 106, 117, 109, 112, 115, 32]
    + [111, 118, 101, 114, 32, 116, 104, 101, 32, 108, 97, 122, 121, 32] + [100, 111, 103]

  /** On "The brown fox jumps twice over the lazy horse": insert " quick"
      at 3, delete "twice " (6 bytes at 20), rewrite the 5 bytes at 40 with
      "dog"; the output is "The quick brown fox jumps over the lazy dog". */
  lemma BrownFoxExample()
    ensures Patched(Recorded([InsertCall(3, Quick), DeleteCall(20, 6), RewriteCall(40, 5, Dog)]), BrownFox)
         == Success(QuickFox)
  {
    BrownFoxSorted();
    BrownFoxOutput();
    OutcomeIs([InsertCall(3, Quick), DeleteCall(20, 6), RewriteCall(40, 5, Dog)],
              [Patch(3, 0, Quick), Patch(20, 6, []), Patch(40, 5, Dog)], BrownFox, QuickFox);
  }

  lemma BrownFoxSorted()
    ensures StableSort(Recorded([InsertCall(3, Quick), DeleteCall(20, 6), RewriteCall(40, 5, Dog)]))
         == [Patch(3, 0, Quick), Patch(20, 6, []), Patch(40, 5, Dog)]
  {
    var p, q, r := Patch(3, 0, Quick), Patch(20, 6, []), Patch(40, 5, Dog);
    RecordedOfThree(InsertCall(3, Quick), DeleteCall(20, 6), RewriteCall(40, 5, Dog));
    assert [p] + [q] + [r] == [p, q, r];
    SortThree(p, q, r);
  }

  lemma BrownFoxOutput()
    ensures Applicable([Patch(3, 0, Quick), Patch(20, 6, []), Patch(40, 5, Dog)], |BrownFox|)
    ensures Splice(BrownFox, [Patch(3, 0, Quick), Patch(20, 6, []), Patch(40, 5, Dog)], 0) == QuickFox
  {
    PiecesOutput(FoxThe, FoxBrown, FoxTwice, FoxOver, FoxHorse, Patch(3, 0, Quick), Patch(20, 6, []), Patch(40, 5, Dog));
    assert QuickFox == FoxThe + Quick + FoxBrown + FoxOver + Dog;
  }

  /** The output for the records of `BrownFoxExample` on any input made of
      pieces of 3, 17, 6, 14 and 5 bytes: the insertion goes between the
      first two pieces, the third piece is deleted and the last rewritten. */
  lemma PiecesOutput(a: seq<byte>, b: seq<byte>, c: seq<byte>, d: seq<byte>, e: seq<byte>,
                     p: Patch, q: Patch, r: Patch)
    requires |a| == 3 && |b| == 17 && |c| == 6 && |d| == 14 && |e| == 5
    requires p.offset == 3 && p.length == 0
    requires q.offset == 20 && q.length == 6 && q.data == []
    requires r.offset == 40 && r.length == 5
    ensures Applicable([p, q, r], 45)
    ensures Splice(a + b + c + d + e, [p, q, r], 0) == a + p.data + b + d + r.data
  {
    var input := a + b + c + d + e;
    SpliceThree(input, p, q, r);
    PiecesSlices(a, b, c, d, e);
    Regroup(a, p.data, b, d, r.data);
  }

  /** Where the pieces of the example input lie in it. */
  lemma PiecesSlices(a: seq<byte>, b: seq<byte>, c: seq<byte>, d: seq<byte>, e: seq<byte>)
    requires |a| == 3 && |b| == 17 && |c| == 6 && |d| == 14 && |e| == 5
    ensures |a + b + c + d + e| == 45
    ensures (a + b + c + d + e)[..3] == a && (a + b + c + d + e)[3..20] == b
    ensures (a + b + c + d + e)[26..40] == d && (a + b + c + d + e)[45..] == []
  {
    var input := a + b + c + d + e;
    assert input[..3] == a;
    assert input[3..20] == b;
    assert input[26..40] == d;
  }

  /** The cursor walk's output for the example, with the deleted gap and
      the empty tail dropped. */
  lemma Regroup(a: seq<byte>, x: seq<byte>, b: seq<byte>, d: seq<byte>, y: seq<byte>)
    ensures a + x + (b + [] + (d + y + [])) == a + x + b + d + y
  {
    assert b + [] == b && d + y + [] == d + y;
  }

  // ---------------------------------------------------------------------
  // Driving a Patcher

  /** A new Patcher is empty, a deletion makes it non-empty, and a reset
      empties it again. */
  method EmptyDeleteReset() returns (before: bool, during: bool, after: bool)
    ensures before && !during && after
  {
    var p := new Patcher();
    before := p.Empty();
    p.Delete(1, 1);
    assert !IsNoOp(p.calls[0]);
    during := p.Empty();
    p.Reset();
    after := p.Empty();
  }

  /** Inserting nothing and rewriting nothing with nothing leave a new
      Patcher empty. */
  method EmptyAfterZeroLength() returns (empty: bool)
    ensures empty
  {
    var p := new Patcher();
    p.InsertBytes(1, []);
    p.RewriteBytes(2, 0, []);
    empty := p.Empty();
  }

  /** Rewrite [1,2) of "abc" with "xyz", reset, insert "z" at 3; the
      Patcher is not empty and applying gives "abcz". */
  method ResetThenInsert() returns (empty: bool, result: Result<seq<byte>, PatchError>)
    ensures !empty
    ensures result == Success([97, 98, 99, 122])
  {
    var p := new Patcher();
    p.RewriteBytes(1, 1, [120, 121, 122]);
    p.Reset();
    p.InsertBytes(3, [122]);
    assert !IsNoOp(p.calls[0]);
    empty := p.Empty();
    result := p.PatchBytes([97, 98, 99]);
    InsertAtEndOfAbc();
  }
}
