/**
  The Patcher: it records edits against an input that is not yet known and
  later applies them to a concrete input. The recording operations only
  append records (or do nothing for zero-length operations); `PatchBytes`
  sorts the stored records in place, validates them and builds the output.

  Besides the stored records, a Patcher keeps as ghost state the recording
  calls made since it was created or last reset. The object invariant ties
  the two together: the stored records are the records those calls made, up
  to the re-sorting `PatchBytes` does, which never changes the outcome.
 */
module Patching {
  import opened Patches
  import opened StableSorting
  import opened Validation
  import opened Splicing

  /** A call to one of the recording operations. */
  datatype Call =
    | DeleteCall(offset: int, length: int)
    | InsertCall(offset: int, data: seq<byte>)
    | RewriteCall(offset: int, length: int, data: seq<byte>)

  /** A call that records nothing: a zero-length deletion, an insertion of
      no data, or a rewrite of nothing with nothing. */
  predicate IsNoOp(c: Call)
  {
    match c
    case DeleteCall(_, length) => length == 0
    case InsertCall(_, data) => data == []
    case RewriteCall(_, length, data) => length == 0 && data == []
  }

  /** The record a call appends: none for a no-op, one otherwise. */
  function RecordOf(c: Call): seq<Patch>
  {
    match c
    case DeleteCall(offset, length) =>
      if length != 0 then [Patch(offset, length, [])] else []
    case InsertCall(offset, data) =>
      if |data| != 0 then [Patch(offset, 0, data)] else []
    case RewriteCall(offset, length, data) =>
      if length != 0 || |data| != 0 then [Patch(offset, length, data)] else []
  }

  /** The records made by a sequence of calls, in call order. */
  function Recorded(calls: seq<Call>): seq<Patch>
  {
    if calls == [] then []
    else Recorded(calls[..|calls| - 1]) + RecordOf(calls[|calls| - 1])
  }

  /** What applying the records to `input` yields: the records are sorted
      stably by offset, validated, and, if valid, spliced into the input. */
  function Patched(records: seq<Patch>, input: seq<byte>): Result<seq<byte>, PatchError>
  {
    var s := StableSort(records);
    match Validate(s, |input|)
    case Some(e) => Failure(e)
    case None =>
      ValidateOkIffApplicable(s, |input|);
      Success(Splice(input, s, 0))
  }

  class Patcher {
    /** The recorded edits, in recording order until `PatchBytes` sorts them. */
    var patches: seq<Patch>
    /** The recording calls made since creation or the last `Reset`. */
    ghost var calls: seq<Call>

    ghost predicate Valid()
      reads this
    {
      StableSort(patches) == StableSort(Recorded(calls))
    }

    /** The zero value: no edits. */
    constructor ()
      ensures Valid() && patches == [] && calls == []
    {
      patches := [];
      calls := [];
    }

    /** True iff every call since creation or the last reset was a no-op. */
    predicate Empty()
      reads this
      requires Valid()
      ensures Empty() <==> forall i :: 0 <= i < |calls| ==> IsNoOp(calls[i])
    {
      StableSortPermutes(patches);
      StableSortPermutes(Recorded(calls));
      RecordedEmptyIffNoOps(calls);
      |patches| == 0
    }

    /** Removes all edits. */
    method Reset()
      modifies this
      ensures Valid() && Empty()
      ensures patches == [] && calls == []
    {
      patches := [];
      calls := [];
    }

    /** Records the removal of `length` bytes at `offset`; nothing for a
        zero length. Nothing is checked until the edits are applied. */
    method Delete(offset: int, length: int)
      requires Valid()
      modifies this
      ensures Valid() && calls == old(calls) + [DeleteCall(offset, length)]
      ensures patches == if length != 0 then old(patches) + [Patch(offset, length, [])] else old(patches)
    {
      ghost var before := patches;
      if length != 0 {
        patches := patches + [Patch(offset, length, [])];
      }
      Record(DeleteCall(offset, length), before);
    }

    /** Records the insertion of `data` at `offset`; nothing for empty data.
        Insertions at one offset are applied in the order of these calls. */
    method InsertBytes(offset: int, data: seq<byte>)
      requires Valid()
      modifies this
      ensures Valid() && calls == old(calls) + [InsertCall(offset, data)]
      ensures patches == if |data| != 0 then old(patches) + [Patch(offset, 0, data)] else old(patches)
    {
      ghost var before := patches;
      if |data| != 0 {
        patches := patches + [Patch(offset, 0, data)];
      }
      Record(InsertCall(offset, data), before);
    }

    /** Records the replacement of `length` bytes at `offset` by `data`;
        nothing when both are empty. */
    method RewriteBytes(offset: int, length: int, data: seq<byte>)
      requires Valid()
      modifies this
      ensures Valid() && calls == old(calls) + [RewriteCall(offset, length, data)]
      ensures patches == if length != 0 || |data| != 0 then old(patches) + [Patch(offset, length, data)] else old(patches)
    {
      ghost var before := patches;
      if length != 0 || |data| != 0 {
        patches := patches + [Patch(offset, length, data)];
      }
      Record(RewriteCall(offset, length, data), before);
    }

    /** Adds `c` to the ghost history once its record, if any, has been
        appended to the records `before` that the history accounted for. */
    ghost method Record(c: Call, before: seq<Patch>)
      requires StableSort(before) == StableSort(Recorded(calls))
      requires patches == before + RecordOf(c)
      modifies this`calls
      ensures Valid() && calls == old(calls) + [c]
    {
      var old_calls, r := calls, RecordOf(c);
      RecordedAppends(old_calls, c);
      AppendKeepsSort(before, Recorded(old_calls), r);
      calls := old_calls + [c];
      assert StableSort(patches) == StableSort(Recorded(old_calls) + r);
    }

    /** Applies the edits to `input`. The stored records are first sorted
        stably by offset, in place; they stay sorted whatever the outcome.
        The outcome depends only on the calls made since the last reset. */
    method PatchBytes(input: seq<byte>) returns (result: Result<seq<byte>, PatchError>)
      requires Valid()
      modifies this
      ensures Valid() && calls == old(calls)
      ensures patches == StableSort(old(patches))
      ensures result == Patched(Recorded(calls), input)
    {
      var recorded := patches;
      var a := new Patch[|recorded|](i requires 0 <= i < |recorded| => recorded[i]);
      assert a[..] == recorded;
      SortByOffset(a);
      patches := a[..];
      StableSortIdempotent(recorded);
      var err := CheckPatches(patches, |input|);
      if err.Some? {
        return Failure(err.value);
      }
      ValidateOkIffApplicable(patches, |input|);
      var output := BuildOutput(input, patches);
      return Success(output);
    }
  }

  // ---------------------------------------------------------------------
  // Recording

  /** Appending one call's record keeps two record lists equivalent when
      they were equivalent before. */
  lemma AppendKeepsSort(x: seq<Patch>, y: seq<Patch>, r: seq<Patch>)
    requires StableSort(x) == StableSort(y)
    requires |r| <= 1
    ensures StableSort(x + r) == StableSort(y + r)
  {
    if r != [] {
      assert (x + r)[..|x|] == x;
      assert (y + r)[..|y|] == y;
    } else {
      assert x + r == x && y + r == y;
    }
  }

  /** No record has been made exactly when every call was a no-op. */
  lemma {:induction false} RecordedEmptyIffNoOps(calls: seq<Call>)
    ensures Recorded(calls) == [] <==> forall i :: 0 <= i < |calls| ==> IsNoOp(calls[i])
  {
    if calls != [] {
      var init, last := calls[..|calls| - 1], calls[|calls| - 1];
      RecordedEmptyIffNoOps(init);
      assert forall i :: 0 <= i < |init| ==> init[i] == calls[i];
    }
  }

  /** Each call appends at most one record, at the end, and exactly one
      unless it is a no-op; a negative length is recorded like any other. */
  lemma RecordedAppends(calls: seq<Call>, c: Call)
    ensures Recorded(calls + [c]) == Recorded(calls) + RecordOf(c)
    ensures |RecordOf(c)| == if IsNoOp(c) then 0 else 1
  {
    assert (calls + [c])[..|calls|] == calls;
  }

  // ---------------------------------------------------------------------
  // Applying

  /** With no records the input comes back unchanged. */
  lemma PatchedNothing(input: seq<byte>)
    ensures Patched([], input) == Success(input)
  {
    assert Splice(input, [], 0) == input[0..];
  }

  /** Applying succeeds exactly when, in sorted order, every record lies
      inside the input and the consumed spans are disjoint (touching spans
      and a span ending at the end of the input allowed). */
  lemma PatchedSucceedsIffApplicable(records: seq<Patch>, input: seq<byte>)
    ensures Patched(records, input).Success? <==> Applicable(StableSort(records), |input|)
  {
    ValidateOkIffApplicable(StableSort(records), |input|);
  }

  lemma {:induction false} InsertKeepsSums(s: seq<Patch>, p: Patch)
    ensures SumLength(Insert(s, p)) == SumLength(s) + p.length
    ensures SumData(Insert(s, p)) == SumData(s) + |p.data|
  {
    if s == [] || s[|s| - 1].offset <= p.offset {
      assert (s + [p])[..|s|] == s;
    } else {
      var init, last := s[..|s| - 1], s[|s| - 1];
      InsertKeepsSums(init, p);
      var r := Insert(init, p);
      assert (r + [last])[..|r|] == r;
    }
  }

  lemma {:induction false} SortKeepsSums(s: seq<Patch>)
    ensures SumLength(StableSort(s)) == SumLength(s)
    ensures SumData(StableSort(s)) == SumData(s)
  {
    if s != [] {
      SortKeepsSums(s[..|s| - 1]);
      InsertKeepsSums(StableSort(s[..|s| - 1]), s[|s| - 1]);
    }
  }

  /** The output is as long as the input, less every consumed span, plus
      every replacement. */
  lemma PatchedLength(records: seq<Patch>, input: seq<byte>)
    requires Patched(records, input).Success?
    ensures |Patched(records, input).value| == |input| - SumLength(records) + SumData(records)
  {
    var s := StableSort(records);
    ValidateOkIffApplicable(s, |input|);
    SpliceLength(input, s, 0);
    SortKeepsSums(records);
  }

  /** The output is what applying the sorted edits one at a time, from the
      rightmost to the leftmost, to the whole input produces. */
  lemma PatchedIsEditsFromRight(records: seq<Patch>, input: seq<byte>)
    requires Patched(records, input).Success?
    ensures Applicable(StableSort(records), |input|)
    ensures Patched(records, input).value == EditsFromRight(input, StableSort(records))
  {
    var s := StableSort(records);
    ValidateOkIffApplicable(s, |input|);
    SpliceIsEditsFromRight(input, s, 0);
  }

  /** Applying the already sorted records gives the same outcome, so applying
      twice to the same input gives the same outcome twice. */
  lemma PatchedAfterSort(records: seq<Patch>, input: seq<byte>)
    ensures Patched(StableSort(records), input) == Patched(records, input)
  {
    StableSortIdempotent(records);
  }

  /** The outcome does not depend on the order in which edits at different
      offsets were recorded, only on the order of the edits at each offset. */
  lemma PatchedIgnoresOrderAcrossOffsets(r1: seq<Patch>, r2: seq<Patch>, input: seq<byte>)
    requires forall k :: AtOffset(r1, k) == AtOffset(r2, k)
    ensures Patched(r1, input) == Patched(r2, input)
  {
    SameClassesSameSort(r1, r2);
  }
}
