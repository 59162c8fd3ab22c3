/**
  The edit record of the patcher and the vocabulary shared by the other
  modules: bytes, the consumed span of a record, the error kinds reported
  when the recorded edits are applied, and the condition under which a
  list of records can be applied to an input of a given length.
 */
module Patches {

  /** One byte of input, replacement data or output. */
  newtype byte = x: int | 0 <= x < 256

  /** A recorded edit: consume `length` bytes of the original input at
      `offset` and put `data` in their place. Offsets and lengths are stored
      exactly as the caller gave them and are only checked when applied. */
  datatype Patch = Patch(offset: int, length: int, data: seq<byte>)

  /** The end of the consumed span `[offset, offset + length)`. */
  function End(p: Patch): int
  {
    p.offset + p.length
  }

  datatype Option<+T> = None | Some(value: T)

  datatype Result<+R, +E> = Success(value: R) | Failure(error: E)

  /** Why applying the edits failed, with the offending record(s). */
  datatype PatchError =
    | NegativeOffset(patch: Patch)
    | NegativeLength(patch: Patch)
    | OutOfRange(patch: Patch)
    | Conflict(patch: Patch, next: Patch)

  /** The record lies inside an input of length `n`. */
  predicate WellFormed(p: Patch, n: int)
  {
    0 <= p.offset && 0 <= p.length && End(p) <= n
  }

  /** Every record lies inside an input of length `n`, and every record's
      consumed span ends at or before the start of every later record:
      the spans are pairwise disjoint (touching allowed) and in order. */
  predicate Applicable(s: seq<Patch>, n: int)
  {
    && (forall i :: 0 <= i < |s| ==> WellFormed(s[i], n))
    && (forall i, j :: 0 <= i < j < |s| ==> End(s[i]) <= s[j].offset)
  }

  /** Total number of input bytes the records consume. */
  function SumLength(s: seq<Patch>): int
  {
    if s == [] then 0 else SumLength(s[..|s| - 1]) + s[|s| - 1].length
  }

  /** Total number of replacement bytes the records carry. */
  function SumData(s: seq<Patch>): nat
  {
    if s == [] then 0 else SumData(s[..|s| - 1]) + |s[|s| - 1].data|
  }

  lemma {:induction false} SumsOfConcat(a: seq<Patch>, b: seq<Patch>)
    ensures SumLength(a + b) == SumLength(a) + SumLength(b)
    ensures SumData(a + b) == SumData(a) + SumData(b)
  {
    if b != [] {
      assert (a + b)[..|a + b| - 1] == a + b[..|b| - 1];
      SumsOfConcat(a, b[..|b| - 1]);
    } else {
      assert a + b == a;
    }
  }

  lemma SumsOfFirst(s: seq<Patch>)
    requires s != []
    ensures SumLength(s) == s[0].length + SumLength(s[1..])
    ensures SumData(s) == |s[0].data| + SumData(s[1..])
  {
    SumsOfConcat([s[0]], s[1..]);
    assert [s[0]] + s[1..] == s;
    assert [s[0]][..0] == [];
  }

  /** A record that lies inside the input and ends before the first of
      some applicable records can be put in front of them. */
  lemma ApplicableCons(p: Patch, s: seq<Patch>, n: int)
    requires WellFormed(p, n) && Applicable(s, n)
    requires s != [] ==> End(p) <= s[0].offset
    ensures Applicable([p] + s, n)
  {
    var t := [p] + s;
    forall i, j | 0 <= i < j < |t|
      ensures End(t[i]) <= t[j].offset
    {
      if i == 0 && j > 1 {
        assert t[j] == s[j - 1] && End(s[0]) <= s[j - 1].offset;
      }
    }
  }
}
