/**
  The output pass of `PatchBytes`: once validation has succeeded, the
  sorted records are walked left to right with a cursor into the input;
  the untouched input between the cursor and each record's offset is
  copied, then the record's data, and the cursor jumps past the consumed
  span. After the last record the rest of the input is copied.
 */
module Splicing {
  import opened Patches

  /** The output produced from `input` by the records `s`, starting with
      the cursor at `cursor`. */
  function Splice(input: seq<byte>, s: seq<Patch>, cursor: int): seq<byte>
    requires Applicable(s, |input|)
    requires 0 <= cursor <= |input|
    requires forall i :: 0 <= i < |s| ==> cursor <= s[i].offset
    decreases |s|
  {
    if s == [] then input[cursor..]
    else input[cursor..s[0].offset] + s[0].data + Splice(input, s[1..], End(s[0]))
  }

  /** One edit applied on its own to a buffer. */
  function Edit(buf: seq<byte>, p: Patch): (r: seq<byte>)
    requires WellFormed(p, |buf|)
    ensures |r| == |buf| - p.length + |p.data|
  {
    buf[..p.offset] + p.data + buf[End(p)..]
  }

  /** Reference definition: the edits applied one at a time to the whole
      buffer, rightmost first, so that every edit still finds the original
      bytes at its offsets (the edits to its right have not moved them). */
  function EditsFromRight(buf: seq<byte>, s: seq<Patch>): (r: seq<byte>)
    requires Applicable(s, |buf|)
    ensures s != [] ==> s[0].offset <= |r| && r[..s[0].offset] == buf[..s[0].offset]
    decreases |s|
  {
    if s == [] then buf
    else
      var rest := EditsFromRight(buf, s[1..]);
      assert |s| > 1 ==> End(s[0]) <= s[1].offset;
      Edit(rest, s[0])
  }

  /** The cursor loop of `PatchBytes`. At every step `cursor` is the end of
      the previous record and lies at or before the offset of the current
      one, so every slice of the input it takes is in bounds and the cursor
      never moves backwards. */
  method BuildOutput(input: seq<byte>, s: seq<Patch>) returns (output: seq<byte>)
    requires Applicable(s, |input|)
    ensures output == Splice(input, s, 0)
  {
    output := [];
    var cursor := 0;
    for i := 0 to |s|
      invariant 0 <= cursor <= |input|
      invariant forall j :: i <= j < |s| ==> cursor <= s[j].offset
      invariant i > 0 ==> cursor == End(s[i - 1])
      invariant output + Splice(input, s[i..], cursor) == Splice(input, s, 0)
    {
      var p := s[i];
      ghost var previous := cursor;
      Advance(input, s, i, cursor, output, Splice(input, s, 0));
      output := output + input[cursor..p.offset];
      output := output + p.data;
      cursor := p.offset + p.length;
      assert previous <= cursor;
    }
    output := output + input[cursor..];
  }

  /** One step of the cursor walk: the gap before the record at `i` and its
      data are appended, the cursor moves forward to the end of its span,
      and the rest of the walk still yields `total`. */
  lemma Advance(input: seq<byte>, s: seq<Patch>, i: int, cursor: int, output: seq<byte>, total: seq<byte>)
    requires Applicable(s, |input|) && 0 <= i < |s| && 0 <= cursor <= |input|
    requires forall j :: i <= j < |s| ==> cursor <= s[j].offset
    requires output + Splice(input, s[i..], cursor) == total
    ensures cursor <= s[i].offset <= End(s[i]) <= |input|
    ensures forall j :: i < j < |s| ==> End(s[i]) <= s[j].offset
    ensures output + input[cursor..s[i].offset] + s[i].data + Splice(input, s[i + 1..], End(s[i])) == total
  {
    var rest := Splice(input, s[i + 1..], End(s[i]));
    assert Splice(input, s[i..], cursor) == input[cursor..s[i].offset] + s[i].data + rest by {
      assert s[i..][0] == s[i] && s[i..][1..] == s[i + 1..];
    }
    assert output + input[cursor..s[i].offset] + s[i].data + rest
        == output + (input[cursor..s[i].offset] + s[i].data + rest);
  }

  // ---------------------------------------------------------------------
  // What the output is

  /** The output has the input's length, less every consumed span, plus
      every replacement. */
  lemma {:induction false} SpliceLength(input: seq<byte>, s: seq<Patch>, cursor: int)
    requires Applicable(s, |input|)
    requires 0 <= cursor <= |input|
    requires forall i :: 0 <= i < |s| ==> cursor <= s[i].offset
    ensures |Splice(input, s, cursor)| == |input| - cursor - SumLength(s) + SumData(s)
    decreases |s|
  {
    if s != [] {
      SpliceLength(input, s[1..], End(s[0]));
      SumsOfFirst(s);
    }
  }

  /** The cursor walk produces what applying the edits one by one, from
      the right, produces: every input byte outside the consumed spans is
      kept, in order, and each span is replaced by its record's data. */
  lemma {:induction false} SpliceIsEditsFromRight(input: seq<byte>, s: seq<Patch>, cursor: int)
    requires Applicable(s, |input|)
    requires 0 <= cursor <= |input|
    requires forall i :: 0 <= i < |s| ==> cursor <= s[i].offset
    ensures cursor <= |EditsFromRight(input, s)|
    ensures Splice(input, s, cursor) == EditsFromRight(input, s)[cursor..]
    decreases |s|
  {
    if s != [] {
      var rest := EditsFromRight(input, s[1..]);
      SpliceIsEditsFromRight(input, s[1..], End(s[0]));
      assert rest[..s[0].offset] == input[..s[0].offset];
      var whole := rest[..s[0].offset] + s[0].data + rest[End(s[0])..];
      assert whole[cursor..] == rest[cursor..s[0].offset] + s[0].data + rest[End(s[0])..];
      assert rest[cursor..s[0].offset] == input[cursor..s[0].offset];
    }
  }
}
