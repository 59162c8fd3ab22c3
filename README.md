# go-patcher edit engine in Dafny

This project models the `Patcher` of the Go package `patcher`. A `Patcher`
records edits against an input that is not known yet: deletions,
insertions and rewrites, each stored as a `patch{offset, length, data}`
record. `PatchBytes` later applies the stored records to a concrete byte
input in three steps:

1. It sorts the stored list stably by offset, in place.
2. It validates the records in sorted order. It stops at the first record
   that has a negative offset, a negative length, a span reaching past the
   end of the input, or a span reaching past the start of the *next*
   record.
3. It builds the output with a cursor that walks the input. For each
   record the walk copies the untouched gap and then the record's data.

The Dafny modules follow these steps:

- `Patches` (`patches.dfy`): the record, the byte type, the error kinds
  (each with the offending record, or both records for a conflict) and
  `Applicable`. `Applicable` says that every record lies in the input and
  that the spans are disjoint and in order.
- `StableSorting` (`sorting.dfy`): `StableSort`, the specification of the
  sort, and `SortByOffset`, an in-place stable insertion sort on an array
  that is proved to compute it. Lemmas prove that the sort orders by
  offset, permutes its input and keeps recording order at each offset.
  They also prove it is the only sequence with those properties.
- `Validation` (`validation.dfy`): the per-record checks in their order
  (`CheckRecord`) and the validation loop `CheckPatches`. Lemmas say which
  record is reported and what each error kind means. Another lemma proves
  that validation succeeds exactly when the sorted records are
  `Applicable`.
- `Splicing` (`splicing.dfy`): `Splice`, the output as the cursor walk
  builds it, and the loop `BuildOutput` proved to compute it. Lemmas
  relate `Splice` to an independent reference, `EditsFromRight`, which
  applies the edits one by one from the right. Another lemma states the
  output length.
- `Patching` (`patching.dfy`): the `Patcher` class. Its `patches` field is
  the stored list. It also has a ghost history of the recording calls, and
  `Patched` is the outcome of applying a list of records. The class
  invariant says that the stored list sorts to the same list as the
  records the calls made. So `PatchBytes`'s result depends only on the
  calls since creation or the last `Reset`.
- `PatcherExamples` (`examples.dfy`): the package's test cases, stated as
  lemmas about `Patched` and as small methods that drive a `Patcher`.

## Model

| member | source | states |
|---|---|---|
| Patching.Patcher.constructor | patcher.go:26-30 | the zero-value Patcher holds no records and no calls |
| Patching.Patcher.Empty | patcher.go:32-36 | true exactly when every call since creation or the last reset recorded nothing (was a zero-length operation) |
| Patching.Patcher.Reset | patcher.go:38-41 | the stored list and the call history become empty, and the Patcher is then `Empty` |
| Patching.Patcher.Delete | patcher.go:43-52 | appends `Patch(offset, length, [])` when `length != 0` and keeps the list otherwise; a negative length is stored; the invariant is kept |
| Patching.Patcher.InsertBytes | patcher.go:62-74 | appends `Patch(offset, 0, data)` when `data` is non-empty and keeps the list otherwise; the invariant is kept |
| Patching.Patcher.RewriteBytes | patcher.go:82-93 | appends `Patch(offset, length, data)` unless both the length and the data are empty; the invariant is kept |
| Patching.Patcher.PatchBytes | patcher.go:111-155 | leaves the stored list as the stable sort of the old list, whatever the outcome; returns `Patched` of the records made by the calls since the last reset |
| Patching.RecordedAppends | patcher.go:45-93 | each call adds its record (none or one) at the end of the records of the earlier calls; it adds exactly one unless it is a no-op |
| Patching.RecordedEmptyIffNoOps | patcher.go:32-36 | no record was made exactly when every call was a no-op |
| Patching.PatchedNothing | patcher.go:146-154 | with no records the output is the input |
| Patching.PatchedSucceedsIffApplicable | patcher.go:127-144 | applying succeeds iff the sorted records lie inside the input and their spans are disjoint and in order |
| Patching.PatchedLength | patcher.go:146-154 | on success the output length is the input length minus the total consumed length plus the total data length |
| Patching.PatchedIsEditsFromRight | patcher.go:146-154 | on success the output equals applying the sorted edits one at a time from the rightmost one |
| Patching.PatchedAfterSort | patcher.go:97-98 | applying the already sorted list gives the same outcome, so applying twice to one input gives the same result |
| Patching.PatchedIgnoresOrderAcrossOffsets | patcher.go:123-125 | two recording orders with the same order at each offset give the same outcome |
| StableSorting.SortByOffset | patcher.go:123-125 | sorts the array in place to the stable sort of its old contents |
| StableSorting.SinkInto | patcher.go:123-125 | one insertion step: `a[i]` moves into the sorted prefix after every record whose offset is not greater; the rest of the array is unchanged |
| StableSorting.InsertPermutes | patcher.go:123-125 | one insertion adds exactly the inserted record to the multiset |
| StableSorting.InsertKeepsSorted | patcher.go:123-125 | inserting into a sorted list keeps it sorted |
| StableSorting.InsertAtOffset | patcher.go:123-125 | inserting appends the record to the records at its own offset and changes no other offset's records |
| StableSorting.InsertBetween | patcher.go:123-125 | the record goes after the last record with an offset not greater than its own and before all greater ones |
| StableSorting.StableSortAppend | patcher.go:123-125 | recording one more record inserts it into the sorted list of the earlier ones |
| StableSorting.StableSortPermutes | patcher.go:123-125 | the sort is a permutation of its input |
| StableSorting.StableSortIsSorted | patcher.go:123-125 | offsets never decrease along the sorted list |
| StableSorting.StableSortIsStable | patcher.go:62-66 | at every offset the sorted list holds the same records in the same order as the recording; in particular insertions at one offset keep call order |
| StableSorting.StableSortOfSorted | patcher.go:123-125 | sorting an already sorted list changes nothing |
| StableSorting.StableSortIdempotent | patcher.go:123-125 | sorting twice equals sorting once |
| StableSorting.SortedWithSameClassesEqual | patcher.go:123-125 | two sorted lists with the same records in the same order at every offset are equal |
| StableSorting.StableSortUnique | patcher.go:123-125 | any list that is sorted and has the recording's order at every offset is the stable sort |
| StableSorting.SameClassesSameSort | patcher.go:123-125 | recordings with the same order at every offset sort to the same list |
| Validation.CheckPatches | patcher.go:127-144 | the validation loop returns exactly `Validate` of the sorted records |
| Validation.ValidateFromFirstFailure | patcher.go:127-144 | validating from position `i` fails iff some later record fails a check; it reports the first such record's first failing check |
| Validation.ValidateFindsFirstFailure | patcher.go:127-144 | validation reports the first record in sorted order that fails any check, and fails only when one does |
| Validation.ValidateErrorMeaning | patcher.go:128-143 | each error kind names a record that fails exactly that check and passes the earlier ones; a conflict names a record and its successor in sorted order, and the successor starts inside the first record's span |
| Validation.NeighboursGivePairwise | patcher.go:138-143 | comparing neighbours is enough: with non-negative lengths, neighbour checks give disjointness of all pairs |
| Validation.ValidateOkIffApplicable | patcher.go:134-140 | validation succeeds iff all records are inside the input and their spans are disjoint and in order; an end equal to the input length or to the next offset is accepted |
| Validation.NegativeOffsetReportedFirst | patcher.go:127-130 | in a sorted list with any negative offset, the error is `NegativeOffset` of the first record |
| Splicing.BuildOutput | patcher.go:146-154 | the cursor loop keeps the cursor at the end of the previous record and at or before the offset of every later record, so every slice is in bounds and the cursor never moves backwards; it returns `Splice(input, s, 0)` |
| Splicing.SpliceLength | patcher.go:146-154 | the output length is the rest of the input less the consumed spans plus the data |
| Splicing.SpliceIsEditsFromRight | patcher.go:146-154 | the cursor walk yields what applying the edits one by one from the right yields |
| PatcherExamples.OneRecord | patcher.go:146-154 | one in-range record gives the bytes before it, its data, then the bytes after its span |
| PatcherExamples.OneRecordFails | patcher.go:127-136 | one record that fails a check gives that check's error |
| PatcherExamples.EmptyDeleteReset | patcher_test.go:18-36 | a new Patcher is empty, a deletion makes it non-empty, and a reset empties it |
| PatcherExamples.EmptyAfterZeroLength | patcher_test.go:38-47 | an empty insertion and an empty rewrite leave the Patcher empty |
| PatcherExamples.ZeroLengthCallsRecordNothing | patcher_test.go:38-47 | an empty insertion and a zero-length rewrite with no data record nothing |
| PatcherExamples.DeleteOne | patcher_test.go:49-57 | deleting `[1,3)` of "abcde" gives "ade" |
| PatcherExamples.DeleteNegative | patcher_test.go:59-77 | a negative offset or length is reported as such, naming the record as given |
| PatcherExamples.DeleteNothingAtEnd | patcher_test.go:79-87 | a zero-length deletion at the end gives the input back |
| PatcherExamples.DeleteOutOfRange | patcher_test.go:89-97 | deleting `[5,6)` of five bytes is out of range |
| PatcherExamples.DeleteTouching | patcher_test.go:99-108 | touching deletions are accepted: "abcde" gives "ae" |
| PatcherExamples.DeleteOutOfOrder | patcher_test.go:110-119 | deletions recorded right to left give "ace" |
| PatcherExamples.DeleteConflict | patcher_test.go:121-130 | overlapping deletions give a conflict naming both records |
| PatcherExamples.InsertOne | patcher_test.go:132-140 | inserting "bcd" at 1 of "ae" gives "abcde" |
| PatcherExamples.InsertNegativeOffset | patcher_test.go:142-150 | an insertion at -1 is a negative offset |
| PatcherExamples.InsertAtEnd | patcher_test.go:152-160 | an insertion at the input length is in range |
| PatcherExamples.InsertOutOfRange | patcher_test.go:162-170 | an insertion at 10 of five bytes is out of range |
| PatcherExamples.InsertMultiple | patcher_test.go:172-182 | three insertions at one offset come out in call order |
| PatcherExamples.InsertOutOfOrder | patcher_test.go:184-193 | insertions recorded right to left give "abcde" |
| PatcherExamples.RewriteOne | patcher_test.go:195-203 | rewriting `[1,2)` of "abc" with "xyz" gives "axyzc" |
| PatcherExamples.RewriteAsInsert | patcher_test.go:205-213 | a zero-length rewrite inserts |
| PatcherExamples.RewriteAsDelete | patcher_test.go:215-223 | a rewrite with no data deletes |
| PatcherExamples.RewriteTouching | patcher_test.go:225-234 | touching rewrites give "xyz" |
| PatcherExamples.RewriteConflict | patcher_test.go:236-245 | overlapping rewrites give a conflict naming both records |
| PatcherExamples.ResetThenInsert | patcher_test.go:247-257 | after a reset only the later insertion applies: "abc" gives "abcz", and the Patcher is not empty |
| PatcherExamples.InsertAtEndOfAbc | patcher_test.go:247-257 | inserting "z" at the end of "abc" gives "abcz" |
| PatcherExamples.Combined | patcher_test.go:259-270 | the mixed edits give "acklxyze"; the edits at offset 3 keep call order |
| PatcherExamples.CombinedConflict | patcher_test.go:272-284 | the rewrite `(3,2,"xyz")` conflicts with the insertion at 4 that follows it in sorted order |
| PatcherExamples.BrownFoxExample | patcher_test.go:286-297 | the documentation example gives "The quick brown fox jumps over the lazy dog" |
| PatcherExamples.RewriteThenInsertAtOneOffset | patcher.go:138-143 | a rewrite of `[3,4)` recorded before an insertion at 3 stays first and conflicts with it |
| PatcherExamples.InsertThenRewriteAtOneOffset | patcher.go:138-143 | the same edits recorded the other way round are accepted |
| PatcherExamples.RecordingOrderAtOneOffsetMatters | patcher.go:123-143 | whether an insertion and a rewrite at one offset conflict depends on their recording order |

## Left out

- `PatchString`, `InsertString` and `RewriteString` (patcher.go:58-60, 78-80, 106-109) only convert between `string` and `[]byte` and call the byte versions. Over `seq<byte>` they are the byte operations, so they are not modelled separately.
- Error text: `patch.String` and the `fmt.Errorf` messages (patcher.go:22-24, 129-141) are not modelled. An error is its kind plus the offending record, or both records for a conflict. A failing `PatchBytes` returns no output (`Failure` carries none).
- `bytes.Buffer` is modelled as a `seq<byte>` that the loop appends to.
- Aliasing of caller-owned `data` slices (patcher.go:64, 84) is not modelled. Record data is an immutable `seq<byte>`, so changes a caller makes to a slice after recording it are not captured.
- Go's fixed-width `int` is not modelled. Offsets, lengths and `offset+length` are unbounded integers, so overflow of `offset+length` in the range and conflict checks is not captured.
- `sort.SliceStable`'s algorithm is replaced by an in-place stable insertion sort. Any stable sort by offset gives the same list (`StableSorting.StableSortUnique`), so only the internal steps differ.
- A Patcher copied by value (patcher.go:27) is not modelled. The model has only references to one `Patcher` object.
- Where the same record list has several failures, only the first in sorted order is reported, as the code does. For example, a negative length is not reported when an earlier record in sorted order fails first.
- The documentation example (patcher_test.go:286-297) finds the deletion offset with `strings.Index(input, "twice ")`. The model states that offset as 20, the value the search yields on that input; the search itself is not modelled.
