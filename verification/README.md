# External merge sort, modelled in Dafny

This project models `external_merge_sort/external_merge_sort.py`, a
two-phase external merge sort of integer records with memory size `M` and
block size `B`, both counted in records:

- **Phase 1** (run generation) reads the input `M` records at a time, sorts
  each chunk in memory and writes it out as a sorted *run*.
- **Phase 2** (merge passes) repeatedly cuts the run list into consecutive
  groups of `M // B` runs. It merges every group of two or more runs with
  a k-way heap merge (`merge_files`) and passes single runs through. It
  stops when one run is left, and that run is renamed to the output file.
- `load_buffer` refills one run's buffer with its next block of at most `B`
  records.

The model's conventions:

- A file is the `seq<int>` of its records. An open file is that sequence
  plus a read position.
- A run is a `seq<int>`, and a list of runs is a `seq<seq<int>>`.
- The heap is a `seq<Entry>` of `(value, run index)` pairs. `heappop` takes
  its least entry, ordered as Python orders the tuples.
- The in-memory sort is the insertion sort `Seqs.SortSeq`. A sorted
  permutation is unique (`Seqs.SortedUnique`), so `SortSeq(input)` is the
  one result any correct sort can give. The whole sort is proved to return
  it.
- Errors the source raises are `Result` outcomes, not preconditions.
- `peak` out-parameters report the most records held in memory at once.
  The model proves `peak` never exceeds `M`.

Modules, one per file:

| file | module | models |
|---|---|---|
| `arith.dfy` | `Arith` | min/max, facts about floor division |
| `seqs.dfy` | `Seqs` | sortedness, concatenation of runs, the reference sort |
| `run_generation.dfy` | `RunGeneration` | phase 1 (lines 17-33) |
| `block_reader.dfy` | `BlockReader` | `load_buffer` (lines 79-86) |
| `kway_merge.dfy` | `KWayMerge` | `merge_files` (lines 50-77) |
| `scheduler.dfy` | `MergeScheduler` | one merge pass (lines 36-45) |
| `external_sort.dfy` | `ExternalSort` | the pass loop, the rename and the error outcomes (lines 9-48) |

The source's failure cases, as the code decides them:

- **No runs** (`NoRunToRename`): an empty input or `M <= 0` gives no runs,
  and `runs[0]` at line 48 raises IndexError. The same happens when
  `M // B < 0` with several runs: the `range` is empty, so the pass leaves
  no runs.
- **`B == 0`** (`ZeroBlockSize`) with several runs: ZeroDivisionError at
  line 38.
- **`B > M`** (`ZeroStep`) with several runs: `M // B == 0` and `range`
  raises ValueError.
- **`M // B == 1`** (`NoProgress`) with several runs: every group is one
  run, a pass changes nothing and the loop never ends
  (`MergeScheduler.StepOneIsIdentity`).

`ExternalSort.Outcome` sets these conditions out as a decision table.
`ExternalSort.ExternalMergeSort` is proved to produce exactly that table.

Three behaviours of the code differ from what a user of an external sort
would expect. The model follows the code each time:

- Sorting an empty file should give an empty file; the code raises
  IndexError (see Findings).
- A buffer size `B > M` can be seen to be unusable before any I/O. The
  code reads the whole input first, and fails only if there are two or
  more runs.
- A fan-in `M // B` below 2 cannot make progress. The code fails only
  when it is 0 or negative; when it is 1 it loops forever.

## Model

| member | source | states |
|---|---|---|
| `Seqs.SortSeq` | external_merge_sort/external_merge_sort.py:29 | `chunk.sort()`: the result is sorted, is a permutation of the chunk and has its length |
| `Seqs.SortedUnique` | external_merge_sort/external_merge_sort.py:29 | two sorted sequences with the same records are equal, so every correct sort of a chunk gives the same run |
| `Seqs.SortedPermutationIsSortSeq` | external_merge_sort/external_merge_sort.py:29 | any sorted permutation of a sequence is its reference sort |
| `RunGeneration.ChunksFlatten` | external_merge_sort/external_merge_sort.py:20-28 | the chunks phase 1 reads, concatenated in order, are exactly the input |
| `RunGeneration.ChunksShape` | external_merge_sort/external_merge_sort.py:21-28 | every chunk is non-empty and holds at most `M` records; all but the last hold exactly `M` |
| `RunGeneration.ChunksCount` | external_merge_sort/external_merge_sort.py:20-28 | there are no chunks exactly when the input is empty or `M <= 0`; otherwise there are `ceil(n / M)` |
| `RunGeneration.OneRunIffFits` | external_merge_sort/external_merge_sort.py:20-36 | a non-empty input is one run exactly when it fits in `M`, so the merge loop is skipped; a longer one gives at least two runs |
| `RunGeneration.ReadChunk` | external_merge_sort/external_merge_sort.py:21-26 | the inner read loop returns the next `min(M, remaining)` records and the new position, or nothing when `M <= 0` |
| `RunGeneration.ReadRuns` | external_merge_sort/external_merge_sort.py:20-33 | the read loop's runs are the sorted chunks, in input order; the largest chunk in memory is `min(M, n)` |
| `RunGeneration.RunsOfChunks` | external_merge_sort/external_merge_sort.py:27-33 | sorted chunks are non-empty sorted runs of at most `M` records that together hold the input's records |
| `RunGeneration.RunsMultiset` | external_merge_sort/external_merge_sort.py:29-33 | sorting each chunk keeps the multiset of all records |
| `RunGeneration.GenerateRuns` | external_merge_sort/external_merge_sort.py:17-33 | phase 1: the runs are the sorted chunks; each is non-empty, sorted and at most `M` long; together they are a permutation of the input; there are none exactly when the input is empty or `M <= 0`; there is one exactly when the input fits |
| `BlockReader.LoadBuffer` | external_merge_sort/external_merge_sort.py:79-86 | the buffer receives the next `min(B, remaining)` records from the read position, fewer than `B` only at the end of the run; other buffers are unchanged |
| `KWayMerge.MinIndex` | external_merge_sort/external_merge_sort.py:66 | `heappop` takes an entry that is least in `(value, run index)` order |
| `KWayMerge.HeadsMember` | external_merge_sort/external_merge_sort.py:59-71 | every heap entry is the next unwritten record of its run |
| `KWayMerge.HeadIn` | external_merge_sort/external_merge_sort.py:59-71 | every run with unwritten records has its next record in the heap |
| `KWayMerge.HeadsSize` | external_merge_sort/external_merge_sort.py:59-71 | the heap holds at most one entry per open run |
| `KWayMerge.HeadsOnePerSource` | external_merge_sort/external_merge_sort.py:59-71 | no entry is in the heap twice |
| `KWayMerge.HeadsAdvance` | external_merge_sort/external_merge_sort.py:66-71 | writing a run's record swaps its heap entry for the run's next record, if any |
| `KWayMerge.RemainingAdvance` | external_merge_sort/external_merge_sort.py:66-67 | writing a run's next record removes exactly that record from what remains |
| `KWayMerge.HeadsEmpty` | external_merge_sort/external_merge_sort.py:65 | when the heap is empty no run has records left, so the loop ends with everything written |
| `KWayMerge.RemainingAtStart` | external_merge_sort/external_merge_sort.py:54-62 | before the first pop, what remains is every record of every input run |
| `KWayMerge.Footprint` | external_merge_sort/external_merge_sort.py:56-71 | each open run holds at most `B` records in its buffer and the heap together |
| `KWayMerge.MemoryBound` | external_merge_sort/external_merge_sort.py:56-71 | buffers and heap together hold at most `len(files) * B` records |
| `KWayMerge.PoppedIsLeast` | external_merge_sort/external_merge_sort.py:66 | over sorted runs, the popped value is at most every unwritten record |
| `KWayMerge.OpenAll` | external_merge_sort/external_merge_sort.py:59-62 | after opening, every run has read its first block of `min(B, len(run))` records, its first record is in the heap and the rest of the block in its buffer, within `len(files) * B` records |
| `KWayMerge.OpenOne` | external_merge_sort/external_merge_sort.py:60-62 | loading a run's first block, which leaves its read position at `min(B, len(run))`, and pushing its first record extends the merge invariant to that run |
| `KWayMerge.Refill` | external_merge_sort/external_merge_sort.py:68-71 | the read position moves only when the buffer was empty, and then by one block of `min(B, remaining)` records; the run's next record, if any, is pushed and the buffer holds the records after it; other buffers are unchanged |
| `KWayMerge.PopFacts` | external_merge_sort/external_merge_sort.py:66-68 | the popped entry is its run's next record and the run's buffer holds the records after it |
| `KWayMerge.PopAndRefill` | external_merge_sort/external_merge_sort.py:66-71 | one round writes the next record of one run, advances that run and keeps the merge invariant; over sorted runs that record is at most everything remaining |
| `KWayMerge.OutputStep` | external_merge_sort/external_merge_sort.py:66-67 | output plus remaining records stay the input's records, and what remains shrinks |
| `KWayMerge.OutputSorted` | external_merge_sort/external_merge_sort.py:66-67 | over sorted runs, appending the least remaining record keeps the output sorted |
| `KWayMerge.MergeRound` | external_merge_sort/external_merge_sort.py:65-71 | one round writes exactly one record after the output so far, keeps the loop invariant, keeps the memory peak within `len(files) * B`, and strictly shrinks the unwritten records, so the loop terminates |
| `KWayMerge.MergeFiles` | external_merge_sort/external_merge_sort.py:50-77 | the output is a permutation of all input runs' records; over sorted runs it is sorted and equals the reference sort of their concatenation; memory stays within `len(files) * B` |
| `MergeScheduler.Groups` | external_merge_sort/external_merge_sort.py:38-39 | every group of a pass holds between one and `M // B` runs |
| `MergeScheduler.GroupsFlatten` | external_merge_sort/external_merge_sort.py:38-39 | the groups, concatenated in order, are exactly the run list |
| `MergeScheduler.GroupsShape` | external_merge_sort/external_merge_sort.py:38-39 | every group but the last holds exactly `M // B` runs |
| `MergeScheduler.GroupsCount` | external_merge_sort/external_merge_sort.py:36-45 | a pass over `n` runs leaves `ceil(n / (M // B))` runs |
| `MergeScheduler.GroupsAtMost` | external_merge_sort/external_merge_sort.py:36-45 | a pass never leaves more runs than it was given, and leaves at least one of a non-empty list |
| `MergeScheduler.PassShrinks` | external_merge_sort/external_merge_sort.py:36-45 | with `M // B >= 2`, a pass over two or more runs leaves strictly fewer runs |
| `MergeScheduler.StepOneIsIdentity` | external_merge_sort/external_merge_sort.py:38-45 | with `M // B == 1` every group is a single run and the pass returns the run list unchanged |
| `MergeScheduler.MergeGroup` | external_merge_sort/external_merge_sort.py:39-44 | a group of two or more runs is merged and a single run passes through; the result holds exactly the group's records and is their sorted sequence over sorted runs |
| `MergeScheduler.PassFinish` | external_merge_sort/external_merge_sort.py:38-45 | at the end of the pass loop every group has become one run holding exactly its records |
| `MergeScheduler.MergePass` | external_merge_sort/external_merge_sort.py:37-45 | one pass: one new run per group, each holding exactly its group's records; single runs unchanged; over sorted runs every new run is the sorted group; memory within `(M // B) * B` |
| `ExternalSort.FloorDiv` | external_merge_sort/external_merge_sort.py:38 | Python's `//` rounds the quotient towards minus infinity |
| `ExternalSort.StepOneLoopsForever` | external_merge_sort/external_merge_sort.py:36-45 | with `M // B == 1` a pass keeps every run, so `len(runs) > 1` stays true |
| `ExternalSort.MergeAll` | external_merge_sort/external_merge_sort.py:36-45 | with `M // B >= 2` the pass loop ends with one run, the sorted sequence of all records |
| `ExternalSort.MergePhase` | external_merge_sort/external_merge_sort.py:36-45 | with two or more runs, phase 2 fails as the step `M // B` dictates or returns the sorted records, within `M` records of memory |
| `ExternalSort.MergeAndRename` | external_merge_sort/external_merge_sort.py:35-48 | phase 2 and the rename give the outcome of the decision table, within `M` records of memory |
| `ExternalSort.OutcomeCases` | external_merge_sort/external_merge_sort.py:9-48 | the sort succeeds exactly on a non-empty input with `M >= 1` that fits in memory or has `M // B >= 2`, and then returns a sorted permutation of the input; each error occurs exactly under its condition |
| `ExternalSort.ExternalMergeSort` | external_merge_sort/external_merge_sort.py:9-48 | the whole sort returns the outcome of the decision table, with the reference sort of the input on success; memory never exceeds `M` records |
| `ExternalSort.EmptyInputFails` | external_merge_sort/external_merge_sort.py:47-48 | as written, an empty input ends in IndexError rather than an empty output |
| `ExternalSort.CorrectedOutcomeSorts` | external_merge_sort/external_merge_sort.py:47-48 | the corrected sort succeeds on an empty input, and whenever it succeeds it returns the sorted input |
| `ExternalSort.MergeAndRenameCorrected` | external_merge_sort/external_merge_sort.py:35-48 | phase 2 and the rename with an empty run list giving an empty output |
| `ExternalSort.ExternalMergeSortCorrected` | external_merge_sort/external_merge_sort.py:9-48 | the corrected sort returns the corrected decision table's outcome, within `M` records of memory |

## Left out

- File I/O, temporary files, `os.rename` and `os.remove`, and closing file
  descriptors. Files and runs are values, so there is no clean-up to model.
- Text encoding and parsing (`readline().strip()`, `int(line)`,
  `f"{num}\n"`). A ParseError on a bad line cannot happen, because records
  are already integers. The blank-line behaviour of lines 23-28 and 83-84
  is also not modelled. A blank line that is the first line read for a
  chunk ends phase 1, dropping the rest of the input; so a blank first
  line drops the whole input, and with `M = 1` the input `5`, blank, `3`
  drops the `3`. A blank line later in a chunk ends that chunk early.
- `prepare_input_file` (lines 88-122) and the script at lines 124-133.
  They download and convert a dataset and call the sort.
- The internals of `heapq`. The heap is a sequence and `heappop` takes its
  least entry. That is the entry `heapq` returns, because the
  `(value, run index)` tuples of distinct runs are totally ordered.
- Non-integer `M` or `B` (TypeError in `range`). `M` and `B` are `int`.
- KWayMerge.MergeFiles: requires `B >= 1`. Its only caller reaches it
  only when `M // B >= 2` with `M >= 1`, which forces `B >= 1`.
- ExternalSort.ExternalMergeSort: non-termination at `M // B == 1` is
  reported as the outcome `NoProgress`, because a verified method must
  terminate. `MergeScheduler.StepOneIsIdentity` shows the pass is the
  identity there.
- ExternalSort.ExternalMergeSort: `M // B` is the same on every pass, so
  the failure checks on the step are made once, before the first pass,
  instead of on every pass.
- KWayMerge.MergeFiles: `peak` counts records in the buffers and the
  heap between rounds. The one record being written out is not counted.
- RunGeneration.GenerateRuns: `peak` counts the chunk being read, not
  the Python list of temporary file names.

## Findings

| source | as written | input that shows it | evidently intended | confidence | as-written member | corrected member |
|---|---|---|---|---|---|---|
| external_merge_sort/external_merge_sort.py:47-48 | `os.rename(runs[0], output_file)` with no runs raises IndexError | an empty input file with `M >= 1` | an empty input gives an empty output file | high; not executed | `ExternalSort.EmptyInputFails` | `ExternalSort.CorrectedOutcomeSorts` |
