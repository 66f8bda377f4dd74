/** The whole sort, `external_merge_sort(input_file, output_file, M, B)`
    (lines 9-48): phase 1 makes sorted runs, phase 2 merges them in passes
    of `M // B` runs at a time until one run is left, and that run becomes
    the output file.

    The ways the source fails are outcomes here, not preconditions. */
module ExternalSort {
  import opened Arith
  import opened Seqs
  import opened RunGeneration
  import opened KWayMerge
  import opened MergeScheduler

  /** How the source fails. */
  datatype SortError =
    | NoRunToRename  // `runs[0]` at line 48 on an empty run list: IndexError
    | ZeroBlockSize  // `M // B` with `B == 0`: ZeroDivisionError
    | ZeroStep       // `range(0, len(runs), 0)`: ValueError
    | NoProgress     // `M // B == 1`: every pass keeps every run, the loop never ends

  datatype Result<T> = Ok(value: T) | Err(error: SortError)

  /** Python's `//` on integers: the quotient rounded towards minus
      infinity. */
  function FloorDiv(a: int, b: int): (q: int)
    requires b != 0
    ensures b > 0 ==> q * b <= a < q * b + b
    ensures b < 0 ==> q * b >= a > q * b + b
  {
    if b > 0 then a / b else (-a) / (-b)
  }

  /** With `M >= 1` the step `M // B` is negative exactly when `B` is. */
  lemma StepSign(M: int, B: int)
    requires M >= 1 && B != 0
    ensures FloorDiv(M, B) < 0 <==> B < 0
    ensures B > 0 ==> (FloorDiv(M, B) == 0 <==> B > M)
    ensures B > 0 ==> FloorDiv(M, B) * B <= M
  {
  }

  /** With `M // B == 1` the source's pass loop never ends: the pass keeps
      every run, so `len(runs) > 1` stays true. */
  lemma StepOneLoopsForever(runs: seq<seq<int>>)
    requires |runs| > 1
    ensures PassResult(Groups(runs, 1)) == runs
    ensures |Groups(runs, 1)| == |runs| > 1
  {
    StepOneIsIdentity(runs);
  }

  /** The pass loop (lines 36-45) with a usable step: passes repeat until
      one run is left, which is the sorted permutation of all records. */
  method MergeAll(runs: seq<seq<int>>, step: nat, B: int) returns (last: seq<int>, peak: nat)
    requires runs != [] && AllSorted(runs)
    requires step >= 2 && B >= 1
    ensures last == SortSeq(Flatten(runs))
    ensures peak <= step * B
  {
    var cur := runs;
    peak := 0;
    while |cur| > 1
      invariant cur != [] && AllSorted(cur)
      invariant multiset(Flatten(cur)) == multiset(Flatten(runs))
      invariant peak <= step * B
      decreases |cur|
    {
      PassShrinks(cur, step);
      var p;
      cur, p := MergePass(cur, step, B);
      peak := Max(peak, p);
    }
    last := cur[0];
    FlattenCons(last, []);
    assert cur == [last];
    SortedPermutationIsSortSeq(Flatten(runs), last);
  }

  /** What phase 2 does with two or more runs, for `M >= 1`: the step
      `M // B` decides between an error and the merged run `sorted`. */
  function PhaseOutcome(M: int, B: int, sorted: seq<int>): Result<seq<int>> {
    if B == 0 then Err(ZeroBlockSize)
    else if B < 0 then Err(NoRunToRename)
    else if B > M then Err(ZeroStep)
    else if M / B == 1 then Err(NoProgress)
    else Ok(sorted)
  }

  /** Phase 2 on two or more runs (lines 36-45): fails on the first pass
      when `M // B` is not a usable step, otherwise merges the runs into the
      sorted permutation of their records. */
  method MergePhase(runs: seq<seq<int>>, M: int, B: int) returns (r: Result<seq<int>>, peak: nat)
    requires |runs| >= 2 && AllSorted(runs) && M >= 1
    ensures r == PhaseOutcome(M, B, SortSeq(Flatten(runs)))
    ensures peak <= M
  {
    if B == 0 {
      return Err(ZeroBlockSize), 0;
    }
    var step := FloorDiv(M, B);
    StepSign(M, B);
    if step == 0 {
      return Err(ZeroStep), 0;
    }
    if step < 0 {
      // `range` with a negative step from 0 up to `len(runs)` is empty:
      // the pass yields no runs and line 48 finds none.
      return Err(NoRunToRename), 0;
    }
    if step == 1 {
      StepOneLoopsForever(runs);
      return Err(NoProgress), 0;
    }
    var last;
    last, peak := MergeAll(runs, step, B);
    r := Ok(last);
  }

  /** What the source does with `input`, `M` and `B`, decided by the
      conditions alone: the reference the sort is compared against. */
  ghost function Outcome(input: seq<int>, M: int, B: int): Result<seq<int>> {
    if |input| == 0 || M <= 0 then Err(NoRunToRename)
    else if |input| <= M then Ok(SortSeq(input))
    else PhaseOutcome(M, B, SortSeq(input))
  }

  /** Each outcome by the condition that produces it: the sort succeeds on
      a non-empty input with `M >= 1` that fits in memory or has a step
      `M // B` of at least 2, and its output is then sorted and holds
      exactly the input's records. */
  lemma {:induction false} OutcomeCases(input: seq<int>, M: int, B: int)
    ensures Outcome(input, M, B).Ok?
        <==> |input| > 0 && M >= 1 && (|input| <= M || (B >= 1 && M / B >= 2))
    ensures Outcome(input, M, B).Ok? ==>
      Sorted(Outcome(input, M, B).value) && multiset(Outcome(input, M, B).value) == multiset(input)
    ensures Outcome(input, M, B) == Err(NoRunToRename)
        <==> |input| == 0 || M <= 0 || (|input| > M && B < 0)
    ensures Outcome(input, M, B) == Err(ZeroBlockSize) <==> M >= 1 && |input| > M && B == 0
    ensures Outcome(input, M, B) == Err(ZeroStep) <==> M >= 1 && |input| > M && B > M
    ensures Outcome(input, M, B) == Err(NoProgress)
        <==> M >= 1 && |input| > M && B >= 1 && M / B == 1
  {
    if M >= 1 && B >= 1 {
      StepSign(M, B);
    }
  }

  /** Lines 35-48: the pass loop over the runs of phase 1, then the
      rename of the last run. With no runs, `runs[0]` fails; one run is
      the output as it is; two or more go through `MergePhase`. */
  method MergeAndRename(ghost input: seq<int>, runs: seq<seq<int>>, M: int, B: int)
    returns (r: Result<seq<int>>, peak: nat)
    requires AllSorted(runs)
    requires M >= 1 ==> multiset(Flatten(runs)) == multiset(input)
    requires runs == [] <==> |input| == 0 || M <= 0
    requires runs != [] ==> (|runs| == 1 <==> |input| <= M)
    ensures r == Outcome(input, M, B)
    ensures peak <= Max(M, 0)
  {
    if runs == [] {
      return Err(NoRunToRename), 0;
    }
    if |runs| == 1 {
      FlattenCons(runs[0], []);
      assert runs == [runs[0]];
      SortedPermutationIsSortSeq(input, runs[0]);
      return Ok(runs[0]), 0;
    }
    r, peak := MergePhase(runs, M, B);
    SortSeqOfPermutation(Flatten(runs), input);
  }

  /** The whole sort (lines 9-48): Python's sort, then k-way merges with a
      heap, end in the one sorted permutation of the input, or in the error
      `Outcome` names. `peak` is the largest number of records held in
      memory at once; it never exceeds `M`.

      `M // B` is the same on every pass, so whether the pass loop fails
      is decided on its first pass. */
  method ExternalMergeSort(input: seq<int>, M: int, B: int) returns (r: Result<seq<int>>, peak: nat)
    ensures r == Outcome(input, M, B)
    ensures peak <= Max(M, 0)
  {
    var runs, p1 := GenerateRuns(input, M);
    var p2;
    r, p2 := MergeAndRename(input, runs, M, B);
    peak := Max(p1, p2);
  }

  /** As written, an empty input file makes the sort fail at line 48:
      phase 1 makes no run and `runs[0]` raises IndexError, where an empty
      output file is evidently meant. */
  lemma EmptyInputFails(M: int, B: int)
    ensures Outcome([], M, B) == Err(NoRunToRename)
    ensures !Outcome([], M, B).Ok?
  {
  }

  /** What the sort evidently means to do: like `Outcome`, except that an
      empty input with `M >= 1` gives an empty output. */
  ghost function CorrectedOutcome(input: seq<int>, M: int, B: int): Result<seq<int>> {
    if |input| == 0 && M >= 1 then Ok([]) else Outcome(input, M, B)
  }

  /** The corrected sort succeeds on an empty input, and whenever it
      succeeds its output is the sorted input. */
  lemma CorrectedOutcomeSorts(input: seq<int>, M: int, B: int)
    ensures |input| == 0 && M >= 1 ==> CorrectedOutcome(input, M, B).Ok?
    ensures CorrectedOutcome(input, M, B).Ok? ==> CorrectedOutcome(input, M, B).value == SortSeq(input)
  {
    if |input| == 0 {
      assert SortSeq(input) == [];
    } else {
      OutcomeCases(input, M, B);
    }
  }

  /** Lines 35-48 with the empty run list handled: with `M >= 1`, no runs
      means an empty input and so an empty output. */
  method MergeAndRenameCorrected(ghost input: seq<int>, runs: seq<seq<int>>, M: int, B: int)
    returns (r: Result<seq<int>>, peak: nat)
    requires AllSorted(runs)
    requires M >= 1 ==> multiset(Flatten(runs)) == multiset(input)
    requires runs == [] <==> |input| == 0 || M <= 0
    requires runs != [] ==> (|runs| == 1 <==> |input| <= M)
    ensures r == CorrectedOutcome(input, M, B)
    ensures peak <= Max(M, 0)
  {
    if runs == [] && M >= 1 {
      return Ok([]), 0;
    }
    r, peak := MergeAndRename(input, runs, M, B);
  }

  /** The sort with the empty input handled: with `M >= 1` an empty input
      gives an empty output; everything else is as in `ExternalMergeSort`. */
  method ExternalMergeSortCorrected(input: seq<int>, M: int, B: int) returns (r: Result<seq<int>>, peak: nat)
    ensures r == CorrectedOutcome(input, M, B)
    ensures peak <= Max(M, 0)
  {
    var runs, p1 := GenerateRuns(input, M);
    var p2;
    r, p2 := MergeAndRenameCorrected(input, runs, M, B);
    peak := Max(p1, p2);
  }

  /** Sorting depends only on the multiset of records. */
  lemma SortSeqOfPermutation(a: seq<int>, b: seq<int>)
    requires multiset(a) == multiset(b)
    ensures SortSeq(a) == SortSeq(b)
  {
    SortedPermutationIsSortSeq(b, SortSeq(a));
  }
}
