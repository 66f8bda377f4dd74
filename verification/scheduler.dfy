/** The merge passes of phase 2 (the `while len(runs) > 1` loop).

    One pass cuts the run list into consecutive groups of `step` runs
    (`step` is `M // B`; the last group may be shorter), merges every group
    of two or more runs into one run and passes single runs through.
 */
module MergeScheduler {
  import opened Arith
  import opened Seqs
  import opened KWayMerge

  /** The groups of one pass, in run order. */
  function Groups(runs: seq<seq<int>>, step: nat): (groups: seq<seq<seq<int>>>)
    requires step >= 1
    ensures forall k :: 0 <= k < |groups| ==> 1 <= |groups[k]| <= step
    decreases |runs|
  {
    if |runs| == 0 then []
    else if |runs| <= step then [runs]
    else [runs[..step]] + Groups(runs[step..], step)
  }

  /** The run a group becomes: a single run passes through unchanged, a
      larger group becomes the sorted sequence of all its records. */
  function GroupOutput(group: seq<seq<int>>): seq<int>
    requires |group| >= 1
  {
    if |group| == 1 then group[0] else SortSeq(Flatten(group))
  }

  /** The run list after a pass over sorted runs: one run per group. */
  function PassResult(groups: seq<seq<seq<int>>>): (next: seq<seq<int>>)
    requires forall k :: 0 <= k < |groups| ==> |groups[k]| >= 1
    ensures |next| == |groups|
  {
    seq(|groups|, k requires 0 <= k < |groups| => GroupOutput(groups[k]))
  }

  /** Concatenating the groups in order gives back the run list. */
  lemma {:induction false} GroupsFlatten(runs: seq<seq<int>>, step: nat)
    requires step >= 1
    ensures Flatten(Groups(runs, step)) == runs
    decreases |runs|
  {
    if |runs| == 0 {
    } else if |runs| <= step {
      FlattenCons(runs, []);
    } else {
      GroupsFlatten(runs[step..], step);
      FlattenCons(runs[..step], Groups(runs[step..], step));
      assert runs == runs[..step] + runs[step..];
    }
  }

  /** Every group but the last holds exactly `step` runs. */
  lemma {:induction false} GroupsShape(runs: seq<seq<int>>, step: nat)
    requires step >= 1
    ensures forall k :: 0 <= k < |Groups(runs, step)| - 1 ==> |Groups(runs, step)[k]| == step
    decreases |runs|
  {
    if |runs| > step {
      GroupsShape(runs[step..], step);
    }
  }

  /** A pass over `n` runs leaves `ceil(n / step)` runs. */
  lemma {:induction false} GroupsCount(runs: seq<seq<int>>, step: nat)
    requires step >= 1
    ensures |Groups(runs, step)| == (|runs| + step - 1) / step
    decreases |runs|
  {
    if |runs| == 0 {
    } else if |runs| <= step {
      DivUnique(|runs| + step - 1, step, 1, |runs| - 1);
    } else {
      GroupsCount(runs[step..], step);
      CeilDivStep(|runs|, step);
    }
  }

  /** A pass never leaves more runs than it was given. */
  lemma {:induction false} GroupsAtMost(runs: seq<seq<int>>, step: nat)
    requires step >= 1
    ensures |Groups(runs, step)| <= |runs|
    ensures |runs| >= 1 ==> |Groups(runs, step)| >= 1
    decreases |runs|
  {
    if |runs| > step {
      GroupsAtMost(runs[step..], step);
    }
  }

  /** With `step >= 2` a pass over two or more runs leaves fewer runs:
      the pass loop terminates. */
  lemma PassShrinks(runs: seq<seq<int>>, step: nat)
    requires step >= 2 && |runs| >= 2
    ensures 1 <= |Groups(runs, step)| < |runs|
  {
    if |runs| > step {
      GroupsAtMost(runs[step..], step);
    }
  }

  /** With `step == 1` every group is a single run, so a pass changes
      nothing and the pass loop of the source never ends. */
  lemma {:induction false} StepOneIsIdentity(runs: seq<seq<int>>)
    ensures forall k :: 0 <= k < |Groups(runs, 1)| ==> |Groups(runs, 1)[k]| == 1
    ensures PassResult(Groups(runs, 1)) == runs
    decreases |runs|
  {
    GroupsFlatten(runs, 1);
    var gs := Groups(runs, 1);
    SingletonsFlatten(gs);
  }

  /** A list of single runs flattens to the list of those runs. */
  lemma {:induction false} SingletonsFlatten(gs: seq<seq<seq<int>>>)
    requires forall k :: 0 <= k < |gs| ==> |gs[k]| == 1
    ensures PassResult(gs) == Flatten(gs)
    decreases |gs|
  {
    if |gs| > 0 {
      var n := |gs| - 1;
      SingletonsFlatten(gs[..n]);
      assert PassResult(gs) == PassResult(gs[..n]) + [gs[n][0]];
      assert gs[n] == [gs[n][0]];
    }
  }

  /** The next group is the slice starting at `i`. */
  lemma GroupsAt(runs: seq<seq<int>>, i: nat, step: nat)
    requires step >= 1 && i < |runs|
    ensures Groups(runs[i..], step)
         == [runs[i..Min(i + step, |runs|)]] + Groups(runs[Min(i + step, |runs|)..], step)
  {
    var rest := runs[i..];
    if |rest| > step {
      assert rest[..step] == runs[i..i + step];
      assert rest[step..] == runs[i + step..];
    } else {
      assert runs[i..Min(i + step, |runs|)] == rest;
      assert runs[Min(i + step, |runs|)..] == [];
    }
  }

  /** Bookkeeping of the pass loop after one more group. */
  lemma PassStep(runs: seq<seq<int>>, step: nat, i: nat, done: seq<seq<seq<int>>>,
                 next: seq<seq<int>>, out: seq<int>)
    requires step >= 1 && i < |runs|
    requires Groups(runs, step) == done + Groups(runs[i..], step)
    requires multiset(Flatten(next)) == multiset(Flatten(runs[..i]))
    requires multiset(out) == multiset(Flatten(runs[i..Min(i + step, |runs|)]))
    ensures Groups(runs, step) == (done + [runs[i..Min(i + step, |runs|)]])
                                  + Groups(runs[Min(i + step, |runs|)..], step)
    ensures multiset(Flatten(next + [out])) == multiset(Flatten(runs[..Min(i + step, |runs|)]))
  {
    var hi := Min(i + step, |runs|);
    GroupsAt(runs, i, step);
    FlattenAppend(next, [out]);
    FlattenCons(out, []);
    assert runs[..hi] == runs[..i] + runs[i..hi];
    FlattenAppend(runs[..i], runs[i..hi]);
  }

  /** What the pass promises about one group and the run it became. */
  ghost predicate GroupDone(group: seq<seq<int>>, out: seq<int>, sorted: bool) {
    && |group| >= 1
    && multiset(out) == multiset(Flatten(group))
    && (|group| == 1 ==> out == group[0])
    && (sorted ==> out == GroupOutput(group) && Sorted(out))
  }

  /** The body of one iteration of the pass (lines 39-45): a group of two
      or more runs is merged, a single run is kept as it is. */
  method MergeGroup(group: seq<seq<int>>, B: int) returns (merged: seq<int>, peak: nat)
    requires |group| >= 1 && B >= 1
    ensures multiset(merged) == multiset(Flatten(group))
    ensures |group| == 1 ==> merged == group[0]
    ensures AllSorted(group) ==> merged == GroupOutput(group) && Sorted(merged)
    ensures peak <= |group| * B
  {
    if |group| > 1 {
      merged, peak := MergeFiles(group, B);
    } else {
      merged := group[0];
      peak := 0;
      FlattenCons(group[0], []);
      assert group == [group[0]];
    }
  }

  /** A slice of sorted runs is a list of sorted runs. */
  lemma AllSortedSlice(runs: seq<seq<int>>, i: nat, j: nat)
    requires i <= j <= |runs| && AllSorted(runs)
    ensures AllSorted(runs[i..j])
  {
    forall k | 0 <= k < j - i
      ensures Sorted(runs[i..j][k])
    {
      assert runs[i..j][k] == runs[i + k];
    }
  }

  /** When every group is done over sorted runs, the pass result is the
      `PassResult` of the groups. */
  lemma PassResultOf(groups: seq<seq<seq<int>>>, next: seq<seq<int>>)
    requires |next| == |groups|
    requires forall k :: 0 <= k < |groups| ==> |groups[k]| >= 1
    requires forall k :: 0 <= k < |next| ==> GroupDone(groups[k], next[k], true)
    ensures AllSorted(next) && next == PassResult(groups)
  {
  }

  /** The pass loop's invariant after the groups `done`, which end at run
      `i`, became the runs `next`. */
  ghost predicate PassInv(runs: seq<seq<int>>, step: nat, i: nat,
                          done: seq<seq<seq<int>>>, next: seq<seq<int>>)
    requires step >= 1
  {
    && i <= |runs|
    && Groups(runs, step) == done + Groups(runs[i..], step)
    && |next| == |done|
    && (forall k :: 0 <= k < |next| ==> GroupDone(done[k], next[k], AllSorted(runs)))
    && multiset(Flatten(next)) == multiset(Flatten(runs[..i]))
  }

  /** One more group keeps the pass loop's invariant. */
  lemma PassInvStep(runs: seq<seq<int>>, step: nat, i: nat, done: seq<seq<seq<int>>>,
                    next: seq<seq<int>>, merged: seq<int>)
    requires step >= 1 && i < |runs| && PassInv(runs, step, i, done, next)
    requires GroupDone(runs[i..Min(i + step, |runs|)], merged, AllSorted(runs))
    ensures PassInv(runs, step, Min(i + step, |runs|), done + [runs[i..Min(i + step, |runs|)]],
                    next + [merged])
  {
    PassStep(runs, step, i, done, next, merged);
  }

  /** At the end of the pass loop every group is done. */
  lemma PassFinish(runs: seq<seq<int>>, step: nat, done: seq<seq<seq<int>>>, next: seq<seq<int>>)
    requires step >= 1 && PassInv(runs, step, |runs|, done, next)
    ensures |next| == |Groups(runs, step)|
    ensures forall k :: 0 <= k < |next| ==>
      multiset(next[k]) == multiset(Flatten(Groups(runs, step)[k]))
      && (|Groups(runs, step)[k]| == 1 ==> next[k] == Groups(runs, step)[k][0])
    ensures multiset(Flatten(next)) == multiset(Flatten(runs))
    ensures AllSorted(runs) ==> AllSorted(next) && next == PassResult(Groups(runs, step))
  {
    assert runs[..|runs|] == runs;
    assert runs[|runs|..] == [];
    assert done == Groups(runs, step);
    GroupsFlatten(runs, step);
    if AllSorted(runs) {
      PassResultOf(done, next);
    }
  }

  /** One pass (lines 37-45): walk the run list in steps of `step`; merge
      each group of two or more runs, pass single runs through. Each new
      run holds exactly the records of its group; over sorted runs the
      pass yields `PassResult`. `peak` is the most records any merge of
      the pass held in memory. */
  method MergePass(runs: seq<seq<int>>, step: nat, B: int) returns (next: seq<seq<int>>, peak: nat)
    requires step >= 1 && B >= 1
    ensures |next| == |Groups(runs, step)|
    ensures forall k :: 0 <= k < |next| ==>
      multiset(next[k]) == multiset(Flatten(Groups(runs, step)[k]))
      && (|Groups(runs, step)[k]| == 1 ==> next[k] == Groups(runs, step)[k][0])
    ensures multiset(Flatten(next)) == multiset(Flatten(runs))
    ensures AllSorted(runs) ==> AllSorted(next) && next == PassResult(Groups(runs, step))
    ensures peak <= step * B
  {
    next := [];
    peak := 0;
    var i := 0;
    ghost var done: seq<seq<seq<int>>> := [];
    while i < |runs|
      invariant PassInv(runs, step, i, done, next)
      invariant peak <= step * B
      decreases |runs| - i
    {
      var hi := Min(i + step, |runs|);
      var group := runs[i..hi];
      var merged, p := MergeGroup(group, B);
      if AllSorted(runs) {
        AllSortedSlice(runs, i, hi);
      }
      MulMono(|group|, step, B);
      peak := Max(peak, p);
      PassInvStep(runs, step, i, done, next, merged);
      done := done + [group];
      next := next + [merged];
      i := hi;
    }
    PassFinish(runs, step, done, next);
  }
}
