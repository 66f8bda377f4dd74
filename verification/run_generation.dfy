/** Phase 1 of the external sort: cut the input into chunks of at most `M`
    records, sort each chunk in memory and keep it as a run.

    The input file is a `seq<int>` read front to back; a temporary file is
    the `seq<int>` written into it.
 */
module RunGeneration {
  import opened Arith
  import opened Seqs

  /** The chunks phase 1 reads, in input order: consecutive slices of `M`
      records, the last one possibly shorter. With `M <= 0` the inner read
      loop runs zero times, the first chunk is empty and reading stops. */
  function Chunks(input: seq<int>, M: int): seq<seq<int>>
    decreases |input|
  {
    if M <= 0 || |input| == 0 then []
    else if |input| <= M then [input]
    else [input[..M]] + Chunks(input[M..], M)
  }

  /** Concatenating the chunks in order gives back the input. */
  lemma {:induction false} ChunksFlatten(input: seq<int>, M: int)
    requires M >= 1
    ensures Flatten(Chunks(input, M)) == input
    decreases |input|
  {
    if |input| == 0 {
    } else if |input| <= M {
      FlattenCons(input, []);
    } else {
      ChunksFlatten(input[M..], M);
      FlattenCons(input[..M], Chunks(input[M..], M));
      assert input == input[..M] + input[M..];
    }
  }

  /** Every chunk is non-empty and holds at most `M` records; every chunk
      but the last holds exactly `M`. */
  lemma {:induction false} ChunksShape(input: seq<int>, M: int)
    ensures forall k :: 0 <= k < |Chunks(input, M)| ==> 0 < |Chunks(input, M)[k]| <= M
    ensures forall k :: 0 <= k < |Chunks(input, M)| - 1 ==> |Chunks(input, M)[k]| == M
    decreases |input|
  {
    if M <= 0 || |input| <= M {
    } else {
      ChunksShape(input[M..], M);
    }
  }

  /** There are no chunks exactly when the input is empty or `M <= 0`;
      otherwise there are `ceil(|input| / M)` of them. */
  lemma {:induction false} ChunksCount(input: seq<int>, M: int)
    ensures |Chunks(input, M)| == 0 <==> |input| == 0 || M <= 0
    ensures M >= 1 ==> |Chunks(input, M)| == (|input| + M - 1) / M
    decreases |input|
  {
    if M <= 0 || |input| <= M {
    } else {
      ChunksCount(input[M..], M);
      CeilDivStep(|input|, M);
    }
  }

  /** An input of at most `M` records is one run, so no merge pass runs;
      one of more than `M` records gives at least two runs. */
  lemma OneRunIffFits(input: seq<int>, M: int)
    requires M >= 1 && |input| > 0
    ensures |Chunks(input, M)| == 1 <==> |input| <= M
    ensures |input| > M ==> |Chunks(input, M)| >= 2
  {
    if |input| > M {
      assert Chunks(input, M) == [input[..M]] + Chunks(input[M..], M);
      ChunksCount(input[M..], M);
    }
  }

  /** Reading resumes at `pos`: the next chunk is the slice up to
      `Min(pos + M, |input|)` and the chunks after it follow from there. */
  lemma ChunksAt(input: seq<int>, pos: int, M: int)
    requires M >= 1 && 0 <= pos < |input|
    ensures Chunks(input[pos..], M)
         == [input[pos..Min(pos + M, |input|)]] + Chunks(input[Min(pos + M, |input|)..], M)
  {
    var rest := input[pos..];
    if |rest| > M {
      assert rest[..M] == input[pos..pos + M];
      assert rest[M..] == input[pos + M..];
    } else {
      assert input[pos..Min(pos + M, |input|)] == rest;
      assert input[Min(pos + M, |input|)..] == [];
    }
  }

  /** Bookkeeping of the phase-1 loop: one more chunk has been read. */
  lemma ChunksDone(input: seq<int>, M: int, pos: int, next: int, done: seq<seq<int>>)
    requires M >= 1 && 0 <= pos < |input| && next == Min(pos + M, |input|)
    requires Chunks(input, M) == done + Chunks(input[pos..], M)
    ensures Chunks(input, M) == (done + [input[pos..next]]) + Chunks(input[next..], M)
  {
    ChunksAt(input, pos, M);
  }

  /** Each chunk sorted, in chunk order. */
  function SortEach(chunks: seq<seq<int>>): (runs: seq<seq<int>>)
    ensures |runs| == |chunks|
  {
    seq(|chunks|, k requires 0 <= k < |chunks| => SortSeq(chunks[k]))
  }

  lemma SortEachAppend(chunks: seq<seq<int>>, chunk: seq<int>)
    ensures SortEach(chunks + [chunk]) == SortEach(chunks) + [SortSeq(chunk)]
  {
  }

  /** The inner read loop: up to `M` records from position `pos`, stopping
      early at the end of the input. */
  method ReadChunk(input: seq<int>, pos: nat, M: int) returns (chunk: seq<int>, next: nat)
    requires pos <= |input|
    ensures M <= 0 ==> chunk == [] && next == pos
    ensures M >= 1 ==> next == Min(pos + M, |input|) && chunk == input[pos..next]
  {
    chunk := [];
    next := pos;
    var n := 0;
    while n < M
      invariant pos <= next <= |input|
      invariant chunk == input[pos..next]
      invariant n == next - pos
      invariant n <= M || n == 0
    {
      if next == |input| {
        break;
      }
      chunk := chunk + [input[next]];
      next := next + 1;
      n := n + 1;
    }
  }

  /** The phase-1 loop (lines 20-33): read a chunk, stop if it is empty,
      otherwise sort it and store it as the next run. `peak` is the largest
      number of records held in memory at once (the largest chunk). */
  method ReadRuns(input: seq<int>, M: int) returns (runs: seq<seq<int>>, peak: nat)
    ensures runs == SortEach(Chunks(input, M))
    ensures peak == (if |input| == 0 || M <= 0 then 0 else Min(M, |input|))
  {
    runs := [];
    peak := 0;
    var pos := 0;
    ghost var done: seq<seq<int>> := [];
    while true
      invariant 0 <= pos <= |input|
      invariant Chunks(input, M) == done + Chunks(input[pos..], M)
      invariant runs == SortEach(done)
      invariant peak == (if pos == 0 then 0 else Min(M, |input|))
      decreases |input| - pos
    {
      var chunk, next := ReadChunk(input, pos, M);
      if chunk == [] {
        break;
      }
      ChunksDone(input, M, pos, next, done);
      SortEachAppend(done, chunk);
      done := done + [chunk];
      runs := runs + [SortSeq(chunk)];
      if |chunk| > peak {
        peak := |chunk|;
      }
      pos := next;
    }
  }

  /** Phase 1: the runs are the input's chunks of at most `M` records, each
      sorted; they are non-empty, sorted, and together hold exactly the
      input's records. No runs come from an empty input or from `M <= 0`. */
  method GenerateRuns(input: seq<int>, M: int) returns (runs: seq<seq<int>>, peak: nat)
    ensures runs == SortEach(Chunks(input, M))
    ensures forall k :: 0 <= k < |runs| ==> 0 < |runs[k]| <= M && Sorted(runs[k])
    ensures M >= 1 ==> multiset(Flatten(runs)) == multiset(input)
    ensures runs == [] <==> |input| == 0 || M <= 0
    ensures runs != [] ==> (|runs| == 1 <==> |input| <= M)
    ensures peak == (if runs == [] then 0 else Min(M, |input|))
  {
    runs, peak := ReadRuns(input, M);
    RunsOfChunks(input, M, runs);
  }

  /** Runs obtained by sorting each chunk are non-empty, at most `M` long,
      sorted, and together hold exactly the input's records. */
  lemma RunsOfChunks(input: seq<int>, M: int, runs: seq<seq<int>>)
    requires runs == SortEach(Chunks(input, M))
    ensures forall k :: 0 <= k < |runs| ==> 0 < |runs[k]| <= M && Sorted(runs[k])
    ensures M >= 1 ==> multiset(Flatten(runs)) == multiset(input)
    ensures runs == [] <==> |input| == 0 || M <= 0
    ensures runs != [] ==> (|runs| == 1 <==> |input| <= M)
  {
    ChunksShape(input, M);
    ChunksCount(input, M);
    if runs != [] {
      OneRunIffFits(input, M);
    }
    if M >= 1 {
      ChunksFlatten(input, M);
      RunsMultiset(Chunks(input, M), runs);
    }
  }

  /** Sorting each chunk of a list keeps the multiset of the whole list. */
  lemma {:induction false} RunsMultiset(chunks: seq<seq<int>>, runs: seq<seq<int>>)
    requires |runs| == |chunks|
    requires forall k :: 0 <= k < |runs| ==> runs[k] == SortSeq(chunks[k])
    ensures multiset(Flatten(runs)) == multiset(Flatten(chunks))
    decreases |runs|
  {
    if |runs| > 0 {
      var n := |runs| - 1;
      RunsMultiset(chunks[..n], runs[..n]);
    }
  }
}
