/** The per-run read buffer used during a merge.

    An open run file is its records plus a read position `pos`: reading a
    line returns `file[pos]` and advances `pos`; at `pos == |file|` the
    read returns the empty line that ends the run.
 */
module BlockReader {
  import opened Arith

  /** Refill buffer `idx` with the next block of at most `B` records of its
      run, reading one record at a time from `pos`. The new read position
      is returned; every other buffer is left as it was. */
  method LoadBuffer(buffers: seq<seq<int>>, idx: nat, file: seq<int>, pos: nat, B: int)
    returns (loaded: seq<seq<int>>, next: nat)
    requires idx < |buffers| && pos <= |file|
    ensures |loaded| == |buffers|
    ensures forall j :: 0 <= j < |buffers| && j != idx ==> loaded[j] == buffers[j]
    ensures pos <= next <= |file|
    ensures loaded[idx] == file[pos..next]
    ensures |loaded[idx]| == Min(Max(B, 0), |file| - pos)
    ensures |loaded[idx]| < B ==> next == |file|
  {
    var block := [];
    next := pos;
    var n := 0;
    while n < B
      invariant pos <= next <= |file|
      invariant block == file[pos..next]
      invariant n == next - pos
      invariant n <= B || n == 0
    {
      if next == |file| {
        break;
      }
      block := block + [file[next]];
      next := next + 1;
      n := n + 1;
    }
    loaded := buffers[idx := block];
  }
}
