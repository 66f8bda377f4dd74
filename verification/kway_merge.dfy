/** The k-way merge of one group of runs (`merge_files`).

    Every source run `i` has a read position `pos[i]` and a buffer of
    records read but not yet handed to the heap. The heap holds
    `(value, source)` entries; popping takes the least one in tuple order,
    so equal values leave in order of their source index. The ghost
    cursor `cons[i]` counts the records of run `i` already written out;
    the unwritten records of run `i` are `files[i][cons[i]..]`.
 */
module KWayMerge {
  import opened Arith
  import opened Seqs
  import opened BlockReader

  /** A heap entry: a record and the index of the run it came from. */
  datatype Entry = Entry(val: int, src: nat)

  /** Tuple order on `(val, src)`: by value, ties by lower source index. */
  predicate EntryLe(a: Entry, b: Entry) {
    a.val < b.val || (a.val == b.val && a.src <= b.src)
  }

  /** Position of the least entry of a non-empty heap: the entry a pop
      removes. */
  function MinIndex(heap: seq<Entry>): (k: nat)
    requires |heap| > 0
    ensures k < |heap|
    ensures forall j :: 0 <= j < |heap| ==> EntryLe(heap[k], heap[j])
    decreases |heap|
  {
    if |heap| == 1 then 0
    else
      var k := MinIndex(heap[..|heap| - 1]);
      if EntryLe(heap[k], heap[|heap| - 1]) then k else |heap| - 1
  }

  /** Total number of records held in the first `k` buffers. */
  function TotalLen(buffers: seq<seq<int>>, k: nat): nat
    requires k <= |buffers|
  {
    if k == 0 then 0 else TotalLen(buffers, k - 1) + |buffers[k - 1]|
  }

  /** Every cursor lies within its run. */
  predicate Cursor(files: seq<seq<int>>, cons: seq<nat>) {
    |cons| == |files| && forall i :: 0 <= i < |files| ==> cons[i] <= |files[i]|
  }

  /** The heap the merge must hold when the first `k` runs are open: one
      entry per run that still has records, carrying its next record. */
  ghost function Heads(files: seq<seq<int>>, cons: seq<nat>, k: nat): multiset<Entry>
    requires |cons| == |files| && k <= |files|
  {
    if k == 0 then multiset{}
    else Heads(files, cons, k - 1) + HeadOf(files, cons, k - 1)
  }

  ghost function HeadOf(files: seq<seq<int>>, cons: seq<nat>, i: nat): multiset<Entry>
    requires |cons| == |files| && i < |files|
  {
    if cons[i] < |files[i]| then multiset{Entry(files[i][cons[i]], i)} else multiset{}
  }

  /** The records of the first `k` runs not yet written out. */
  ghost function Remaining(files: seq<seq<int>>, cons: seq<nat>, k: nat): multiset<int>
    requires Cursor(files, cons) && k <= |files|
  {
    if k == 0 then multiset{}
    else Remaining(files, cons, k - 1) + multiset(files[k - 1][cons[k - 1]..])
  }

  /** What is in memory for run `i`: if it still has records, the first of
      them is in the heap and the buffer holds the ones after it up to the
      read position; at most `B` records of the run are in memory. */
  ghost predicate SourceInv(files: seq<seq<int>>, buffers: seq<seq<int>>, pos: seq<nat>,
                            cons: seq<nat>, B: int, i: nat)
    requires |buffers| == |pos| == |cons| == |files| && i < |files|
  {
    && cons[i] <= pos[i] <= |files[i]|
    && pos[i] - cons[i] <= B
    && (if cons[i] < |files[i]|
        then cons[i] < pos[i] && buffers[i] == files[i][cons[i] + 1..pos[i]]
        else buffers[i] == [])
  }

  /** The merge state once the first `k` runs are open; runs from `k` on
      are untouched. */
  ghost predicate MergeInv(files: seq<seq<int>>, buffers: seq<seq<int>>, pos: seq<nat>,
                           cons: seq<nat>, heap: seq<Entry>, B: int, k: nat)
  {
    && |buffers| == |pos| == |cons| == |files|
    && k <= |files|
    && Cursor(files, cons)
    && (forall i :: 0 <= i < k ==> SourceInv(files, buffers, pos, cons, B, i))
    && (forall i :: k <= i < |files| ==> buffers[i] == [] && pos[i] == 0 && cons[i] == 0)
    && multiset(heap) == Heads(files, cons, k)
  }

  /** `x` is at most every record not yet written out. */
  ghost predicate Below(x: int, files: seq<seq<int>>, cons: seq<nat>)
    requires |cons| == |files|
  {
    forall i, j :: 0 <= i < |files| && cons[i] <= j < |files[i]| ==> x <= files[i][j]
  }

  // ---------------------------------------------------------------------
  // Facts about Heads and Remaining

  /** Each heap entry is the next record of a run that still has one. */
  lemma {:induction false} HeadsMember(files: seq<seq<int>>, cons: seq<nat>, k: nat, e: Entry)
    requires |cons| == |files| && k <= |files|
    requires e in Heads(files, cons, k)
    ensures e.src < k && cons[e.src] < |files[e.src]| && e.val == files[e.src][cons[e.src]]
  {
    if k > 0 && e !in HeadOf(files, cons, k - 1) {
      HeadsMember(files, cons, k - 1, e);
    }
  }

  /** Each run that still has records has its next record in the heap. */
  lemma {:induction false} HeadIn(files: seq<seq<int>>, cons: seq<nat>, k: nat, i: nat)
    requires |cons| == |files| && i < k <= |files|
    requires cons[i] < |files[i]|
    ensures Entry(files[i][cons[i]], i) in Heads(files, cons, k)
  {
    if i < k - 1 {
      HeadIn(files, cons, k - 1, i);
    }
  }

  /** The heap holds at most `k` entries. */
  lemma {:induction false} HeadsSize(files: seq<seq<int>>, cons: seq<nat>, k: nat)
    requires |cons| == |files| && k <= |files|
    ensures |Heads(files, cons, k)| <= k
  {
    if k > 0 {
      HeadsSize(files, cons, k - 1);
    }
  }

  /** No entry is in the heap twice; with `HeadsMember`, which fixes an
      entry by its run, the heap holds at most one entry per run. */
  lemma {:induction false} HeadsOnePerSource(files: seq<seq<int>>, cons: seq<nat>, k: nat, e: Entry)
    requires |cons| == |files| && k <= |files|
    ensures Heads(files, cons, k)[e] <= 1
  {
    if k > 0 {
      var h, o := Heads(files, cons, k - 1), HeadOf(files, cons, k - 1);
      assert Heads(files, cons, k)[e] == h[e] + o[e];
      HeadsOnePerSource(files, cons, k - 1, e);
      if e in h {
        HeadsMember(files, cons, k - 1, e);
        assert o[e] == 0;
      } else {
        assert o[e] <= 1;
      }
    }
  }

  /** Heap entries of runs before `s` do not depend on the cursor of `s`. */
  lemma {:induction false} HeadsBefore(files: seq<seq<int>>, cons: seq<nat>, cons': seq<nat>, s: nat, k: nat)
    requires |cons| == |cons'| == |files| && k <= s < |files|
    requires forall i :: 0 <= i < |files| && i != s ==> cons'[i] == cons[i]
    ensures Heads(files, cons', k) == Heads(files, cons, k)
  {
    if k > 0 {
      HeadsBefore(files, cons, cons', s, k - 1);
      assert HeadOf(files, cons', k - 1) == HeadOf(files, cons, k - 1);
    }
  }

  /** Advancing the cursor of run `s` by one record swaps its heap entry
      for the next one, if there is a next one. */
  lemma {:induction false} HeadsAdvance(files: seq<seq<int>>, cons: seq<nat>, s: nat, k: nat)
    requires |cons| == |files| && s < k <= |files|
    requires cons[s] < |files[s]|
    ensures var cons' := cons[s := cons[s] + 1];
      Heads(files, cons', k) + multiset{Entry(files[s][cons[s]], s)}
      == Heads(files, cons, k) + HeadOf(files, cons', s)
  {
    var cons' := cons[s := cons[s] + 1];
    var old_e := multiset{Entry(files[s][cons[s]], s)};
    if k - 1 == s {
      HeadsBefore(files, cons, cons', s, s);
      assert HeadOf(files, cons, s) == old_e;
    } else {
      HeadsAdvance(files, cons, s, k - 1);
      assert HeadOf(files, cons', k - 1) == HeadOf(files, cons, k - 1);
      SwapIn(Heads(files, cons, k - 1), Heads(files, cons', k - 1), HeadOf(files, cons, k - 1),
             old_e, HeadOf(files, cons', s));
    }
  }

  /** Multiset rearrangement used by `HeadsAdvance`. */
  lemma SwapIn<T>(a: multiset<T>, a': multiset<T>, h: multiset<T>, o: multiset<T>, n: multiset<T>)
    requires a' + o == a + n
    ensures (a' + h) + o == (a + h) + n
  {
    calc {
      (a' + h) + o;
      (a' + o) + h;
      (a + n) + h;
      (a + h) + n;
    }
  }

  /** The invariant of run `i` depends only on that run's buffer, read
      position and cursor. */
  lemma SourceInvFrame(files: seq<seq<int>>, buffers: seq<seq<int>>, pos: seq<nat>, cons: seq<nat>,
                       buffers': seq<seq<int>>, pos': seq<nat>, cons': seq<nat>, B: int, i: nat)
    requires |buffers| == |pos| == |cons| == |files| && i < |files|
    requires |buffers'| == |pos'| == |cons'| == |files|
    requires buffers'[i] == buffers[i] && pos'[i] == pos[i] && cons'[i] == cons[i]
    requires SourceInv(files, buffers, pos, cons, B, i)
    ensures SourceInv(files, buffers', pos', cons', B, i)
  {
  }

  /** Advancing the cursor of run `s` by one record removes that record
      from what remains. */
  lemma {:induction false} RemainingAdvance(files: seq<seq<int>>, cons: seq<nat>, s: nat, k: nat)
    requires Cursor(files, cons) && s < k <= |files|
    requires cons[s] < |files[s]|
    ensures Cursor(files, cons[s := cons[s] + 1])
    ensures Remaining(files, cons[s := cons[s] + 1], k) + multiset{files[s][cons[s]]}
         == Remaining(files, cons, k)
  {
    var cons' := cons[s := cons[s] + 1];
    var v := multiset{files[s][cons[s]]};
    if k - 1 == s {
      RemainingBefore(files, cons, cons', s, s);
      var f := files[s];
      assert f[cons[s]..] == [f[cons[s]]] + f[cons[s] + 1..];
    } else {
      RemainingAdvance(files, cons, s, k - 1);
      var t := multiset(files[k - 1][cons[k - 1]..]);
      assert cons'[k - 1] == cons[k - 1];
      assert Remaining(files, cons', k) == Remaining(files, cons', k - 1) + t;
      AddRight(Remaining(files, cons, k - 1), Remaining(files, cons', k - 1), t, v);
    }
  }

  /** Multiset rearrangement used by `RemainingAdvance`. */
  lemma AddRight<T>(a: multiset<T>, a': multiset<T>, h: multiset<T>, o: multiset<T>)
    requires a' + o == a
    ensures (a' + h) + o == a + h
  {
  }

  /** What remains of runs before `s` does not depend on the cursor of `s`. */
  lemma {:induction false} RemainingBefore(files: seq<seq<int>>, cons: seq<nat>, cons': seq<nat>, s: nat, k: nat)
    requires Cursor(files, cons) && Cursor(files, cons') && k <= s < |files|
    requires forall i :: 0 <= i < |files| && i != s ==> cons'[i] == cons[i]
    ensures Remaining(files, cons', k) == Remaining(files, cons, k)
  {
    if k > 0 {
      RemainingBefore(files, cons, cons', s, k - 1);
      assert cons'[k - 1] == cons[k - 1];
    }
  }

  /** With an empty heap every run is used up, so nothing remains. */
  lemma {:induction false} HeadsEmpty(files: seq<seq<int>>, cons: seq<nat>, k: nat)
    requires Cursor(files, cons) && k <= |files|
    requires Heads(files, cons, k) == multiset{}
    ensures Remaining(files, cons, k) == multiset{}
  {
    if k > 0 {
      assert HeadOf(files, cons, k - 1) == multiset{};
      HeadsEmpty(files, cons, k - 1);
    }
  }

  /** Before anything is written, all records of the first `k` runs remain. */
  lemma {:induction false} RemainingAtStart(files: seq<seq<int>>, cons: seq<nat>, k: nat)
    requires Cursor(files, cons) && k <= |files|
    requires forall i :: 0 <= i < |files| ==> cons[i] == 0
    ensures Remaining(files, cons, k) == multiset(Flatten(files[..k]))
  {
    if k > 0 {
      RemainingAtStart(files, cons, k - 1);
      assert files[..k] == files[..k - 1] + [files[k - 1]];
      FlattenAppend(files[..k - 1], [files[k - 1]]);
      FlattenCons(files[k - 1], []);
      assert files[k - 1][cons[k - 1]..] == files[k - 1];
    }
  }

  /** Records in memory: the buffers and the heap together hold at most `B`
      records per open run. */
  lemma {:induction false} Footprint(files: seq<seq<int>>, buffers: seq<seq<int>>, pos: seq<nat>,
                                     cons: seq<nat>, B: int, k: nat)
    requires |buffers| == |pos| == |cons| == |files| && k <= |files|
    requires forall i :: 0 <= i < k ==> SourceInv(files, buffers, pos, cons, B, i)
    ensures TotalLen(buffers, k) + |Heads(files, cons, k)| <= k * B
  {
    if k > 0 {
      Footprint(files, buffers, pos, cons, B, k - 1);
      assert SourceInv(files, buffers, pos, cons, B, k - 1);
      assert (k - 1) * B + B == k * B;
    }
  }

  /** Buffers of runs not yet opened are empty and add nothing. */
  lemma {:induction false} TotalLenUnopened(buffers: seq<seq<int>>, k: nat, n: nat)
    requires k <= n <= |buffers|
    requires forall i :: k <= i < |buffers| ==> buffers[i] == []
    ensures TotalLen(buffers, n) == TotalLen(buffers, k)
  {
    if n > k {
      TotalLenUnopened(buffers, k, n - 1);
    }
  }

  /** At every step the records in memory number at most `|files| * B`. */
  lemma MemoryBound(files: seq<seq<int>>, buffers: seq<seq<int>>, pos: seq<nat>,
                    cons: seq<nat>, heap: seq<Entry>, B: int, k: nat)
    requires B >= 1
    requires MergeInv(files, buffers, pos, cons, heap, B, k)
    ensures TotalLen(buffers, |buffers|) + |heap| <= |files| * B
  {
    Footprint(files, buffers, pos, cons, B, k);
    TotalLenUnopened(buffers, k, |buffers|);
    assert |heap| == |multiset(heap)|;
    MulMono(k, |files|, B);
  }

  /** The least heap entry is at most every record not yet written. */
  lemma PoppedIsLeast(files: seq<seq<int>>, cons: seq<nat>, heap: seq<Entry>, m: nat)
    requires Cursor(files, cons) && AllSorted(files)
    requires multiset(heap) == Heads(files, cons, |files|)
    requires m < |heap| && forall j :: 0 <= j < |heap| ==> EntryLe(heap[m], heap[j])
    ensures Below(heap[m].val, files, cons)
  {
    forall i, j | 0 <= i < |files| && cons[i] <= j < |files[i]|
      ensures heap[m].val <= files[i][j]
    {
      HeadIn(files, cons, |files|, i);
      var e := Entry(files[i][cons[i]], i);
      assert e in multiset(heap);
      var t :| 0 <= t < |heap| && heap[t] == e;
      assert Sorted(files[i]);
    }
  }

  // ---------------------------------------------------------------------
  // The merge

  /** Open every run: load its first block and move its first record into
      the heap (lines 59-62). */
  method OpenAll(files: seq<seq<int>>, B: int)
    returns (heap: seq<Entry>, buffers: seq<seq<int>>, pos: seq<nat>, ghost cons: seq<nat>, peak: nat)
    requires B >= 1
    ensures MergeInv(files, buffers, pos, cons, heap, B, |files|)
    ensures forall i :: 0 <= i < |files| ==> cons[i] == 0
    ensures forall i :: 0 <= i < |files| ==> pos[i] == Min(B, |files[i]|)
    ensures peak <= |files| * B
  {
    heap := [];
    buffers := seq(|files|, _ => []);
    pos := seq(|files|, _ => 0);
    cons := seq(|files|, _ => 0);
    peak := 0;
    var idx := 0;
    while idx < |files|
      invariant idx <= |files|
      invariant MergeInv(files, buffers, pos, cons, heap, B, idx)
      invariant forall i :: 0 <= i < |files| ==> cons[i] == 0
      invariant FirstBlocksRead(files, pos, B, idx)
      invariant peak <= |files| * B
    {
      heap, buffers, pos := OpenOne(files, B, heap, buffers, pos, cons, idx);
      idx := idx + 1;
      MemoryBound(files, buffers, pos, cons, heap, B, idx);
      peak := Max(peak, TotalLen(buffers, |buffers|) + |heap|);
    }
  }

  /** The first `k` runs have read exactly their first block. */
  predicate FirstBlocksRead(files: seq<seq<int>>, pos: seq<nat>, B: int, k: nat)
    requires |pos| == |files| && k <= |files|
  {
    forall i :: 0 <= i < k ==> pos[i] == Min(B, |files[i]|)
  }

  /** Open run `idx`: its first block is loaded and its first record, if
      any, pushed (lines 60-62). */
  method OpenOne(files: seq<seq<int>>, B: int, heap: seq<Entry>, buffers: seq<seq<int>>,
                 pos: seq<nat>, ghost cons: seq<nat>, idx: nat)
    returns (heap': seq<Entry>, buffers': seq<seq<int>>, pos': seq<nat>)
    requires B >= 1 && idx < |files|
    requires MergeInv(files, buffers, pos, cons, heap, B, idx)
    requires forall i :: 0 <= i < |files| ==> cons[i] == 0
    requires FirstBlocksRead(files, pos, B, idx)
    ensures MergeInv(files, buffers', pos', cons, heap', B, idx + 1)
    ensures pos' == pos[idx := Min(B, |files[idx]|)]
    ensures FirstBlocksRead(files, pos', B, idx + 1)
  {
    var p;
    heap', buffers', p := Refill(files[idx], B, heap, buffers, 0, idx, 0);
    OpenKeepsInv(files, buffers, pos, cons, heap, buffers', p, heap', B, idx);
    pos' := pos[idx := p];
  }

  /** Opening run `idx` (its first block loaded, its first record pushed)
      extends the merge invariant to the first `idx + 1` runs. */
  lemma OpenKeepsInv(files: seq<seq<int>>, buffers: seq<seq<int>>, pos: seq<nat>, cons: seq<nat>,
                     heap: seq<Entry>, buffers': seq<seq<int>>, p: nat, heap': seq<Entry>,
                     B: int, idx: nat)
    requires MergeInv(files, buffers, pos, cons, heap, B, idx) && idx < |files|
    requires forall i :: 0 <= i < |files| ==> cons[i] == 0
    requires |buffers'| == |buffers|
    requires forall j :: 0 <= j < |buffers| && j != idx ==> buffers'[j] == buffers[j]
    requires p <= |files[idx]| && p <= B
    requires 0 < |files[idx]| ==>
      heap' == heap + [Entry(files[idx][0], idx)] && 0 < p && buffers'[idx] == files[idx][1..p]
    requires 0 >= |files[idx]| ==> heap' == heap && buffers'[idx] == []
    ensures MergeInv(files, buffers', pos[idx := p], cons, heap', B, idx + 1)
  {
    var pos' := pos[idx := p];
    assert SourceInv(files, buffers', pos', cons, B, idx);
    forall i | 0 <= i < idx
      ensures SourceInv(files, buffers', pos', cons, B, i)
    {
      SourceInvFrame(files, buffers, pos, cons, buffers', pos', cons, B, i);
    }
    assert multiset(heap') == multiset(heap) + HeadOf(files, cons, idx);
  }

  /** Pop and push keep the heap equal to the heads of the runs: the popped
      entry of run `s` is replaced by that run's next record, if any. */
  lemma HeapAfterStep(files: seq<seq<int>>, cons: seq<nat>, heap: seq<Entry>, k: nat,
                      s: nat, heap': seq<Entry>)
    requires |cons| == |files| && s < |files| && cons[s] < |files[s]|
    requires multiset(heap) == Heads(files, cons, |files|)
    requires k < |heap| && heap[k] == Entry(files[s][cons[s]], s)
    requires heap' == heap[..k] + heap[k + 1..]
      + (if cons[s] + 1 < |files[s]| then [Entry(files[s][cons[s] + 1], s)] else [])
    ensures multiset(heap') == Heads(files, cons[s := cons[s] + 1], |files|)
  {
    var cons' := cons[s := cons[s] + 1];
    var rest := heap[..k] + heap[k + 1..];
    MultisetRemoveAt(heap, k);
    var next := HeadOf(files, cons', s);
    if cons[s] + 1 < |files[s]| {
      var e := Entry(files[s][cons[s] + 1], s);
      assert next == multiset{e};
      assert multiset(heap') == multiset(rest) + multiset{e};
    } else {
      assert next == multiset{};
      assert heap' == rest;
    }
    HeadsAdvance(files, cons, s, |files|);
    SwapOut(Heads(files, cons', |files|), multiset(rest) + next, multiset{heap[k]});
  }

  /** Removing position `k` removes one occurrence of `s[k]`. */
  lemma MultisetRemoveAt<T>(s: seq<T>, k: nat)
    requires k < |s|
    ensures multiset(s) == multiset(s[..k] + s[k + 1..]) + multiset{s[k]}
  {
    assert s == s[..k] + [s[k]] + s[k + 1..];
  }

  /** Multiset cancellation used by `HeapAfterStep`. */
  lemma SwapOut<T>(a: multiset<T>, b: multiset<T>, o: multiset<T>)
    requires a + o == b + o
    ensures a == b
  {
    assert forall x :: a[x] == (a + o)[x] - o[x] == (b + o)[x] - o[x] == b[x];
  }

  /** Refill run `src` after its heap entry was popped (lines 68-71): load a
      block if its buffer is empty, then push its next record if there is
      one. `c` is the position of that next record in the run. */
  method Refill(file: seq<int>, B: int, heap: seq<Entry>, buffers: seq<seq<int>>, pos: nat,
                src: nat, ghost c: nat)
    returns (heap': seq<Entry>, buffers': seq<seq<int>>, pos': nat)
    requires B >= 1 && src < |buffers|
    requires c <= pos <= |file| && pos - c <= B && buffers[src] == file[c..pos]
    ensures |buffers'| == |buffers|
    ensures forall j :: 0 <= j < |buffers| && j != src ==> buffers'[j] == buffers[j]
    ensures c <= pos' <= |file| && pos' - c <= B
    ensures c < |file| ==> heap' == heap + [Entry(file[c], src)]
                           && c < pos' && buffers'[src] == file[c + 1..pos']
    ensures c >= |file| ==> heap' == heap && buffers'[src] == []
    ensures buffers[src] != [] ==> pos' == pos
    ensures buffers[src] == [] ==> pos' == Min(pos + B, |file|)
  {
    heap', buffers', pos' := heap, buffers, pos;
    if buffers'[src] == [] {
      buffers', pos' := LoadBuffer(buffers', src, file, pos', B);
    }
    if buffers'[src] != [] {
      // `heappush(heap, (buffers[src].pop(0), src))`
      heap' := heap' + [Entry(buffers'[src][0], src)];
      buffers' := buffers'[src := buffers'[src][1..]];
    }
  }

  /** What the least heap entry tells about its run `s`: the entry is the
      run's next record, and the run's buffer holds the records after it up
      to the read position. */
  lemma PopFacts(files: seq<seq<int>>, buffers: seq<seq<int>>, pos: seq<nat>, cons: seq<nat>,
                 heap: seq<Entry>, B: int, k: nat, s: nat)
    requires MergeInv(files, buffers, pos, cons, heap, B, |files|)
    requires k < |heap| && forall j :: 0 <= j < |heap| ==> EntryLe(heap[k], heap[j])
    requires s == heap[k].src
    ensures s < |files| && cons[s] < |files[s]| && heap[k].val == files[s][cons[s]]
    ensures cons[s] + 1 <= pos[s] <= |files[s]| && pos[s] - (cons[s] + 1) <= B
    ensures buffers[s] == files[s][cons[s] + 1..pos[s]]
    ensures AllSorted(files) ==> Below(heap[k].val, files, cons)
  {
    if AllSorted(files) {
      PoppedIsLeast(files, cons, heap, k);
    }
    assert heap[k] in multiset(heap);
    HeadsMember(files, cons, |files|, heap[k]);
    assert SourceInv(files, buffers, pos, cons, B, s);
  }

  /** Refilling run `s` after its entry at heap index `k` was popped
      restores the merge invariant with the cursor of `s` advanced. */
  lemma RefillKeepsInv(files: seq<seq<int>>, buffers: seq<seq<int>>, pos: seq<nat>, cons: seq<nat>,
                       heap: seq<Entry>, B: int, k: nat, s: nat,
                       buffers': seq<seq<int>>, p: nat, heap': seq<Entry>)
    requires MergeInv(files, buffers, pos, cons, heap, B, |files|)
    requires k < |heap| && s == heap[k].src && s < |files|
    requires cons[s] < |files[s]| && heap[k].val == files[s][cons[s]]
    requires |buffers'| == |buffers|
    requires forall j :: 0 <= j < |buffers| && j != s ==> buffers'[j] == buffers[j]
    requires cons[s] + 1 <= p <= |files[s]| && p - (cons[s] + 1) <= B
    requires cons[s] + 1 < |files[s]| ==>
      heap' == heap[..k] + heap[k + 1..] + [Entry(files[s][cons[s] + 1], s)]
      && cons[s] + 1 < p && buffers'[s] == files[s][cons[s] + 2..p]
    requires cons[s] + 1 >= |files[s]| ==> heap' == heap[..k] + heap[k + 1..] && buffers'[s] == []
    ensures MergeInv(files, buffers', pos[s := p], cons[s := cons[s] + 1], heap', B, |files|)
  {
    assert heap[k] == Entry(files[s][cons[s]], s);
    HeapAfterStep(files, cons, heap, k, s, heap');
    StepKeepsInv(files, buffers, pos, cons, buffers', pos[s := p], heap', B, s);
  }

  /** One round of the merge loop (lines 66-71): pop the least entry, write
      its record out and refill its run. The written record is the next
      record of run `s`, whose cursor advances by one. */
  method PopAndRefill(files: seq<seq<int>>, B: int, heap: seq<Entry>, buffers: seq<seq<int>>,
                      pos: seq<nat>, ghost cons: seq<nat>)
    returns (v: int, heap': seq<Entry>, buffers': seq<seq<int>>, pos': seq<nat>,
             ghost cons': seq<nat>, ghost s: nat)
    requires B >= 1 && heap != []
    requires MergeInv(files, buffers, pos, cons, heap, B, |files|)
    ensures MergeInv(files, buffers', pos', cons', heap', B, |files|)
    ensures s < |files| && cons[s] < |files[s]| && v == files[s][cons[s]]
    ensures cons' == cons[s := cons[s] + 1]
    ensures AllSorted(files) ==> Below(v, files, cons)
  {
    var k := MinIndex(heap);
    var src := heap[k].src;
    PopFacts(files, buffers, pos, cons, heap, B, k, src);
    s := src;
    v := heap[k].val;
    var p;
    heap', buffers', p := Refill(files[src], B, heap[..k] + heap[k + 1..], buffers, pos[src], src, cons[src] + 1);
    RefillKeepsInv(files, buffers, pos, cons, heap, B, k, src, buffers', p, heap');
    pos' := pos[src := p];
    cons' := cons[src := cons[src] + 1];
  }

  /** After a pop and refill of run `s`, the merge invariant holds again
      with the cursor of `s` advanced: the other runs are untouched. */
  lemma StepKeepsInv(files: seq<seq<int>>, buffers: seq<seq<int>>, pos: seq<nat>, cons: seq<nat>,
                     buffers': seq<seq<int>>, pos': seq<nat>, heap': seq<Entry>, B: int, s: nat)
    requires |buffers| == |pos| == |cons| == |files| && Cursor(files, cons)
    requires forall i :: 0 <= i < |files| ==> SourceInv(files, buffers, pos, cons, B, i)
    requires s < |files| && cons[s] < |files[s]|
    requires |buffers'| == |buffers| && |pos'| == |pos| && pos' == pos[s := pos'[s]]
    requires forall j :: 0 <= j < |buffers| && j != s ==> buffers'[j] == buffers[j]
    requires cons[s] + 1 <= pos'[s] <= |files[s]| && pos'[s] - (cons[s] + 1) <= B
    requires cons[s] + 1 < |files[s]| ==>
      cons[s] + 1 < pos'[s] && buffers'[s] == files[s][cons[s] + 2..pos'[s]]
    requires cons[s] + 1 >= |files[s]| ==> buffers'[s] == []
    requires multiset(heap') == Heads(files, cons[s := cons[s] + 1], |files|)
    ensures MergeInv(files, buffers', pos', cons[s := cons[s] + 1], heap', B, |files|)
  {
    var cons' := cons[s := cons[s] + 1];
    assert SourceInv(files, buffers', pos', cons', B, s);
    forall i | 0 <= i < |files| && i != s
      ensures SourceInv(files, buffers', pos', cons', B, i)
    {
      SourceInvFrame(files, buffers, pos, cons, buffers', pos', cons', B, i);
    }
  }

  /** Writing the next record `v` of run `s` keeps the output and what
      remains together equal to the input, and what remains shrinks. */
  lemma OutputStep(files: seq<seq<int>>, cons: seq<nat>, s: nat, out: seq<int>, v: int)
    requires Cursor(files, cons) && s < |files| && cons[s] < |files[s]| && v == files[s][cons[s]]
    ensures Cursor(files, cons[s := cons[s] + 1])
    ensures multiset(out + [v]) + Remaining(files, cons[s := cons[s] + 1], |files|)
         == multiset(out) + Remaining(files, cons, |files|)
    ensures |Remaining(files, cons[s := cons[s] + 1], |files|)| < |Remaining(files, cons, |files|)|
  {
    RemainingAdvance(files, cons, s, |files|);
  }

  /** When the runs are sorted, writing the least remaining record `v` of
      run `s` keeps the output sorted and below everything that remains. */
  lemma OutputSorted(files: seq<seq<int>>, cons: seq<nat>, s: nat, out: seq<int>, v: int)
    requires Cursor(files, cons) && s < |files| && cons[s] < |files[s]| && v == files[s][cons[s]]
    requires Sorted(out) && Below(v, files, cons)
    requires out != [] ==> Below(out[|out| - 1], files, cons)
    ensures Sorted(out + [v]) && Below(v, files, cons[s := cons[s] + 1])
  {
    if out != [] {
      assert out[|out| - 1] <= v;
    }
  }

  /** The state of the merge loop: the heap and buffers hold the unwritten
      heads of the runs, the output and what remains are together the input,
      and, when the runs are sorted, the output is sorted and below all that
      remains. */
  ghost predicate LoopInv(files: seq<seq<int>>, B: int, heap: seq<Entry>, buffers: seq<seq<int>>,
                          pos: seq<nat>, cons: seq<nat>, out: seq<int>, peak: nat)
  {
    && MergeInv(files, buffers, pos, cons, heap, B, |files|)
    && multiset(out) + Remaining(files, cons, |files|) == multiset(Flatten(files))
    && (AllSorted(files) ==> Sorted(out))
    && (AllSorted(files) && out != [] ==> Below(out[|out| - 1], files, cons))
    && peak <= |files| * B
  }

  /** One round of the merge loop, including writing the popped record out
      and recording the memory in use. */
  method MergeRound(files: seq<seq<int>>, B: int, heap: seq<Entry>, buffers: seq<seq<int>>,
                    pos: seq<nat>, ghost cons: seq<nat>, out: seq<int>, peak: nat)
    returns (heap': seq<Entry>, buffers': seq<seq<int>>, pos': seq<nat>, ghost cons': seq<nat>,
             out': seq<int>, peak': nat)
    requires B >= 1 && heap != []
    requires LoopInv(files, B, heap, buffers, pos, cons, out, peak)
    ensures LoopInv(files, B, heap', buffers', pos', cons', out', peak')
    ensures |Remaining(files, cons', |files|)| < |Remaining(files, cons, |files|)|
    ensures |out'| == |out| + 1 && out'[..|out|] == out
    ensures peak <= peak' <= |files| * B
  {
    var v: int;
    ghost var s: nat;
    v, heap', buffers', pos', cons', s := PopAndRefill(files, B, heap, buffers, pos, cons);
    OutputStep(files, cons, s, out, v);
    if AllSorted(files) {
      OutputSorted(files, cons, s, out, v);
    }
    out' := out + [v];
    MemoryBound(files, buffers', pos', cons', heap', B, |files|);
    peak' := Max(peak, TotalLen(buffers', |buffers'|) + |heap'|);
  }

  /** Merge runs into one run (`merge_files`). The output holds every record
      of every input exactly once; if the inputs are sorted, so is the
      output. `peak` is the largest number of records held in the buffers
      and the heap together. */
  method MergeFiles(files: seq<seq<int>>, B: int) returns (out: seq<int>, peak: nat)
    requires B >= 1
    ensures multiset(out) == multiset(Flatten(files))
    ensures AllSorted(files) ==> Sorted(out) && out == SortSeq(Flatten(files))
    ensures peak <= |files| * B
  {
    var heap: seq<Entry>, buffers: seq<seq<int>>, pos: seq<nat>;
    ghost var cons: seq<nat>;
    heap, buffers, pos, cons, peak := OpenAll(files, B);
    RemainingAtStart(files, cons, |files|);
    assert files[..|files|] == files;
    out := [];
    while heap != []
      invariant LoopInv(files, B, heap, buffers, pos, cons, out, peak)
      decreases |Remaining(files, cons, |files|)|
    {
      heap, buffers, pos, cons, out, peak := MergeRound(files, B, heap, buffers, pos, cons, out, peak);
    }
    HeadsEmpty(files, cons, |files|);
    if AllSorted(files) {
      SortedPermutationIsSortSeq(Flatten(files), out);
    }
  }
}
