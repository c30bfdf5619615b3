/** The kernel heap: block headers in memory, linked in address order, split and merged in place. */
module Heap {

  const MAGIC := 0xDEADBEEF
  const WORD := 0x1_0000_0000_0000_0000

  /** A block as the list of blocks presents it. */
  datatype Block = Block(addr: nat, size: nat, free: bool)

  function End(b: Block): nat { b.addr + 32 + b.size }

  /** The blocks fill `[start, end)` exactly, in order. */
  ghost predicate Tiles(bs: seq<Block>, start: nat, end: nat) {
    && bs != [] && bs[0].addr == start && End(bs[|bs| - 1]) == end
    && forall i :: 0 < i < |bs| ==> bs[i].addr == End(bs[i - 1])
  }

  /** Neighbours are never both free. */
  ghost predicate Coalesced(bs: seq<Block>) {
    forall i :: 0 < i < |bs| ==> !bs[i - 1].free || !bs[i].free
  }

  /** The last block is not empty, so every payload starts inside the heap. */
  ghost predicate Ended(bs: seq<Block>) { bs != [] && bs[|bs| - 1].size > 0 }

  ghost predicate Good(bs: seq<Block>, start: nat, end: nat) { Tiles(bs, start, end) && Coalesced(bs) && Ended(bs) }

  // ---------------------------------------------------------------- operations on the list

  /** `(size + 15) & ~15` in 64 bits. */
  function Align(size: nat): nat { (size + 15) % WORD / 16 * 16 }

  predicate Fits(b: Block, n: nat) { b.free && b.size >= n }

  /** The first block at or after `i` that fits, or the length. */
  function FirstFit(bs: seq<Block>, n: nat, i: nat): (r: nat)
    requires i <= |bs|
    ensures i <= r <= |bs| && (r < |bs| ==> Fits(bs[r], n))
    ensures forall j :: i <= j < r ==> !Fits(bs[j], n)
    decreases |bs| - i
  {
    if i == |bs| || Fits(bs[i], n) then i else FirstFit(bs, n, i + 1)
  }

  /** Block `k` is taken, and split if what remains can hold a header and 16 bytes. */
  function Taken(bs: seq<Block>, k: nat, n: nat): seq<Block>
    requires k < |bs| && bs[k].size >= n
  {
    var b := bs[k];
    if b.size >= n + 48
    then bs[..k] + [Block(b.addr, n, false), Block(b.addr + 32 + n, b.size - n - 32, true)] + bs[k + 1..]
    else bs[k := b.(free := false)]
  }

  /** Block `k` absorbs its successor. */
  function Merged(bs: seq<Block>, k: nat): seq<Block>
    requires k + 1 < |bs|
  {
    bs[..k] + [bs[k].(size := bs[k].size + 32 + bs[k + 1].size)] + bs[k + 2..]
  }

  function MergedNext(bs: seq<Block>, k: nat): (r: seq<Block>)
    requires k < |bs|
    ensures k < |r|
  {
    if k + 1 < |bs| && bs[k + 1].free then Merged(bs, k) else bs
  }

  function MergedPrev(bs: seq<Block>, k: nat): seq<Block>
    requires k < |bs|
  {
    if k > 0 && bs[k - 1].free then Merged(bs, k - 1) else bs
  }

  /** Block `k` becomes free and is joined with its free neighbours. */
  function Released(bs: seq<Block>, k: nat): seq<Block>
    requires k < |bs|
  {
    MergedPrev(MergedNext(bs[k := bs[k].(free := true)], k), k)
  }

  // ---------------------------------------------------------------- what the operations keep

  /** What stands at position `i` once block `k` has been split. */
  function SplitAt(bs: seq<Block>, k: nat, n: nat, i: nat): Block
    requires k < |bs| && bs[k].size >= n + 48 && i <= |bs|
  {
    if i < k then bs[i]
    else if i == k then Block(bs[k].addr, n, false)
    else if i == k + 1 then Block(bs[k].addr + 32 + n, bs[k].size - n - 32, true)
    else bs[i - 1]
  }

  lemma TakenAt(bs: seq<Block>, k: nat, n: nat)
    requires k < |bs| && bs[k].size >= n + 48
    ensures |Taken(bs, k, n)| == |bs| + 1
    ensures forall i :: 0 <= i <= |bs| ==> Taken(bs, k, n)[i] == SplitAt(bs, k, n, i)
  {
  }

  lemma TakenGood(bs: seq<Block>, k: nat, n: nat, start: nat, end: nat)
    requires Good(bs, start, end) && k < |bs| && Fits(bs[k], n)
    ensures Good(Taken(bs, k, n), start, end)
  {
    var t := Taken(bs, k, n);
    if bs[k].size >= n + 48 {
      TakenAt(bs, k, n);
      forall i | 0 < i < |t| ensures t[i].addr == End(t[i - 1]) && (!t[i - 1].free || !t[i].free) {
        assert t[i] == SplitAt(bs, k, n, i) && t[i - 1] == SplitAt(bs, k, n, i - 1);
      }
      assert t[0] == SplitAt(bs, k, n, 0) && t[|bs|] == SplitAt(bs, k, n, |bs|);
    }
  }

  /** What stands at position `i` once block `k` has absorbed its successor. */
  function JoinedAt(bs: seq<Block>, k: nat, i: nat): Block
    requires k + 1 < |bs| && i + 1 < |bs|
  {
    if i < k then bs[i] else if i == k then bs[k].(size := bs[k].size + 32 + bs[k + 1].size) else bs[i + 1]
  }

  lemma MergedAt(bs: seq<Block>, k: nat)
    requires k + 1 < |bs|
    ensures |Merged(bs, k)| == |bs| - 1
    ensures forall i :: 0 <= i < |bs| - 1 ==> Merged(bs, k)[i] == JoinedAt(bs, k, i)
  {
  }

  lemma MergedTiles(bs: seq<Block>, k: nat, start: nat, end: nat)
    requires Tiles(bs, start, end) && k + 1 < |bs|
    ensures Tiles(Merged(bs, k), start, end)
  {
  }

  /** Only the pairs around block `k` may be both free. */
  ghost predicate CoalescedBut(bs: seq<Block>, k: nat) {
    forall i :: 0 < i < |bs| && i != k && i != k + 1 ==> !bs[i - 1].free || !bs[i].free
  }

  lemma MergedNextGood(bs: seq<Block>, k: nat, start: nat, end: nat)
    requires Tiles(bs, start, end) && k < |bs| && CoalescedBut(bs, k) && bs[k].free && Ended(bs)
    ensures var m := MergedNext(bs, k);
      Tiles(m, start, end) && CoalescedBut(m, k) && Ended(m) && m[k].free && (k + 1 < |m| ==> !m[k + 1].free)
  {
    hide Merged;
    if k + 1 < |bs| && bs[k + 1].free {
      var m := Merged(bs, k);
      MergedTiles(bs, k, start, end);
      MergedAt(bs, k);
      forall i | 0 < i < |m| && i != k ensures !m[i - 1].free || !m[i].free {
        assert m[i] == JoinedAt(bs, k, i) && m[i - 1] == JoinedAt(bs, k, i - 1);
      }
    }
  }

  lemma MergedPrevGood(bs: seq<Block>, k: nat, start: nat, end: nat)
    requires Tiles(bs, start, end) && k < |bs| && CoalescedBut(bs, k) && Ended(bs) && (k + 1 < |bs| ==> !bs[k + 1].free)
    ensures Good(MergedPrev(bs, k), start, end)
  {
    hide Merged;
    if k > 0 && bs[k - 1].free {
      var m := Merged(bs, k - 1);
      MergedTiles(bs, k - 1, start, end);
      MergedAt(bs, k - 1);
      forall i | 0 < i < |m| ensures !m[i - 1].free || !m[i].free {
        assert m[i] == JoinedAt(bs, k - 1, i) && m[i - 1] == JoinedAt(bs, k - 1, i - 1);
      }
    }
  }

  lemma ReleasedGood(bs: seq<Block>, k: nat, start: nat, end: nat)
    requires Good(bs, start, end) && k < |bs|
    ensures Good(Released(bs, k), start, end)
  {
    hide MergedNext, MergedPrev;
    var f := bs[k := bs[k].(free := true)];
    MergedNextGood(f, k, start, end);
    MergedPrevGood(MergedNext(f, k), k, start, end);
  }

  // ---------------------------------------------------------------- accounting

  function Used(bs: seq<Block>): nat {
    if bs == [] then 0 else Used(bs[..|bs| - 1]) + if bs[|bs| - 1].free then 0 else bs[|bs| - 1].size
  }

  function Free(bs: seq<Block>): nat {
    if bs == [] then 0 else Free(bs[..|bs| - 1]) + if bs[|bs| - 1].free then bs[|bs| - 1].size else 0
  }

  function FreeCount(bs: seq<Block>): nat {
    if bs == [] then 0 else FreeCount(bs[..|bs| - 1]) + if bs[|bs| - 1].free then 1 else 0
  }

  /** Payloads and headers add up to the heap. */
  lemma {:induction false} Accounts(bs: seq<Block>, start: nat, end: nat)
    requires Tiles(bs, start, end)
    ensures Used(bs) + Free(bs) + 32 * |bs| == end - start
  {
    var b := bs[..|bs| - 1];
    if b != [] {
      Accounts(b, start, End(b[|b| - 1]));
    } else {
      assert Used(b) == 0 && Free(b) == 0;
    }
  }

  /** A later block starts after an earlier one ends. */
  lemma {:induction false} Ordered(bs: seq<Block>, start: nat, end: nat, i: nat, j: nat)
    requires Tiles(bs, start, end) && i < j < |bs|
    ensures start <= bs[i].addr && End(bs[i]) <= bs[j].addr && End(bs[j]) <= end
    decreases j - i + i + |bs| - j
  {
    Span(bs, start, end, i);
    Span(bs, start, end, j);
    Between(bs, start, end, i, j);
  }

  lemma {:induction false} Between(bs: seq<Block>, start: nat, end: nat, i: nat, j: nat)
    requires Tiles(bs, start, end) && i < j < |bs|
    ensures End(bs[i]) <= bs[j].addr
  {
    if i + 1 < j {
      Between(bs, start, end, i, j - 1);
    }
  }

  /** Every block lies inside the heap. */
  lemma Span(bs: seq<Block>, start: nat, end: nat, i: nat)
    requires Tiles(bs, start, end) && i < |bs|
    ensures start <= bs[i].addr && End(bs[i]) <= end
  {
    if i > 0 { Between(bs, start, end, 0, i); }
    if i < |bs| - 1 { Between(bs, start, end, i, |bs| - 1); }
  }

  // ---------------------------------------------------------------- relations between operations

  /** Allocated blocks other than the one an operation is about stay where and as they are. */
  lemma TakenOthers(bs: seq<Block>, k: nat, n: nat, b: Block)
    requires k < |bs| && bs[k].size >= n && b in bs && b != bs[k]
    ensures b in Taken(bs, k, n)
  {
  }

  lemma ReleasedOthers(bs: seq<Block>, k: nat, b: Block)
    requires k < |bs| && b in bs && b != bs[k] && !b.free
    ensures b in Released(bs, k)
  {
  }

  /** Freeing the block just allocated gives back exactly the list there was. */
  lemma FreeUndoesMalloc(bs: seq<Block>, k: nat, n: nat, start: nat, end: nat)
    requires Good(bs, start, end) && k < |bs| && Fits(bs[k], n)
    ensures k < |Taken(bs, k, n)| && Released(Taken(bs, k, n), k) == bs
  {
    var t := Taken(bs, k, n);
    assert k > 0 ==> !bs[k - 1].free;
    assert k + 1 < |bs| ==> !bs[k + 1].free;
    if bs[k].size >= n + 48 {
      TakenAt(bs, k, n);
      var f := t[k := t[k].(free := true)];
      MergedAt(f, k);
      assert Merged(f, k) == bs;
    } else {
      assert t[k := t[k].(free := true)] == bs;
    }
  }

  /** Rounding up to 16 gives at least what was asked for exactly when it does not wrap around. */
  lemma AlignEnough(size: nat)
    requires 0 < size < WORD
    ensures Align(size) >= size <==> size <= WORD - 16
    ensures size <= WORD - 16 ==> Align(size) < size + 16 && Align(size) % 16 == 0
    ensures size > WORD - 16 ==> Align(size) == 0
  {
    if size > WORD - 16 {
      assert (size + 15) % WORD == size + 15 - WORD;
    }
  }

  // ---------------------------------------------------------------- defragmentation

  /** `defrag_heap` from position `i` on. */
  function Defragged(bs: seq<Block>, i: nat): seq<Block>
    requires i <= |bs|
    decreases |bs| - i + |bs|
  {
    if i == |bs| then bs
    else if bs[i].free && i + 1 < |bs| && bs[i + 1].free then Defragged(Merged(bs, i), i)
    else Defragged(bs, i + 1)
  }

  lemma {:induction false} DefragNothing(bs: seq<Block>, i: nat)
    requires Coalesced(bs) && i <= |bs|
    ensures Defragged(bs, i) == bs
    decreases |bs| - i
  {
    if i < |bs| {
      DefragNothing(bs, i + 1);
    }
  }

  /** From any tiling it gives one with no two free neighbours. */
  lemma {:induction false} DefragCoalesces(bs: seq<Block>, i: nat, start: nat, end: nat)
    requires Tiles(bs, start, end) && Ended(bs) && i <= |bs|
      && (forall j :: 0 < j <= i && j < |bs| ==> !bs[j - 1].free || !bs[j].free)
    ensures Good(Defragged(bs, i), start, end)
    decreases |bs| - i + |bs|
  {
    if i < |bs| {
      if bs[i].free && i + 1 < |bs| && bs[i + 1].free {
        var m := Merged(bs, i);
        MergedTiles(bs, i, start, end);
        MergedAt(bs, i);
        forall j | 0 < j <= i && j < |m| ensures !m[j - 1].free || !m[j].free {
          assert m[j] == JoinedAt(bs, i, j) && m[j - 1] == JoinedAt(bs, i, j - 1);
        }
        DefragCoalesces(m, i, start, end);
      } else {
        DefragCoalesces(bs, i + 1, start, end);
      }
    }
  }

  // ---------------------------------------------------------------- whole runs

  datatype Op = Malloc(size: nat) | FreeAt(ptr: nat)

  /** The block whose payload starts at `ptr`, or the length. */
  function Owner(bs: seq<Block>, ptr: nat, i: nat): (r: nat)
    requires i <= |bs|
    ensures i <= r <= |bs| && (r < |bs| ==> bs[r].addr + 32 == ptr)
    ensures forall j :: i <= j < r ==> bs[j].addr + 32 != ptr
    decreases |bs| - i
  {
    if i == |bs| || bs[i].addr + 32 == ptr then i else Owner(bs, ptr, i + 1)
  }

  function Step(bs: seq<Block>, op: Op): seq<Block> {
    match op
    case Malloc(size) =>
      var k := FirstFit(bs, Align(size), 0);
      if size == 0 || k == |bs| then bs else Taken(bs, k, Align(size))
    case FreeAt(ptr) =>
      var k := Owner(bs, ptr, 0);
      if k == |bs| || bs[k].free then bs else Released(bs, k)
  }

  function Run(bs: seq<Block>, ops: seq<Op>): seq<Block>
    decreases |ops|
  {
    if ops == [] then bs else Run(Step(bs, ops[0]), ops[1..])
  }

  lemma StepGood(bs: seq<Block>, op: Op, start: nat, end: nat)
    requires Good(bs, start, end)
    ensures Good(Step(bs, op), start, end)
  {
    match op
    case Malloc(size) =>
      var k := FirstFit(bs, Align(size), 0);
      if size != 0 && k < |bs| { TakenGood(bs, k, Align(size), start, end); }
    case FreeAt(ptr) =>
      var k := Owner(bs, ptr, 0);
      if k < |bs| && !bs[k].free { ReleasedGood(bs, k, start, end); }
  }

  /** What holds after any run: exact tiling, exact accounting, nothing left to merge, live payloads apart. */
  ghost predicate Sound(bs: seq<Block>, start: nat, end: nat) {
    && Tiles(bs, start, end)
    && Used(bs) + Free(bs) + 32 * |bs| == end - start
    && Defragged(bs, 0) == bs
    && forall i, j :: 0 <= i < j < |bs| && !bs[i].free && !bs[j].free ==> End(bs[i]) <= bs[j].addr
  }

  lemma GoodSound(bs: seq<Block>, start: nat, end: nat)
    requires Good(bs, start, end)
    ensures Sound(bs, start, end)
  {
    Accounts(bs, start, end);
    DefragNothing(bs, 0);
    forall i, j | 0 <= i < j < |bs| ensures End(bs[i]) <= bs[j].addr { Ordered(bs, start, end, i, j); }
  }

  lemma {:induction false} RunGood(bs: seq<Block>, ops: seq<Op>, start: nat, end: nat)
    requires Good(bs, start, end)
    ensures Good(Run(bs, ops), start, end)
    decreases |ops|
  {
    if ops != [] {
      StepGood(bs, ops[0], start, end);
      RunGood(Step(bs, ops[0]), ops[1..], start, end);
    }
  }

  lemma RunSound(ops: seq<Op>, start: nat, size: nat)
    requires size > 32
    ensures Sound(Run([Block(start, size - 32, true)], ops), start, start + size)
  {
    RunGood([Block(start, size - 32, true)], ops, start, start + size);
    GoodSound(Run([Block(start, size - 32, true)], ops), start, start + size);
  }

  /** Through any step but its own release, an allocated block keeps its place and size. */
  lemma StepKeepsLive(bs: seq<Block>, op: Op, b: Block)
    requires b in bs && !b.free && (op.FreeAt? ==> op.ptr != b.addr + 32)
    ensures b in Step(bs, op)
  {
    match op
    case Malloc(size) =>
      var k := FirstFit(bs, Align(size), 0);
      if size != 0 && k < |bs| { TakenOthers(bs, k, Align(size), b); }
    case FreeAt(ptr) =>
      var k := Owner(bs, ptr, 0);
      if k < |bs| && !bs[k].free { ReleasedOthers(bs, k, b); }
  }

  lemma {:induction false} RunKeepsLive(bs: seq<Block>, ops: seq<Op>, b: Block)
    requires b in bs && !b.free && forall i :: 0 <= i < |ops| && ops[i].FreeAt? ==> ops[i].ptr != b.addr + 32
    ensures b in Run(bs, ops)
    decreases |ops|
  {
    if ops != [] {
      StepKeepsLive(bs, ops[0], b);
      RunKeepsLive(Step(bs, ops[0]), ops[1..], b);
    }
  }

  // ---------------------------------------------------------------- what is in use

  /** The blocks in use, in order. */
  function Live(bs: seq<Block>): seq<Block> {
    if bs == [] then [] else Live(bs[..|bs| - 1]) + if bs[|bs| - 1].free then [] else [bs[|bs| - 1]]
  }

  lemma {:induction false} LiveConcat(a: seq<Block>, b: seq<Block>)
    ensures Live(a + b) == Live(a) + Live(b) && Used(a + b) == Used(a) + Used(b)
    decreases |b|
  {
    if b == [] {
      assert a + b == a;
    } else {
      assert (a + b)[..|a + b| - 1] == a + b[..|b| - 1];
      LiveConcat(a, b[..|b| - 1]);
    }
  }

  lemma {:induction false} LiveMember(bs: seq<Block>, b: Block)
    ensures b in Live(bs) <==> b in bs && !b.free
    decreases |bs|
  {
    if bs != [] {
      LiveMember(bs[..|bs| - 1], b);
      assert bs == bs[..|bs| - 1] + [bs[|bs| - 1]];
    }
  }

  lemma LiveOne(b: Block)
    ensures Live([b]) == (if b.free then [] else [b]) && Used([b]) == if b.free then 0 else b.size
  {
    assert [b][..0] == [];
  }

  /** The blocks before, at and after a position. */
  lemma LiveSplit(bs: seq<Block>, k: nat)
    requires k < |bs|
    ensures Live(bs) == Live(bs[..k]) + (if bs[k].free then [] else [bs[k]]) + Live(bs[k + 1..])
    ensures Used(bs) == Used(bs[..k]) + (if bs[k].free then 0 else bs[k].size) + Used(bs[k + 1..])
  {
    hide Live, Used;
    Parts(bs, k);
    LiveParts(bs[..k], bs[k], bs[k + 1..]);
  }

  lemma Parts(bs: seq<Block>, k: nat)
    requires k < |bs|
    ensures bs == bs[..k] + [bs[k]] + bs[k + 1..]
  {
  }

  lemma LiveParts(a: seq<Block>, b: Block, c: seq<Block>)
    ensures Live(a + [b] + c) == Live(a) + (if b.free then [] else [b]) + Live(c)
    ensures Used(a + [b] + c) == Used(a) + (if b.free then 0 else b.size) + Used(c)
  {
    hide Live, Used;
    LiveConcat(a + [b], c);
    LiveConcat(a, [b]);
    LiveOne(b);
  }

  /** Joining free neighbours changes nothing in use. */
  lemma LiveMerged(bs: seq<Block>, k: nat)
    requires k + 1 < |bs| && bs[k].free && bs[k + 1].free
    ensures Live(Merged(bs, k)) == Live(bs) && Used(Merged(bs, k)) == Used(bs)
  {
    hide Live, Used;
    var m := Merged(bs, k);
    LiveSplit(bs, k);
    LiveSplit(bs[k + 1..], 0);
    LiveSplit(m, k);
    assert bs[k + 1..][..0] == [] && bs[k + 1..][1..] == bs[k + 2..];
    assert m[..k] == bs[..k] && m[k + 1..] == bs[k + 2..];
    NothingLive();
  }

  lemma NothingLive()
    ensures Live([]) == [] && Used([]) == 0
  {
  }

  lemma LiveReleased(bs: seq<Block>, k: nat)
    requires k < |bs| && !bs[k].free
    ensures Live(Released(bs, k)) == Live(bs[..k]) + Live(bs[k + 1..])
    ensures Used(Released(bs, k)) + bs[k].size == Used(bs)
  {
    hide Live, Used, Merged;
    var f := bs[k := bs[k].(free := true)];
    LiveSplit(bs, k);
    LiveSplit(f, k);
    assert f[..k] == bs[..k] && f[k + 1..] == bs[k + 1..];
    var m := MergedNext(f, k);
    if k + 1 < |f| && f[k + 1].free {
      LiveMerged(f, k);
      MergedAt(f, k);
      assert k > 0 ==> m[k - 1] == JoinedAt(f, k, k - 1);
      assert m[k] == JoinedAt(f, k, k);
    }
    if k > 0 && m[k - 1].free { LiveMerged(m, k - 1); }
  }

  /** Merging free neighbours everywhere changes nothing in use. */
  lemma {:induction false} DefragLive(bs: seq<Block>, i: nat)
    requires i <= |bs|
    ensures Live(Defragged(bs, i)) == Live(bs) && Used(Defragged(bs, i)) == Used(bs)
    decreases |bs| - i + |bs|
  {
    hide Live, Used, Merged;
    if i < |bs| {
      if bs[i].free && i + 1 < |bs| && bs[i + 1].free {
        LiveMerged(bs, i);
        MergedAt(bs, i);
        DefragLive(Merged(bs, i), i);
      } else {
        DefragLive(bs, i + 1);
      }
    }
  }

  /** Slot `k` is the first that fits. */
  ghost predicate FirstAt(bs: seq<Block>, n: nat, k: nat) {
    k < |bs| && Fits(bs[k], n) && forall j :: 0 <= j < k ==> !Fits(bs[j], n)
  }

  /**
   What an allocation of `n` aligned bytes makes of the first block that fits: all of it, unless the rest can
   stand alone.
   */
  function Grant(b: Block, n: nat): Block { Block(b.addr, if b.size >= n + 48 then n else b.size, false) }

  /** The free block that is left behind a grant, if any. */
  function Rest(b: Block, n: nat): seq<Block> {
    if b.size >= n + 48 then [Block(b.addr + 32 + n, b.size - n - 32, true)] else []
  }

  lemma TakenParts(bs: seq<Block>, k: nat, n: nat)
    requires k < |bs| && Fits(bs[k], n)
    ensures Taken(bs, k, n) == bs[..k] + [Grant(bs[k], n)] + Rest(bs[k], n) + bs[k + 1..]
  {
  }

  lemma LiveTaken(bs: seq<Block>, k: nat, n: nat)
    requires k < |bs| && Fits(bs[k], n)
    ensures Live(Taken(bs, k, n)) == Live(bs[..k]) + [Grant(bs[k], n)] + Live(bs[k + 1..])
    ensures Used(Taken(bs, k, n)) == Used(bs) + Grant(bs[k], n).size
  {
    hide Live, Used, Taken;
    LiveSplit(bs, k);
    TakenParts(bs, k, n);
    var g, rest := Grant(bs[k], n), Rest(bs[k], n);
    LiveConcat(bs[..k] + [g] + rest, bs[k + 1..]);
    LiveParts(bs[..k], g, rest);
    NothingLive();
    if rest != [] { LiveOne(rest[0]); }
  }

  /**
   The blocks in use determine the heap: between them there is one free block where there is room, and none
   elsewhere.
   */
  lemma {:induction false} Canonical(bs: seq<Block>, cs: seq<Block>, start: nat, end: nat)
    requires Tiles(bs, start, end) && Coalesced(bs) && Tiles(cs, start, end) && Coalesced(cs) && Live(bs) == Live(cs)
    ensures bs == cs
    decreases |bs|
  {
    hide Tiles, Coalesced, Live, LastFits;
    InitLive(bs, start, end);
    InitLive(cs, start, end);
    var b, c := bs[|bs| - 1], cs[|cs| - 1];
    var bi, ci := bs[..|bs| - 1], cs[..|cs| - 1];
    SameLast(Live(bs), Live(bi), b, Live(ci), c, start, end);
    if bi != [] { Canonical(bi, ci, start, b.addr); }
    assert bs == bi + [b] && cs == ci + [c];
  }

  /** The last block ends the heap; if it is free, it starts where the last block in use before it ends. */
  ghost predicate LastFits(live: seq<Block>, init: seq<Block>, b: Block, start: nat, end: nat) {
    && live == init + (if b.free then [] else [b]) && End(b) == end
    && (b.free ==> b.addr == if init == [] then start else End(init[|init| - 1]))
  }

  lemma SameLast(live: seq<Block>, bi: seq<Block>, b: Block, ci: seq<Block>, c: Block, start: nat, end: nat)
    requires LastFits(live, bi, b, start, end) && LastFits(live, ci, c, start, end)
    ensures b == c && bi == ci
  {
    assert if b.free then bi == live else live[|live| - 1] == b && live[..|live| - 1] == bi;
    assert if c.free then ci == live else live[|live| - 1] == c && live[..|live| - 1] == ci;
  }

  /** All blocks but the last one, and what is in use of them. */
  lemma InitLive(bs: seq<Block>, start: nat, end: nat)
    requires Tiles(bs, start, end) && Coalesced(bs)
    ensures bs != []
    ensures var b, bi := bs[|bs| - 1], bs[..|bs| - 1];
      && LastFits(Live(bs), Live(bi), b, start, end)
      && (if bi == [] then b.addr == start else Tiles(bi, start, b.addr) && Coalesced(bi) && b.addr > start)
  {
    var bi := bs[..|bs| - 1];
    LastLive(bi);
    if bi != [] {
      Between(bs, start, end, 0, |bs| - 1);
      assert bi[|bi| - 1] == bs[|bs| - 2];
    }
  }

  lemma LastLive(bs: seq<Block>)
    ensures bs != [] && !bs[|bs| - 1].free ==> Live(bs) != [] && Live(bs)[|Live(bs)| - 1] == bs[|bs| - 1]
    ensures bs != [] ==> Live(bs[..|bs| - 1]) == if bs[|bs| - 1].free then Live(bs) else Live(bs)[..|Live(bs)| - 1]
    ensures bs == [] ==> Live(bs) == []
  {
  }

  /** Block `k`, the first that fits, was granted at `ptr`; the other blocks in use are as they were. */
  ghost predicate Granted(bs: seq<Block>, t: seq<Block>, n: nat, k: nat, ptr: nat) {
    && FirstAt(bs, n, k) && ptr == bs[k].addr + 32
    && Live(t) == Live(bs[..k]) + [Grant(bs[k], n)] + Live(bs[k + 1..]) && Used(t) == Used(bs) + Grant(bs[k], n).size
  }

  /** Block `k` is in use, starts its payload at `ptr` and is large enough. */
  ghost predicate Serves(bs: seq<Block>, k: nat, ptr: nat, n: nat) {
    k < |bs| && bs[k].addr + 32 == ptr && !bs[k].free && bs[k].size >= n
  }

  /** Block `k` was in use and is not any more; the other blocks in use are as they were. */
  ghost predicate GivenBack(bs: seq<Block>, t: seq<Block>, k: nat) {
    && k < |bs| && Live(t) == Live(bs[..k]) + Live(bs[k + 1..]) && Used(t) + bs[k].size == Used(bs)
    && (forall b :: b in t && !b.free ==> b.addr != bs[k].addr)
    && (forall b :: b in bs && !b.free && b != bs[k] ==> b in t)
  }

  /** What `kmalloc` does to a sound heap: the first free block that is large enough is granted, and nothing else. */
  lemma MallocIs(bs: seq<Block>, size: nat, k: nat, start: nat, end: nat)
    requires Good(bs, start, end) && size > 0 && FirstAt(bs, Align(size), k)
    ensures Good(Step(bs, Malloc(size)), start, end)
    ensures Step(bs, Malloc(size)) == Taken(bs, k, Align(size))
    ensures Granted(bs, Step(bs, Malloc(size)), Align(size), k, bs[k].addr + 32)
  {
    hide Live, Used, Taken;
    assert FirstFit(bs, Align(size), 0) == k;
    LiveTaken(bs, k, Align(size));
    TakenGood(bs, k, Align(size), start, end);
  }

  /** Nothing happens exactly when nothing was asked for or nothing fits. */
  lemma MallocRefused(bs: seq<Block>, size: nat, start: nat, end: nat)
    requires Good(bs, start, end)
    ensures Step(bs, Malloc(size)) == bs <==> size == 0 || forall k :: 0 <= k < |bs| ==> !Fits(bs[k], Align(size))
  {
    var k := FirstFit(bs, Align(size), 0);
    if size > 0 && k < |bs| { assert Taken(bs, k, Align(size))[k].free != bs[k].free; }
  }

  /**
   What `kfree` does to the payload of a block in use: that block is no longer in use, its bytes are given back, and
   the other blocks in use are as they were.
   */
  lemma FreeIs(bs: seq<Block>, k: nat, start: nat, end: nat)
    requires Good(bs, start, end) && k < |bs| && !bs[k].free
    ensures var t := Step(bs, FreeAt(bs[k].addr + 32)); Good(t, start, end) && GivenBack(bs, t, k)
  {
    hide Live, Used, Released, Tiles, Coalesced;
    OwnerIs(bs, k, start, end);
    LiveReleased(bs, k);
    ReleasedGood(bs, k, start, end);
    Vanished(bs, Released(bs, k), k, start, end);
    forall b | b in bs && !b.free && b != bs[k] ensures b in Released(bs, k) { ReleasedOthers(bs, k, b); }
  }

  lemma Vanished(bs: seq<Block>, t: seq<Block>, k: nat, start: nat, end: nat)
    requires Tiles(bs, start, end) && k < |bs| && Live(t) == Live(bs[..k]) + Live(bs[k + 1..])
    ensures forall b :: b in t && !b.free ==> b.addr != bs[k].addr
  {
    hide Live, Tiles;
    forall b | b in t && !b.free ensures b.addr != bs[k].addr {
      LiveMember(t, b);
      LiveMember(bs[..k], b);
      LiveMember(bs[k + 1..], b);
      if b in bs[..k] {
        var i :| 0 <= i < k && bs[i] == b;
        Between(bs, start, end, i, k);
      } else {
        var i :| k < i < |bs| && bs[i] == b;
        Between(bs, start, end, k, i);
      }
    }
  }

  lemma OwnerIs(bs: seq<Block>, k: nat, start: nat, end: nat)
    requires Tiles(bs, start, end) && k < |bs|
    ensures Owner(bs, bs[k].addr + 32, 0) == k
  {
    var r := Owner(bs, bs[k].addr + 32, 0);
    if r < k { Between(bs, start, end, r, k); }
  }

  /** An address that is no payload of a block in use is refused. */
  lemma FreeRefused(bs: seq<Block>, ptr: nat)
    requires forall b :: b in bs && b.addr + 32 == ptr ==> b.free
    ensures Step(bs, FreeAt(ptr)) == bs
  {
  }

  /** Freeing what `kmalloc` returned puts the whole list back. */
  lemma FreeAfterMalloc(bs: seq<Block>, size: nat, k: nat, start: nat, end: nat)
    requires Good(bs, start, end) && size > 0 && FirstAt(bs, Align(size), k)
    ensures Step(Step(bs, Malloc(size)), FreeAt(bs[k].addr + 32)) == bs
  {
    hide Released;
    var t := Step(bs, Malloc(size));
    assert FirstFit(bs, Align(size), 0) == k;
    TakenGood(bs, k, Align(size), start, end);
    FreeUndoesMalloc(bs, k, Align(size), start, end);
    assert t[k].addr == bs[k].addr && !t[k].free;
    OwnerIs(t, k, start, end);
  }

  // ---------------------------------------------------------------- headers in memory

  datatype Header = Header(magic: nat, size: nat, free: bool, next: nat)

  function AddrAt(bs: seq<Block>, i: nat): nat { if i < |bs| then bs[i].addr else 0 }

  /** The header of block `i` says what the block is and where the next one is. */
  ghost predicate ChainAt(h: map<nat, Header>, bs: seq<Block>, i: nat) {
    i < |bs| ==> bs[i].addr in h && h[bs[i].addr] == Header(MAGIC, bs[i].size, bs[i].free, AddrAt(bs, i + 1))
  }

  ghost predicate Chained(h: map<nat, Header>, bs: seq<Block>) { forall i: nat :: ChainAt(h, bs, i) }

  /** The headers of a block of `n` bytes at `a`, in use, and of the free rest behind it. */
  function WithSplit(h: map<nat, Header>, a: nat, n: nat, rest: nat, next: nat): map<nat, Header> {
    h[a + 32 + n := Header(MAGIC, rest, true, next)][a := Header(MAGIC, n, false, a + 32 + n)]
  }

  lemma ChainSplit(h: map<nat, Header>, bs: seq<Block>, k: nat, n: nat, start: nat, end: nat)
    requires Chained(h, bs) && Tiles(bs, start, end) && k < |bs| && bs[k].size >= n + 48
    ensures Chained(WithSplit(h, bs[k].addr, n, bs[k].size - n - 32, AddrAt(bs, k + 1)), Taken(bs, k, n))
  {
    hide Taken;
    var a, t := bs[k].addr, Taken(bs, k, n);
    var g := WithSplit(h, a, n, bs[k].size - n - 32, AddrAt(bs, k + 1));
    TakenAt(bs, k, n);
    forall i: nat ensures ChainAt(g, t, i) {
      if i < |t| {
        ChainSplitAt(h, bs, k, n, start, end, g, t, i);
      }
    }
  }

  lemma ChainSplitAt(h: map<nat, Header>, bs: seq<Block>, k: nat, n: nat, start: nat, end: nat, g: map<nat, Header>,
                     t: seq<Block>, i: nat)
    requires Chained(h, bs) && Tiles(bs, start, end) && k < |bs| && bs[k].size >= n + 48 && i < |t| == |bs| + 1
    requires t[i] == SplitAt(bs, k, n, i) && (i + 1 < |t| ==> t[i + 1] == SplitAt(bs, k, n, i + 1))
    requires forall x :: x in h ==> x in g && (x != bs[k].addr && x != bs[k].addr + 32 + n ==> g[x] == h[x])
    requires bs[k].addr in g && g[bs[k].addr] == Header(MAGIC, n, false, bs[k].addr + 32 + n)
    requires bs[k].addr + 32 + n in g && g[bs[k].addr + 32 + n] ==
      Header(MAGIC, bs[k].size - n - 32, true, AddrAt(bs, k + 1))
    ensures ChainAt(g, t, i)
  {
    var j := if i <= k then i else i - 1;
    assert ChainAt(h, bs, j);
    if j < k { Between(bs, start, end, j, k); }
    if k < j { Between(bs, start, end, k, j); }
  }

  lemma ChainMark(h: map<nat, Header>, bs: seq<Block>, k: nat, free: bool, start: nat, end: nat)
    requires Chained(h, bs) && Tiles(bs, start, end) && k < |bs|
    ensures bs[k].addr in h && Chained(h[bs[k].addr := h[bs[k].addr].(free := free)], bs[k := bs[k].(free := free)])
  {
    assert ChainAt(h, bs, k);
    var t, g := bs[k := bs[k].(free := free)], h[bs[k].addr := h[bs[k].addr].(free := free)];
    forall i: nat ensures ChainAt(g, t, i) {
      assert ChainAt(h, bs, i);
      if i < k { Between(bs, start, end, i, k); }
      if k < i < |bs| { Between(bs, start, end, k, i); }
    }
  }

  lemma ChainMerge(h: map<nat, Header>, bs: seq<Block>, k: nat, start: nat, end: nat)
    requires Chained(h, bs) && Tiles(bs, start, end) && k + 1 < |bs|
    ensures Chained(h[bs[k].addr := Header(MAGIC, bs[k].size + 32 + bs[k + 1].size, bs[k].free, AddrAt(bs, k + 2))],
      Merged(bs, k))
  {
    var t, g := Merged(bs, k), h[bs[k].addr := Header(MAGIC, bs[k].size + 32 + bs[k + 1].size, bs[k].free,
      AddrAt(bs, k + 2))];
    MergedAt(bs, k);
    hide Merged;
    forall i: nat ensures ChainAt(g, t, i) {
      if i < |t| {
        assert t[i] == JoinedAt(bs, k, i);
        assert i + 1 < |t| ==> t[i + 1] == JoinedAt(bs, k, i + 1);
        var j := if i <= k then i else i + 1;
        assert ChainAt(h, bs, j);
        if j < k { Between(bs, start, end, j, k); }
        if k < j { Between(bs, start, end, k, j); }
      }
    }
  }

  // ---------------------------------------------------------------- the heap in place

  datatype Stats = Stats(total: nat, used: nat, free: nat, blocks: nat, freeBlocks: nat)

  class KernelHeap {
    var headers: map<nat, Header>      // memory, where a header was ever written
    var first: nat                     // free_list
    const start: nat
    const size: nat
    ghost var blocks: seq<Block>

    ghost predicate Laid()
      reads this
    {
      && 0 < start && start + size <= WORD && first == start
      && Tiles(blocks, start, start + size) && Chained(headers, blocks)
    }

    ghost predicate Valid()
      reads this
    {
      Laid() && Coalesced(blocks) && Ended(blocks)
    }

    /** `init_heap`: one free block. */
    constructor (start: nat, size: nat)
      requires 0 < start && 32 < size && start + size <= WORD
      ensures Valid() && this.start == start && this.size == size && blocks == [Block(start, size - 32, true)]
    {
      this.start, this.size, first := start, size, start;
      headers := map[start := Header(MAGIC, size - 32, true, 0)];
      blocks := [Block(start, size - 32, true)];
    }

    lemma HeaderIs(k: nat)
      requires Laid()
      ensures k < |blocks| ==> AddrAt(blocks, k) == blocks[k].addr > 0
      ensures k < |blocks| ==>
        blocks[k].addr in headers && headers[blocks[k].addr] ==
        Header(MAGIC, blocks[k].size, blocks[k].free, AddrAt(blocks, k + 1))
    {
      assert ChainAt(headers, blocks, k);
      if k < |blocks| { Span(blocks, start, start + size, k); }
    }

    /** First fit; the result is the payload's address, or 0. */
    method Kmalloc(n: nat) returns (ptr: nat)
      requires Valid() && n < WORD
      modifies this`headers, this`blocks
      ensures Valid() && blocks == Step(old(blocks), Malloc(n))
      ensures ptr == 0 <==> n == 0 || forall i :: 0 <= i < |old(blocks)| ==> !Fits(old(blocks)[i], Align(n))
      ensures ptr != 0 ==> exists k: nat :: Granted(old(blocks), blocks, Align(n), k, ptr)
      ensures ptr != 0 ==> exists k: nat :: Serves(blocks, k, ptr, Align(n))
    {
      hide Tiles, Coalesced, Chained, Taken, Live, Used, Granted, Align, Step, Ended;
      MallocRefused(blocks, n, start, start + size);
      if n == 0 {
        return 0;
      }
      var aligned := Align(n);
      ghost var k;
      ptr, k := FirstFree(aligned);
      if ptr != 0 {
        HeaderIs(k);
        MallocIs(blocks, n, k, start, start + size);
        Take(ptr, k, aligned);
        assert Serves(blocks, k, ptr + 32, aligned);
        ptr := ptr + 32;
      }
    }

    /** The first block that is free and large enough, or 0. */
    method FirstFree(aligned: nat) returns (current: nat, ghost k: nat)
      requires Valid()
      ensures k <= |blocks| && current == AddrAt(blocks, k) && (current == 0 <==> k == |blocks|)
      ensures forall j :: 0 <= j < k ==> !Fits(blocks[j], aligned)
      ensures k < |blocks| ==> Fits(blocks[k], aligned)
    {
      hide Tiles, Coalesced, Chained, Ended;
      current, k := first, 0;
      HeaderIs(0);
      FirstIs();
      while current != 0
        invariant 0 <= k <= |blocks| && current == AddrAt(blocks, k)
        invariant forall j :: 0 <= j < k ==> !Fits(blocks[j], aligned)
        decreases |blocks| - k
      {
        HeaderIs(k);
        HeaderIs(k + 1);
        if headers[current].magic != MAGIC {
          assert false;
        }
        if headers[current].free && headers[current].size >= aligned {
          return;
        }
        current, k := headers[current].next, k + 1;
      }
      HeaderIs(k);
    }

    lemma FirstIs()
      requires Laid()
      ensures first == AddrAt(blocks, 0) && blocks != []
    {
    }

    method Take(current: nat, ghost k: nat, aligned: nat)
      requires Valid() && k < |blocks| && current == blocks[k].addr && Fits(blocks[k], aligned)
      modifies this`headers, this`blocks
      ensures Valid() && blocks == Taken(old(blocks), k, aligned)
      ensures k < |blocks| && blocks[k].addr == current && !blocks[k].free && blocks[k].size >= aligned
    {
      HeaderIs(k);
      TakenGood(blocks, k, aligned, start, start + size);
      ghost var h := headers;
      if headers[current].size >= aligned + 32 + 16 {
        ChainSplit(headers, blocks, k, aligned, start, start + size);
        var split := current + 32 + aligned;
        headers := headers[split := Header(MAGIC, headers[current].size - aligned - 32, true, headers[current].next)];
        headers := headers[current := headers[current].(size := aligned, next := split)];
      } else {
        ChainMark(headers, blocks, k, false, start, start + size);
      }
      headers := headers[current := headers[current].(free := false)];
      if blocks[k].size >= aligned + 48 {
        assert headers == WithSplit(h, current, aligned, blocks[k].size - aligned - 32, AddrAt(blocks, k + 1));
      }
      blocks := Taken(blocks, k, aligned);
    }

    /** Frees the payload at `ptr`; 0, addresses outside the heap and free blocks are refused. */
    method Kfree(ptr: nat)
      requires Valid() && (start <= ptr < start + size ==> exists k :: 0 <= k < |blocks| && blocks[k].addr + 32 == ptr)
      modifies this`headers, this`blocks
      ensures Valid() && blocks == Step(old(blocks), FreeAt(ptr))
      ensures forall k: nat :: k < |old(blocks)| && old(blocks)[k].addr + 32 == ptr && !old(blocks)[k].free ==>
        GivenBack(old(blocks), blocks, k)
    {
      hide Tiles, Coalesced, Chained, Released, Live, Used;
      forall k: nat | k < |blocks| && blocks[k].addr + 32 == ptr && !blocks[k].free
        ensures GivenBack(blocks, Step(blocks, FreeAt(ptr)), k)
      {
        FreeIs(blocks, k, start, start + size);
      }
      ghost var k := Owner(blocks, ptr, 0);
      if k < |blocks| { Inside(k); }
      if ptr == 0 || ptr < start || ptr >= start + size {
        return;
      }
      HeaderIs(k);
      var block := ptr - 32;
      if headers[block].magic != MAGIC {
        assert false;
      }
      if headers[block].free {
        return;
      }
      Release(block, k);
    }

    lemma Inside(k: nat)
      requires Valid() && k < |blocks|
      ensures start <= blocks[k].addr && blocks[k].addr + 32 < start + size
    {
      if k < |blocks| - 1 { Between(blocks, start, start + size, k, |blocks| - 1); }
      Span(blocks, start, start + size, k);
    }

    method Release(block: nat, ghost k: nat)
      requires Valid() && k < |blocks| && block == blocks[k].addr && !blocks[k].free
      modifies this`headers, this`blocks
      ensures Valid() && blocks == Released(old(blocks), k)
    {
      hide Tiles, Coalesced, Chained, Merged, Ended;
      ReleasedGood(blocks, k, start, start + size);
      MarkFree(block, k);
      HeaderIs(k);
      HeaderIs(k + 1);
      if headers[block].next != 0 && headers[headers[block].next].free {
        Absorb(block, k);
      }
      var current := FindPrevious(block, k);
      if k > 0 { HeaderIs(k - 1); }
      if current != 0 {
        if headers[current].free {
          Absorb(current, k - 1);
        }
      }
    }

    method MarkFree(block: nat, ghost k: nat)
      requires Laid() && k < |blocks| && block == blocks[k].addr
      modifies this`headers, this`blocks
      ensures Laid() && blocks == old(blocks)[k := old(blocks)[k].(free := true)]
    {
      HeaderIs(k);
      ChainMark(headers, blocks, k, true, start, start + size);
      headers := headers[block := headers[block].(free := true)];
      blocks := blocks[k := blocks[k].(free := true)];
    }

    /** Block `k` absorbs its successor. */
    method Absorb(block: nat, ghost k: nat)
      requires Laid() && k + 1 < |blocks| && block == blocks[k].addr
      modifies this`headers, this`blocks
      ensures Laid() && blocks == Merged(old(blocks), k) && k < |blocks| && blocks[k].addr == block
    {
      hide Tiles, Chained, Merged;
      MergedAt(blocks, k);
      HeaderIs(k);
      HeaderIs(k + 1);
      ChainMerge(headers, blocks, k, start, start + size);
      MergedTiles(blocks, k, start, start + size);
      var next := headers[block].next;
      headers := headers[block := headers[block].(size := headers[block].size + 32 + headers[next].size,
        next := headers[next].next)];
      blocks := Merged(blocks, k);
    }

    /** The block whose successor is `block`, or 0 for the first one. */
    method FindPrevious(block: nat, ghost k: nat) returns (current: nat)
      requires Laid() && k < |blocks| && block == blocks[k].addr
      ensures Laid() && current == if k == 0 then 0 else blocks[k - 1].addr
    {
      hide Tiles, Chained;
      FirstIs();
      current := first;
      ghost var i := 0;
      Distinct(k, 0);
      HeaderIs(0);
      while current != 0 && headers[current].next != block
        invariant 0 <= i <= |blocks| && current == AddrAt(blocks, i) && Laid() && (current != 0 ==> current in headers)
        invariant 0 < k ==> i < k
        decreases |blocks| - i
      {
        HeaderIs(i);
        HeaderIs(i + 1);
        current, i := headers[current].next, i + 1;
      }
      HeaderIs(i);
      HeaderIs(k);
      if current != 0 {
        if i + 1 < |blocks| { Distinct(k, i + 1); }
      }
    }

    lemma Distinct(k: nat, i: nat)
      requires Laid() && k < |blocks| && i < |blocks|
      ensures blocks[i].addr == blocks[k].addr <==> i == k
    {
      if i < k { Between(blocks, start, start + size, i, k); }
      if k < i { Between(blocks, start, start + size, k, i); }
    }

    /** Merges free neighbours wherever they are. */
    method Defrag()
      requires Laid() && Ended(blocks)
      modifies this`headers, this`blocks
      ensures Valid() && blocks == Defragged(old(blocks), 0) && Live(blocks) == Live(old(blocks))
      ensures old(Coalesced(blocks)) ==> blocks == old(blocks) && headers == old(headers)
    {
      hide Tiles, Chained, Merged, Live;
      DefragLive(blocks, 0);
      DefragCoalesces(blocks, 0, start, start + size);
      if Coalesced(blocks) { DefragNothing(blocks, 0); }
      FirstIs();
      var current := first;
      ghost var i := 0;
      while current != 0
        invariant 0 <= i <= |blocks| && current == AddrAt(blocks, i) && Laid()
        invariant Defragged(blocks, i) == Defragged(old(blocks), 0)
        invariant old(Coalesced(blocks)) ==> blocks == old(blocks) && headers == old(headers)
        decreases |blocks| - i + |blocks|
      {
        HeaderIs(i);
        HeaderIs(i + 1);
        if headers[current].free && headers[current].next != 0 && headers[headers[current].next].free {
          MergedAt(blocks, i);
          Absorb(current, i);
        } else {
          current, i := headers[current].next, i + 1;
        }
      }
      HeaderIs(i);
    }

    method GetStats() returns (s: Stats)
      requires Laid()
      ensures s == Stats(size, Used(blocks), Free(blocks), |blocks|, FreeCount(blocks))
      ensures s.used + s.free + 32 * s.blocks == s.total
    {
      hide Tiles, Chained;
      Accounts(blocks, start, start + size);
      FirstIs();
      s := Stats(size, 0, 0, 0, 0);
      var current := first;
      ghost var i := 0;
      while current != 0
        invariant 0 <= i <= |blocks| && current == AddrAt(blocks, i) && Laid()
        invariant s == Stats(size, Used(blocks[..i]), Free(blocks[..i]), i, FreeCount(blocks[..i]))
        decreases |blocks| - i
      {
        HeaderIs(i);
        HeaderIs(i + 1);
        assert blocks[..i + 1][..i] == blocks[..i];
        s := s.(blocks := s.blocks + 1);
        if headers[current].free {
          s := s.(freeBlocks := s.freeBlocks + 1, free := s.free + headers[current].size);
        } else {
          s := s.(used := s.used + headers[current].size);
        }
        current, i := headers[current].next, i + 1;
      }
      HeaderIs(i);
      assert blocks[..i] == blocks;
    }
  }
}
