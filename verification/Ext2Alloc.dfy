/** The block and inode allocators of the ext2 driver. */
module Ext2Alloc {
  import opened Arith
  import opened Bytes
  import opened Bitmap
  import opened Options
  import opened Ext2Volume

  // ---------------------------------------------------------------- one bitmap change

  function MarkBit(bm: seq<byte>, i: nat, used: bool): (r: seq<byte>)
    ensures |r| == |bm|
  {
    if used then SetBit(bm, i) else ClearBit(bm, i)
  }

  lemma MarkBitTest(bm: seq<byte>, i: nat, used: bool)
    requires i < 8 * |bm|
    ensures forall j: nat :: Bit(MarkBit(bm, i, used), j) <==> if j == i then used else Bit(bm, j)
  {
    if used {
      SetBitTest(bm, i);
    } else {
      ClearBitTest(bm, i);
    }
  }

  lemma MarkBitCount(bm: seq<byte>, i: nat, used: bool, n: nat)
    requires i < n && i < 8 * |bm| && Bit(bm, i) != used
    ensures CountClear(MarkBit(bm, i, used), n) == if used then CountClear(bm, n) - 1 else CountClear(bm, n) + 1
  {
    MarkBitTest(bm, i, used);
    if used {
      CountClearChange(bm, MarkBit(bm, i, used), i, n);
    } else {
      CountClearChange(MarkBit(bm, i, used), bm, i, n);
    }
  }

  /** The descriptor of group `k` is copied into the descriptor block. */
  function StoreDesc(v: Volume, k: nat): (r: Volume)
    requires Geometric(v.geo) && Shape(v) && k < |v.counts| && |v.counts[k].rest| == 14
    ensures r.geo == v.geo && r.counts == v.counts && r.freeBlocks == v.freeBlocks && r.freeInodes == v.freeInodes
    ensures Shape(r) && forall b: nat :: b != GdBlock(v.geo) ==> BlockAt(r, b) == BlockAt(v, b)
  {
    Put(v, GdBlock(v.geo), Splice(BlockAt(v, GdBlock(v.geo)), k * 32, EncodeDesc(v.geo.places[k], v.counts[k])))
  }

  /** One less or one more, on a count that is right. */
  function Step(n: nat, used: bool): nat { if !used then n + 1 else if n > 0 then n - 1 else 0 }

  /** One less or one more on a 32-bit total, right or not. */
  function Step32(n: nat, used: bool): nat {
    if used then (n + 0xFFFF_FFFF) % 0x1_0000_0000 else (n + 1) % 0x1_0000_0000
  }

  /** Bit `i` of group `k`'s block bitmap becomes `used`; counts and descriptor follow. */
  function MarkBlock(v: Volume, k: nat, i: nat, used: bool): (r: Volume)
    requires Geometric(v.geo) && Shape(v) && k < |v.counts| && |v.counts[k].rest| == 14
    ensures r.geo == v.geo && Shape(r)
    ensures r.counts == v.counts[k := v.counts[k].(freeBlocks := Step(v.counts[k].freeBlocks, used))]
    ensures r.freeBlocks == Step32(v.freeBlocks, used) && r.freeInodes == v.freeInodes
    ensures forall b: nat :: b != GdBlock(v.geo) && b != v.geo.places[k].blockBitmap ==> BlockAt(r, b) == BlockAt(v, b)
    ensures BlockMap(r, k) == MarkBit(BlockMap(v, k), i, used)
  {
    var bb := v.geo.places[k].blockBitmap;
    var w := Put(v, bb, MarkBit(BlockAt(v, bb), i, used));
    StoreDesc(w.(counts := v.counts[k := v.counts[k].(freeBlocks := Step(v.counts[k].freeBlocks, used))],
                 freeBlocks := Step32(v.freeBlocks, used)), k)
  }

  lemma {:induction false} SumBlocksUpdate(cs: seq<Counts>, k: nat, c: Counts)
    requires k < |cs|
    ensures SumBlocks(cs[k := c]) == SumBlocks(cs) - cs[k].freeBlocks + c.freeBlocks
    ensures cs[k].freeBlocks <= SumBlocks(cs)
  {
    var n := |cs| - 1;
    if k == n {
      assert cs[k := c][..n] == cs[..n];
    } else {
      assert cs[k := c][..n] == cs[..n][k := c];
      SumBlocksUpdate(cs[..n], k, c);
    }
  }

  lemma {:induction false} SumInodesUpdate(cs: seq<Counts>, k: nat, c: Counts)
    requires k < |cs|
    ensures SumInodes(cs[k := c]) == SumInodes(cs) - cs[k].freeInodes + c.freeInodes
    ensures cs[k].freeInodes <= SumInodes(cs)
  {
    var n := |cs| - 1;
    if k == n {
      assert cs[k := c][..n] == cs[..n];
    } else {
      assert cs[k := c][..n] == cs[..n][k := c];
      SumInodesUpdate(cs[..n], k, c);
    }
  }

  lemma MarkBlockMaps(v: Volume, k: nat, i: nat, used: bool)
    requires Geometric(v.geo) && Shape(v) && k < |v.counts| && |v.counts[k].rest| == 14
    ensures var w := MarkBlock(v, k, i, used);
      && (forall l: nat :: l != k ==> BlockMap(w, l) == BlockMap(v, l))
      && (forall l: nat :: InodeMap(w, l) == InodeMap(v, l))
  {
  }

  lemma MapSize(v: Volume, k: nat)
    requires Geometric(v.geo) && Shape(v) && k < |v.geo.places|
    ensures |BlockMap(v, k)| == v.geo.bs && v.geo.bpg <= 8 * |BlockMap(v, k)|
  {
  }

  /** Whether a block is used, after a change of one bit. */
  lemma MarkBlockUsed(v: Volume, k: nat, i: nat, used: bool)
    requires Geometric(v.geo) && Shape(v) && k < |v.counts| && |v.counts[k].rest| == 14 && i < v.geo.bpg
    ensures var w := MarkBlock(v, k, i, used);
      forall c: nat :: v.geo.fdb <= c < v.geo.count
        ==> (IsUsed(w, c) <==> if c == Start(v.geo, k) + v.geo.fdb + i then used else IsUsed(v, c))
  {
    hide Bit, MarkBit, MarkBlock, BlockMap, InodeMap, Layout;
    var w := MarkBlock(v, k, i, used);
    MarkBlockMaps(v, k, i, used);
    MapSize(v, k);
    MarkBitTest(BlockMap(v, k), i, used);
    LocateUnique(v.geo, k, i);
    forall c: nat | v.geo.fdb <= c < v.geo.count
      ensures IsUsed(w, c) <==> if c == Start(v.geo, k) + v.geo.fdb + i then used else IsUsed(v, c)
    {
      LocateBlock(v.geo, c);
    }
  }

  /** The counts stay right when one group's map and its count move by one together. */
  lemma RecountBlocks(v: Volume, w: Volume, k: nat, used: bool)
    requires BlocksCounted(v) && w.geo == v.geo && k < |v.counts|
    requires w.counts == v.counts[k := v.counts[k].(freeBlocks := Step(v.counts[k].freeBlocks, used))]
    requires used ==> v.counts[k].freeBlocks > 0
    requires CountClear(BlockMap(w, k), BlocksIn(v.geo, k)) ==
      Step(CountClear(BlockMap(v, k), BlocksIn(v.geo, k)), used)
    requires forall l: nat :: l != k ==> BlockMap(w, l) == BlockMap(v, l)
    ensures BlocksCounted(w) && FreeBlocks(w) == Step(FreeBlocks(v), used) && FreeInodes(w) == FreeInodes(v)
    ensures used ==> FreeBlocks(v) > 0
  {
    SumBlocksUpdate(v.counts, k, w.counts[k]);
    SumInodesSame(v.counts, w.counts);
  }

  lemma MarkBlockCounted(v: Volume, k: nat, i: nat, used: bool)
    requires Geometric(v.geo) && Shape(v) && BlocksCounted(v)
    requires k < |v.counts| && |v.counts[k].rest| == 14 && i < BlocksIn(v.geo, k)
    requires Bit(BlockMap(v, k), i) != used
    ensures used ==> v.counts[k].freeBlocks > 0 && FreeBlocks(v) > 0
    ensures Step(v.counts[k].freeBlocks, used) <= v.geo.bpg
    ensures BlocksCounted(MarkBlock(v, k, i, used)) && FreeBlocks(MarkBlock(v, k, i, used)) == Step(FreeBlocks(v), used)
    ensures FreeInodes(MarkBlock(v, k, i, used)) == FreeInodes(v)
  {
    GroupBounds(v.geo, k);
    MarkBitCount(BlockMap(v, k), i, used, BlocksIn(v.geo, k));
    MarkBlockMaps(v, k, i, used);
    RecountBlocks(v, MarkBlock(v, k, i, used), k, used);
  }

  /** The descriptor block agrees with memory again once the changed descriptor is stored. */
  lemma Restored(v: Volume, w: Volume, k: nat)
    requires DescsOnDisk(v) && Shape(w) && Geometric(w.geo) && w.geo == v.geo && k < |v.counts|
    requires |w.counts| == |v.counts| && forall l :: 0 <= l < |v.counts| && l != k ==> w.counts[l] == v.counts[l]
    requires DescFits(w.geo.places[k], w.counts[k])
    requires BlockAt(w, GdBlock(w.geo)) == BlockAt(v, GdBlock(v.geo))
    ensures DescsOnDisk(StoreDesc(w, k))
  {
    var u := StoreDesc(w, k);
    var was, now := BlockAt(w, GdBlock(w.geo)), BlockAt(u, GdBlock(w.geo));
    forall l: nat | l < |u.counts| ensures StoredDesc(now, l, u.geo.places[l], u.counts[l]) {
      assert StoredDesc(was, l, v.geo.places[l], v.counts[l]);
      if l != k {
        assert now[l * 32..l * 32 + 32] == was[l * 32..l * 32 + 32];
      } else {
        assert now[l * 32..l * 32 + 32] == EncodeDesc(w.geo.places[k], w.counts[k]);
      }
    }
  }

  lemma MarkBlockStored(v: Volume, k: nat, i: nat, used: bool)
    requires Geometric(v.geo) && Shape(v) && DescsOnDisk(v) && k < |v.counts|
    requires Step(v.counts[k].freeBlocks, used) < 0x1_0000
    ensures StoredDesc(BlockAt(v, GdBlock(v.geo)), k, v.geo.places[k], v.counts[k])
    ensures DescsOnDisk(MarkBlock(v, k, i, used))
  {
    assert StoredDesc(BlockAt(v, GdBlock(v.geo)), k, v.geo.places[k], v.counts[k]);
    var bb := v.geo.places[k].blockBitmap;
    var w := Put(v, bb, MarkBit(BlockAt(v, bb), i, used));
    var u := w.(counts := v.counts[k := v.counts[k].(freeBlocks := Step(v.counts[k].freeBlocks, used))],
                freeBlocks := Step32(v.freeBlocks, used));
    Restored(v, u, k);
  }

  lemma {:induction false} SumInodesSame(cs: seq<Counts>, ds: seq<Counts>)
    requires |cs| == |ds| && forall k :: 0 <= k < |cs| ==> cs[k].freeInodes == ds[k].freeInodes
    ensures SumInodes(cs) == SumInodes(ds)
  {
    if cs != [] {
      SumInodesSame(cs[..|cs| - 1], ds[..|cs| - 1]);
    }
  }

  /** Bitmaps in which only the bit of a real block changed keep the padding and the metadata marked. */
  lemma StillMarked(v: Volume, w: Volume, b: nat, used: bool)
    requires Geometric(v.geo) && w.geo == v.geo && Padded(v) && MetaUsed(v) && v.geo.fdb <= b < v.geo.count
    requires used || !IsMeta(v.geo, b)
    requires forall l: nat, j: nat :: l < |v.geo.places| && j < v.geo.bpg && Start(v.geo, l) + v.geo.fdb + j != b
               ==> Bit(BlockMap(w, l), j) == Bit(BlockMap(v, l), j)
    requires forall c: nat :: v.geo.fdb <= c < v.geo.count ==> (IsUsed(w, c) <==> if c == b then used else IsUsed(v, c))
    ensures Padded(w) && MetaUsed(w)
  {
    forall l: nat, j: nat | l < |w.geo.places| && j < BlocksIn(w.geo, l)
      && Start(w.geo, l) + w.geo.fdb + j >= w.geo.count
      ensures Bit(BlockMap(w, l), j)
    {
      GroupBounds(v.geo, l);
    }
  }

  lemma MarkBlockMarked(v: Volume, k: nat, i: nat, used: bool)
    requires Geometric(v.geo) && Shape(v) && Padded(v) && MetaUsed(v)
    requires k < |v.counts| && |v.counts[k].rest| == 14 && i < v.geo.bpg
    requires Start(v.geo, k) + v.geo.fdb + i < v.geo.count
    requires used || !IsMeta(v.geo, Start(v.geo, k) + v.geo.fdb + i)
    ensures Padded(MarkBlock(v, k, i, used)) && MetaUsed(MarkBlock(v, k, i, used))
  {
    hide Bit, MarkBit, MarkBlock, BlockMap, InodeMap, IsMeta, Padded, MetaUsed, IsUsed;
    MarkBlockMaps(v, k, i, used);
    MarkBlockUsed(v, k, i, used);
    MapSize(v, k);
    MarkBitTest(BlockMap(v, k), i, used);
    StillMarked(v, MarkBlock(v, k, i, used), Start(v.geo, k) + v.geo.fdb + i, used);
  }

  lemma MarkBlockInodes(v: Volume, k: nat, i: nat, used: bool)
    requires Geometric(v.geo) && Shape(v) && InodesCounted(v) && k < |v.counts| && |v.counts[k].rest| == 14
    ensures InodesCounted(MarkBlock(v, k, i, used))
  {
    MarkBlockMaps(v, k, i, used);
    SumInodesSame(v.counts, MarkBlock(v, k, i, used).counts);
  }

  /** Every invariant of the volume survives a change of a bit that really changes. */
  lemma MarkBlockValid(v: Volume, k: nat, i: nat, used: bool)
    requires Valid(v) && k < |v.counts| && i < BlocksIn(v.geo, k)
    requires Bit(BlockMap(v, k), i) != used
    requires Start(v.geo, k) + v.geo.fdb + i < v.geo.count
    requires used || !IsMeta(v.geo, Start(v.geo, k) + v.geo.fdb + i)
    ensures |v.counts[k].rest| == 14 && i < v.geo.bpg
    ensures Valid(MarkBlock(v, k, i, used))
    ensures FreeBlocks(MarkBlock(v, k, i, used)) == Step(FreeBlocks(v), used) && (used ==> FreeBlocks(v) > 0)
    ensures FreeInodes(MarkBlock(v, k, i, used)) == FreeInodes(v)
  {
    GroupBounds(v.geo, k);
    assert StoredDesc(BlockAt(v, GdBlock(v.geo)), k, v.geo.places[k], v.counts[k]);
    MarkBlockCounted(v, k, i, used);
    MarkBlockStored(v, k, i, used);
    MarkBlockInodes(v, k, i, used);
    MarkBlockMarked(v, k, i, used);
  }

  // ---------------------------------------------------------------- the allocators

  /** Every block of the first `k` groups is in use. */
  ghost predicate FullBefore(v: Volume, k: nat) {
    forall l: nat, j: nat :: l < k && j < BlocksIn(v.geo, l) ==> Bit(BlockMap(v, l), j)
  }

  ghost predicate UsedBelow(v: Volume, b: nat) {
    forall c: nat :: v.geo.fdb <= c < b ==> IsUsed(v, c)
  }

  /** `w` is `v` with the free block `b`, and nothing else, taken. */
  ghost predicate Taken(v: Volume, w: Volume, b: nat) {
    && SameSuper(v, w) && SameTables(v, w)
    && v.geo.fdb <= b < v.geo.count && !IsUsed(v, b) && !IsMeta(v.geo, b)
    && (forall c: nat :: v.geo.fdb <= c < v.geo.count ==> (IsUsed(w, c) <==> c == b || IsUsed(v, c)))
    && (forall c: nat :: !IsMeta(v.geo, c) ==> BlockAt(w, c) == BlockAt(v, c))
    && (forall n: nat :: InodeUsed(w, n) == InodeUsed(v, n))
    && FreeBlocks(w) + 1 == FreeBlocks(v) && FreeInodes(w) == FreeInodes(v)
    && w.freeBlocks == Step32(v.freeBlocks, true) && w.freeInodes == v.freeInodes
  }

  /** `w` is `v` with the block `b`, and nothing else, given back. */
  ghost predicate Released(v: Volume, w: Volume, b: nat) {
    && SameSuper(v, w) && SameTables(v, w)
    && (forall c: nat :: v.geo.fdb <= c < v.geo.count ==> (IsUsed(w, c) <==> c != b && IsUsed(v, c)))
    && (forall c: nat :: !IsMeta(v.geo, c) ==> BlockAt(w, c) == BlockAt(v, c))
    && (forall n: nat :: InodeUsed(w, n) == InodeUsed(v, n))
    && FreeBlocks(w) == FreeBlocks(v) + 1 && FreeInodes(w) == FreeInodes(v)
    && w.freeBlocks == Step32(v.freeBlocks, false) && w.freeInodes == v.freeInodes
  }

  /** The bit of block `b`, its counts and its descriptor changed, and nothing else. */
  ghost predicate MarkedAt(v: Volume, w: Volume, b: nat, used: bool) {
    && Geometric(v.geo) && Shape(v) && GroupOf(v.geo, b) < |v.counts| && |v.counts[GroupOf(v.geo, b)].rest| == 14
    && w == MarkBlock(v, GroupOf(v.geo, b), IndexOf(v.geo, b), used)
  }

  lemma {:induction false} SumBlocksZero(cs: seq<Counts>)
    ensures SumBlocks(cs) == 0 <==> forall k :: 0 <= k < |cs| ==> cs[k].freeBlocks == 0
  {
    if cs != [] {
      SumBlocksZero(cs[..|cs| - 1]);
    }
  }

  /** A volume whose groups are all full counts no free block. */
  lemma FullMeansZero(v: Volume)
    requires BlocksCounted(v) && FullBefore(v, |v.counts|)
    ensures FreeBlocks(v) == 0
  {
    forall k | 0 <= k < |v.counts| ensures v.counts[k].freeBlocks == 0 {
      CountClearZero(BlockMap(v, k), BlocksIn(v.geo, k));
    }
    SumBlocksZero(v.counts);
  }

  lemma FullNone(v: Volume)
    ensures FullBefore(v, 0)
  {
  }

  lemma ScannedFull(v: Volume, k: nat)
    requires FullBefore(v, k) && forall j: nat :: j < BlocksIn(v.geo, k) ==> Bit(BlockMap(v, k), j)
    ensures FullBefore(v, k + 1)
  {
  }

  lemma CountedFull(v: Volume, k: nat)
    requires BlocksCounted(v) && FullBefore(v, k) && k < |v.counts| && v.counts[k].freeBlocks == 0
    ensures FullBefore(v, k + 1)
  {
    CountClearZero(BlockMap(v, k), BlocksIn(v.geo, k));
  }

  lemma MetaBlocks(v: Volume, k: nat)
    requires k < |v.geo.places|
    ensures IsMeta(v.geo, GdBlock(v.geo)) && IsMeta(v.geo, v.geo.places[k].blockBitmap)
      && IsMeta(v.geo, v.geo.places[k].inodeBitmap)
  {
    assert IsMetaOf(v.geo, k, v.geo.places[k].blockBitmap);
    assert IsMetaOf(v.geo, k, v.geo.places[k].inodeBitmap);
  }

  /** Bitmaps lie behind the superblock and the descriptors. */
  lemma BitmapsAbove(g: Geometry, k: nat)
    requires Layout(g) && k < |g.places|
    ensures g.places[k].blockBitmap > GdBlock(g) > g.fdb && g.places[k].inodeBitmap > GdBlock(g)
    ensures forall l: nat, b: nat :: InTable(g, l, b) ==>
      b > GdBlock(g) && b != g.places[k].blockBitmap && b != g.places[k].inodeBitmap
  {
  }

  /** A clear bit stands for a block that exists, is free and is no metadata. */
  lemma ClearBitIsFree(v: Volume, k: nat, i: nat)
    requires Geometric(v.geo) && Shape(v) && Padded(v) && MetaUsed(v)
    requires k < |v.counts| && i < BlocksIn(v.geo, k) && !Bit(BlockMap(v, k), i)
    ensures var b := Start(v.geo, k) + v.geo.fdb + i; v.geo.fdb <= b < v.geo.count && !IsUsed(v, b) && !IsMeta(v.geo, b)
  {
    hide IsMeta;
    GroupBounds(v.geo, k);
    LocateUnique(v.geo, k, i);
  }

  lemma MarkBlockTaken(v: Volume, k: nat, i: nat)
    requires Valid(v) && k < |v.counts| && i < BlocksIn(v.geo, k) && !Bit(BlockMap(v, k), i)
    ensures |v.counts[k].rest| == 14 && FreeBlocks(v) > 0
    ensures Valid(MarkBlock(v, k, i, true)) && Taken(v, MarkBlock(v, k, i, true), Start(v.geo, k) + v.geo.fdb + i)
  {
    hide IsMeta, BlocksCounted, InodesCounted, Padded, MetaUsed, DescsOnDisk, IsUsed, Bit, MarkBit, EncodeDesc,
      BlockMap, InodeMap,
      FreeBlocks, FreeInodes;
    ClearBitIsFree(v, k, i);
    MarkBlockValid(v, k, i, true);
    MarkBlockUsed(v, k, i, true);
    MarkBlockMaps(v, k, i, true);
    MetaBlocks(v, k);
    BitmapsAbove(v.geo, k);
  }

  lemma MarkBlockReleased(v: Volume, b: nat)
    requires Geometric(v.geo) && Shape(v) && DescsOnDisk(v) && v.geo.fdb <= b < v.geo.count
    ensures GroupOf(v.geo, b) < |v.counts| && |v.counts[GroupOf(v.geo, b)].rest| == 14
    ensures Released(v, MarkBlock(v, GroupOf(v.geo, b), IndexOf(v.geo, b), false), b)
  {
    hide Bit, MarkBit, MarkBlock, BlockMap, InodeMap, IsMeta, IsUsed, Layout, EncodeDesc;
    LocateBlock(v.geo, b);
    var k := GroupOf(v.geo, b);
    assert StoredDesc(BlockAt(v, GdBlock(v.geo)), k, v.geo.places[k], v.counts[k]);
    MarkBlockUsed(v, k, IndexOf(v.geo, b), false);
    MarkBlockMaps(v, k, IndexOf(v.geo, b), false);
    MetaBlocks(v, k);
    BitmapsAbove(v.geo, k);
    var w := MarkBlock(v, k, IndexOf(v.geo, b), false);
    SumBlocksUpdate(v.counts, k, w.counts[k]);
    SumInodesSame(v.counts, w.counts);
  }

  // ---------------------------------------------------------------- totals

  lemma {:induction false} SumsBounded(cs: seq<Counts>, n: nat)
    requires forall k :: 0 <= k < |cs| ==> cs[k].freeBlocks <= n && cs[k].freeInodes <= n
    ensures SumBlocks(cs) <= |cs| * n && SumInodes(cs) <= |cs| * n
  {
    if cs != [] {
      SumsBounded(cs[..|cs| - 1], n);
      assert |cs| * n == (|cs| - 1) * n + n;
    }
  }

  /** What is free is far below the range of a 32-bit total. */
  lemma FreeBounded(v: Volume)
    requires Valid(v)
    ensures FreeBlocks(v) < 0x100_0000 && FreeInodes(v) < 0x100_0000
  {
    hide IsMeta, IsUsed, Padded, MetaUsed, Layout, CountClear, BlockMap, InodeMap;
    forall k: nat | k < |v.counts| ensures v.counts[k].freeBlocks <= 0xFFFF && v.counts[k].freeInodes <= 0xFFFF {
      assert StoredDesc(BlockAt(v, GdBlock(v.geo)), k, v.geo.places[k], v.counts[k]);
    }
    SumsBounded(v.counts, 0xFFFF);
    MulMono(|v.counts|, 128, 0xFFFF);
  }

  /** Totals that are right stay right as long as the volume is mounted. */
  lemma TotalsFollow(v: Volume, w: Volume, b: nat)
    requires Valid(v) && Valid(w) && (Taken(v, w, b) || Released(v, w, b))
    ensures Totals(v) <==> v.freeBlocks < 0x1_0000_0000 && Totals(w)
  {
    hide Valid, IsUsed, IsMeta, InodeUsed;
    FreeBounded(v);
    FreeBounded(w);
  }

  /** A mounted volume. */
  class Ext2 {
    var vol: Volume

    constructor (v: Volume)
      ensures vol == v
    {
      vol := v;
    }

    /** The bitmap block, the counts and the descriptor block, written in that order. */
    method CommitBlock(k: nat, i: nat, used: bool)
      requires Geometric(vol.geo) && Shape(vol) && k < |vol.counts| && |vol.counts[k].rest| == 14
      modifies this
      ensures vol == MarkBlock(old(vol), k, i, used)
    {
      var bb := vol.geo.places[k].blockBitmap;
      var bitmap := BlockAt(vol, bb);
      bitmap := if used then SetBit(bitmap, i) else ClearBit(bitmap, i);
      vol := Put(vol, bb, bitmap);
      vol := vol.(counts := vol.counts[k := vol.counts[k].(freeBlocks := Step(vol.counts[k].freeBlocks, used))],
                  freeBlocks := Step32(vol.freeBlocks, used));
      vol := StoreDesc(vol, k);
    }

    /**
     Scans the groups for a clear bit. Fails exactly when every group's count is zero, and
     otherwise takes the lowest free block, which is never a metadata block.
     */
    method AllocBlock() returns (r: Option<nat>)
      requires Valid(vol)
      modifies this
      ensures Valid(vol)
      ensures r.None? <==> FreeBlocks(old(vol)) == 0
      ensures r.None? ==> vol == old(vol)
      ensures r.Some? ==> Taken(old(vol), vol, r.value) && MarkedAt(old(vol), vol, r.value, true)
      ensures r.Some? ==> UsedBelow(old(vol), r.value)
    {
      hide IsMeta, IsUsed, BlocksCounted, InodesCounted, Padded, MetaUsed, DescsOnDisk, Taken, FullBefore, UsedBelow,
        MarkBlock, Geometric;
      ghost var v := vol;
      FullNone(v);
      for k := 0 to |vol.counts|
        invariant vol == v
        invariant FullBefore(v, k)
      {
        if vol.counts[k].freeBlocks == 0 {
          CountedFull(v, k);
          continue;
        }
        var bitmap := BlockAt(vol, vol.geo.places[k].blockBitmap);
        var n := BlocksIn(vol.geo, k);
        for i := 0 to n
          invariant vol == v
          invariant forall j: nat :: j < i ==> Bit(bitmap, j)
        {
          if !Bit(bitmap, i) {
            MarkBlockTaken(v, k, i);
            ClearBitIsFree(v, k, i);
            TakenIsLowest(v, k, i);
            MarkedThere(v, k, i);
            CommitBlock(k, i, true);
            return Some(Start(vol.geo, k) + vol.geo.fdb + i);
          }
        }
        ScannedFull(v, k);
      }
      FullMeansZero(v);
      return None;
    }

    /**
     Clears the block's bit and counts it as free, without looking at the bit first: the
     volume stays consistent exactly when the block was in use and is no metadata.
     */
    method FreeBlock(b: nat) returns (ok: bool)
      requires Valid(vol)
      modifies this
      ensures ok <==> vol.geo.fdb <= b < vol.geo.count
      ensures !ok ==> vol == old(vol)
      ensures ok ==> Released(old(vol), vol, b) && MarkedAt(old(vol), vol, b, false)
      ensures ok ==> (Valid(vol) <==> IsUsed(old(vol), b) && !IsMeta(vol.geo, b))
    {
      hide IsMeta, IsUsed, BlocksCounted, InodesCounted, Padded, MetaUsed, DescsOnDisk, Released;
      ghost var v := vol;
      if b < vol.geo.fdb || b >= vol.geo.count {
        return false;
      }
      MarkBlockReleased(v, b);
      var k, i := GroupOf(vol.geo, b), IndexOf(vol.geo, b);
      CommitBlock(k, i, false);
      FreeValid(v, b);
      return true;
    }
  }

  lemma MarkedThere(v: Volume, k: nat, i: nat)
    requires Geometric(v.geo) && Shape(v) && k < |v.counts| && |v.counts[k].rest| == 14 && i < BlocksIn(v.geo, k)
    ensures MarkedAt(v, MarkBlock(v, k, i, true), Start(v.geo, k) + v.geo.fdb + i, true)
  {
    hide MarkBlock;
    GroupBounds(v.geo, k);
    LocateUnique(v.geo, k, i);
  }

  lemma TakenIsLowest(v: Volume, k: nat, i: nat)
    requires Geometric(v.geo) && k < |v.geo.places| && i < BlocksIn(v.geo, k) && FullBefore(v, k)
    requires forall j: nat :: j < i ==> Bit(BlockMap(v, k), j)
    requires Start(v.geo, k) + v.geo.fdb + i < v.geo.count
    ensures UsedBelow(v, Start(v.geo, k) + v.geo.fdb + i)
  {
    hide Layout, BlockMap;
    forall c: nat | v.geo.fdb <= c < Start(v.geo, k) + v.geo.fdb + i ensures IsUsed(v, c) {
      LocateBlock(v.geo, c);
      GroupBounds(v.geo, k);
      if GroupOf(v.geo, c) > k {
        TimesMono(k + 1, GroupOf(v.geo, c), v.geo.bpg);
      }
    }
  }

  /** Freeing a free block makes its group's count wrong. */
  lemma DoubleFree(v: Volume, k: nat, i: nat)
    requires Geometric(v.geo) && Shape(v) && BlocksCounted(v) && k < |v.counts| && |v.counts[k].rest| == 14
    requires !Bit(BlockMap(v, k), i)
    ensures !BlocksCounted(MarkBlock(v, k, i, false))
  {
    var w := MarkBlock(v, k, i, false);
    ClearBitTest(BlockMap(v, k), i);
    CountClearSame(BlockMap(v, k), BlockMap(w, k), BlocksIn(v.geo, k));
    assert v.counts[k].freeBlocks == CountClear(BlockMap(v, k), BlocksIn(v.geo, k));
    assert w.counts[k].freeBlocks != CountClear(BlockMap(w, k), BlocksIn(w.geo, k));
  }

  lemma FreeValid(v: Volume, b: nat)
    requires Valid(v) && v.geo.fdb <= b < v.geo.count
    ensures GroupOf(v.geo, b) < |v.counts| && |v.counts[GroupOf(v.geo, b)].rest| == 14
    ensures Valid(MarkBlock(v, GroupOf(v.geo, b), IndexOf(v.geo, b), false)) <==> IsUsed(v, b) && !IsMeta(v.geo, b)
  {
    hide IsMeta, BlocksCounted, InodesCounted, Padded, MetaUsed, DescsOnDisk, Released, Layout, Bit, BlockMap,
      InodeMap, MarkBlock;
    MarkBlockReleased(v, b);
    LocateBlock(v.geo, b);
    if IsMeta(v.geo, b) {
      FreedMeta(v, MarkBlock(v, GroupOf(v.geo, b), IndexOf(v.geo, b), false), b);
    } else if IsUsed(v, b) {
      MarkBlockValid(v, GroupOf(v.geo, b), IndexOf(v.geo, b), false);
    } else {
      DoubleFree(v, GroupOf(v.geo, b), IndexOf(v.geo, b));
    }
  }

  /** A metadata block given back is no longer marked. */
  lemma FreedMeta(v: Volume, w: Volume, b: nat)
    requires Released(v, w, b) && v.geo.fdb <= b < v.geo.count && IsMeta(v.geo, b)
    ensures !MetaUsed(w)
  {
    hide IsMeta, IsUsed, InodeUsed;
  }

  lemma {:induction false} CountClearSame(bm: seq<byte>, bm': seq<byte>, n: nat)
    requires forall j: nat :: j < n ==> Bit(bm', j) == Bit(bm, j)
    ensures CountClear(bm, n) == CountClear(bm', n)
  {
    if n > 0 {
      CountClearSame(bm, bm', n - 1);
    }
  }
}
