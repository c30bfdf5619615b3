/**
 The state of a mounted ext2 volume as the driver sees it through its block cache: the
 logical content of every block, the in-memory group descriptors and the free counts.
 */
module Ext2Volume {
  import opened Arith
  import opened Bytes
  import opened Bitmap

  /** Where a group keeps its bitmaps and inode table: the constant part of its descriptor. */
  datatype Place = Place(blockBitmap: nat, inodeBitmap: nat, inodeTable: nat)

  /** The rest of a group descriptor; `rest` is padding and reserved bytes, never interpreted. */
  datatype Counts = Counts(freeBlocks: nat, freeInodes: nat, usedDirs: nat, rest: seq<byte>)

  /** What is fixed when a volume is formatted. */
  datatype Geometry = Geometry(
    bs: nat,                 // block_size
    count: nat,              // s_blocks_count
    bpg: nat,                // s_blocks_per_group
    fdb: nat,                // s_first_data_block
    ipg: nat,                // s_inodes_per_group
    inodes: nat,             // s_inodes_count
    isz: nat,                // inode_size
    itb: nat,                // blocks in one group's inode table
    places: seq<Place>)

  datatype Volume = Volume(
    geo: Geometry,
    counts: seq<Counts>,
    freeBlocks: nat,         // s_free_blocks_count
    freeInodes: nat,         // s_free_inodes_count
    blocks: seq<seq<byte>>)  // logical content, indexed by block number

  function BlockAt(v: Volume, b: nat): (r: seq<byte>) {
    if b < |v.blocks| then v.blocks[b] else []
  }

  /** The volume after block `b` was given new content. */
  function Put(v: Volume, b: nat, data: seq<byte>): (r: Volume) {
    if b < |v.blocks| then v.(blocks := v.blocks[b := data]) else v
  }

  // ---------------------------------------------------------------- geometry

  function Start(g: Geometry, k: nat): nat { Times(k, g.bpg) }

  /** The number of bits `ext2_alloc_block` scans in the bitmap of group `k`. */
  function BlocksIn(g: Geometry, k: nat): (r: nat)
  {
    if k != |g.places| - 1 then g.bpg else if Start(g, k) <= g.count then g.count - Start(g, k) else 0
  }

  function GroupOf(g: Geometry, b: nat): nat { if g.fdb <= b then Quot(b - g.fdb, g.bpg) else 0 }

  function IndexOf(g: Geometry, b: nat): nat { if g.fdb <= b then Rem(b - g.fdb, g.bpg) else 0 }

  function InodeGroup(g: Geometry, n: nat): nat { if n > 0 then Quot(n - 1, g.ipg) else 0 }

  function InodeIndex(g: Geometry, n: nat): nat { if n > 0 then Rem(n - 1, g.ipg) else 0 }

  function GdBlock(g: Geometry): nat { g.fdb + 1 }

  predicate InTable(g: Geometry, k: nat, b: nat) {
    k < |g.places| && g.places[k].inodeTable <= b < g.places[k].inodeTable + g.itb
  }

  predicate IsMetaOf(g: Geometry, k: nat, b: nat) {
    k < |g.places| && (b == g.places[k].blockBitmap || b == g.places[k].inodeBitmap || InTable(g, k, b))
  }

  /** Superblock, descriptor table, bitmaps and inode tables. */
  predicate IsMeta(g: Geometry, b: nat) {
    || b <= GdBlock(g)
    || exists k :: 0 <= k < |g.places| && IsMetaOf(g, k, b)
  }

  /** Sizes are those of a volume the driver can address without overflow. */
  ghost predicate Sizes(g: Geometry) {
    && 1024 <= g.bs <= 4096 && g.bs % 1024 == 0
    && g.fdb <= 1
    && 0 < g.bpg <= 8 * g.bs
    && 0 < g.ipg <= 8 * g.bs
    && (g.isz == 128 || g.isz == 256 || g.isz == 512 || g.isz == 1024)
    && Times(g.ipg, g.isz) <= Times(g.itb, g.bs)
    && g.inodes == Times(|g.places|, g.ipg)
    && 0 < |g.places| && |g.places| * 32 <= g.bs
    && Times(|g.places| - 1, g.bpg) < g.count <= Times(|g.places|, g.bpg)
    && GdBlock(g) < g.count < 0x1_0000_0000
  }

  /** Each metadata structure has blocks of its own. */
  ghost predicate Layout(g: Geometry) {
    && (forall k :: 0 <= k < |g.places| ==>
          && GdBlock(g) < g.places[k].blockBitmap < g.count
          && GdBlock(g) < g.places[k].inodeBitmap < g.count
          && GdBlock(g) < g.places[k].inodeTable
          && g.places[k].inodeTable + g.itb <= g.count)
    && (forall k, l :: 0 <= k < l < |g.places| ==> g.places[k].blockBitmap != g.places[l].blockBitmap)
    && (forall k, l :: 0 <= k < l < |g.places| ==> g.places[k].inodeBitmap != g.places[l].inodeBitmap)
    && (forall k, l :: 0 <= k < |g.places| && 0 <= l < |g.places| ==>
      g.places[k].blockBitmap != g.places[l].inodeBitmap)
    && (forall k, l :: 0 <= k < |g.places| && 0 <= l < |g.places| ==> !InTable(g, l, g.places[k].blockBitmap))
    && (forall k, l :: 0 <= k < |g.places| && 0 <= l < |g.places| ==> !InTable(g, l, g.places[k].inodeBitmap))
    && (forall k, l, b: nat :: 0 <= k < l < |g.places| && InTable(g, k, b) ==> !InTable(g, l, b))
  }

  ghost predicate Geometric(g: Geometry) { Sizes(g) && Layout(g) }

  lemma GroupBounds(g: Geometry, k: nat)
    requires Sizes(g) && k < |g.places|
    ensures 0 < BlocksIn(g, k) <= g.bpg <= 8 * g.bs
    ensures k + 1 < |g.places| ==> Start(g, k) + g.bpg < g.count
  {
    if k + 1 < |g.places| {
      TimesMono(k + 1, |g.places| - 1, g.bpg);
    }
  }

  lemma LocateBlock(g: Geometry, b: nat)
    requires Sizes(g) && g.fdb <= b < g.count
    ensures GroupOf(g, b) < |g.places| && IndexOf(g, b) < BlocksIn(g, GroupOf(g, b)) <= g.bpg
    ensures b == Start(g, GroupOf(g, b)) + g.fdb + IndexOf(g, b)
  {
    QuotLess(b - g.fdb, |g.places|, g.bpg);
    QuotRem(b - g.fdb, g.bpg);
    GroupBounds(g, GroupOf(g, b));
  }

  lemma LocateUnique(g: Geometry, k: nat, i: nat)
    requires i < g.bpg
    ensures GroupOf(g, Start(g, k) + g.fdb + i) == k && IndexOf(g, Start(g, k) + g.fdb + i) == i
  {
    QuotRemUnique(k, i, g.bpg);
  }

  lemma LocateInode(g: Geometry, n: nat)
    requires Sizes(g) && 0 < n <= Times(|g.places|, g.ipg)
    ensures InodeGroup(g, n) < |g.places| && InodeIndex(g, n) < g.ipg
    ensures n == Times(InodeGroup(g, n), g.ipg) + InodeIndex(g, n) + 1
  {
    QuotLess(n - 1, |g.places|, g.ipg);
    QuotRem(n - 1, g.ipg);
  }

  // ---------------------------------------------------------------- bitmaps

  function BlockMap(v: Volume, k: nat): (r: seq<byte>) {
    if k < |v.geo.places| then BlockAt(v, v.geo.places[k].blockBitmap) else []
  }

  function InodeMap(v: Volume, k: nat): (r: seq<byte>) {
    if k < |v.geo.places| then BlockAt(v, v.geo.places[k].inodeBitmap) else []
  }

  /** The block is marked used in its group's bitmap (blocks before the first are never free). */
  predicate IsUsed(v: Volume, b: nat) {
    b < v.geo.fdb || Bit(BlockMap(v, GroupOf(v.geo, b)), IndexOf(v.geo, b))
  }

  predicate InodeUsed(v: Volume, n: nat) {
    n > 0 && Bit(InodeMap(v, InodeGroup(v.geo, n)), InodeIndex(v.geo, n))
  }

  // ---------------------------------------------------------------- invariants

  ghost predicate Shape(v: Volume) {
    && |v.counts| == |v.geo.places|
    && |v.blocks| == v.geo.count
    && (forall b :: 0 <= b < |v.blocks| ==> |v.blocks[b]| == v.geo.bs)
  }

  function SumBlocks(cs: seq<Counts>): (r: nat) {
    if cs == [] then 0 else SumBlocks(cs[..|cs| - 1]) + cs[|cs| - 1].freeBlocks
  }

  function SumInodes(cs: seq<Counts>): (r: nat) {
    if cs == [] then 0 else SumInodes(cs[..|cs| - 1]) + cs[|cs| - 1].freeInodes
  }

  /** The block counts in the descriptors are the numbers of clear bits. */
  ghost predicate BlocksCounted(v: Volume) {
    forall k: nat :: k < |v.counts| ==> v.counts[k].freeBlocks == CountClear(BlockMap(v, k), BlocksIn(v.geo, k))
  }

  /** So are the inode counts. */
  ghost predicate InodesCounted(v: Volume) {
    forall k: nat :: k < |v.counts| ==> v.counts[k].freeInodes == CountClear(InodeMap(v, k), v.geo.ipg)
  }

  /** How many blocks and inodes are free, by the descriptors. */
  function FreeBlocks(v: Volume): nat { SumBlocks(v.counts) }

  function FreeInodes(v: Volume): nat { SumInodes(v.counts) }

  /**
   The totals of the superblock in memory agree with the descriptors. The driver changes
   them in memory only, and no operation looks at them, so this is no part of `Valid`.
   */
  ghost predicate Totals(v: Volume) { v.freeBlocks == FreeBlocks(v) && v.freeInodes == FreeInodes(v) }

  /** The block that holds the superblock is the same. */
  ghost predicate SameSuper(v: Volume, w: Volume) {
    w.geo == v.geo && BlockAt(w, v.geo.fdb) == BlockAt(v, v.geo.fdb)
  }

  /** So are all inode tables. */
  ghost predicate SameTableBlocks(v: Volume, w: Volume) {
    w.geo == v.geo && forall k: nat, b: nat :: InTable(v.geo, k, b) ==> BlockAt(w, b) == BlockAt(v, b)
  }

  /** So are all inodes: what the tables hold, and which are in use. */
  ghost predicate SameTables(v: Volume, w: Volume) {
    SameTableBlocks(v, w) && forall n: nat :: InodeUsed(w, n) == InodeUsed(v, n)
  }

  /** Bits that stand for no block are set, so that they are never handed out. */
  ghost predicate Padded(v: Volume) {
    forall k: nat, i: nat :: k < |v.geo.places| && i < BlocksIn(v.geo, k)
      && Start(v.geo, k) + v.geo.fdb + i >= v.geo.count
      ==> Bit(BlockMap(v, k), i)
  }

  ghost predicate MetaUsed(v: Volume) {
    forall b: nat :: b < v.geo.count && IsMeta(v.geo, b) ==> IsUsed(v, b)
  }

  /** The descriptor block holds the in-memory descriptors. */
  ghost predicate DescsOnDisk(v: Volume) {
    |v.counts| == |v.geo.places| && forall k: nat :: k < |v.counts| ==>
      StoredDesc(BlockAt(v, GdBlock(v.geo)), k, v.geo.places[k], v.counts[k])
  }

  ghost predicate StoredDesc(block: seq<byte>, k: nat, p: Place, c: Counts) {
    k * 32 + 32 <= |block| && DescFits(p, c) && block[k * 32..k * 32 + 32] == EncodeDesc(p, c)
  }

  ghost predicate Valid(v: Volume) {
    && Geometric(v.geo) && Shape(v)
    && BlocksCounted(v) && InodesCounted(v) && Padded(v) && MetaUsed(v) && DescsOnDisk(v)
  }

  // ---------------------------------------------------------------- descriptors on disk

  function EncodeDesc(p: Place, c: Counts): (r: seq<byte>)
    ensures |r| == 18 + |c.rest|
  {
    Le32(p.blockBitmap) + Le32(p.inodeBitmap) + Le32(p.inodeTable)
    + Le16(c.freeBlocks) + Le16(c.freeInodes) + Le16(c.usedDirs) + c.rest
  }

  /** What `ext2_mount` makes of 32 bytes of the descriptor block. */
  function DecodeDesc(s: seq<byte>): (r: (Place, Counts))
    requires |s| == 32
  {
    (Place(Read32(s, 0), Read32(s, 4), Read32(s, 8)),
     Counts(Read16(s, 12), Read16(s, 14), Read16(s, 16), s[18..]))
  }

  ghost predicate DescFits(p: Place, c: Counts) {
    && p.blockBitmap < 0x1_0000_0000 && p.inodeBitmap < 0x1_0000_0000 && p.inodeTable < 0x1_0000_0000
    && c.freeBlocks < 0x1_0000 && c.freeInodes < 0x1_0000 && c.usedDirs < 0x1_0000 && |c.rest| == 14
  }

  /** A remount reads back exactly the descriptors that were in memory. */
  lemma DecodeEncodeDesc(p: Place, c: Counts)
    requires DescFits(p, c)
    ensures DecodeDesc(EncodeDesc(p, c)) == (p, c)
  {
    var s := EncodeDesc(p, c);
    assert s[0..4] == Le32(p.blockBitmap) && s[4..8] == Le32(p.inodeBitmap) && s[8..12] == Le32(p.inodeTable);
    assert s[12..14] == Le16(c.freeBlocks) && s[14..16] == Le16(c.freeInodes) && s[16..18] == Le16(c.usedDirs);
    Read32Le(s, 0, p.blockBitmap);
    Read32Le(s, 4, p.inodeBitmap);
    Read32Le(s, 8, p.inodeTable);
    Read16Le(s, 12, c.freeBlocks);
    Read16Le(s, 14, c.freeInodes);
    Read16Le(s, 16, c.usedDirs);
    assert s[18..] == c.rest;
  }

  lemma Read32Le(s: seq<byte>, off: nat, v: nat)
    requires off + 4 <= |s| && v < 0x1_0000_0000 && s[off..off + 4] == Le32(v)
    ensures Read32(s, off) == v
  {
    Le32Value(v);
    var t := s[off..off + 4];
    assert t[0] == s[off] && t[1] == s[off + 1] && t[2] == s[off + 2] && t[3] == s[off + 3];
  }

  lemma Read16Le(s: seq<byte>, off: nat, v: nat)
    requires off + 2 <= |s| && v < 0x1_0000 && s[off..off + 2] == Le16(v)
    ensures Read16(s, off) == v
  {
    var t := s[off..off + 2];
    assert t[0] == s[off] && t[1] == s[off + 1];
  }
}
