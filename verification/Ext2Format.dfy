/** The formatter: it lays out one block group and establishes every invariant of the allocators. */
module Ext2Format {
  import opened Arith
  import opened Bytes
  import opened Bitmap
  import opened Options
  import opened Ext2Volume
  import opened Ext2Mount
  import M = Ext2BlockMap
  import F = Ext2File
  import T = Ext2DirFile
  import D = Ext2Dir
  import N = Ext2Directory

  // ---------------------------------------------------------------- the plan

  datatype Plan = Plan(total: nat, inGroup: nat, inodes: nat, tableBlocks: nat, overhead: nat)

  function MakePlan(total: nat): Plan
    requires total > 0
  {
    var inGroup := if total - 1 > 8192 then 8192 else total - 1;
    var i := (inGroup / 4 + 7) / 8 * 8;
    var inodes := if i < 16 then 16 else if i > 8192 then 8192 else i;
    var table := (inodes * 128 + 1023) / 1024;
    Plan(total, inGroup, inodes, table, 4 + table + 1)
  }

  /** Block numbers, and the arithmetic that a mount does on them, stay below 2^32. */
  const LIMIT := 0xFFFF_0000

  /** On a device of at least 16 blocks the metadata always fits. */
  lemma PlanFits(total: nat)
    requires 16 <= total
    ensures var p := MakePlan(total);
      p.total == total && p.inGroup == (if total <= 8193 then total - 1 else 8192) && 16 <= p.inodes <= 2048
        && p.tableBlocks * 8 == p.inodes
        && p.overhead == p.tableBlocks + 5 && p.overhead < p.inGroup
  {
  }

  // ---------------------------------------------------------------- bytes on disk

  /** A structure of 32-bit words. */
  function LeAll(ws: seq<nat>): (r: seq<byte>)
    ensures |r| == 4 * |ws|
  {
    if ws == [] then [] else LeAll(ws[..|ws| - 1]) + Le32(ws[|ws| - 1])
  }

  lemma {:induction false} LeAllAt(ws: seq<nat>, rest: seq<byte>, i: nat)
    requires i < |ws| && ws[i] < 0x1_0000_0000
    ensures Read32(LeAll(ws) + rest, 4 * i) == ws[i]
    decreases |ws|
  {
    var n := |ws| - 1;
    if i < n {
      assert LeAll(ws) + rest == LeAll(ws[..n]) + (Le32(ws[n]) + rest);
      LeAllAt(ws[..n], Le32(ws[n]) + rest, i);
    } else {
      var s := LeAll(ws) + rest;
      assert s[4 * n..4 * n + 4] == Le32(ws[n]);
      Read32Le(s, 4 * n, ws[n]);
    }
  }

  /** The first words of the superblock; the 16-bit fields are paired. */
  function SuperWords(p: Plan, freeBlocks: nat, freeInodes: nat): seq<nat> {
    [p.inodes, p.total, p.total / 20, freeBlocks, freeInodes, 1, 0, 0, 8192, 8192, p.inodes, 0, 0, 0,
     MAGIC + 0x1_0000, 0, 0, 0, 0, 1, 0, 11, 128]
  }

  function SuperBlock(p: Plan, freeBlocks: nat, freeInodes: nat): (r: seq<byte>)
    ensures |r| == 1024
  {
    LeAll(SuperWords(p, freeBlocks, freeInodes)) + Zeros(1024 - 92)
  }

  function FormatPlace(): Place { Place(3, 4, 5) }

  function FormatCounts(freeBlocks: nat, freeInodes: nat): Counts { Counts(freeBlocks, freeInodes, 1, Zeros(14)) }

  function DescBlock(freeBlocks: nat, freeInodes: nat): (r: seq<byte>)
    ensures |r| == 1024
  {
    EncodeDesc(FormatPlace(), FormatCounts(freeBlocks, freeInodes)) + Zeros(1024 - 32)
  }

  // ---------------------------------------------------------------- bitmaps

  /** Set are the bits below `low` and from `high` on. */
  ghost predicate Banded(bm: seq<byte>, low: nat, high: nat) {
    |bm| == 1024 && forall j: nat :: j < 8192 ==> (Bit(bm, j) <==> j < low || high <= j)
  }

  /** Of the first `n` bits, those in between are clear. */
  lemma {:induction false} BandedCount(bm: seq<byte>, low: nat, high: nat, n: nat)
    requires Banded(bm, low, high) && n <= 8192 && low <= high
    ensures CountClear(bm, n) == if n <= low then 0 else if n <= high then n - low else high - low
    decreases n
  {
    hide Bit;
    if n > 0 { BandedCount(bm, low, high, n - 1); }
  }

  method BuildBitmap(low: nat, high: nat) returns (bm: seq<byte>)
    requires low <= high <= 8192
    ensures Banded(bm, low, high)
  {
    hide Bit, SetBit;
    bm := Zeros(1024);
    ZeroBits();
    for i := 0 to low
      invariant |bm| == 1024 && forall j: nat :: j < 8192 ==> (Bit(bm, j) <==> j < i)
    {
      SetBitTest(bm, i);
      bm := SetBit(bm, i);
    }
    for i := high to 8192
      invariant |bm| == 1024 && forall j: nat :: j < 8192 ==> (Bit(bm, j) <==> j < low || high <= j < i)
    {
      SetBitTest(bm, i);
      bm := SetBit(bm, i);
    }
  }

  lemma ZeroBits()
    ensures forall j: nat :: !Bit(Zeros(1024), j)
  {
    forall j: nat ensures !Bit(Zeros(1024), j) {
      if j / 8 < 1024 { ZeroIn(j % 8); }
    }
  }

  lemma {:induction false} ZeroIn(k: nat)
    ensures !TestIn(0, k)
  {
    if k > 0 { ZeroIn(k - 1); }
  }

  // ---------------------------------------------------------------- the formatted volume

  function RootDir(p: Plan): nat { 5 + p.tableBlocks }

  const Dot := D.Rec(2, 12, ['.' as int], 2)
  const DotDot := D.Rec(2, 1012, ['.' as int, '.' as int], 2)

  function RootBlock(): (r: seq<byte>)
    ensures |r| == 1024
  {
    D.PutRec(D.PutRec(Zeros(1024), 0, Dot), 12, DotDot)
  }

  /** What the device holds after a successful format. */
  ghost predicate Formatted(blocks: seq<seq<byte>>, p: Plan) {
    && |blocks| == p.total && 16 <= p.total <= LIMIT && p == MakePlan(p.total) && 6 + p.tableBlocks <= p.total
    && p.overhead <= p.inGroup && p.inodes >= 10
    && (forall b :: 0 <= b < |blocks| ==> |blocks[b]| == 1024)
    && blocks[1] == SuperBlock(p, p.inGroup - p.overhead, p.inodes - 10)
    && blocks[2] == DescBlock(p.inGroup - p.overhead, p.inodes - 10)
    && Banded(blocks[3], p.overhead, p.inGroup)
    && Banded(blocks[4], 10, p.inodes)
    && (forall b :: 5 <= b < 5 + p.tableBlocks ==> blocks[b] == if b == 5 then RootTable(p) else Zeros(1024))
    && blocks[RootDir(p)] == RootBlock()
  }

  /** The first block of the inode table, with the root directory as inode 2. */
  function RootTable(p: Plan): (r: seq<byte>)
    ensures |r| == 1024
  {
    Zeros(128) + LeAll([0x41ED, 1024, 0, 0, 0, 0, 0x2_0000, 2, 0, 0, RootDir(p)]) + Zeros(1024 - 128 - 44)
  }

  function FormatGeometry(p: Plan): Geometry {
    Geometry(1024, p.total, 8192, 1, p.inodes, p.inodes, 128, p.tableBlocks, [FormatPlace()])
  }

  function FormatVolume(blocks: seq<seq<byte>>, p: Plan): Volume {
    var freeBlocks := if p.inGroup >= p.overhead then p.inGroup - p.overhead else 0;
    var freeInodes := if p.inodes >= 10 then p.inodes - 10 else 0;
    Volume(FormatGeometry(p), [FormatCounts(freeBlocks, freeInodes)], freeBlocks, freeInodes, blocks)
  }

  /** The two 16-bit fields that a word holds. */
  lemma Halves(s: seq<byte>, off: nat, low: nat, high: nat)
    requires off + 4 <= |s| && Read32(s, off) == low + 0x1_0000 * high && low < 0x1_0000
    ensures Read16(s, off) == low && Read16(s, off + 2) == high
  {
  }

  /** The superblock field by field, at the offsets of the ext2 format. */
  lemma SuperReads(p: Plan, freeBlocks: nat, freeInodes: nat)
    requires p.total <= LIMIT && p.inodes <= 8192 && freeBlocks <= 8192 && freeInodes <= 8192
    ensures var s := SuperBlock(p, freeBlocks, freeInodes);
      && Read32(s, 0) == p.inodes && Read32(s, 4) == p.total             // s_inodes_count, s_blocks_count
      && Read32(s, 8) == p.total / 20                                    // s_r_blocks_count
      && Read32(s, 12) == freeBlocks && Read32(s, 16) == freeInodes      // s_free_blocks_count, s_free_inodes_count
      && Read32(s, 20) == 1 && Read32(s, 24) == 0 && Read32(s, 28) == 0  // s_first_data_block, s_log_*_size
      && Read32(s, 32) == 8192 && Read32(s, 36) == 8192                  // s_blocks_per_group, s_frags_per_group
      && Read32(s, 40) == p.inodes                                       // s_inodes_per_group
      && Read16(s, 56) == MAGIC && Read16(s, 58) == 1                    // s_magic, s_state
      && Read32(s, 72) == 0 && Read32(s, 76) == 1                        // s_creator_os, s_rev_level
      && Read32(s, 84) == 11 && Read16(s, 88) == 128                     // s_first_ino, s_inode_size
  {
    hide LeAll, Read32, Read16;
    var ws := SuperWords(p, freeBlocks, freeInodes);
    var s := SuperBlock(p, freeBlocks, freeInodes);
    forall i: nat | i < |ws| ensures Read32(s, 4 * i) == ws[i] {
      LeAllAt(ws, Zeros(1024 - 92), i);
    }
    FirstWords(s, ws);
    Halves(s, 56, MAGIC, 1);
    Halves(s, 88, 128, 0);
  }

  lemma FirstWords(s: seq<byte>, ws: seq<nat>)
    requires |s| == 1024 && |ws| == 23 && forall j: nat :: j < |ws| ==> Read32(s, 4 * j) == ws[j]
    ensures Read32(s, 0) == ws[0] && Read32(s, 4) == ws[1] && Read32(s, 8) == ws[2] && Read32(s, 12) == ws[3]
    ensures Read32(s, 16) == ws[4] && Read32(s, 20) == ws[5] && Read32(s, 24) == ws[6] && Read32(s, 28) == ws[7]
    ensures Read32(s, 32) == ws[8] && Read32(s, 36) == ws[9] && Read32(s, 40) == ws[10] && Read32(s, 56) == ws[14]
    ensures Read32(s, 72) == ws[18] && Read32(s, 76) == ws[19] && Read32(s, 84) == ws[21] && Read32(s, 88) == ws[22]
  {
    hide Read32;
    assert Read32(s, 4 * 0) == ws[0] && Read32(s, 4 * 1) == ws[1] && Read32(s, 4 * 2) == ws[2];
    assert Read32(s, 4 * 3) == ws[3] && Read32(s, 4 * 4) == ws[4] && Read32(s, 4 * 5) == ws[5];
    assert Read32(s, 4 * 6) == ws[6] && Read32(s, 4 * 7) == ws[7] && Read32(s, 4 * 8) == ws[8];
    assert Read32(s, 4 * 9) == ws[9] && Read32(s, 4 * 10) == ws[10] && Read32(s, 4 * 14) == ws[14];
    assert Read32(s, 4 * 18) == ws[18] && Read32(s, 4 * 19) == ws[19];
    assert Read32(s, 4 * 21) == ws[21] && Read32(s, 4 * 22) == ws[22];
  }

  /** The group descriptor field by field. */
  lemma DescFields(freeBlocks: nat, freeInodes: nat)
    requires freeBlocks < 0x1_0000 && freeInodes < 0x1_0000
    ensures var s := DescBlock(freeBlocks, freeInodes);
      && Read32(s, 0) == 3 && Read32(s, 4) == 4 && Read32(s, 8) == 5            // bitmaps and inode table
      && Read16(s, 12) == freeBlocks && Read16(s, 14) == freeInodes && Read16(s, 16) == 1
      && forall j :: 18 <= j < 1024 ==> s[j] == 0
  {
    hide EncodeDesc, Read32, Read16;
    var s := DescBlock(freeBlocks, freeInodes);
    var e := EncodeDesc(FormatPlace(), FormatCounts(freeBlocks, freeInodes));
    assert s[0..32] == e;
    DecodeEncodeDesc(FormatPlace(), FormatCounts(freeBlocks, freeInodes));
    SameReads(s, e);
  }

  lemma SameReads(s: seq<byte>, e: seq<byte>)
    requires |s| == 1024 && |e| == 32 && s[0..32] == e && (forall j :: 32 <= j < 1024 ==> s[j] == 0)
    requires e[18..] == Zeros(14)
    ensures Read32(s, 0) == Read32(e, 0) && Read32(s, 4) == Read32(e, 4) && Read32(s, 8) == Read32(e, 8)
      && Read16(s, 12) == Read16(e, 12) && Read16(s, 14) == Read16(e, 14) && Read16(s, 16) == Read16(e, 16)
    ensures forall j :: 18 <= j < 1024 ==> s[j] == 0
  {
    assert forall j :: 0 <= j < 32 ==> s[j] == s[0..32][j];
    assert forall j :: 18 <= j < 32 ==> e[j] == e[18..][j - 18] == 0;
  }

  /** The two records of the root directory byte by byte: inode, length, name length, kind and name. */
  lemma RootBytes()
    ensures RootBlock() == Le32(2) + Le16(12) + [1, 2, '.' as int, 0, 0, 0]
      + (Le32(2) + Le16(1012) + [2, 2, '.' as int, '.' as int, 0, 0]) + Zeros(1000)
  {
  }

  lemma DescReads(freeBlocks: nat, freeInodes: nat)
    requires freeBlocks < 0x1_0000 && freeInodes < 0x1_0000
    ensures StoredDesc(DescBlock(freeBlocks, freeInodes), 0, FormatPlace(), FormatCounts(freeBlocks, freeInodes))
  {
    hide EncodeDesc;
    assert DescBlock(freeBlocks, freeInodes)[0..32] == EncodeDesc(FormatPlace(), FormatCounts(freeBlocks, freeInodes));
  }

  /** The superblock on disk describes the geometry that was laid out, and its totals are right. */
  lemma FormatStored(blocks: seq<seq<byte>>, p: Plan)
    requires Formatted(blocks, p) && p.total <= 8192
    ensures var v := FormatVolume(blocks, p);
      SuperStored(v) && StoredBlocks(v) == FreeBlocks(v) == v.freeBlocks
        && StoredInodes(v) == FreeInodes(v) == v.freeInodes
  {
    hide SuperBlock, DescBlock, Read32, Read16, Banded, RootTable, RootBlock;
    PlanFits(p.total);
    SuperReads(p, p.inGroup - p.overhead, p.inodes - 10);
    OneSum(FormatVolume(blocks, p).counts);
  }

  lemma OneSum(cs: seq<Counts>)
    requires |cs| == 1
    ensures SumBlocks(cs) == cs[0].freeBlocks && SumInodes(cs) == cs[0].freeInodes
  {
    assert cs[..0] == [];
  }

  lemma FormatGeometric(p: Plan)
    requires 16 <= p.total <= 8192 && p == MakePlan(p.total)
    ensures Geometric(FormatGeometry(p))
  {
    PlanFits(p.total);
    var g := FormatGeometry(p);
    TimesIsMul(g.ipg, g.isz);
    TimesIsMul(g.itb, g.bs);
    assert Times(1, g.ipg) == g.ipg && Times(1, g.bpg) == g.bpg && Times(0, g.bpg) == 0 by {
      assert Times(0, g.ipg) == 0;
    }
  }

  /** Block `b` of the group has bit `b - 1`. */
  lemma BitOfBlock(p: Plan, b: nat)
    requires 16 <= p.total <= 8192 && 1 <= b < 8192
    ensures GroupOf(FormatGeometry(p), b) == 0 && IndexOf(FormatGeometry(p), b) == b - 1
  {
  }

  lemma FormatMarks(blocks: seq<seq<byte>>, p: Plan)
    requires Formatted(blocks, p) && p.total <= 8192
    ensures Padded(FormatVolume(blocks, p)) && MetaUsed(FormatVolume(blocks, p))
  {
    hide SuperBlock, DescBlock, Bit;
    PlanFits(p.total);
    var v := FormatVolume(blocks, p);
    var g := v.geo;
    forall b: nat | b < g.count && IsMeta(g, b) ensures IsUsed(v, b) {
      if b >= 1 {
        assert b <= 4 + p.tableBlocks;
        BitOfBlock(p, b);
      }
    }
    forall k: nat, i: nat | k < |g.places| && i < BlocksIn(g, k) && Start(g, k) + g.fdb + i >= g.count
      ensures Bit(BlockMap(v, k), i) {
      assert Times(0, g.bpg) == 0;
    }
  }

  lemma FormatCounted(blocks: seq<seq<byte>>, p: Plan)
    requires Formatted(blocks, p) && p.total <= 8192
    ensures BlocksCounted(FormatVolume(blocks, p)) && InodesCounted(FormatVolume(blocks, p))
  {
    hide SuperBlock, DescBlock, Bit;
    PlanFits(p.total);
    var v := FormatVolume(blocks, p);
    assert Times(0, v.geo.bpg) == 0;
    BandedCount(blocks[3], p.overhead, p.inGroup, p.total);
    BandedCount(blocks[4], 10, p.inodes, p.inodes);
  }

  /** A freshly formatted device, mounted, satisfies every invariant the allocators keep, with right totals. */
  lemma FormatValid(blocks: seq<seq<byte>>, p: Plan)
    requires Formatted(blocks, p) && p.total <= 8192
    ensures Mount(blocks, 1024) == Some(FormatVolume(blocks, p))
    ensures Sound(FormatVolume(blocks, p)) && Totals(FormatVolume(blocks, p))
  {
    hide SuperBlock, DescBlock, Bit, BlocksCounted, InodesCounted, Padded, MetaUsed, Geometric, StoredDesc, Banded,
      SuperStored, Mount;
    FormatGeometric(p);
    FormatMarks(blocks, p);
    FormatCounted(blocks, p);
    FormatStored(blocks, p);
    PlanFits(p.total);
    DescReads(p.inGroup - p.overhead, p.inodes - 10);
    Remount(FormatVolume(blocks, p));
  }

  /**
   Beyond 8192 blocks the superblock announces more groups than the one that was laid out: the mount finds
   descriptors of zeros for them, with bitmaps and a table in block 0.
   */
  lemma FormatLarge(blocks: seq<seq<byte>>, p: Plan)
    requires Formatted(blocks, p) && p.total > 8192
    ensures Mount(blocks, 1024).Some?
    ensures var v := Mount(blocks, 1024).value; |v.geo.places| >= 2 && v.geo.places[1] == Place(0, 0, 0) && !Valid(v)
  {
    hide SuperBlock, DescBlock, Banded, Read32, Read16, Places, CountsAt, RootTable, RootBlock;
    PlanFits(p.total);
    SuperReads(p, p.inGroup - p.overhead, p.inodes - 10);
    var gd := blocks[2];
    var n := Groups(p.total, 8192);
    ZeroDesc(p.inGroup - p.overhead, p.inodes - 10);
    PlacesAt(gd, n, 1);
    NotLaidOut(Mount(blocks, 1024).value);
  }

  lemma ZeroDesc(freeBlocks: nat, freeInodes: nat)
    ensures DescAt(DescBlock(freeBlocks, freeInodes), 1).0 == Place(0, 0, 0)
  {
    hide EncodeDesc;
    assert DescBlock(freeBlocks, freeInodes)[32..64] == Zeros(32);
  }

  lemma {:induction false} PlacesAt(block: seq<byte>, n: nat, k: nat)
    requires k < n
    ensures Places(block, n)[k] == DescAt(block, k).0
  {
    if k < n - 1 { PlacesAt(block, n - 1, k); }
  }

  lemma NotLaidOut(v: Volume)
    requires |v.geo.places| >= 2 && v.geo.places[1] == Place(0, 0, 0)
    ensures !Valid(v)
  {
    assert !Layout(v.geo);
  }

  /** A formatted device, mounted, satisfies the invariants exactly when it has at most 8192 blocks. */
  lemma FormatSound(blocks: seq<seq<byte>>, p: Plan)
    requires Formatted(blocks, p)
    ensures Mount(blocks, 1024).Some? && (Sound(Mount(blocks, 1024).value) <==> p.total <= 8192)
  {
    hide Formatted, Mount, Valid, SuperStored;
    if p.total <= 8192 { FormatValid(blocks, p); } else { FormatLarge(blocks, p); }
  }

  /** From format onward, over every run of changes and mounts. */
  lemma FormatRun(blocks: seq<seq<byte>>, p: Plan, vs: seq<Volume>, cs: seq<Change>)
    requires Formatted(blocks, p) && p.total <= 8192 && IsRun(vs, cs) && vs[0] == FormatVolume(blocks, p)
    ensures Sound(vs[|cs|]) && FreeBlocks(vs[|cs|]) == FreeBlocks(vs[0]) - Blocks(cs)
      && FreeInodes(vs[|cs|]) == FreeInodes(vs[0]) - Inodes(cs)
    ensures Mount(vs[|cs|].blocks, 1024).Some?
    ensures Totals(Mount(vs[|cs|].blocks, 1024).value) <==> Blocks(cs) == 0 && Inodes(cs) == 0
  {
    hide Formatted, Sound, Changes, FormatVolume, Mount, Totals, StoredBlocks, StoredInodes;
    FormatValid(blocks, p);
    FormatStored(blocks, p);
    RunSound(vs, cs);
    RunTotals(vs, cs);
    RunGeo(vs, cs);
    FormatIs(blocks, p);
  }

  lemma FormatIs(blocks: seq<seq<byte>>, p: Plan)
    ensures FormatVolume(blocks, p).geo.bs == 1024
  {
  }

  /** One allocation after formatting is enough for the next mount to find a wrong total. */
  lemma StaleAfterOne(blocks: seq<seq<byte>>, p: Plan, w: Volume, b: nat)
    requires Formatted(blocks, p) && p.total <= 8192 && Changes(FormatVolume(blocks, p), TakeBlock(b), w)
    ensures Sound(w) && Mount(w.blocks, 1024).Some? && !Totals(Mount(w.blocks, 1024).value)
  {
    hide Formatted, Sound, Changes, FormatVolume, Mount, Totals;
    var cs := [TakeBlock(b)];
    assert cs[..0] == [] && Blocks([]) == 0 && Blocks(cs) == 1;
    FormatRun(blocks, p, [FormatVolume(blocks, p), w], cs);
  }

  /** The root directory holds "." and "..". */
  lemma RootTiles()
    ensures N.DirOk([RootBlock()], [[Dot, DotDot]], 1024)
    ensures N.Find(N.Flat([[Dot, DotDot]]), ['.' as int]) == Some(2)
      && N.Find(N.Flat([[Dot, DotDot]]), ['.' as int, '.' as int]) == Some(2)
  {
    var s := D.PutRec(Zeros(1024), 0, Dot);
    D.PutRecEncodes(Zeros(1024), 0, Dot);
    D.PutRecEncodes(s, 12, DotDot);
    hide D.PutRec, D.Tiles;
    D.EncodesStill(s, RootBlock(), 0, Dot);
    hide D.Encodes;
    D.TwoTile(RootBlock(), 0, Dot, DotDot);
    assert [[Dot, DotDot]][1..] == [] && N.Flat([]) == [];
    assert N.Flat([[Dot, DotDot]]) == [Dot, DotDot];
    assert [Dot, DotDot][1..] == [DotDot];
    N.FindOne(DotDot, ['.' as int, '.' as int]);
  }

  /** The bytes of inode 2. */
  function RootRaw(p: Plan): (r: seq<byte>)
    ensures |r| == 128
  {
    LeAll([0x41ED, 1024, 0, 0, 0, 0, 0x2_0000, 2, 0, 0, RootDir(p)]) + Zeros(84)
  }

  /** The root directory's inode field by field. */
  lemma RootReads(p: Plan)
    requires p.tableBlocks < 8192
    ensures var s := RootRaw(p);
      && Read16(s, 0) == 0x41ED && Read16(s, 2) == 0 && Read32(s, 4) == 1024      // i_mode, i_uid, i_size
      && Read16(s, 24) == 0 && Read16(s, 26) == 2 && Read32(s, 28) == 2          // i_gid, i_links_count, i_blocks
      && Read32(s, 40) == RootDir(p) && (forall j :: 44 <= j < 128 ==> s[j] == 0) // i_block
      && F.Size(s) == 1024 && T.Single(s, RootDir(p))
  {
    hide LeAll;
    var ws := [0x41ED, 1024, 0, 0, 0, 0, 0x2_0000, 2, 0, 0, RootDir(p)];
    LeAllAt(ws, Zeros(84), 0);
    LeAllAt(ws, Zeros(84), 1);
    LeAllAt(ws, Zeros(84), 6);
    LeAllAt(ws, Zeros(84), 7);
    LeAllAt(ws, Zeros(84), 10);
    Halves(RootRaw(p), 0, 0x41ED, 0);
    Halves(RootRaw(p), 24, 0, 2);
  }

  lemma RootInTable(blocks: seq<seq<byte>>, p: Plan)
    requires Formatted(blocks, p) && p.total <= 8192
    ensures F.InodeAt(FormatVolume(blocks, p), 2) == RootRaw(p)
  {
    hide SuperBlock, DescBlock, LeAll, RootBlock, Banded;
    PlanFits(p.total);
    var g := FormatGeometry(p);
    assert InodeGroup(g, 2) == 0 && InodeIndex(g, 2) == 1;
    assert F.InodeBlock(g, 2) == 5 && F.InodeOffset(g, 2) == 128;
    assert blocks[5] == RootTable(p);
    assert RootTable(p)[128..256] == RootRaw(p);
  }

  /** Every other inode is blank. */
  lemma BlankInTable(blocks: seq<seq<byte>>, p: Plan, n: nat)
    requires Formatted(blocks, p) && p.total <= 8192 && 0 < n <= p.inodes && n != 2
    ensures F.InodeAt(FormatVolume(blocks, p), n) == Zeros(128)
  {
    hide SuperBlock, DescBlock, LeAll, RootBlock, Banded, RootTable;
    PlanFits(p.total);
    var g, k, j := FormatGeometry(p), (n - 1) / 8, (n - 1) % 8;
    assert InodeGroup(g, n) == 0 && InodeIndex(g, n) == n - 1;
    InodeRow(n);
    assert F.InodeBlock(g, n) == 5 + k && F.InodeOffset(g, n) == 128 * j;
    assert k < p.tableBlocks;
    BlankRow(p, j);
    if k > 0 { assert blocks[5 + k] == Zeros(1024); }
  }

  lemma InodeRow(n: nat)
    requires n > 0
    ensures (n - 1) * 128 / 1024 == (n - 1) / 8 && (n - 1) * 128 % 1024 == 128 * ((n - 1) % 8)
  {
  }

  lemma BlankRow(p: Plan, j: nat)
    requires j < 8
    ensures Zeros(1024)[128 * j..128 * j + 128] == Zeros(128)
    ensures j != 1 ==> RootTable(p)[128 * j..128 * j + 128] == Zeros(128)
  {
  }

  /** Inode 2 is a directory over the volume, with the two names that lead back to it. */
  lemma RootDirectory(blocks: seq<seq<byte>>, p: Plan)
    requires Formatted(blocks, p) && p.total <= 8192
    ensures var v := FormatVolume(blocks, p); var raw := F.InodeAt(v, 2);
      && T.IsDir(raw) && T.DirFile(v, raw, [[Dot, DotDot]]) && T.DirView(v, raw) == [RootBlock()]
      && v.geo.inodes >= 2 && T.MayGrow(v, 2)
  {
    hide SuperBlock, DescBlock, LeAll, RootBlock, Banded, Valid, IsUsed, IsMeta, F.InodeAt, T.DirView, T.Single,
      RootRaw, F.FileOk, N.DirOk, F.Size,
      T.BlockCount, M.Lookup;
    var v := FormatVolume(blocks, p);
    PlanFits(p.total);
    FormatValid(blocks, p);
    RootInTable(blocks, p);
    RootReads(p);
    RootOwned(blocks, p);
    T.OneBlockFile(v, RootRaw(p), RootDir(p));
    RootTiles();
  }

  /** The root directory's block is in use and is no metadata. */
  lemma RootOwned(blocks: seq<seq<byte>>, p: Plan)
    requires Formatted(blocks, p) && p.total <= 8192
    ensures M.Ownable(FormatVolume(blocks, p), RootDir(p))
      && BlockAt(FormatVolume(blocks, p), RootDir(p)) == RootBlock()
  {
    hide SuperBlock, DescBlock, Bit, LeAll, RootBlock;
    PlanFits(p.total);
    BitOfBlock(p, RootDir(p));
  }

  // ---------------------------------------------------------------- formatting in place

  class Disk {
    var blocks: seq<seq<byte>>
    ghost var refusals: nat            // how often the device has said no

    constructor (blocks: seq<seq<byte>>)
      ensures this.blocks == blocks
    {
      this.blocks, refusals := blocks, 0;
    }

    /** The device may refuse a write. */
    method Write(n: nat, data: seq<byte>) returns (ok: bool)
      modifies this
      ensures refusals == old(refusals) + if ok || n >= |old(blocks)| then 0 else 1
      ensures if ok then n < |old(blocks)| && blocks == old(blocks)[n := data] else blocks == old(blocks)
    {
      if n >= |blocks| {
        return false;
      }
      ok := *;
      if ok {
        blocks := blocks[n := data];
      } else {
        refusals := refusals + 1;
      }
    }

    /** `ext2_format` */
    method Format() returns (r: int)
      requires |blocks| <= LIMIT && forall b :: 0 <= b < |blocks| ==> |blocks[b]| == 1024
      modifies this
      ensures r == if |old(blocks)| >= 16 && refusals == old(refusals) then 0 else -1
      ensures |old(blocks)| < 16 ==> blocks == old(blocks)
      ensures r == 0 ==> Formatted(blocks, MakePlan(|old(blocks)|))
    {
      hide SuperBlock, DescBlock, RootTable, RootBlock, Banded, MakePlan, Formatted;
      var total := |blocks|;
      if total < 16 {
        return -1;
      }
      var p := MakePlan(total);
      PlanFits(total);
      if p.inGroup < p.overhead {
        assert false;
      }
      var ok := WriteHead(p);
      if !ok {
        return -1;
      }
      ghost var before := blocks;
      ok := WriteTable(p);
      if !ok {
        return -1;
      }
      ok := Write(5 + p.tableBlocks, RootBlock());
      if !ok {
        return -1;
      }
      IsFormatted(before, blocks, p);
      return 0;
    }

    /** The superblock, the descriptor and the two bitmaps. */
    method WriteHead(p: Plan) returns (ok: bool)
      requires |blocks| >= 16 && p.overhead <= p.inGroup && p.inodes >= 10 && p.inGroup <= 8192 && p.inodes <= 8192
      modifies this
      ensures refusals == old(refusals) + if ok then 0 else 1
      ensures ok ==> |blocks| == |old(blocks)| && HeadWritten(blocks, p) && forall b :: 5 <= b < |blocks| ==>
        blocks[b] == old(blocks)[b]
      ensures ok ==> blocks[0] == old(blocks)[0]
    {
      hide SuperBlock, DescBlock, Banded;
      var freeBlocks, freeInodes := p.inGroup - p.overhead, p.inodes - 10;
      ok := Write(1, SuperBlock(p, freeBlocks, freeInodes));
      if !ok {
        return;
      }
      ok := Write(2, DescBlock(freeBlocks, freeInodes));
      if !ok {
        return;
      }
      var bb := BuildBitmap(p.overhead, p.inGroup);
      BandedSize(bb, p.overhead, p.inGroup);
      ok := Write(3, bb);
      if !ok {
        return;
      }
      var ib := BuildBitmap(10, p.inodes);
      BandedSize(ib, 10, p.inodes);
      ok := Write(4, ib);
    }

    /** The inode table, block by block. */
    method WriteTable(p: Plan) returns (ok: bool)
      requires 5 + p.tableBlocks <= |blocks|
      modifies this
      ensures |blocks| == |old(blocks)| && forall b :: 0 <= b < |blocks| && !(5 <= b < 5 + p.tableBlocks) ==>
        blocks[b] == old(blocks)[b]
      ensures refusals == old(refusals) + if ok then 0 else 1
      ensures ok ==> forall b :: 5 <= b < 5 + p.tableBlocks ==>
        blocks[b] == if b == 5 then RootTable(p) else Zeros(1024)
    {
      hide RootTable;
      for i := 0 to p.tableBlocks
        invariant |blocks| == |old(blocks)| && forall b :: 0 <= b < |blocks| && !(5 <= b < 5 + i) ==>
          blocks[b] == old(blocks)[b]
        invariant refusals == old(refusals)
        invariant forall b :: 5 <= b < 5 + i ==> blocks[b] == if b == 5 then RootTable(p) else Zeros(1024)
      {
        ok := Write(5 + i, if i == 0 then RootTable(p) else Zeros(1024));
        if !ok {
          return false;
        }
      }
      return true;
    }
  }

  /** Blocks 1 to 4 of a formatted volume. */
  ghost predicate HeadWritten(blocks: seq<seq<byte>>, p: Plan) {
    && |blocks| >= 16 && p.overhead <= p.inGroup && p.inodes >= 10
    && blocks[1] == SuperBlock(p, p.inGroup - p.overhead, p.inodes - 10)
    && blocks[2] == DescBlock(p.inGroup - p.overhead, p.inodes - 10)
    && Banded(blocks[3], p.overhead, p.inGroup) && Banded(blocks[4], 10, p.inodes)
    && forall b :: 1 <= b < 5 ==> |blocks[b]| == 1024
  }

  lemma IsFormatted(before: seq<seq<byte>>, blocks: seq<seq<byte>>, p: Plan)
    requires 16 <= p.total <= LIMIT && p == MakePlan(p.total) && |blocks| == |before| == p.total
      && 6 + p.tableBlocks <= p.total
    requires HeadWritten(before, p) && forall b :: 0 <= b < 5 || 6 + p.tableBlocks <= b < |blocks| ==>
      blocks[b] == before[b]
    requires forall b :: 5 <= b < 5 + p.tableBlocks ==> blocks[b] == if b == 5 then RootTable(p) else Zeros(1024)
    requires blocks[RootDir(p)] == RootBlock() && p.tableBlocks > 0
    requires forall b :: b == 0 || 5 <= b < |before| ==> |before[b]| == 1024
    ensures Formatted(blocks, p)
  {
    hide SuperBlock, DescBlock, RootTable, RootBlock, Banded, MakePlan;
    RootSizes(p);
  }

  lemma RootSizes(p: Plan)
    ensures |RootTable(p)| == 1024 && |RootBlock()| == 1024
  {
  }

  lemma BandedSize(bm: seq<byte>, low: nat, high: nat)
    requires Banded(bm, low, high)
    ensures |bm| == 1024
  {
  }
}
