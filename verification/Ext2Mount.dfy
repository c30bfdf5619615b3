/**
 Mounting: what the driver makes of a device, and what survives an unmount and a mount.
 The superblock on the device is never written by the driver.
 */
module Ext2Mount {
  import opened Arith
  import opened Bytes
  import opened Bitmap
  import opened Options
  import opened Ext2Volume
  import opened Ext2Alloc
  import opened Ext2BlockMap
  import opened Ext2File
  import opened Ext2Inodes
  import C = Ext2Cache

  const MAGIC := 0xEF53

  /** `1024 << s_log_block_size`, for the sizes a device is split into here. */
  function BlockSize(log: nat): nat {
    if log == 0 then 1024 else if log == 1 then 2048 else if log == 2 then 4096 else 0
  }

  /** Bytes 1024 to 2047 of a device that is split into blocks of `bs` bytes. */
  function SuperBytes(blocks: seq<seq<byte>>, bs: nat): seq<byte> {
    if bs == 1024 then (if |blocks| > 1 then blocks[1] else [])
    else if |blocks| > 0 && |blocks[0]| >= 2048 then blocks[0][1024..2048] else []
  }

  /** Descriptor `k` of the descriptor block. */
  function DescAt(block: seq<byte>, k: nat): (Place, Counts) {
    if k * 32 + 32 <= |block| then DecodeDesc(block[k * 32..k * 32 + 32]) else (Place(0, 0, 0), Counts(0, 0, 0, []))
  }

  function Places(block: seq<byte>, n: nat): (r: seq<Place>)
    ensures |r| == n
  {
    if n == 0 then [] else Places(block, n - 1) + [DescAt(block, n - 1).0]
  }

  function CountsAt(block: seq<byte>, n: nat): (r: seq<Counts>)
    ensures |r| == n
  {
    if n == 0 then [] else CountsAt(block, n - 1) + [DescAt(block, n - 1).1]
  }

  /** `num_groups` */
  function Groups(count: nat, bpg: nat): nat { if bpg == 0 then 0 else (count + bpg - 1) / bpg }

  function TableBlocks(ipg: nat, isz: nat, bs: nat): nat { if bs == 0 then 0 else (ipg * isz + bs - 1) / bs }

  function InodeSize(sb: seq<byte>): nat
    requires |sb| == 1024
  {
    if Read16(sb, 88) != 0 then Read16(sb, 88) else 128
  }

  function MountWith(sb: seq<byte>, gd: seq<byte>, blocks: seq<seq<byte>>, bs: nat): Volume
    requires |sb| == 1024
  {
    var n := Groups(Read32(sb, 4), Read32(sb, 32));
    Volume(
      Geometry(bs, Read32(sb, 4), Read32(sb, 32), Read32(sb, 20), Read32(sb, 40), Read32(sb, 0), InodeSize(sb),
               TableBlocks(Read32(sb, 40), InodeSize(sb), bs), Places(gd, n)),
      CountsAt(gd, n), Read32(sb, 12), Read32(sb, 16), blocks)
  }

  /** `ext2_mount` of a device given as blocks of the size its superblock asks for. */
  function Mount(blocks: seq<seq<byte>>, bs: nat): Option<Volume> {
    var sb := SuperBytes(blocks, bs);
    if |sb| != 1024 then None
    else if Read16(sb, 56) != MAGIC || BlockSize(Read32(sb, 24)) != bs || Read32(sb, 20) + 1 >= |blocks| then None
    else Some(MountWith(sb, blocks[Read32(sb, 20) + 1], blocks, bs))
  }

  // ---------------------------------------------------------------- what the superblock on disk says

  /** The superblock on disk describes this geometry. */
  ghost predicate Describes(sb: seq<byte>, g: Geometry) {
    && |sb| == 1024 && Read16(sb, 56) == MAGIC && BlockSize(Read32(sb, 24)) == g.bs && Read32(sb, 20) == g.fdb
    && g.fdb == (if g.bs == 1024 then 1 else 0)
    && Read32(sb, 0) == g.inodes && Read32(sb, 4) == g.count && Read32(sb, 32) == g.bpg && Read32(sb, 40) == g.ipg
    && InodeSize(sb) == g.isz && g.itb == TableBlocks(g.ipg, g.isz, g.bs)
  }

  ghost predicate SuperStored(v: Volume) { Describes(SuperBytes(v.blocks, v.geo.bs), v.geo) }

  /** The free totals on disk. */
  function StoredBlocks(v: Volume): nat {
    var sb := SuperBytes(v.blocks, v.geo.bs);
    if |sb| == 1024 then Read32(sb, 12) else 0
  }

  function StoredInodes(v: Volume): nat {
    var sb := SuperBytes(v.blocks, v.geo.bs);
    if |sb| == 1024 then Read32(sb, 16) else 0
  }

  lemma SuperKept(v: Volume, w: Volume)
    requires SuperStored(v) && SameSuper(v, w) && |w.blocks| == |v.blocks|
    ensures SuperStored(w) && SuperBytes(w.blocks, w.geo.bs) == SuperBytes(v.blocks, v.geo.bs)
  {
    hide Read32, Read16;
  }

  // ---------------------------------------------------------------- mounting again

  lemma GroupsAre(g: Geometry)
    requires Sizes(g)
    ensures Groups(g.count, g.bpg) == |g.places|
  {
    var n := |g.places|;
    TimesIsMul(n - 1, g.bpg);
    TimesIsMul(n, g.bpg);
    var r := g.count - (n - 1) * g.bpg;
    assert n * g.bpg == (n - 1) * g.bpg + g.bpg;
    DivModUnique(n, r - 1, g.bpg);
  }

  lemma {:induction false} DescsRead(block: seq<byte>, places: seq<Place>, counts: seq<Counts>, n: nat)
    requires n <= |places| == |counts| && forall k: nat :: k < n ==> StoredDesc(block, k, places[k], counts[k])
    ensures Places(block, n) == places[..n] && CountsAt(block, n) == counts[..n]
  {
    hide EncodeDesc, DecodeDesc;
    if n > 0 {
      DescsRead(block, places, counts, n - 1);
      assert StoredDesc(block, n - 1, places[n - 1], counts[n - 1]);
      DecodeEncodeDesc(places[n - 1], counts[n - 1]);
      assert places[..n] == places[..n - 1] + [places[n - 1]] && counts[..n] == counts[..n - 1] + [counts[n - 1]];
    }
  }

  /** A mount finds the same geometry, descriptors and blocks; only the totals are those on disk. */
  lemma Remount(v: Volume)
    requires Valid(v) && SuperStored(v)
    ensures Mount(v.blocks, v.geo.bs) == Some(v.(freeBlocks := StoredBlocks(v), freeInodes := StoredInodes(v)))
  {
    hide Read32, Read16, IsMeta, IsUsed, BlocksCounted, InodesCounted, Padded, MetaUsed, Layout, StoredDesc, InodeSize,
      TableBlocks, Groups;
    GroupsAre(v.geo);
    var gd := BlockAt(v, GdBlock(v.geo));
    DescsRead(gd, v.geo.places, v.counts, |v.geo.places|);
    assert v.geo.places[..|v.geo.places|] == v.geo.places && v.counts[..|v.geo.places|] == v.counts;
  }

  /**
   An unmount that flushes the cache leaves the volume on the device if and only if every changed block was
   declared changed; then the next mount finds it.
   */
  lemma MountFlushed(v: Volume, lines0: seq<C.Line>, device0: seq<seq<byte>>, lines: seq<C.Line>,
                     device: seq<seq<byte>>)
    requires Valid(v) && SuperStored(v) && |device0| == |v.blocks|
    requires C.Coherent(lines0, device0) && forall n: nat :: n < |v.blocks| ==>
      C.Logical(lines0, device0, n) == v.blocks[n]
    requires C.Synced(lines0, device0, lines, device) && C.SameLogical(lines0, device0, lines, device)
    ensures device == v.blocks <==> C.Said(lines0, device0)
    ensures C.Said(lines0, device0) ==>
      Mount(device, v.geo.bs) == Some(v.(freeBlocks := StoredBlocks(v), freeInodes := StoredInodes(v)))
  {
    hide Valid, SuperStored, Mount, C.Coherent, C.Said, C.Logical, C.Synced, C.SameLogical;
    C.FlushedDevice(lines0, device0, lines, device);
    Remount(v);
  }

  /** So the volume is as valid as it was, and every inode and every file reads as before. */
  lemma RemountKeeps(v: Volume, num: nat, raw: seq<byte>)
    requires Valid(v) && SuperStored(v)
    ensures Mount(v.blocks, v.geo.bs).Some?
    ensures var u := Mount(v.blocks, v.geo.bs).value;
      && Valid(u) && SuperStored(u) && FreeBlocks(u) == FreeBlocks(v) && FreeInodes(u) == FreeInodes(v)
      && InodeAt(u, num) == InodeAt(v, num)
      && (FileOk(v, raw) ==> FileOk(u, raw)) && Content(u, raw) == Content(v, raw)
  {
    hide Mount, Valid, FileMap, ByteAt, SuperStored, FreeBlocks, InodeBlock, InodeOffset, Content, SuperBytes,
      StoredBlocks, StoredInodes;
    Remount(v);
    var u := v.(freeBlocks := StoredBlocks(v), freeInodes := StoredInodes(v));
    OtherTotals(v, u);
    SoundMount(v, u);
    FreeOnly(v, u);
    if FileMap(v, raw) { OtherTotalsFile(v, u, raw); }
    OtherTotalsBytes(v, u, raw);
  }

  lemma FreeOnly(v: Volume, u: Volume)
    requires u.counts == v.counts
    ensures FreeBlocks(u) == FreeBlocks(v) && FreeInodes(u) == FreeInodes(v)
  {
  }

  /** The totals of the superblock in memory concern nothing else. */
  ghost predicate ButTotals(v: Volume, u: Volume) {
    u == v.(freeBlocks := u.freeBlocks, freeInodes := u.freeInodes)
  }

  lemma OtherTotals(v: Volume, u: Volume)
    requires Valid(v) && ButTotals(v, u)
    ensures Valid(u)
  {
    hide Geometric, IsMeta, CountClear, Bit, StoredDesc;
    assert forall b: nat :: BlockAt(u, b) == BlockAt(v, b);
    assert forall k: nat :: BlockMap(u, k) == BlockMap(v, k) && InodeMap(u, k) == InodeMap(v, k);
  }

  lemma OtherTotalsAt(v: Volume, u: Volume, raw: seq<byte>)
    requires ButTotals(v, u)
    ensures forall x :: At(u, raw, x) == At(v, raw, x)
    ensures forall x :: Data(u, raw, x) == Data(v, raw, x)
  {
    forall x ensures At(u, raw, x) == At(v, raw, x) { SameWalk(v, u, raw, x); }
  }

  lemma {:induction false} SameWalk(v: Volume, u: Volume, raw: seq<byte>, x: seq<nat>)
    requires ButTotals(v, u)
    ensures At(u, raw, x) == At(v, raw, x)
    decreases |x|
  {
    if x != [] { SameWalk(v, u, raw, x[..|x| - 1]); }
  }

  lemma OtherTotalsFile(v: Volume, u: Volume, raw: seq<byte>)
    requires FileMap(v, raw) && ButTotals(v, u)
    ensures FileMap(u, raw)
  {
    hide IsMeta, Dom, At, Slots;
    OtherTotalsAt(v, u, raw);
    forall x | x in Dom(Ptrs(v.geo)) && x != [] && At(v, raw, x) != 0
      ensures BlockAt(u, At(v, raw, x)) == BlockAt(v, At(v, raw, x)) && Ownable(u, At(v, raw, x))
    {
      NodeIsOwn(v, raw, x);
    }
    SameFile(v, u, raw);
  }

  lemma OtherTotalsBytes(v: Volume, u: Volume, raw: seq<byte>)
    requires ButTotals(v, u)
    ensures (forall k: nat :: ByteAt(u, raw, k) == ByteAt(v, raw, k)) && Content(u, raw) == Content(v, raw)
  {
    hide At, PathOf, Div, Mod;
    OtherTotalsAt(v, u, raw);
    assert Content(u, raw) == Content(v, raw);
  }

  /** The totals found by a mount are right exactly when as much is free as the superblock on disk says. */
  lemma MountedTotals(v: Volume)
    requires Valid(v) && SuperStored(v)
    ensures Mount(v.blocks, v.geo.bs).Some?
    ensures Totals(Mount(v.blocks, v.geo.bs).value) <==>
      StoredBlocks(v) == FreeBlocks(v) && StoredInodes(v) == FreeInodes(v)
  {
    Remount(v);
    hide Mount, Valid, SuperStored;
  }

  // ---------------------------------------------------------------- every run, from format onward

  ghost predicate Sound(v: Volume) { Valid(v) && SuperStored(v) }

  /** A block is taken or given back. */
  ghost predicate BlockStep(v: Volume, w: Volume, b: nat, used: bool) {
    v.geo.fdb <= b < v.geo.count && !IsMeta(v.geo, b) && IsUsed(v, b) != used && Ext2Alloc.MarkedAt(v, w, b, used)
  }

  /** An inode is taken or given back. */
  ghost predicate InodeStep(v: Volume, w: Volume, n: nat, used: bool, isDir: bool) {
    0 < n <= v.geo.inodes && InodeUsed(v, n) != used && Ext2Inodes.MarkedAt(v, w, n, used, isDir)
  }

  /** The changes that the driver makes to a volume, the last one being an unmount and a mount. */
  datatype Change =
    | TakeBlock(b: nat) | GiveBlock(b: nat)
    | TakeInode(n: nat, isDir: bool) | GiveInode(n: nat, isDir: bool)
    | StoreData(b: nat, data: seq<byte>) | StoreRaw(n: nat, raw: seq<byte>)
    | MountAgain

  ghost predicate Changes(v: Volume, c: Change, w: Volume) {
    match c
    case TakeBlock(b) => BlockStep(v, w, b, true)
    case GiveBlock(b) => BlockStep(v, w, b, false)
    case TakeInode(n, isDir) => InodeStep(v, w, n, true, isDir)
    case GiveInode(n, isDir) => InodeStep(v, w, n, false, isDir)
    case StoreData(b, data) => !IsMeta(v.geo, b) && |data| == v.geo.bs && w == Put(v, b, data)
    case StoreRaw(n, raw) => 0 < n <= v.geo.inodes && |raw| == 128 && w == StoreInode(v, n, raw)
    case MountAgain => Mount(v.blocks, v.geo.bs) == Some(w)
  }

  lemma BlockStepSound(v: Volume, w: Volume, b: nat, used: bool)
    requires Sound(v) && BlockStep(v, w, b, used)
    ensures Valid(w) && SameSuper(v, w) && FreeInodes(w) == FreeInodes(v)
    ensures if used then FreeBlocks(w) + 1 == FreeBlocks(v) else FreeBlocks(w) == FreeBlocks(v) + 1
  {
    hide IsMeta, BlocksCounted, InodesCounted, Padded, MetaUsed, DescsOnDisk, Layout, Bit, BlockMap, InodeMap,
      MarkBlock, SuperStored;
    LocateBlock(v.geo, b);
    MarkBlockValid(v, GroupOf(v.geo, b), IndexOf(v.geo, b), used);
    BitmapsAbove(v.geo, GroupOf(v.geo, b));
  }

  lemma InodeStepSound(v: Volume, w: Volume, n: nat, used: bool, isDir: bool)
    requires Sound(v) && InodeStep(v, w, n, used, isDir)
    ensures Valid(w) && SameSuper(v, w) && FreeBlocks(w) == FreeBlocks(v)
    ensures if used then FreeInodes(w) + 1 == FreeInodes(v) else FreeInodes(w) == FreeInodes(v) + 1
  {
    hide IsMeta, BlocksCounted, InodesCounted, Padded, MetaUsed, DescsOnDisk, Layout, Bit, InodeMap, MarkInode, Marked,
      SuperStored, IsUsed;
    LocateInode(v.geo, n);
    var k, i := InodeGroup(v.geo, n), InodeIndex(v.geo, n);
    MarkInodeValid(v, k, i, used, isDir);
    InodeMapSize(v, k);
    MarkedSwitched(v, w, k, i, used, isDir);
  }

  lemma StoreRawSound(v: Volume, n: nat, raw: seq<byte>)
    requires Valid(v) && 0 < n <= v.geo.inodes && |raw| == 128
    ensures Valid(StoreInode(v, n, raw)) && SameSuper(v, StoreInode(v, n, raw))
      && StoreInode(v, n, raw).counts == v.counts
  {
    hide BlocksCounted, InodesCounted, DescsOnDisk, Padded, MetaUsed, IsMeta, IsUsed, SameMaps, InodeBlock, InodeOffset;
    InodeReady(v, n);
    InodeInTable(v.geo, n);
    var b := InodeBlock(v.geo, n);
    var data := Splice(BlockAt(v, b), InodeOffset(v.geo, n), raw);
    TableSameMaps(v, InodeGroup(v.geo, n), b, data);
    SameMapsValid(v, Put(v, b, data));
  }

  /** Blocks taken less blocks given back by a change; likewise inodes. */
  function BlocksBy(c: Change): int { if c.TakeBlock? then 1 else if c.GiveBlock? then -1 else 0 }

  function InodesBy(c: Change): int { if c.TakeInode? then 1 else if c.GiveInode? then -1 else 0 }

  lemma StepSound(v: Volume, c: Change, w: Volume)
    requires Sound(v) && Changes(v, c, w)
    ensures Sound(w) && w.geo == v.geo && SuperBytes(w.blocks, w.geo.bs) == SuperBytes(v.blocks, v.geo.bs)
    ensures FreeBlocks(w) == FreeBlocks(v) - BlocksBy(c) && FreeInodes(w) == FreeInodes(v) - InodesBy(c)
  {
    hide Valid, SuperStored, IsMeta, IsUsed, InodeUsed, BlockStep, InodeStep, StoreInode, SuperBytes;
    match c
    case TakeBlock(b) => BlockStepSound(v, w, b, true); SoundKept(v, w);
    case GiveBlock(b) => BlockStepSound(v, w, b, false); SoundKept(v, w);
    case TakeInode(n, isDir) => InodeStepSound(v, w, n, true, isDir); SoundKept(v, w);
    case GiveInode(n, isDir) => InodeStepSound(v, w, n, false, isDir); SoundKept(v, w);
    case StoreData(b, data) => PutKeeps(v, b, data); SoundKept(v, w);
    case StoreRaw(n, raw) => StoreRawSound(v, n, raw); SoundKept(v, w);
    case MountAgain => Remount(v); OtherTotals(v, w); SoundMount(v, w);
  }

  lemma SoundKept(v: Volume, w: Volume)
    requires Sound(v) && Valid(w) && SameSuper(v, w)
    ensures Sound(w) && SuperBytes(w.blocks, w.geo.bs) == SuperBytes(v.blocks, v.geo.bs)
  {
    ValidSizes(v);
    ValidSizes(w);
    hide Valid, SuperStored;
    SuperKept(v, w);
  }

  lemma SoundMount(v: Volume, w: Volume)
    requires SuperStored(v) && ButTotals(v, w)
    ensures SuperStored(w) && SuperBytes(w.blocks, w.geo.bs) == SuperBytes(v.blocks, v.geo.bs)
  {
  }

  /** `vs` are the volumes before, between and after the changes `cs`. */
  ghost predicate IsRun(vs: seq<Volume>, cs: seq<Change>) {
    |vs| == |cs| + 1 && forall j :: 0 <= j < |cs| ==> Changes(vs[j], cs[j], vs[j + 1])
  }

  function Blocks(cs: seq<Change>): int { if cs == [] then 0 else Blocks(cs[..|cs| - 1]) + BlocksBy(cs[|cs| - 1]) }

  function Inodes(cs: seq<Change>): int { if cs == [] then 0 else Inodes(cs[..|cs| - 1]) + InodesBy(cs[|cs| - 1]) }

  /** Over every run, however often the volume is mounted again, the invariants hold and the counts follow. */
  lemma {:induction false} RunSound(vs: seq<Volume>, cs: seq<Change>)
    requires IsRun(vs, cs) && Sound(vs[0])
    ensures Sound(vs[|cs|]) && SuperBytes(vs[|cs|].blocks, vs[|cs|].geo.bs) == SuperBytes(vs[0].blocks, vs[0].geo.bs)
    ensures FreeBlocks(vs[|cs|]) == FreeBlocks(vs[0]) - Blocks(cs)
      && FreeInodes(vs[|cs|]) == FreeInodes(vs[0]) - Inodes(cs)
    decreases |cs|
  {
    hide Sound, Changes, FreeBlocks, FreeInodes, SuperBytes;
    if cs != [] {
      var n := |cs| - 1;
      RunSound(vs[..n + 1], cs[..n]);
      StepSound(vs[n], cs[n], vs[n + 1]);
    }
  }

  lemma {:induction false} RunGeo(vs: seq<Volume>, cs: seq<Change>)
    requires IsRun(vs, cs) && Sound(vs[0])
    ensures vs[|cs|].geo == vs[0].geo
    decreases |cs|
  {
    hide Sound, Changes, FreeBlocks, FreeInodes, SuperBytes;
    if cs != [] {
      var n := |cs| - 1;
      RunGeo(vs[..n + 1], cs[..n]);
      RunSound(vs[..n + 1], cs[..n]);
      StepSound(vs[n], cs[n], vs[n + 1]);
    }
  }

  /**
   A volume whose totals were right on disk is mounted with right totals after a run exactly when
   the run took as many blocks as it gave back, and as many inodes.
   */
  lemma RunTotals(vs: seq<Volume>, cs: seq<Change>)
    requires IsRun(vs, cs) && Sound(vs[0]) && StoredBlocks(vs[0]) == FreeBlocks(vs[0])
      && StoredInodes(vs[0]) == FreeInodes(vs[0])
    ensures Mount(vs[|cs|].blocks, vs[|cs|].geo.bs).Some?
    ensures Totals(Mount(vs[|cs|].blocks, vs[|cs|].geo.bs).value) <==> Blocks(cs) == 0 && Inodes(cs) == 0
  {
    hide Changes, Mount, Valid, SuperStored, FreeBlocks, FreeInodes, SuperBytes, Totals;
    RunSound(vs, cs);
    MountedTotals(vs[|cs|]);
  }
}
