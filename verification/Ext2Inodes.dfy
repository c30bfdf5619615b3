/** The inode allocator of the ext2 driver. */
module Ext2Inodes {
  import opened Arith
  import opened Bitmap
  import opened Options
  import opened Ext2Volume
  import opened Ext2Alloc

  /** A 16-bit count of directories moves by one, wrapping around. */
  function Dirs(n: nat, used: bool, isDir: bool): nat {
    if !isDir then n else if used then (n + 1) % 0x1_0000 else (n + 0xFFFF) % 0x1_0000
  }

  function NewCounts(c: Counts, used: bool, isDir: bool): Counts {
    c.(freeInodes := Step(c.freeInodes, used), usedDirs := Dirs(c.usedDirs, used, isDir))
  }

  /** Bit `i` of group `k`'s inode bitmap becomes `used`; counts and descriptor follow. */
  function MarkInode(v: Volume, k: nat, i: nat, used: bool, isDir: bool): (r: Volume)
    requires Geometric(v.geo) && Shape(v) && k < |v.counts| && |v.counts[k].rest| == 14
    ensures r.geo == v.geo && Shape(r)
    ensures r.counts == v.counts[k := NewCounts(v.counts[k], used, isDir)]
    ensures r.freeInodes == Step32(v.freeInodes, used) && r.freeBlocks == v.freeBlocks
    ensures forall b: nat :: b != GdBlock(v.geo) && b != v.geo.places[k].inodeBitmap ==> BlockAt(r, b) == BlockAt(v, b)
    ensures InodeMap(r, k) == MarkBit(InodeMap(v, k), i, used)
  {
    var ib := v.geo.places[k].inodeBitmap;
    var w := Put(v, ib, MarkBit(BlockAt(v, ib), i, used));
    StoreDesc(w.(counts := v.counts[k := NewCounts(v.counts[k], used, isDir)],
      freeInodes := Step32(v.freeInodes, used)), k)
  }

  /** What the change leaves alone, and what it does to one group's map. */
  ghost predicate Marked(v: Volume, w: Volume, k: nat, i: nat, used: bool, isDir: bool) {
    && SameSuper(v, w) && SameTableBlocks(v, w) && Shape(w) && k < |v.counts| && k < |v.geo.places|
    && w.counts == v.counts[k := NewCounts(v.counts[k], used, isDir)]
    && w.freeInodes == Step32(v.freeInodes, used) && w.freeBlocks == v.freeBlocks
    && InodeMap(w, k) == MarkBit(InodeMap(v, k), i, used)
    && (forall l: nat :: l != k ==> InodeMap(w, l) == InodeMap(v, l))
    && (forall l: nat :: BlockMap(w, l) == BlockMap(v, l))
    && (forall b: nat :: !IsMeta(v.geo, b) ==> BlockAt(w, b) == BlockAt(v, b))
  }

  lemma MarkInodeMarked(v: Volume, k: nat, i: nat, used: bool, isDir: bool)
    requires Geometric(v.geo) && Shape(v) && k < |v.counts| && |v.counts[k].rest| == 14
    ensures Marked(v, MarkInode(v, k, i, used, isDir), k, i, used, isDir)
  {
    hide IsMeta, MarkInode, NewCounts, MarkBit;
    MetaBlocks(v, k);
    BitmapsAbove(v.geo, k);
  }

  lemma {:induction false} SumBlocksSame(cs: seq<Counts>, ds: seq<Counts>)
    requires |cs| == |ds| && forall k :: 0 <= k < |cs| ==> cs[k].freeBlocks == ds[k].freeBlocks
    ensures SumBlocks(cs) == SumBlocks(ds)
  {
    if cs != [] {
      SumBlocksSame(cs[..|cs| - 1], ds[..|cs| - 1]);
    }
  }

  lemma MarkedBlocks(v: Volume, w: Volume, k: nat, i: nat, used: bool, isDir: bool)
    requires Marked(v, w, k, i, used, isDir) && BlocksCounted(v) && Padded(v) && MetaUsed(v)
    ensures BlocksCounted(w) && Padded(w) && MetaUsed(w) && FreeBlocks(w) == FreeBlocks(v)
  {
    hide Bit, CountClear, IsMeta, MarkBit, BlockMap, InodeMap, BlocksIn, GroupOf, IndexOf;
    SumBlocksSame(v.counts, w.counts);
  }

  lemma MarkedInodes(v: Volume, w: Volume, k: nat, i: nat, used: bool, isDir: bool)
    requires Marked(v, w, k, i, used, isDir) && InodesCounted(v) && i < v.geo.ipg <= 8 * |InodeMap(v, k)|
      && Bit(InodeMap(v, k), i) != used
    ensures InodesCounted(w) && FreeInodes(w) == Step(FreeInodes(v), used)
      && (used ==> v.counts[k].freeInodes > 0 && FreeInodes(v) > 0)
    ensures Step(v.counts[k].freeInodes, used) <= v.geo.ipg
  {
    hide Bit, CountClear, IsMeta, MarkBit, BlockMap, InodeMap;
    MarkBitCount(InodeMap(v, k), i, used, v.geo.ipg);
    SumInodesUpdate(v.counts, k, NewCounts(v.counts[k], used, isDir));
  }

  lemma InodeMapSize(v: Volume, k: nat)
    requires Geometric(v.geo) && Shape(v) && k < |v.geo.places|
    ensures |InodeMap(v, k)| == v.geo.bs && v.geo.ipg <= 8 * |InodeMap(v, k)| && v.geo.ipg <= 32768
  {
  }

  lemma DescStored(v: Volume, k: nat)
    requires DescsOnDisk(v) && k < |v.counts|
    ensures DescFits(v.geo.places[k], v.counts[k]) && |v.counts[k].rest| == 14
  {
  }

  lemma MarkInodeStored(v: Volume, k: nat, i: nat, used: bool, isDir: bool)
    requires Geometric(v.geo) && Shape(v) && DescsOnDisk(v) && k < |v.counts| && |v.counts[k].rest| == 14
    requires Step(v.counts[k].freeInodes, used) < 0x1_0000
    ensures DescsOnDisk(MarkInode(v, k, i, used, isDir))
  {
    hide DescsOnDisk, MarkBit;
    DescStored(v, k);
    var ib := v.geo.places[k].inodeBitmap;
    var w := Put(v, ib, MarkBit(BlockAt(v, ib), i, used));
    var u := w.(counts := v.counts[k := NewCounts(v.counts[k], used, isDir)], freeInodes := Step32(v.freeInodes, used));
    Restored(v, u, k);
  }

  /** Every invariant of the volume survives a change of a bit that really changes. */
  lemma MarkInodeValid(v: Volume, k: nat, i: nat, used: bool, isDir: bool)
    requires Valid(v) && k < |v.counts| && i < v.geo.ipg && Bit(InodeMap(v, k), i) != used
    ensures |v.counts[k].rest| == 14 && Valid(MarkInode(v, k, i, used, isDir))
    ensures Marked(v, MarkInode(v, k, i, used, isDir), k, i, used, isDir)
    ensures used ==> v.counts[k].freeInodes > 0 && FreeInodes(v) > 0
  {
    hide IsMeta, BlocksCounted, InodesCounted, Padded, MetaUsed, DescsOnDisk, Geometric, Bit, MarkInode, Marked;
    DescStored(v, k);
    InodeMapSize(v, k);
    MarkInodeMarked(v, k, i, used, isDir);
    var w := MarkInode(v, k, i, used, isDir);
    MarkedBlocks(v, w, k, i, used, isDir);
    MarkedInodes(v, w, k, i, used, isDir);
    MarkInodeStored(v, k, i, used, isDir);
  }

  // ---------------------------------------------------------------- what the allocator promises

  /** `w` is `v` with inode `n`, and nothing else, taken or given back. */
  ghost predicate Switched(v: Volume, w: Volume, n: nat, used: bool) {
    && SameSuper(v, w) && SameTableBlocks(v, w) && 0 < n <= v.geo.inodes
    && (forall m: nat :: 0 < m <= v.geo.inodes ==> (InodeUsed(w, m) <==> if m == n then used else InodeUsed(v, m)))
    && (forall b: nat :: IsUsed(w, b) == IsUsed(v, b))
    && (forall b: nat :: !IsMeta(v.geo, b) ==> BlockAt(w, b) == BlockAt(v, b))
    && FreeInodes(w) == Step(FreeInodes(v), used) && FreeBlocks(w) == FreeBlocks(v)
    && w.freeInodes == Step32(v.freeInodes, used) && w.freeBlocks == v.freeBlocks
  }

  /** The bit of inode `n`, its counts and its descriptor changed, and nothing else. */
  ghost predicate MarkedAt(v: Volume, w: Volume, n: nat, used: bool, isDir: bool) {
    && Geometric(v.geo) && Shape(v) && InodeGroup(v.geo, n) < |v.counts| && |v.counts[InodeGroup(v.geo, n)].rest| == 14
    && w == MarkInode(v, InodeGroup(v.geo, n), InodeIndex(v.geo, n), used, isDir)
  }

  function NumberOf(g: Geometry, k: nat, i: nat): nat { Times(k, g.ipg) + i + 1 }

  lemma MarkedSwitched(v: Volume, w: Volume, k: nat, i: nat, used: bool, isDir: bool)
    requires Geometric(v.geo) && Marked(v, w, k, i, used, isDir) && i < v.geo.ipg <= 8 * |InodeMap(v, k)|
    requires used ==> v.counts[k].freeInodes > 0
    ensures Switched(v, w, NumberOf(v.geo, k, i), used)
  {
    hide Bit, IsMeta, MarkBit, BlockMap, InodeMap, Layout;
    var n := NumberOf(v.geo, k, i);
    MarkBitTest(InodeMap(v, k), i, used);
    QuotRemUnique(k, i, v.geo.ipg);
    TimesMono(k + 1, |v.geo.places|, v.geo.ipg);
    SumInodesUpdate(v.counts, k, NewCounts(v.counts[k], used, isDir));
    SumBlocksSame(v.counts, w.counts);
    forall m: nat | 0 < m <= v.geo.inodes ensures InodeUsed(w, m) <==> if m == n then used else InodeUsed(v, m) {
      LocateInode(v.geo, m);
    }
  }

  /** Every inode of the groups tried so far is in use. */
  ghost predicate Tried(v: Volume, first: nat, attempts: nat) {
    forall a: nat, j: nat :: a < attempts && j < v.geo.ipg ==> Bit(InodeMap(v, Turn(first, a, |v.geo.places|)), j)
  }

  /** `(first + attempt) % groups` */
  function Turn(first: nat, attempt: nat, groups: nat): nat { if groups == 0 then 0 else (first + attempt) % groups }

  /** The group where the search starts: the parent's. */
  function Preferred(g: Geometry, parent: nat): nat { if parent > 0 then Quot(parent - 1, g.ipg) else 0 }

  /**
   Inode `n` comes first: its group's turn is the first one, counted from the parent's group, with a free inode, and
   all inodes of that group before it are in use.
   */
  ghost predicate FirstInTurn(v: Volume, parent: nat, n: nat) {
    exists a: nat :: FirstAt(v, Preferred(v.geo, parent), a, n)
  }

  ghost predicate FirstAt(v: Volume, first: nat, a: nat, n: nat) {
    && a < |v.geo.places| && Tried(v, first, a) && n > 0
    && InodeGroup(v.geo, n) == Turn(first, a, |v.geo.places|) && InodeIndex(v.geo, n) < v.geo.ipg
    && forall j: nat :: j < InodeIndex(v.geo, n) ==> Bit(InodeMap(v, InodeGroup(v.geo, n)), j)
  }

  /** Of the counts of directories, only that of inode `n`'s group moved, by one if the inode is a directory. */
  ghost predicate DirsMoved(v: Volume, w: Volume, n: nat, used: bool, isDir: bool) {
    && |w.counts| == |v.counts| && InodeGroup(v.geo, n) < |v.counts|
    && (forall k :: 0 <= k < |v.counts| && (k != InodeGroup(v.geo, n) || !isDir) ==>
      w.counts[k].usedDirs == v.counts[k].usedDirs)
    && var before, after := v.counts[InodeGroup(v.geo, n)].usedDirs, w.counts[InodeGroup(v.geo, n)].usedDirs;
      isDir ==> if used then after == (before + 1) % 0x1_0000 else before % 0x1_0000 == (after + 1) % 0x1_0000
  }

  lemma MarkedDirs(v: Volume, n: nat, w: Volume, used: bool, isDir: bool)
    requires MarkedAt(v, w, n, used, isDir)
    ensures DirsMoved(v, w, n, used, isDir)
  {
    hide MarkBit, Geometric, StoreDesc;
  }

  lemma TurnIn(first: nat, attempt: nat, groups: nat)
    requires groups > 0
    ensures Turn(first, attempt, groups) < groups
  {
  }

  /** Every group has its turn. */
  lemma TurnCovers(first: nat, k: nat, groups: nat) returns (a: nat)
    requires k < groups
    ensures a < groups && Turn(first, a, groups) == k
  {
    var f := first % groups;
    a := if k >= f then k - f else k + groups - f;
    DivMod(first, groups);
    var q := first / groups;
    if k >= f {
      assert first + a == q * groups + k;
      DivModUnique(q, k, groups);
    } else {
      assert first + a == (q + 1) * groups + k;
      DivModUnique(q + 1, k, groups);
    }
  }

  lemma TriedMore(v: Volume, first: nat, a: nat)
    requires Tried(v, first, a) && forall j: nat :: j < v.geo.ipg ==>
      Bit(InodeMap(v, Turn(first, a, |v.geo.places|)), j)
    ensures Tried(v, first, a + 1)
  {
    hide Bit, InodeMap, Turn;
  }

  lemma CountedMore(v: Volume, first: nat, a: nat)
    requires InodesCounted(v) && Tried(v, first, a) && Turn(first, a, |v.geo.places|) < |v.counts|
    requires v.counts[Turn(first, a, |v.geo.places|)].freeInodes == 0
    ensures Tried(v, first, a + 1)
  {
    hide Bit, InodeMap, Turn;
    CountClearZero(InodeMap(v, Turn(first, a, |v.geo.places|)), v.geo.ipg);
  }

  lemma TriedAll(v: Volume, first: nat)
    requires InodesCounted(v) && |v.counts| == |v.geo.places| && Tried(v, first, |v.counts|)
    ensures FreeInodes(v) == 0
  {
    hide Bit, InodeMap, Turn;
    forall k: nat | k < |v.counts| ensures v.counts[k].freeInodes == 0 {
      var a := TurnCovers(first, k, |v.counts|);
      CountClearZero(InodeMap(v, k), v.geo.ipg);
    }
    SumInodesZero(v.counts);
  }

  lemma {:induction false} SumInodesZero(cs: seq<Counts>)
    requires forall k: nat :: k < |cs| ==> cs[k].freeInodes == 0
    ensures SumInodes(cs) == 0
  {
    if cs != [] { SumInodesZero(cs[..|cs| - 1]); }
  }

  lemma TriedNone(v: Volume, first: nat)
    ensures Tried(v, first, 0)
  {
  }

  lemma SomeFree(v: Volume, k: nat)
    requires InodesCounted(v) && k < |v.counts| && v.counts[k].freeInodes > 0
    ensures FreeInodes(v) > 0
  {
    SumInodesUpdate(v.counts, k, v.counts[k]);
  }

  // ---------------------------------------------------------------- the allocator in place

  /** The bitmap block, the counts and the descriptor block, written in that order. */
  method CommitInode(fs: Ext2, k: nat, i: nat, used: bool, isDir: bool)
    requires Geometric(fs.vol.geo) && Shape(fs.vol) && k < |fs.vol.counts| && |fs.vol.counts[k].rest| == 14
    modifies fs
    ensures fs.vol == MarkInode(old(fs.vol), k, i, used, isDir)
  {
    var vol := fs.vol;
    var ib := vol.geo.places[k].inodeBitmap;
    var bitmap := BlockAt(vol, ib);
    bitmap := if used then SetBit(bitmap, i) else ClearBit(bitmap, i);
    fs.vol := Put(vol, ib, bitmap);
    fs.vol := fs.vol.(counts := fs.vol.counts[k := fs.vol.counts[k].(freeInodes := Step(fs.vol.counts[k].freeInodes,
      used),
                                                                   usedDirs := Dirs(fs.vol.counts[k].usedDirs, used,
                                                                     isDir))],
                      freeInodes := Step32(fs.vol.freeInodes, used));
    fs.vol := StoreDesc(fs.vol, k);
  }

  /**
   Scans the groups from the parent's on, going round. Fails exactly when every group's
   count is zero, and otherwise takes a free inode that exists.
   */
  method AllocInode(fs: Ext2, parent: nat, isDir: bool) returns (r: Option<nat>)
    requires Valid(fs.vol)
    modifies fs
    ensures Valid(fs.vol) && (r.None? <==> FreeInodes(old(fs.vol)) == 0)
    ensures r.None? ==> fs.vol == old(fs.vol)
    ensures r.Some? ==> !InodeUsed(old(fs.vol), r.value) && Switched(old(fs.vol), fs.vol, r.value, true)
    ensures r.Some? ==> MarkedAt(old(fs.vol), fs.vol, r.value, true, isDir)
    ensures r.Some? ==> FirstInTurn(old(fs.vol), parent, r.value)
    ensures r.Some? ==> DirsMoved(old(fs.vol), fs.vol, r.value, true, isDir)
  {
    hide IsMeta, BlocksCounted, InodesCounted, Padded, MetaUsed, DescsOnDisk, Tried, MarkInode, Geometric, Marked,
      Switched, Turn, Bit, InodeUsed, MarkedAt, DirsMoved, FirstInTurn, Preferred;
    ghost var v := fs.vol;
    var preferred := Preferred(fs.vol.geo, parent);
    var groups := |fs.vol.counts|;
    TriedNone(v, preferred);
    for attempt := 0 to groups
      invariant fs.vol == v && Tried(v, preferred, attempt)
    {
      var k := Turn(preferred, attempt, groups);
      TurnIn(preferred, attempt, groups);
      if fs.vol.counts[k].freeInodes == 0 {
        CountedMore(v, preferred, attempt);
        continue;
      }
      SomeFree(v, k);
      var bitmap := BlockAt(fs.vol, fs.vol.geo.places[k].inodeBitmap);
      for i := 0 to fs.vol.geo.ipg
        invariant fs.vol == v
        invariant forall j: nat :: j < i ==> Bit(bitmap, j)
      {
        if !Bit(bitmap, i) {
          MarkInodeValid(v, k, i, true, isDir);
          InodeMapSize(v, k);
          MarkedSwitched(v, MarkInode(v, k, i, true, isDir), k, i, true, isDir);
          WasFree(v, k, i);
          MarkedThere(v, k, i, isDir);
          MarkedDirs(v, NumberOf(v.geo, k, i), MarkInode(v, k, i, true, isDir), true, isDir);
          ComesFirst(v, parent, attempt, k, i);
          CommitInode(fs, k, i, true, isDir);
          return Some(Times(k, fs.vol.geo.ipg) + i + 1);
        }
      }
      TriedMore(v, preferred, attempt);
    }
    TriedAll(v, preferred);
    return None;
  }

  lemma ComesFirst(v: Volume, parent: nat, a: nat, k: nat, i: nat)
    requires a < |v.geo.places| && Tried(v, Preferred(v.geo, parent), a) && i < v.geo.ipg
    requires k == Turn(Preferred(v.geo, parent), a, |v.geo.places|) && forall j: nat :: j < i ==> Bit(InodeMap(v, k), j)
    ensures FirstInTurn(v, parent, NumberOf(v.geo, k, i))
  {
    hide Bit, InodeMap, Tried, Turn, Preferred;
    QuotRemUnique(k, i, v.geo.ipg);
    assert FirstAt(v, Preferred(v.geo, parent), a, NumberOf(v.geo, k, i));
  }

  lemma MarkedThere(v: Volume, k: nat, i: nat, isDir: bool)
    requires Geometric(v.geo) && Shape(v) && k < |v.counts| && |v.counts[k].rest| == 14 && i < v.geo.ipg
    ensures MarkedAt(v, MarkInode(v, k, i, true, isDir), NumberOf(v.geo, k, i), true, isDir)
  {
    hide MarkInode;
    QuotRemUnique(k, i, v.geo.ipg);
  }

  lemma WasFree(v: Volume, k: nat, i: nat)
    requires i < v.geo.ipg && !Bit(InodeMap(v, k), i)
    ensures !InodeUsed(v, NumberOf(v.geo, k, i))
  {
    hide Bit, InodeMap;
    QuotRemUnique(k, i, v.geo.ipg);
  }

  /**
   Clears the inode's bit and counts it as free, without looking at the bit first: the
   volume stays consistent exactly when the inode was in use. `isDir` is what its mode says.
   */
  method FreeInode(fs: Ext2, n: nat, isDir: bool) returns (ok: bool)
    requires Valid(fs.vol)
    modifies fs
    ensures ok <==> 0 < n <= fs.vol.geo.inodes
    ensures !ok ==> fs.vol == old(fs.vol)
    ensures ok ==> MarkedAt(old(fs.vol), fs.vol, n, false, isDir) && DirsMoved(old(fs.vol), fs.vol, n, false, isDir)
    ensures ok ==> Switched(old(fs.vol), fs.vol, n, false) && (Valid(fs.vol) <==> InodeUsed(old(fs.vol), n))
  {
    hide IsMeta, BlocksCounted, InodesCounted, Padded, MetaUsed, DescsOnDisk, MarkInode, Marked, Switched, Bit, Layout,
      DirsMoved;
    ghost var v := fs.vol;
    if n == 0 || n > fs.vol.geo.inodes {
      return false;
    }
    LocateInode(v.geo, n);
    var k, i := Quot(n - 1, fs.vol.geo.ipg), Rem(n - 1, fs.vol.geo.ipg);
    DescStored(v, k);
    InodeMapSize(v, k);
    MarkInodeMarked(v, k, i, false, isDir);
    MarkedSwitched(v, MarkInode(v, k, i, false, isDir), k, i, false, isDir);
    if Bit(InodeMap(v, k), i) {
      MarkInodeValid(v, k, i, false, isDir);
    } else {
      DoubleFreeInode(v, MarkInode(v, k, i, false, isDir), k, i, isDir);
    }
    MarkedDirs(v, n, MarkInode(v, k, i, false, isDir), false, isDir);
    CommitInode(fs, k, i, false, isDir);
    return true;
  }

  /** Freeing a free inode makes its group's count wrong. */
  lemma DoubleFreeInode(v: Volume, w: Volume, k: nat, i: nat, isDir: bool)
    requires InodesCounted(v) && Marked(v, w, k, i, false, isDir) && !Bit(InodeMap(v, k), i)
    ensures !InodesCounted(w)
  {
    hide Bit, CountClear, IsMeta, BlockMap, InodeMap;
    ClearBitTest(InodeMap(v, k), i);
    CountClearSame(InodeMap(v, k), InodeMap(w, k), v.geo.ipg);
    assert w.counts[k].freeInodes != CountClear(InodeMap(w, k), w.geo.ipg);
  }
}
