/**
 The block map of an inode: twelve direct pointers and one single-, double- and
 triple-indirect pointer, as a tree of blocks separated from everything else.
 */
module Ext2BlockMap {
  import opened Arith
  import opened Bytes
  import opened Ext2Volume
  import opened Ext2Alloc
  import opened RadixTree

  /** The inode itself, as a tree node: its slots are `i_block[0..15]`. */
  const ROOT: int := -1


  /** Pointers per block. */
  function Ptrs(g: Geometry): nat { g.bs / 4 }

  /** What slot `i` of node `n` holds: an `i_block` entry, or a word of a pointer block. */
  function SlotOf(raw: seq<byte>, v: Volume, n: int, i: nat): nat {
    if n == ROOT then (if i < 15 && 40 + 4 * i + 4 <= |raw| then Read32(raw, 40 + 4 * i) else 0)
    else if 0 < n && 4 * i + 4 <= |BlockAt(v, n)| then Read32(BlockAt(v, n), 4 * i) else 0
  }

  function Slots(raw: seq<byte>, v: Volume): Links {
    (n: int, i: nat) => SlotOf(raw, v, n, i)
  }

  /** How many pointer blocks lie between `i_block[r]` and the data. */
  function Depth(r: nat): nat { if r < 12 then 0 else r - 11 }

  predicate InDom(p: nat, x: Path) {
    x == [] || (x[0] < 15 && |x| <= 1 + Depth(x[0]) && forall k :: 1 <= k < |x| ==> x[k] < p)
  }

  ghost function Dom(p: nat): iset<Path> { iset x: Path | InDom(p, x) }

  lemma DomClosed(p: nat)
    ensures PrefixClosed(Dom(p))
  {
  }

  function At(v: Volume, raw: seq<byte>, x: Path): int { Node(Slots(raw, v), ROOT, x) }

  /** A block that a file may own. */
  ghost predicate Ownable(v: Volume, b: int) {
    v.geo.fdb <= b < v.geo.count && b > 0 && IsUsed(v, b) && !IsMeta(v.geo, b)
  }

  /** The file's blocks form a separated tree of blocks in use that are no metadata. */
  ghost predicate FileMap(v: Volume, raw: seq<byte>) {
    && |raw| == 128
    && Separated(Slots(raw, v), ROOT, Dom(Ptrs(v.geo)))
    && forall x :: x in Dom(Ptrs(v.geo)) && x != [] && At(v, raw, x) != 0 ==> Ownable(v, At(v, raw, x))
  }

  // ---------------------------------------------------------------- writing a data block

  /** `w` agrees with `v` on every bitmap, count and descriptor. */
  ghost predicate SameMaps(v: Volume, w: Volume) {
    && w.geo == v.geo && w.counts == v.counts && w.freeBlocks == v.freeBlocks && w.freeInodes == v.freeInodes
    && (forall k: nat :: BlockMap(w, k) == BlockMap(v, k))
    && (forall k: nat :: InodeMap(w, k) == InodeMap(v, k))
    && BlockAt(w, GdBlock(v.geo)) == BlockAt(v, GdBlock(v.geo))
  }

  lemma SameMapsUsed(v: Volume, w: Volume)
    requires SameMaps(v, w)
    ensures forall c: nat :: IsUsed(w, c) == IsUsed(v, c)
    ensures forall c: nat :: InodeUsed(w, c) == InodeUsed(v, c)
  {
    hide BlockMap, InodeMap;
  }

  lemma SameMapsCounted(v: Volume, w: Volume)
    requires SameMaps(v, w) && BlocksCounted(v) && InodesCounted(v) && DescsOnDisk(v) && Padded(v)
    ensures BlocksCounted(w) && InodesCounted(w) && DescsOnDisk(w) && Padded(w)
  {
    hide BlockMap, InodeMap;
  }

  lemma SameMapsValid(v: Volume, w: Volume)
    requires SameMaps(v, w) && Valid(v) && Shape(w)
    ensures Valid(w)
  {
    hide BlocksCounted, InodesCounted, DescsOnDisk, Padded, IsMeta, IsUsed, Geometric, SameMaps;
    SameMapsUsed(v, w);
    SameMapsCounted(v, w);
    assert w.geo == v.geo by { SameMapsGeo(v, w); }
  }

  lemma SameMapsGeo(v: Volume, w: Volume)
    requires SameMaps(v, w)
    ensures w.geo == v.geo
  {
  }

  lemma PutSameMaps(v: Volume, b: nat, data: seq<byte>)
    requires !IsMeta(v.geo, b)
    ensures SameMaps(v, Put(v, b, data))
  {
    GdIsMeta(v.geo);
    forall k: nat ensures BlockMap(Put(v, b, data), k) == BlockMap(v, k)
      && InodeMap(Put(v, b, data), k) == InodeMap(v, k) {
      if k < |v.geo.places| {
        MetaBlocks(v, k);
      }
    }
  }

  /** Storing into a block that is no metadata keeps every invariant of the volume. */
  lemma PutKeeps(v: Volume, b: nat, data: seq<byte>)
    requires Valid(v) && !IsMeta(v.geo, b) && |data| == v.geo.bs
    ensures Valid(Put(v, b, data)) && SameSuper(v, Put(v, b, data)) && SameTables(v, Put(v, b, data))
    ensures forall c: nat :: IsUsed(Put(v, b, data), c) == IsUsed(v, c)
    ensures forall c: nat :: InodeUsed(Put(v, b, data), c) == InodeUsed(v, c)
  {
    hide BlocksCounted, InodesCounted, DescsOnDisk, Padded, MetaUsed, IsMeta, IsUsed, InodeUsed, Geometric, SameMaps;
    PutSameMaps(v, b, data);
    PutFixed(v, b, data);
    SameMapsValid(v, Put(v, b, data));
    SameMapsUsed(v, Put(v, b, data));
  }

  /** Data blocks are neither the superblock's nor an inode table's. */
  lemma PutFixed(v: Volume, b: nat, data: seq<byte>)
    requires !IsMeta(v.geo, b)
    ensures SameSuper(v, Put(v, b, data)) && SameTableBlocks(v, Put(v, b, data))
  {
    forall k: nat, c: nat | InTable(v.geo, k, c) ensures c != b {
      assert IsMetaOf(v.geo, k, c);
    }
  }

  lemma GdIsMeta(g: Geometry)
    ensures IsMeta(g, GdBlock(g))
  {
  }

  // ---------------------------------------------------------------- one level of the map

  /** A 32-bit word of a block of zeros is zero. */
  lemma ZeroSlots(raw: seq<byte>, v: Volume, b: int, j: nat)
    requires b > 0 && BlockAt(v, b) == Zeros(v.geo.bs)
    ensures SlotOf(raw, v, b, j) == 0
  {
  }

  /** The pointer to `b` is stored in slot `i` of `node`, which is the inode or a pointer block. */
  ghost predicate Linked(v: Volume, raw: seq<byte>, w: Volume, raw': seq<byte>, node: int, i: nat, b: nat) {
    if node == ROOT then
      i < 15 && |raw| == 128 && raw' == Write32(raw, 40 + 4 * i, b)
      && forall c: nat :: c != b ==> BlockAt(w, c) == BlockAt(v, c)
    else
      0 < node && raw' == raw && 4 * i + 4 <= |BlockAt(v, node)|
        && BlockAt(w, node) == Write32(BlockAt(v, node), 4 * i, b)
      && forall c: nat :: c != b && c != node ==> BlockAt(w, c) == BlockAt(v, c)
  }

  lemma LinkedSlots(v: Volume, raw: seq<byte>, w: Volume, raw': seq<byte>, node: int, i: nat, b: nat, n: int, j: nat)
    requires Linked(v, raw, w, raw', node, i, b) && b < 0x1_0000_0000 && n != b && (n == ROOT || n > 0)
    ensures SlotOf(raw', w, n, j) == if n == node && j == i then b else SlotOf(raw, v, n, j)
  {
    if node == ROOT && n == ROOT && j < 15 {
      Read32OfWrite32(raw, 40 + 4 * i, b, 40 + 4 * j);
    } else if node > 0 && n == node && 4 * j + 4 <= |BlockAt(v, n)| {
      Read32OfWrite32(BlockAt(v, node), 4 * i, b, 4 * j);
    }
  }

  /** Nodes of the map are the inode or block numbers of the file. */
  lemma NodeIsOwn(v: Volume, raw: seq<byte>, x: Path)
    requires FileMap(v, raw) && x in Dom(Ptrs(v.geo)) && At(v, raw, x) != 0
    ensures x == [] ==> At(v, raw, x) == ROOT
    ensures x != [] ==> Ownable(v, At(v, raw, x)) && At(v, raw, x) != ROOT
  {
  }

  /** A block that is not in use is in no file's map. */
  lemma UnusedIsFresh(v: Volume, raw: seq<byte>, b: nat)
    requires FileMap(v, raw) && b > 0 && v.geo.fdb <= b < v.geo.count && !IsUsed(v, b)
    ensures Fresh(Slots(raw, v), ROOT, Dom(Ptrs(v.geo)), b)
  {
  }

  /** The map after a fresh zeroed block was hung at `a + [i]`. */
  lemma LinkGrows(v: Volume, raw: seq<byte>, w: Volume, raw': seq<byte>, a: Path, i: nat, b: nat)
    requires FileMap(v, raw) && w.geo == v.geo && b < 0x1_0000_0000
    requires a + [i] in Dom(Ptrs(v.geo)) && a in Dom(Ptrs(v.geo))
    requires At(v, raw, a) != 0 && At(v, raw, a + [i]) == 0
    requires Fresh(Slots(raw, v), ROOT, Dom(Ptrs(v.geo)), b)
    requires Linked(v, raw, w, raw', At(v, raw, a), i, b)
    requires BlockAt(w, b) == Zeros(v.geo.bs)
    ensures Separated(Slots(raw', w), ROOT, Dom(Ptrs(v.geo)))
    ensures forall x :: x in Dom(Ptrs(v.geo)) ==> At(w, raw', x) == if x == a + [i] then b else At(v, raw, x)
  {
    var dom := Dom(Ptrs(v.geo));
    var child, child' := Slots(raw, v), Slots(raw', w);
    DomClosed(Ptrs(v.geo));
    hide Dom, SlotOf, Separated, Linked, IsMeta, IsUsed;
    var node := At(v, raw, a);
    NodeIsOwn(v, raw, a);
    assert node != b;
    LinkedSlots(v, raw, w, raw', node, i, b, node, i);
    forall j: nat ensures child'(b, j) == 0 {
      ZeroSlots(raw', w, b, j);
    }
    forall x, j: nat | x in dom && x + [j] in dom && Node(child, ROOT, x) != 0
      && (Node(child, ROOT, x) != node || j != i)
      ensures child'(Node(child, ROOT, x), j) == child(Node(child, ROOT, x), j)
    {
      NodeIsOwn(v, raw, x);
      assert Node(child, ROOT, x) != b;
      LinkedSlots(v, raw, w, raw', node, i, b, Node(child, ROOT, x), j);
    }
    Hang(child, child', ROOT, dom, a, i, b);
  }

  // ---------------------------------------------------------------- what a file keeps

  /** Paths that lead to data blocks. */
  predicate Leaf(x: Path) { x != [] && |x| == 1 + Depth(x[0]) }

  /** What the file holds in the block at a leaf: a hole reads as zeros. */
  function Data(v: Volume, raw: seq<byte>, x: Path): seq<byte> {
    if At(v, raw, x) > 0 then BlockAt(v, At(v, raw, x)) else Zeros(v.geo.bs)
  }

  ghost predicate NotIn(v: Volume, raw: seq<byte>, c: int) { Fresh(Slots(raw, v), ROOT, Dom(Ptrs(v.geo)), c) }

  /** Blocks in use stay in use, and those of other files keep their content. */
  ghost predicate Kept(v: Volume, raw: seq<byte>, w: Volume) {
    forall c: nat :: v.geo.fdb <= c < v.geo.count && IsUsed(v, c) ==>
      IsUsed(w, c) && (!IsMeta(v.geo, c) && NotIn(v, raw, c) ==> BlockAt(w, c) == BlockAt(v, c))
  }

  /** Every node of the new map is an old one, or a block that was free and hangs along `path`. */
  ghost predicate Grown(v: Volume, raw: seq<byte>, w: Volume, raw': seq<byte>, path: Path) {
    forall x :: x in Dom(Ptrs(v.geo)) && At(w, raw', x) != At(v, raw, x)
      ==> At(v, raw, x) == 0 && x <= path && v.geo.fdb <= At(w, raw', x) < v.geo.count && !IsUsed(v, At(w, raw', x))
  }

  ghost predicate SameData(v: Volume, raw: seq<byte>, w: Volume, raw': seq<byte>) {
    forall x :: x in Dom(Ptrs(v.geo)) && Leaf(x) ==> Data(w, raw', x) == Data(v, raw, x)
  }

  ghost predicate SameHead(raw: seq<byte>, raw': seq<byte>) {
    |raw'| == |raw| == 128 && forall k :: 0 <= k < 40 ==> raw'[k] == raw[k]
  }

  /** The map grew along `path` and nothing a reader can see changed. */
  ghost predicate Extends(v: Volume, raw: seq<byte>, w: Volume, raw': seq<byte>, path: Path) {
    && SameSuper(v, w) && SameTables(v, w) && SameHead(raw, raw')
    && Grown(v, raw, w, raw', path) && SameData(v, raw, w, raw') && Kept(v, raw, w)
  }

  lemma ExtendsSelf(v: Volume, raw: seq<byte>, path: Path)
    requires |raw| == 128
    ensures Extends(v, raw, v, raw, path)
  {
    hide IsUsed, IsMeta, At, Dom;
  }

  lemma ExtendsTrans(v: Volume, raw: seq<byte>, u: Volume, raw1: seq<byte>, w: Volume, raw2: seq<byte>, q: Path,
                     path: Path)
    requires Extends(v, raw, u, raw1, q) && Extends(u, raw1, w, raw2, path) && q <= path
    ensures Extends(v, raw, w, raw2, path)
  {
  }

  /** Stores that leave the file's own blocks alone leave its map and its data alone. */
  lemma SameFile(v: Volume, w: Volume, raw: seq<byte>)
    requires FileMap(v, raw) && w.geo == v.geo
    requires forall x :: x in Dom(Ptrs(v.geo)) && x != [] && At(v, raw, x) != 0
               ==> BlockAt(w, At(v, raw, x)) == BlockAt(v, At(v, raw, x)) && Ownable(w, At(v, raw, x))
    ensures FileMap(w, raw)
    ensures forall x :: x in Dom(Ptrs(v.geo)) ==> At(w, raw, x) == At(v, raw, x)
    ensures SameData(v, raw, w, raw)
  {
    var dom := Dom(Ptrs(v.geo));
    DomClosed(Ptrs(v.geo));
    forall y, j: nat | y in dom && y + [j] in dom && At(v, raw, y) != 0
      ensures SlotOf(raw, w, At(v, raw, y), j) == SlotOf(raw, v, At(v, raw, y), j)
    {
      hide Dom, Separated, IsMeta, IsUsed;
      NodeIsOwn(v, raw, y);
    }
    hide Dom, Separated, IsMeta, IsUsed, SlotOf;
    SameTree(Slots(raw, v), Slots(raw, w), ROOT, dom);
  }

  /** Taking a free block from the volume leaves the file as it is. */
  lemma TakenKeepsFile(v: Volume, u: Volume, raw: seq<byte>, b: nat)
    requires FileMap(v, raw) && Taken(v, u, b)
    ensures FileMap(u, raw) && SameData(v, raw, u, raw) && NotIn(v, raw, b) && NotIn(u, raw, b)
    ensures forall x :: x in Dom(Ptrs(v.geo)) ==> At(u, raw, x) == At(v, raw, x)
  {
    hide Dom, At, Separated, IsMeta, IsUsed, SlotOf, SameData, Slots;
    forall x | x in Dom(Ptrs(v.geo)) && x != [] && At(v, raw, x) != 0
      ensures BlockAt(u, At(v, raw, x)) == BlockAt(v, At(v, raw, x)) && Ownable(u, At(v, raw, x))
    {
      NodeIsOwn(v, raw, x);
    }
    SameFile(v, u, raw);
    assert b > 0 by { BlockZeroIsMeta(v.geo); }
    UnusedIsFresh(v, raw, b);
    assert NotIn(u, raw, b) by {
      forall x | x in Dom(Ptrs(v.geo)) ensures Node(Slots(raw, u), ROOT, x) != b {
        assert At(u, raw, x) == At(v, raw, x);
        AtIs(v, raw, x);
        AtIs(u, raw, x);
      }
    }
  }

  lemma AtIs(v: Volume, raw: seq<byte>, x: Path)
    ensures At(v, raw, x) == Node(Slots(raw, v), ROOT, x)
  {
  }

  lemma BlockZeroIsMeta(g: Geometry)
    ensures IsMeta(g, 0)
  {
  }

  /** Where a store through `Linked` leaves blocks alone. */
  lemma LinkedElsewhere(u: Volume, raw: seq<byte>, w: Volume, raw': seq<byte>, node: int, i: nat, b: nat, c: nat)
    requires Linked(u, raw, w, raw', node, i, b) && c != b && c != node
    ensures BlockAt(w, c) == BlockAt(u, c)
  {
  }

  lemma LinkedHead(u: Volume, raw: seq<byte>, w: Volume, raw': seq<byte>, node: int, i: nat, b: nat)
    requires Linked(u, raw, w, raw', node, i, b) && |raw| == 128
    ensures SameHead(raw, raw')
  {
  }

  lemma LinkedData(v: Volume, u: Volume, raw: seq<byte>, w: Volume, raw': seq<byte>, a: Path, i: nat, b: nat, x: Path)
    requires FileMap(v, raw) && Taken(v, u, b)
    requires a in Dom(Ptrs(v.geo)) && a + [i] in Dom(Ptrs(v.geo)) && At(v, raw, a + [i]) == 0
    requires w.geo == v.geo && Linked(u, raw, w, raw', At(v, raw, a), i, b) && BlockAt(w, b) == Zeros(v.geo.bs)
    requires x in Dom(Ptrs(v.geo)) && Leaf(x) && b > 0
    requires At(w, raw', x) == if x == a + [i] then b else At(v, raw, x)
    requires NotIn(v, raw, b)
    ensures Data(w, raw', x) == Data(v, raw, x)
  {
    assert !Leaf(a) by {
      assert a != [] ==> (a + [i])[0] == a[0];
    }
    hide Dom, IsMeta, IsUsed, Linked, Leaf, Slots;
    AtIs(v, raw, x);
    var n := At(v, raw, x);
    if x != a + [i] && n > 0 {
      NodeIsOwn(v, raw, x);
      assert n != At(v, raw, a) by { AtIs(v, raw, a); }
      LinkedElsewhere(u, raw, w, raw', At(v, raw, a), i, b, n);
    }
  }

  lemma InNotOut(v: Volume, raw: seq<byte>, a: Path, c: int)
    requires a in Dom(Ptrs(v.geo)) && NotIn(v, raw, c)
    ensures At(v, raw, a) != c
  {
  }

  /** One level of the map grows by the free block `b`, zeroed and linked. */
  lemma LinkStep(v: Volume, u: Volume, raw: seq<byte>, w: Volume, raw': seq<byte>, a: Path, i: nat, b: nat)
    requires FileMap(v, raw) && Taken(v, u, b) && b < 0x1_0000_0000
    requires a in Dom(Ptrs(v.geo)) && a + [i] in Dom(Ptrs(v.geo)) && At(v, raw, a) != 0 && At(v, raw, a + [i]) == 0
    requires w.geo == v.geo && Linked(u, raw, w, raw', At(v, raw, a), i, b) && BlockAt(w, b) == Zeros(v.geo.bs)
    requires SameSuper(u, w) && SameTables(u, w) && forall c: nat :: IsUsed(w, c) == IsUsed(u, c)
    ensures FileMap(w, raw') && At(w, raw', a + [i]) == b && Extends(v, raw, w, raw', a + [i])
  {
    hide Dom, IsMeta, IsUsed, Linked, Leaf, Slots, SlotOf, Separated, At, Data, Fresh;
    TakenKeepsFile(v, u, raw, b);
    LinkGrows(u, raw, w, raw', a, i, b);
    LinkedHead(u, raw, w, raw', At(v, raw, a), i, b);
    assert FileMap(w, raw') by {
      forall x | x in Dom(Ptrs(v.geo)) && x != [] && At(w, raw', x) != 0 ensures Ownable(w, At(w, raw', x)) {
        if x != a + [i] {
          NodeIsOwn(v, raw, x);
        }
      }
    }
    assert SameData(v, raw, w, raw') by {
      forall x | x in Dom(Ptrs(v.geo)) && Leaf(x) ensures Data(w, raw', x) == Data(v, raw, x) {
        BlockZeroIsMeta(v.geo);
        LinkedData(v, u, raw, w, raw', a, i, b, x);
      }
    }
    assert Kept(v, raw, w) by {
      forall c: nat | v.geo.fdb <= c < v.geo.count && IsUsed(v, c) && !IsMeta(v.geo, c) && NotIn(v, raw, c)
        ensures BlockAt(w, c) == BlockAt(v, c)
      {
        InNotOut(v, raw, a, c);
        LinkedElsewhere(u, raw, w, raw', At(v, raw, a), i, b, c);
      }
    }
  }

  lemma StepSlot(v: Volume, raw: seq<byte>, a: Path, i: nat)
    requires At(v, raw, a) != 0
    ensures At(v, raw, a + [i]) == SlotOf(raw, v, At(v, raw, a), i)
  {
  }

  lemma FileMapSize(v: Volume, raw: seq<byte>)
    requires FileMap(v, raw)
    ensures |raw| == 128
  {
  }

  /** What makes the stores of a step well defined and harmless to metadata. */
  lemma LinkReady(v: Volume, u: Volume, raw: seq<byte>, a: Path, i: nat, b: nat)
    requires Valid(u) && Taken(v, u, b) && FileMap(v, raw)
    requires a in Dom(Ptrs(v.geo)) && a + [i] in Dom(Ptrs(v.geo)) && At(v, raw, a) != 0
    ensures u.geo == v.geo && 0 < b < |u.blocks| && b < 0x1_0000_0000 && !IsMeta(u.geo, b) && At(v, raw, a) != b
    ensures At(v, raw, a) == ROOT ==> i < 15
    ensures At(v, raw, a) != ROOT ==> 0 < At(v, raw, a) < |u.blocks| && !IsMeta(u.geo, At(v, raw, a))
    ensures At(v, raw, a) != ROOT ==> |BlockAt(u, At(v, raw, a))| == u.geo.bs && 4 * i + 4 <= u.geo.bs
  {
    assert a != [] ==> (a + [i])[|a|] == i;
    assert a == [] ==> i < 15;
    assert a != [] ==> 4 * i + 4 <= v.geo.bs;
    assert b > 0 by { BlockZeroIsMeta(v.geo); }
    hide IsMeta, IsUsed, BlocksCounted, InodesCounted, Padded, MetaUsed, DescsOnDisk, Layout, Dom, Separated, At;
    NodeIsOwn(v, raw, a);
  }

  /** The store of a pointer and the zeroing of the block it points to. */
  function LinkIn(u: Volume, node: int, i: nat, b: nat): Volume {
    var w := if node > 0 && 4 * i + 4 <= |BlockAt(u, node)|
             then Put(u, node, Write32(BlockAt(u, node), 4 * i, b)) else u;
    Put(w, b, Zeros(u.geo.bs))
  }

  lemma LinkInLinked(u: Volume, raw: seq<byte>, raw': seq<byte>, node: int, i: nat, b: nat)
    requires if node == ROOT then i < 15 && |raw| == 128 && raw' == Write32(raw, 40 + 4 * i, b)
             else 0 < node < |u.blocks| && raw' == raw && 4 * i + 4 <= |BlockAt(u, node)|
    requires b < |u.blocks| && node != b
    ensures Linked(u, raw, LinkIn(u, node, i, b), raw', node, i, b)
    ensures BlockAt(LinkIn(u, node, i, b), b) == Zeros(u.geo.bs)
  {
  }

  lemma LinkInIs(u: Volume, node: int, i: nat, b: nat)
    ensures LinkIn(u, node, i, b) ==
      Put(if node > 0 && 4 * i + 4 <= |BlockAt(u, node)| then Put(u, node, Write32(BlockAt(u, node), 4 * i, b)) else u,
          b, Zeros(u.geo.bs))
  {
  }

  lemma LinkInValid(u: Volume, node: int, i: nat, b: nat)
    requires Valid(u) && !IsMeta(u.geo, b) && (node > 0 ==> !IsMeta(u.geo, node) && |BlockAt(u, node)| == u.geo.bs)
    ensures Valid(LinkIn(u, node, i, b)) && LinkIn(u, node, i, b).geo == u.geo
    ensures LinkIn(u, node, i, b).counts == u.counts && SameSuper(u, LinkIn(u, node, i, b))
      && SameTables(u, LinkIn(u, node, i, b))
    ensures forall c: nat :: IsUsed(LinkIn(u, node, i, b), c) == IsUsed(u, c)
  {
    hide Valid, IsMeta, IsUsed, InodeUsed;
    if node > 0 && 4 * i + 4 <= |BlockAt(u, node)| {
      PutKeeps(u, node, Write32(BlockAt(u, node), 4 * i, b));
      PutKeeps(Put(u, node, Write32(BlockAt(u, node), 4 * i, b)), b, Zeros(u.geo.bs));
    } else {
      PutKeeps(u, b, Zeros(u.geo.bs));
    }
  }

  // ---------------------------------------------------------------- ext2_get_block_num

  /**
   The block in slot `i` of a node, allocated, linked and zeroed when absent and asked for:
   the step that `ext2_get_block_num` repeats at every level.
   */
  method ChildOf(fs: Ext2, raw: seq<byte>, ghost a: Path, node: int, i: nat, allocate: bool)
    returns (b: nat, raw': seq<byte>)
    requires Valid(fs.vol) && FileMap(fs.vol, raw)
    requires a in Dom(Ptrs(fs.vol.geo)) && a + [i] in Dom(Ptrs(fs.vol.geo)) && At(fs.vol, raw, a) == node != 0
    modifies fs
    ensures Valid(fs.vol) && FileMap(fs.vol, raw') && Extends(old(fs.vol), raw, fs.vol, raw', a + [i])
    ensures b == At(fs.vol, raw', a + [i])
    ensures !allocate || old(At(fs.vol, raw, a + [i])) != 0 ==> fs.vol == old(fs.vol) && raw' == raw
    ensures b == 0 && allocate ==> FreeBlocks(fs.vol) == 0
  {
    hide Dom, IsMeta, IsUsed, Linked, Slots, SlotOf, Separated, At, Taken, Extends, NotIn, Valid, FileMap, Ownable,
      LinkIn;
    ghost var v := fs.vol;
    raw' := raw;
    FileMapSize(v, raw);
    StepSlot(v, raw, a, i);
    b := SlotOf(raw, fs.vol, node, i);
    ExtendsSelf(v, raw, a + [i]);
    if b != 0 || !allocate {
      return;
    }
    var r := fs.AllocBlock();
    if r.None? {
      return;
    }
    ghost var u := fs.vol;
    b := r.value;
    LinkReady(v, u, raw, a, i, b);
    if node == ROOT {
      raw' := Write32(raw, 40 + 4 * i, b);
    } else {
      fs.vol := Put(fs.vol, node, Write32(BlockAt(fs.vol, node), 4 * i, b));
    }
    fs.vol := Put(fs.vol, b, Zeros(fs.vol.geo.bs));
    LinkInIs(u, node, i, b);
    LinkInLinked(u, raw, raw', node, i, b);
    LinkInValid(u, node, i, b);
    LinkStep(v, u, raw, fs.vol, raw', a, i, b);
  }

  function Square(p: nat): (r: nat)
    requires p > 0
    ensures r > 0
  {
    p * p
  }

  /** The slots that lead to block `idx` of a file; none when the index is past the triple-indirect range. */
  function PathOf(p: nat, idx: nat): Path
    requires p > 0
  {
    if idx < 12 then [idx] else
    var i1 := idx - 12;
    if i1 < p then [12, i1] else
    var i2 := i1 - p;
    if i2 < Square(p) then [13, i2 / p, i2 % p] else
    var i3 := i2 - Square(p);
    if i3 < p * p * p then [14, i3 / Square(p), i3 / p % p, i3 % p] else []
  }

  lemma PathInDom(p: nat, idx: nat)
    requires p > 0
    ensures PathOf(p, idx) in Dom(p)
    ensures PathOf(p, idx) != [] ==> Leaf(PathOf(p, idx))
  {
    if idx >= 12 + p && idx - 12 - p < p * p {
      DivLess(idx - 12 - p, p, p);
    } else if idx >= 12 + p && idx - 12 - p - p * p < p * p * p {
      ThreeDigits(idx - 12 - p - p * p, p);
    }
  }

  /** The number of the block behind entries `a` and `b` of the double-indirect tree. */
  function DoubleIndex(p: nat, a: nat, b: nat): nat { 12 + p + Row(a, p, b) }

  /** The number of the block behind entries `a`, `b` and `c` of the triple-indirect tree. */
  function TripleIndex(p: nat, a: nat, b: nat, c: nat): nat { 12 + p + p * p + Row(Row(a, p, b), p, c) }

  /** The place of column `b` of row `a` in a table of rows of `p`. */
  function Row(a: nat, p: nat, b: nat): nat { a * p + b }

  /** The block of the file that a chain of slots stands for: blocks are counted level by level. */
  function Rank(p: nat, x: Path): nat {
    if |x| == 1 then x[0]
    else if |x| == 2 then 12 + x[1]
    else if |x| == 3 then DoubleIndex(p, x[1], x[2])
    else if |x| == 4 then TripleIndex(p, x[1], x[2], x[3])
    else 0
  }

  /** A chain leads to block `i` exactly when it is a whole chain that stands for `i`. */
  lemma PathIs(p: nat, i: nat, x: Path)
    requires p > 0
    ensures x != [] && PathOf(p, i) == x <==> x in Dom(p) && Leaf(x) && Rank(p, x) == i
  {
    if x != [] && PathOf(p, i) == x {
      PathRank(p, i);
      PathInDom(p, i);
    }
    if x in Dom(p) && Leaf(x) && Rank(p, x) == i {
      RankPath(p, x);
    }
  }

  lemma PathRank(p: nat, i: nat)
    requires p > 0 && PathOf(p, i) != []
    ensures Rank(p, PathOf(p, i)) == i
  {
    if i >= 12 + p && i - 12 - p < p * p {
      DivMod(i - 12 - p, p);
    } else if i >= 12 + p {
      ThreeDigits(i - 12 - p - p * p, p);
    }
  }

  lemma RankPath(p: nat, x: Path)
    requires p > 0 && x in Dom(p) && Leaf(x)
    ensures PathOf(p, Rank(p, x)) == x
  {
    if x[0] < 12 {
      assert x == [x[0]];
    } else if x[0] == 12 {
      assert x == [12, x[1]];
    } else if x[0] == 13 {
      TwoRank(p, x[1], x[2]);
      assert x == [13, x[1], x[2]];
    } else {
      ThreeRank(p, x[1], x[2], x[3]);
      assert x == [14, x[1], x[2], x[3]];
    }
  }

  lemma TwoRank(p: nat, a: nat, b: nat)
    requires a < p && b < p
    ensures Row(a, p, b) < p * p && PathOf(p, DoubleIndex(p, a, b)) == [13, a, b]
  {
    SquareBound(a, b, p);
    DivModUnique(a, b, p);
  }

  lemma ThreeRank(p: nat, a: nat, b: nat, c: nat)
    requires a < p && b < p && c < p
    ensures PathOf(p, TripleIndex(p, a, b, c)) == [14, a, b, c]
  {
    hide PathOf;
    DigitsBack(a, b, c, p);
    TriplePath(p, Row(Row(a, p, b), p, c));
  }

  lemma TriplePath(p: nat, i: nat)
    requires p > 0 && i < p * p * p
    ensures PathOf(p, 12 + p + p * p + i) == [14, i / (p * p), i / p % p, i % p]
  {
  }

  /** No data block's path leads through another's. */
  lemma PathPrefix(p: nat, i: nat, j: nat)
    requires p > 0 && PathOf(p, i) != [] && PathOf(p, i) <= PathOf(p, j)
    ensures i == j
  {
    var x, y := PathOf(p, i), PathOf(p, j);
    assert x[0] == y[0];
    if i >= 12 + p && i - 12 - p < p * p {
      assert x[1] == y[1] && x[2] == y[2];
      DivMod(i - 12 - p, p);
      DivMod(j - 12 - p, p);
    } else if i >= 12 + p {
      assert x[1] == y[1] && x[2] == y[2] && x[3] == y[3];
      ThreeDigits(i - 12 - p - p * p, p);
      ThreeDigits(j - 12 - p - p * p, p);
    } else if i >= 12 {
      assert x[1] == y[1];
    }
  }

  /** The block that holds block `idx` of the file, or 0. */
  function Lookup(v: Volume, raw: seq<byte>, idx: nat): int
    requires Ptrs(v.geo) > 0
  {
    var x := PathOf(Ptrs(v.geo), idx);
    if x == [] then 0 else At(v, raw, x)
  }

  /** Word `i` of block `b`, a pointer of 0 leading nowhere. */
  function Word(v: Volume, b: nat, i: nat): nat {
    if b > 0 && 4 * i + 4 <= |BlockAt(v, b)| then Read32(BlockAt(v, b), 4 * i) else 0
  }

  /** `i_block[i]` */
  function Root(raw: seq<byte>, i: nat): nat { if 40 + 4 * i + 4 <= |raw| then Read32(raw, 40 + 4 * i) else 0 }

  /** Direct blocks. */
  lemma DirectBlock(v: Volume, raw: seq<byte>, a: nat)
    requires Ptrs(v.geo) > 0 && a < 12
    ensures Lookup(v, raw, a) == Root(raw, a)
  {
    hide Ptrs, Root, At;
    Chain1(v, raw, a);
  }

  /** Blocks behind the single-indirect block. */
  lemma SingleBlock(v: Volume, raw: seq<byte>, a: nat)
    requires a < Ptrs(v.geo)
    ensures Lookup(v, raw, 12 + a) == Word(v, Root(raw, 12), a)
  {
    hide Ptrs, Root, At, Word;
    Chain2(v, raw, 12, a);
  }

  lemma DoubleBlock(v: Volume, raw: seq<byte>, a: nat, b: nat)
    requires a < Ptrs(v.geo) && b < Ptrs(v.geo)
    ensures Lookup(v, raw, DoubleIndex(Ptrs(v.geo), a, b)) == Word(v, Word(v, Root(raw, 13), a), b)
  {
    hide Ptrs, Root, At, Word, PathOf;
    TwoRank(Ptrs(v.geo), a, b);
    Chain3(v, raw, 13, a, b);
  }

  lemma TripleBlock(v: Volume, raw: seq<byte>, a: nat, b: nat, c: nat)
    requires a < Ptrs(v.geo) && b < Ptrs(v.geo) && c < Ptrs(v.geo)
    ensures Lookup(v, raw, TripleIndex(Ptrs(v.geo), a, b, c)) == Word(v, Word(v, Word(v, Root(raw, 14), a), b), c)
  {
    hide Ptrs, Root, At, Word, PathOf;
    ThreeRank(Ptrs(v.geo), a, b, c);
    Chain4(v, raw, 14, a, b, c);
  }

  /** Past the triple-indirect tree there is nothing. */
  lemma NoBlock(v: Volume, raw: seq<byte>, i: nat)
    requires Ptrs(v.geo) > 0 && i >= 12 + Ptrs(v.geo) + Square(Ptrs(v.geo)) + Ptrs(v.geo) * Ptrs(v.geo) * Ptrs(v.geo)
    ensures Lookup(v, raw, i) == 0
  {
    hide Ptrs, At;
  }

  lemma Chain1(v: Volume, raw: seq<byte>, i: nat)
    requires i < 15
    ensures At(v, raw, [i]) == Root(raw, i)
  {
    hide Read32;
    assert [i][..0] == [] && At(v, raw, []) == ROOT;
  }

  lemma Chain2(v: Volume, raw: seq<byte>, i: nat, a: nat)
    requires i < 15
    ensures At(v, raw, [i, a]) == Word(v, Root(raw, i), a)
  {
    hide Read32;
    Chain1(v, raw, i);
    assert [i, a][..1] == [i];
  }

  lemma Chain3(v: Volume, raw: seq<byte>, i: nat, a: nat, b: nat)
    requires i < 15
    ensures At(v, raw, [i, a, b]) == Word(v, Word(v, Root(raw, i), a), b)
  {
    hide Read32;
    Chain2(v, raw, i, a);
    assert [i, a, b][..2] == [i, a];
  }

  lemma Chain4(v: Volume, raw: seq<byte>, i: nat, a: nat, b: nat, c: nat)
    requires i < 15
    ensures At(v, raw, [i, a, b, c]) == Word(v, Word(v, Word(v, Root(raw, i), a), b), c)
  {
    hide Read32;
    Chain3(v, raw, i, a, b);
    assert [i, a, b, c][..3] == [i, a, b];
  }

  /** Distinct blocks of a file are held in distinct blocks of the volume. */
  lemma LookupInjective(v: Volume, raw: seq<byte>, i: nat, j: nat)
    requires FileMap(v, raw) && Ptrs(v.geo) > 0
    requires Lookup(v, raw, i) == Lookup(v, raw, j) != 0
    ensures i == j
  {
    hide IsMeta, IsUsed, Dom, PathOf;
    PathInDom(Ptrs(v.geo), i);
    PathInDom(Ptrs(v.geo), j);
    PathPrefix(Ptrs(v.geo), i, j);
  }

  /** Growing the map for one index changes the block of no other index, and no data. */
  lemma ExtendsLookup(v: Volume, raw: seq<byte>, w: Volume, raw': seq<byte>, idx: nat, j: nat)
    requires Ptrs(v.geo) > 0 && Extends(v, raw, w, raw', PathOf(Ptrs(v.geo), idx))
    ensures j != idx || Lookup(v, raw, j) != 0 ==> Lookup(w, raw', j) == Lookup(v, raw, j)
    ensures PathOf(Ptrs(v.geo), j) != [] ==>
      Data(w, raw', PathOf(Ptrs(v.geo), j)) == Data(v, raw, PathOf(Ptrs(v.geo), j))
  {
    var p := Ptrs(v.geo);
    PathInDom(p, j);
    if PathOf(p, j) != [] && PathOf(p, j) <= PathOf(p, idx) {
      PathPrefix(p, j, idx);
    }
    hide IsMeta, IsUsed, Dom, PathOf, At, Data, Leaf, Kept;
  }

  /**
   Finds the block that holds block `idx` of a file. With `allocate` set, missing blocks on
   the way are allocated, zeroed and linked; without it nothing changes.
   */
  method GetBlockNum(fs: Ext2, raw: seq<byte>, idx: nat, allocate: bool) returns (b: nat, raw': seq<byte>)
    requires Valid(fs.vol) && FileMap(fs.vol, raw) && Ptrs(fs.vol.geo) > 0
    modifies fs
    ensures Valid(fs.vol) && FileMap(fs.vol, raw') && fs.vol.geo == old(fs.vol.geo)
    ensures Extends(old(fs.vol), raw, fs.vol, raw', PathOf(Ptrs(fs.vol.geo), idx))
    ensures b == Lookup(fs.vol, raw', idx)
    ensures !allocate ==> fs.vol == old(fs.vol) && raw' == raw
    ensures b == 0 && allocate && PathOf(Ptrs(fs.vol.geo), idx) != [] ==> FreeBlocks(fs.vol) == 0
  {
    hide IsMeta, IsUsed, Dom, At, Extends, Leaf, FileMap, Valid, Ptrs;
    ghost var v := fs.vol;
    var path := PathOf(Ptrs(fs.vol.geo), idx);
    raw' := raw;
    FileMapSize(v, raw);
    ExtendsSelf(v, raw, path);
    if path == [] {
      return 0, raw;
    }
    PathInDom(Ptrs(v.geo), idx);
    hide PathOf;
    b := 0;
    var node := ROOT;
    AtRoot(v, raw);
    var k := 0;
    while k < |path|
      invariant 0 <= k <= |path|
      invariant Valid(fs.vol) && FileMap(fs.vol, raw') && fs.vol.geo == v.geo
      invariant Extends(v, raw, fs.vol, raw', path)
      invariant At(fs.vol, raw', path[..k]) == node != 0
      invariant k > 0 ==> b == node
      invariant !allocate ==> fs.vol == v && raw' == raw
    {
      ghost var u, r1 := fs.vol, raw';
      DomPrefix(Ptrs(v.geo), path, k);
      DomPrefix(Ptrs(v.geo), path, k + 1);
      assert path[..k] + [path[k]] == path[..k + 1];
      b, raw' := ChildOf(fs, raw', path[..k], node, path[k], allocate);
      ExtendsFurther(u, r1, fs.vol, raw', path[..k + 1], path);
      ExtendsTrans(v, raw, u, r1, fs.vol, raw', path, path);
      if b == 0 {
        NoneBelow(fs.vol, raw', path, k + 1);
        return;
      }
      node := b;
      k := k + 1;
    }
    assert path[..k] == path;
  }

  lemma AtRoot(v: Volume, raw: seq<byte>)
    ensures At(v, raw, []) == ROOT
  {
  }

  lemma DomPrefix(p: nat, path: Path, k: nat)
    requires path in Dom(p) && k <= |path|
    ensures path[..k] in Dom(p)
  {
  }

  lemma ExtendsFurther(v: Volume, raw: seq<byte>, w: Volume, raw': seq<byte>, q: Path, path: Path)
    requires Extends(v, raw, w, raw', q) && q <= path
    ensures Extends(v, raw, w, raw', path) && w.geo == v.geo
  {
    hide IsMeta, IsUsed, Dom, At, SameData, Kept;
  }

  /** Below an empty slot there is nothing. */
  lemma {:induction false} NoneBelow(v: Volume, raw: seq<byte>, path: Path, k: nat)
    requires k <= |path| && At(v, raw, path[..k]) == 0
    ensures At(v, raw, path) == 0
    decreases |path| - k
  {
    if k < |path| {
      assert Parent(path[..k + 1]) == path[..k];
      NoneBelow(v, raw, path, k + 1);
    } else {
      assert path[..k] == path;
    }
  }
}
