/** Byte-level file input and output over the block map: files behave as byte sequences. */
module Ext2File {
  import opened Arith
  import opened Bytes
  import opened Ext2Volume
  import opened Ext2Alloc
  import opened RadixTree
  import opened Ext2BlockMap

  const ERROR_NO_SPACE := -6
  const ERROR_IS_DIR := -8

  /** `i_size` */
  function Size(raw: seq<byte>): nat { if |raw| >= 8 then Read32(raw, 4) else 0 }

  /** Byte `k` of the file, through holes and past the end. */
  function ByteAt(v: Volume, raw: seq<byte>, k: nat): byte {
    if Ptrs(v.geo) == 0 || v.geo.bs == 0 then 0 else
    var x := PathOf(Ptrs(v.geo), Div(k, v.geo.bs));
    if x == [] || Mod(k, v.geo.bs) >= |Data(v, raw, x)| then 0 else Data(v, raw, x)[Mod(k, v.geo.bs)]
  }

  /** The bytes of the file. */
  function Content(v: Volume, raw: seq<byte>): (r: seq<byte>)
    ensures |r| == Size(raw) && forall k :: 0 <= k < |r| ==> r[k] == ByteAt(v, raw, k)
  {
    seq(Size(raw), k requires k >= 0 => ByteAt(v, raw, k))
  }

  /** Bytes of allocated blocks past the end of the file are zero. */
  ghost predicate TailZero(v: Volume, raw: seq<byte>) {
    forall k: nat :: k >= Size(raw) ==> ByteAt(v, raw, k) == 0
  }

  ghost predicate FileOk(v: Volume, raw: seq<byte>) { FileMap(v, raw) && TailZero(v, raw) }

  /** What a reader finds in block `i`: zeros for a hole. */
  function BlockRead(v: Volume, raw: seq<byte>, i: nat): seq<byte>
    requires Ptrs(v.geo) > 0
  {
    if Lookup(v, raw, i) > 0 then BlockAt(v, Lookup(v, raw, i)) else Zeros(v.geo.bs)
  }

  /** Block by block, the content is what the blocks hold. */
  lemma ContentBlock(v: Volume, raw: seq<byte>, i: nat, start: nat)
    requires Valid(v) && FileMap(v, raw) && Ptrs(v.geo) > 0 && start == i * v.geo.bs && start + v.geo.bs <= Size(raw)
    ensures Content(v, raw)[start..start + v.geo.bs] == BlockRead(v, raw, i)
  {
    hide Valid, FileMap, Size, Content, Ptrs, BlockRead, ByteAt;
    ContentSize(v, raw);
    forall j | 0 <= j < v.geo.bs
      ensures |BlockRead(v, raw, i)| == v.geo.bs && Content(v, raw)[start + j] == BlockRead(v, raw, i)[j]
    {
      BlockByte(v, raw, i, start, j);
      ContentAt(v, raw, start + j);
    }
    ValidSizes(v);
    BlockByte(v, raw, i, start, 0);
  }

  lemma BlockByte(v: Volume, raw: seq<byte>, i: nat, start: nat, j: nat)
    requires Valid(v) && FileMap(v, raw) && Ptrs(v.geo) > 0 && j < v.geo.bs
    requires start == i * v.geo.bs && start + j < Size(raw)
    ensures |BlockRead(v, raw, i)| == v.geo.bs && ByteAt(v, raw, start + j) == BlockRead(v, raw, i)[j]
  {
    hide Valid, FileMap, Size, At, Ptrs, PathOf, BlockAt;
    ValidSizes(v);
    SizeBelow(raw);
    Within(i, j, start, v.geo.bs);
    PathExists(Ptrs(v.geo), v.geo.bs, start + j);
    if Lookup(v, raw, i) > 0 { LookupOwn(v, raw, i); }
  }

  lemma Within(i: nat, j: nat, start: nat, bs: nat)
    requires j < bs && start == i * bs
    ensures Div(start + j, bs) == i && Mod(start + j, bs) == j
  {
    DivModUnique(i, j, bs);
  }

  lemma ContentSize(v: Volume, raw: seq<byte>)
    ensures |Content(v, raw)| == Size(raw)
  {
  }

  lemma ContentAt(v: Volume, raw: seq<byte>, k: nat)
    requires k < Size(raw)
    ensures k < |Content(v, raw)| && Content(v, raw)[k] == ByteAt(v, raw, k)
  {
  }

  /** The sequence `c`, zero-padded to `p` when shorter, with `d` written over it at `p`. */
  function Overwrite(c: seq<byte>, p: nat, d: seq<byte>): (r: seq<byte>)
    ensures d == [] ==> r == c
    ensures d != [] ==> |r| == if |c| < p + |d| then p + |d| else |c|
    ensures d != [] ==> forall k :: 0 <= k < |r| ==>
              r[k] == if p <= k < p + |d| then d[k - p] else if k < |c| then c[k] else 0
  {
    if d == [] then c
    else
      var padded := if |c| < p then c + Zeros(p - |c|) else c;
      padded[..p] + d + (if p + |d| < |padded| then padded[p + |d|..] else [])
  }

  // ---------------------------------------------------------------- changing data blocks

  /** Other files' blocks: still in use, still not this file's, still the same. */
  ghost predicate Apart(v: Volume, raw: seq<byte>, w: Volume, raw': seq<byte>) {
    SameSuper(v, w) && forall c: nat :: 0 < c && v.geo.fdb <= c < v.geo.count && IsUsed(v, c) ==>
      && IsUsed(w, c)
      && (NotIn(v, raw, c) ==> NotIn(w, raw', c) && (!IsMeta(v.geo, c) ==> BlockAt(w, c) == BlockAt(v, c)))
  }

  lemma ApartSelf(v: Volume, raw: seq<byte>)
    ensures Apart(v, raw, v, raw)
  {
    hide IsUsed, IsMeta, NotIn;
  }

  lemma ApartTrans(v: Volume, raw: seq<byte>, u: Volume, raw1: seq<byte>, w: Volume, raw2: seq<byte>)
    requires Apart(v, raw, u, raw1) && Apart(u, raw1, w, raw2)
    ensures Apart(v, raw, w, raw2)
  {
    hide IsUsed, IsMeta, NotIn;
  }

  lemma ExtendsApart(v: Volume, raw: seq<byte>, w: Volume, raw': seq<byte>, path: Path)
    requires Extends(v, raw, w, raw', path)
    ensures Apart(v, raw, w, raw')
  {
  }

  /** A leaf has no slots in the map: storing into a data block does not touch the tree. */
  lemma LeafHasNoSlots(p: nat, x: Path, j: nat)
    requires Leaf(x)
    ensures x + [j] !in Dom(p)
  {
  }

  lemma WriteKeepsTree(v: Volume, raw: seq<byte>, x: Path, data: seq<byte>)
    requires FileMap(v, raw) && x in Dom(Ptrs(v.geo)) && Leaf(x) && At(v, raw, x) > 0
    ensures var w := Put(v, At(v, raw, x), data);
      && Separated(Slots(raw, w), ROOT, Dom(Ptrs(v.geo)))
      && forall y :: y in Dom(Ptrs(v.geo)) ==> At(w, raw, y) == At(v, raw, y)
  {
    hide Dom, SlotOf, Leaf, Ownable;
    var dom := Dom(Ptrs(v.geo));
    var w := Put(v, At(v, raw, x), data);
    DomClosed(Ptrs(v.geo));
    var child, child' := Slots(raw, v), Slots(raw, w);
    forall y, j: nat | y in dom && y + [j] in dom && Node(child, ROOT, y) != 0
      ensures child'(Node(child, ROOT, y), j) == child(Node(child, ROOT, y), j)
    {
      AtIs(v, raw, y);
      WriteKeepsSlot(v, raw, x, data, y, j);
    }
    SameTree(child, child', ROOT, dom);
  }

  lemma WriteKeepsSlot(v: Volume, raw: seq<byte>, x: Path, data: seq<byte>, y: Path, j: nat)
    requires FileMap(v, raw) && x in Dom(Ptrs(v.geo)) && Leaf(x) && At(v, raw, x) > 0
    requires y in Dom(Ptrs(v.geo)) && y + [j] in Dom(Ptrs(v.geo)) && At(v, raw, y) != 0
    ensures SlotOf(raw, Put(v, At(v, raw, x), data), At(v, raw, y), j) == SlotOf(raw, v, At(v, raw, y), j)
  {
    hide Dom, Leaf, At, FileMap;
    OneSlot(v, raw, x, y);
    LeafHasNoSlots(Ptrs(v.geo), x, j);
  }

  /** Storing into the data block at a leaf changes the file there and nowhere else. */
  lemma WriteData(v: Volume, raw: seq<byte>, x: Path, data: seq<byte>)
    requires Valid(v) && FileMap(v, raw) && x in Dom(Ptrs(v.geo)) && Leaf(x) && At(v, raw, x) > 0 && |data| == v.geo.bs
    ensures var w := Put(v, At(v, raw, x), data);
      && Valid(w) && FileMap(w, raw) && Apart(v, raw, w, raw) && SameTables(v, w)
      && forall y :: y in Dom(Ptrs(v.geo)) && Leaf(y) ==> Data(w, raw, y) == if y == x then data else Data(v, raw, y)
  {
    hide Dom, SlotOf, Leaf, IsMeta, IsUsed, Slots, Separated, At, Valid;
    var b := At(v, raw, x);
    var w := Put(v, b, data);
    NodeIsOwn(v, raw, x);
    PutKeeps(v, b, data);
    WriteKeepsTree(v, raw, x, data);
    ValidSizes(v);
    forall y | y in Dom(Ptrs(v.geo)) && y != x && At(v, raw, y) > 0 ensures At(v, raw, y) != b {
      OneSlot(v, raw, x, y);
    }
    forall c: nat | NotIn(v, raw, c) ensures NotIn(w, raw, c) && c != b {
      InNotOut(v, raw, x, c);
      forall y | y in Dom(Ptrs(v.geo)) ensures Node(Slots(raw, w), ROOT, y) != c {
        AtIs(v, raw, y);
        AtIs(w, raw, y);
      }
    }
  }

  lemma ValidSizes(v: Volume)
    requires Valid(v)
    ensures v.geo.bs >= 1024 && |v.blocks| == v.geo.count && Ptrs(v.geo) >= 256
    ensures forall b: nat :: b < v.geo.count ==> |BlockAt(v, b)| == v.geo.bs
  {
    hide IsMeta, IsUsed, BlocksCounted, InodesCounted, Padded, MetaUsed, DescsOnDisk, Layout;
  }

  lemma OneSlot(v: Volume, raw: seq<byte>, x: Path, y: Path)
    requires FileMap(v, raw) && x in Dom(Ptrs(v.geo)) && y in Dom(Ptrs(v.geo))
    ensures At(v, raw, x) == At(v, raw, y) != 0 ==> x == y
  {
    hide Dom, IsMeta, IsUsed;
  }

  /** Changes before `i_block` do not concern the map. */
  lemma HeadChange(v: Volume, raw: seq<byte>, raw': seq<byte>)
    requires FileMap(v, raw) && |raw'| == 128 && forall k :: 40 <= k < 128 ==> raw'[k] == raw[k]
    ensures FileMap(v, raw') && Apart(v, raw, v, raw')
    ensures forall x :: x in Dom(Ptrs(v.geo)) ==> Data(v, raw', x) == Data(v, raw, x)
  {
    var dom := Dom(Ptrs(v.geo));
    DomClosed(Ptrs(v.geo));
    forall n: int, i: nat ensures SlotOf(raw', v, n, i) == SlotOf(raw, v, n, i) {
    }
    hide Dom, SlotOf, IsMeta, IsUsed, Separated;
    SameTree(Slots(raw, v), Slots(raw', v), ROOT, dom);
    assert forall x :: x in dom ==> At(v, raw', x) == At(v, raw, x);
  }

  // ---------------------------------------------------------------- bytes of a file

  /** Positions below 2^32 are within reach of the triple-indirect tree. */
  lemma PathExists(p: nat, bs: nat, pos: nat)
    requires p >= 256 && bs >= 1024 && pos < 0x1_0000_0000
    ensures PathOf(p, Div(pos, bs)) != []
  {
    assert p * p >= 65536 by { MulMono(256, p, 256); MulMono(256, p, p); }
    assert p * p * p >= 16777216 by { MulMono(65536, p * p, 256); MulMono(256, p, p * p); }
    DivLess(pos, 0x40_0000, bs);
  }

  lemma BytesSame(v: Volume, raw: seq<byte>, w: Volume, raw': seq<byte>)
    requires w.geo == v.geo && SameData(v, raw, w, raw')
    ensures forall k: nat :: ByteAt(w, raw', k) == ByteAt(v, raw, k)
  {
    hide Dom, Leaf, Data, PathOf, Ptrs, Div, Mod;
    forall k: nat ensures ByteAt(w, raw', k) == ByteAt(v, raw, k) {
      if Ptrs(v.geo) > 0 && v.geo.bs > 0 {
        PathInDom(Ptrs(v.geo), Div(k, v.geo.bs));
      }
    }
  }

  /** The data blocks of the file, before and after a chunk was stored at `pos`. */
  ghost predicate ChunkStored(v: Volume, raw: seq<byte>, w: Volume, pos: nat, chunk: seq<byte>) {
    && w.geo == v.geo && Ptrs(v.geo) > 0 && v.geo.bs > 0 && Mod(pos, v.geo.bs) + |chunk| <= v.geo.bs
    && var x := PathOf(Ptrs(v.geo), Div(pos, v.geo.bs));
    && x != [] && |Data(v, raw, x)| == v.geo.bs
    && forall y :: y in Dom(Ptrs(v.geo)) && Leaf(y) ==>
         Data(w, raw, y) == if y == x then Splice(Data(v, raw, x), Mod(pos, v.geo.bs), chunk) else Data(v, raw, y)
  }

  lemma ByteWritten(v: Volume, raw: seq<byte>, w: Volume, pos: nat, chunk: seq<byte>, k: nat)
    requires ChunkStored(v, raw, w, pos, chunk)
    ensures ByteAt(w, raw, k) == if pos <= k < pos + |chunk| then chunk[k - pos] else ByteAt(v, raw, k)
  {
    hide Dom, Leaf, Data, PathOf, Ptrs, Div, Mod;
    var p, bs := Ptrs(v.geo), v.geo.bs;
    PathInDom(p, Div(k, bs));
    InChunk(k, pos, bs, |chunk|);
    if PathOf(p, Div(k, bs)) == PathOf(p, Div(pos, bs)) {
      PathPrefix(p, Div(pos, bs), Div(k, bs));
    }
  }

  /** One chunk of a write, byte by byte. */
  lemma BytesWritten(v: Volume, raw: seq<byte>, w: Volume, pos: nat, chunk: seq<byte>)
    requires ChunkStored(v, raw, w, pos, chunk)
    ensures forall k: nat :: ByteAt(w, raw, k) == if pos <= k < pos + |chunk| then chunk[k - pos] else ByteAt(v, raw, k)
  {
    hide ByteAt, ChunkStored;
    forall k: nat ensures ByteAt(w, raw, k) == if pos <= k < pos + |chunk| then chunk[k - pos] else ByteAt(v, raw, k) {
      ByteWritten(v, raw, w, pos, chunk, k);
    }
  }

  // ---------------------------------------------------------------- the inode table

  function InodeBlock(g: Geometry, num: nat): nat {
    var k := InodeGroup(g, num);
    if k < |g.places| && g.bs > 0 then g.places[k].inodeTable + InodeIndex(g, num) * g.isz / g.bs else 0
  }

  function InodeOffset(g: Geometry, num: nat): nat {
    if g.bs > 0 then InodeIndex(g, num) * g.isz % g.bs else 0
  }

  lemma SizeBelow(raw: seq<byte>)
    ensures Size(raw) < 0x1_0000_0000
  {
  }

  /** What `ext2_read_inode` reads. */
  function InodeAt(v: Volume, num: nat): seq<byte> {
    var s, off := BlockAt(v, InodeBlock(v.geo, num)), InodeOffset(v.geo, num);
    if off + 128 <= |s| then s[off..off + 128] else []
  }

  lemma InodeInTable(g: Geometry, num: nat)
    requires Geometric(g) && 0 < num <= g.inodes
    ensures InodeGroup(g, num) < |g.places| && InTable(g, InodeGroup(g, num), InodeBlock(g, num))
    ensures InodeOffset(g, num) + 128 <= g.bs
  {
    hide Layout, InodeGroup, InodeIndex, Sizes;
    InodePlace(g, num);
    TableRecord(InodeIndex(g, num), g.ipg, g.isz, g.itb, g.bs);
  }

  lemma TableRecord(i: nat, ipg: nat, isz: nat, itb: nat, bs: nat)
    requires i < ipg && isz >= 128 && bs > 0 && bs % isz == 0 && ipg * isz <= itb * bs
    ensures i * isz / bs < itb && i * isz % bs + 128 <= bs
  {
    NoStraddle(i, isz, bs);
    TableIndex(i, ipg, isz, itb, bs);
  }

  lemma InodePlace(g: Geometry, num: nat)
    requires Sizes(g) && 0 < num <= g.inodes
    ensures InodeGroup(g, num) < |g.places| && InodeIndex(g, num) < g.ipg
    ensures g.isz >= 128 && g.bs > 0 && g.bs % g.isz == 0 && g.ipg * g.isz <= g.itb * g.bs
  {
    hide Times, InodeGroup, InodeIndex;
    LocateInode(g, num);
    TimesIsMul(g.ipg, g.isz);
    TimesIsMul(g.itb, g.bs);
    InodesDivide(g.bs, g.isz);
  }

  lemma InodesDivide(bs: nat, isz: nat)
    requires bs % 1024 == 0 && (isz == 128 || isz == 256 || isz == 512 || isz == 1024)
    ensures bs % isz == 0
  {
    var q := bs / 1024;
    assert bs == 128 * (8 * q) && bs == 256 * (4 * q) && bs == 512 * (2 * q) && bs == 1024 * q;
    if isz == 128 {
      DivModUnique(8 * q, 0, 128);
    } else if isz == 256 {
      DivModUnique(4 * q, 0, 256);
    } else if isz == 512 {
      DivModUnique(2 * q, 0, 512);
    }
  }

  lemma TableIndex(i: nat, ipg: nat, isz: nat, itb: nat, bs: nat)
    requires i < ipg && isz > 0 && bs > 0 && ipg * isz <= itb * bs
    ensures i * isz / bs < itb
  {
  }

  lemma TableSameMaps(v: Volume, k: nat, b: nat, data: seq<byte>)
    requires Layout(v.geo) && InTable(v.geo, k, b)
    ensures SameMaps(v, Put(v, b, data)) && IsMeta(v.geo, b) && SameSuper(v, Put(v, b, data))
  {
    assert IsMetaOf(v.geo, k, b);
    forall l: nat ensures BlockMap(Put(v, b, data), l) == BlockMap(v, l)
      && InodeMap(Put(v, b, data), l) == InodeMap(v, l) {
    }
  }

  /** Storing an inode keeps the volume's invariants and touches no file's blocks. */
  lemma InodeStoreKeeps(v: Volume, raw: seq<byte>, num: nat, data: seq<byte>)
    requires Valid(v) && FileMap(v, raw) && 0 < num <= v.geo.inodes && |data| == v.geo.bs
    ensures var w := Put(v, InodeBlock(v.geo, num), data);
      && Valid(w) && FileMap(w, raw) && SameData(v, raw, w, raw) && Apart(v, raw, w, raw)
      && BlockAt(w, InodeBlock(v.geo, num)) == data
      && forall x :: x in Dom(Ptrs(v.geo)) ==> At(w, raw, x) == At(v, raw, x)
  {
    hide BlocksCounted, InodesCounted, DescsOnDisk, Padded, MetaUsed, IsMeta, IsUsed, SameMaps, Dom, At, Separated,
      Slots, InodeBlock;
    var b := InodeBlock(v.geo, num);
    var w := Put(v, b, data);
    InodeInTable(v.geo, num);
    TableSameMaps(v, InodeGroup(v.geo, num), b, data);
    ValidSizes(v);
    assert b < v.geo.count;
    SameMapsValid(v, w);
    SameMapsUsed(v, w);
    forall x | x in Dom(Ptrs(v.geo)) && x != [] && At(v, raw, x) != 0
      ensures BlockAt(w, At(v, raw, x)) == BlockAt(v, At(v, raw, x)) && Ownable(w, At(v, raw, x))
    {
      NodeIsOwn(v, raw, x);
    }
    SameFile(v, w, raw);
    forall c: nat | NotIn(v, raw, c) ensures NotIn(w, raw, c) {
      forall y | y in Dom(Ptrs(v.geo)) ensures Node(Slots(raw, w), ROOT, y) != c {
        AtIs(v, raw, y);
        AtIs(w, raw, y);
      }
    }
  }

  // ---------------------------------------------------------------- reading and writing

  /** An open handle: the inode number, a private copy of the inode, and a position. */
  class OpenFile {
    const num: nat
    const isDirectory: bool
    var inode: seq<byte>
    var position: nat

    constructor (num: nat, isDirectory: bool, inode: seq<byte>)
      ensures this.num == num && this.isDirectory == isDirectory && this.inode == inode && position == 0
    {
      this.num, this.isDirectory, this.inode, position := num, isDirectory, inode, 0;
    }
  }

  function Min(a: nat, b: nat): nat { if a < b then a else b }

  function Max(a: nat, b: nat): nat { if a < b then b else a }

  /** Bytes of block `Div(pos, bs)` from `pos` on, as stored. */
  lemma ChunkOf(v: Volume, raw: seq<byte>, pos: nat, n: nat, data: seq<byte>)
    requires Ptrs(v.geo) > 0 && v.geo.bs > 0 && Mod(pos, v.geo.bs) + n <= v.geo.bs == |data|
    requires PathOf(Ptrs(v.geo), Div(pos, v.geo.bs)) != []
    requires Data(v, raw, PathOf(Ptrs(v.geo), Div(pos, v.geo.bs))) == data
    ensures forall q: nat :: pos <= q < pos + n ==> ByteAt(v, raw, q) == data[q - pos + Mod(pos, v.geo.bs)]
  {
    hide PathOf, Data, Ptrs, Div, Mod;
    forall q: nat | pos <= q < pos + n ensures ByteAt(v, raw, q) == data[q - pos + Mod(pos, v.geo.bs)] {
      InChunk(q, pos, v.geo.bs, n);
    }
  }

  /** Reads from the position to at most the end of the file: a slice of its content. */
  method Read(fs: Ext2, f: OpenFile, size: nat) returns (n: int, buffer: seq<byte>)
    requires Valid(fs.vol) && FileMap(fs.vol, f.inode)
    modifies fs, f
    ensures fs.vol == old(fs.vol) && f.inode == old(f.inode)
    ensures f.isDirectory ==> n == ERROR_IS_DIR && buffer == [] && f.position == old(f.position)
    ensures !f.isDirectory ==> n == |buffer| && f.position == old(f.position) + n
    ensures !f.isDirectory && old(f.position) >= Size(f.inode) ==> buffer == []
    ensures !f.isDirectory && old(f.position) < Size(f.inode) ==>
              buffer == Content(fs.vol, f.inode)[old(f.position)..Min(old(f.position) + size, Size(f.inode))]
  {
    hide Valid, FileMap, ByteAt, PathOf, Extends, At, IsUsed, IsMeta, Dom, Div, Mod, Holds, Content, Size, Leaf;
    buffer := [];
    if f.isDirectory {
      return ERROR_IS_DIR, [];
    }
    var fileSize := Size(f.inode);
    if f.position >= fileSize {
      return 0, [];
    }
    ghost var v, raw, p0 := fs.vol, f.inode, f.position;
    ValidSizes(v);
    SizeBelow(raw);
    HoldsNothing(v, raw, p0);
    var toRead := Min(size, fileSize - f.position);
    while |buffer| < toRead
      invariant fs.vol == v && f.inode == raw
      invariant |buffer| <= toRead && f.position == p0 + |buffer|
      invariant Holds(v, raw, p0, buffer)
      decreases toRead - |buffer|
    {
      var bs := fs.vol.geo.bs;
      var blockIndex, blockOffset := Div(f.position, bs), Mod(f.position, bs);
      var chunk := Min(toRead - |buffer|, bs - blockOffset);
      PathExists(Ptrs(v.geo), bs, f.position);
      var b, _ := GetBlockNum(fs, f.inode, blockIndex, false);
      LookupIs(v, raw, blockIndex);
      ghost var pos := f.position;
      if b == 0 {
        ChunkOf(v, raw, pos, chunk, Zeros(bs));
        HoldsMore(v, raw, p0, buffer, Zeros(chunk));
        buffer := buffer + Zeros(chunk);
      } else {
        LookupOwn(v, raw, blockIndex);
        ChunkOf(v, raw, pos, chunk, BlockAt(v, b));
        HoldsMore(v, raw, p0, buffer, BlockAt(v, b)[blockOffset..blockOffset + chunk]);
        buffer := buffer + BlockAt(fs.vol, b)[blockOffset..blockOffset + chunk];
      }
      f.position := f.position + chunk;
    }
    n := |buffer|;
    HoldsSlice(v, raw, p0, buffer);
  }

  /** The file's bytes from `pos` on are `s`. */
  ghost predicate Holds(v: Volume, raw: seq<byte>, pos: nat, s: seq<byte>) {
    forall q: nat :: pos <= q < pos + |s| ==> ByteAt(v, raw, q) == s[q - pos]
  }

  lemma HoldsNothing(v: Volume, raw: seq<byte>, pos: nat)
    ensures Holds(v, raw, pos, [])
  {
  }

  lemma HoldsMore(v: Volume, raw: seq<byte>, pos: nat, s: seq<byte>, t: seq<byte>)
    requires Holds(v, raw, pos, s) && forall q: nat :: pos + |s| <= q < pos + |s| + |t| ==>
      ByteAt(v, raw, q) == t[q - pos - |s|]
    ensures Holds(v, raw, pos, s + t)
  {
    hide ByteAt;
  }

  lemma HoldsSlice(v: Volume, raw: seq<byte>, pos: nat, s: seq<byte>)
    requires Holds(v, raw, pos, s) && pos + |s| <= Size(raw)
    ensures s == Content(v, raw)[pos..pos + |s|]
  {
    hide ByteAt;
    var c := Content(v, raw);
    forall i | 0 <= i < |s| ensures s[i] == c[pos..pos + |s|][i] {
      assert c[pos..pos + |s|][i] == ByteAt(v, raw, pos + i);
    }
  }

  lemma LookupIs(v: Volume, raw: seq<byte>, idx: nat)
    requires Ptrs(v.geo) > 0 && PathOf(Ptrs(v.geo), idx) != []
    ensures PathOf(Ptrs(v.geo), idx) in Dom(Ptrs(v.geo)) && Leaf(PathOf(Ptrs(v.geo), idx))
    ensures Lookup(v, raw, idx) == At(v, raw, PathOf(Ptrs(v.geo), idx))
  {
    PathInDom(Ptrs(v.geo), idx);
  }

  lemma LookupOwn(v: Volume, raw: seq<byte>, idx: nat)
    requires Valid(v) && FileMap(v, raw) && Ptrs(v.geo) > 0 && Lookup(v, raw, idx) > 0
    ensures Lookup(v, raw, idx) < |v.blocks| && |BlockAt(v, Lookup(v, raw, idx))| == v.geo.bs
  {
    hide Valid, IsMeta, IsUsed, PathOf, Dom;
    ValidSizes(v);
    PathInDom(Ptrs(v.geo), idx);
  }

  /** The bytes `done`, written at `p0`, are all that distinguishes two states of a file. */
  ghost predicate Bytewise(v0: Volume, raw0: seq<byte>, v: Volume, raw: seq<byte>, p0: nat, done: seq<byte>) {
    forall k: nat :: ByteAt(v, raw, k) == if p0 <= k < p0 + |done| then done[k - p0] else ByteAt(v0, raw0, k)
  }

  ghost predicate Written(v0: Volume, raw0: seq<byte>, v: Volume, raw: seq<byte>, p0: nat, done: seq<byte>) {
    && Valid(v) && FileMap(v, raw) && Apart(v0, raw0, v, raw)
    && Bytewise(v0, raw0, v, raw, p0, done)
    && Size(raw) == (if done == [] then Size(raw0) else Max(Size(raw0), p0 + |done|))
    && SameFields(raw0, raw)
  }

  /** What is stored before the block pointers is the same, but for the size. */
  ghost predicate SameFields(raw: seq<byte>, raw': seq<byte>) {
    |raw'| == |raw| && forall k :: (0 <= k < 4 || 8 <= k < 40) && k < |raw| ==> raw'[k] == raw[k]
  }

  lemma HeadFields(raw: seq<byte>, raw': seq<byte>)
    requires SameHead(raw, raw')
    ensures SameFields(raw, raw')
  {
  }

  lemma ResizeFields(raw: seq<byte>, end: nat)
    ensures SameFields(raw, Resize(raw, end))
  {
  }

  lemma FieldsTrans(raw0: seq<byte>, raw1: seq<byte>, raw2: seq<byte>)
    requires SameFields(raw0, raw1) && SameFields(raw1, raw2)
    ensures SameFields(raw0, raw2)
  {
  }

  /** The volume after `memcpy(block_data + block_offset, chunk)` on block `b`. */
  function PutChunk(u: Volume, b: nat, pos: nat, chunk: seq<byte>): Volume {
    if u.geo.bs > 0 && Mod(pos, u.geo.bs) + |chunk| <= |BlockAt(u, b)|
    then Put(u, b, Splice(BlockAt(u, b), Mod(pos, u.geo.bs), chunk)) else u
  }

  function Resize(raw: seq<byte>, end: nat): seq<byte> {
    if |raw| == 128 && end > Size(raw) then Write32(raw, 4, end) else raw
  }

  lemma ResizeHead(raw: seq<byte>, end: nat)
    requires |raw| == 128 && end < 0x1_0000_0000
    ensures |Resize(raw, end)| == 128 && forall k :: 40 <= k < 128 ==> Resize(raw, end)[k] == raw[k]
    ensures Size(Resize(raw, end)) == Max(Size(raw), end)
  {
    if end > Size(raw) {
      Read32OfWrite32(raw, 4, end, 4);
    }
  }

  lemma SameHeadSize(raw: seq<byte>, raw': seq<byte>)
    requires SameHead(raw, raw')
    ensures Size(raw') == Size(raw)
  {
  }

  lemma BytewiseStep(v0: Volume, raw0: seq<byte>, v: Volume, raw: seq<byte>, w: Volume, raw': seq<byte>, p0: nat,
                     done: seq<byte>, chunk: seq<byte>)
    requires Bytewise(v0, raw0, v, raw, p0, done) && Bytewise(v, raw, w, raw', p0 + |done|, chunk)
    ensures Bytewise(v0, raw0, w, raw', p0, done + chunk)
  {
    hide ByteAt;
  }

  /** Storing a chunk into a mapped block of the file, then growing `i_size` to cover it. */
  lemma StoreChunk(u: Volume, raw: seq<byte>, pos: nat, b: nat, chunk: seq<byte>)
    requires Valid(u) && FileMap(u, raw) && Ptrs(u.geo) > 0 && u.geo.bs > 0
    requires pos + |chunk| < 0x1_0000_0000 && Mod(pos, u.geo.bs) + |chunk| <= u.geo.bs
    requires b > 0 && Lookup(u, raw, Div(pos, u.geo.bs)) == b && |BlockAt(u, b)| == u.geo.bs
    ensures var w, raw' := PutChunk(u, b, pos, chunk), Resize(raw, pos + |chunk|);
      Valid(w) && FileMap(w, raw') && Apart(u, raw, w, raw') && Bytewise(u, raw, w, raw', pos, chunk)
        && SameTables(u, w)
  {
    hide Valid, FileMap, ByteAt, PathOf, At, IsUsed, IsMeta, Div, Mod, Ptrs, NotIn, Separated, Slots, Resize, Apart,
      Leaf, Dom;
    var x := PathOf(Ptrs(u.geo), Div(pos, u.geo.bs));
    LookupIs(u, raw, Div(pos, u.geo.bs));
    var data := Splice(BlockAt(u, b), Mod(pos, u.geo.bs), chunk);
    var w, raw' := Put(u, b, data), Resize(raw, pos + |chunk|);
    WriteData(u, raw, x, data);
    assert ChunkStored(u, raw, w, pos, chunk);
    BytesWritten(u, raw, w, pos, chunk);
    FileMapSize(w, raw);
    ResizeHead(raw, pos + |chunk|);
    HeadChange(w, raw, raw');
    BytesSame(w, raw, w, raw');
    ApartTrans(u, raw, w, raw, w, raw');
  }

  /** One turn of the loop of `ext2_write`. */
  lemma WrittenStep(v0: Volume, raw0: seq<byte>, v: Volume, raw: seq<byte>, p0: nat, done: seq<byte>,
                    u: Volume, raw1: seq<byte>, b: nat, chunk: seq<byte>)
    requires Written(v0, raw0, v, raw, p0, done) && chunk != []
    requires Ptrs(v.geo) > 0 && u.geo == v.geo && v.geo.bs > 0
    requires Valid(u) && FileMap(u, raw1) && Extends(v, raw, u, raw1, PathOf(Ptrs(v.geo), Div(p0 + |done|, v.geo.bs)))
    requires p0 + |done| + |chunk| < 0x1_0000_0000 && Mod(p0 + |done|, u.geo.bs) + |chunk| <= u.geo.bs
    requires b > 0 && Lookup(u, raw1, Div(p0 + |done|, u.geo.bs)) == b && |BlockAt(u, b)| == u.geo.bs
    ensures Written(v0, raw0, PutChunk(u, b, p0 + |done|, chunk), Resize(raw1, p0 + |done| + |chunk|), p0, done + chunk)
    ensures SameTables(v, PutChunk(u, b, p0 + |done|, chunk))
  {
    hide Valid, FileMap, ByteAt, PathOf, At, IsUsed, IsMeta, Div, Mod, Ptrs, Apart, Bytewise, Resize, Lookup, Dom,
      Leaf, Grown, Kept, Size, SameHead, SameFields;
    var pos := p0 + |done|;
    var w, raw2 := PutChunk(u, b, pos, chunk), Resize(raw1, pos + |chunk|);
    HeadFields(raw, raw1);
    ResizeFields(raw1, pos + |chunk|);
    FieldsTrans(raw0, raw, raw1);
    FieldsTrans(raw0, raw1, raw2);
    StoreChunk(u, raw1, pos, b, chunk);
    ExtendsApart(v, raw, u, raw1, PathOf(Ptrs(v.geo), Div(pos, v.geo.bs)));
    ApartTrans(v0, raw0, v, raw, u, raw1);
    ApartTrans(v0, raw0, u, raw1, w, raw2);
    BytesSame(v, raw, u, raw1);
    Unchanged(v, raw, u, raw1, pos);
    BytewiseStep(v, raw, u, raw1, w, raw2, pos, [], chunk);
    assert [] + chunk == chunk;
    BytewiseStep(v0, raw0, v, raw, w, raw2, p0, done, chunk);
    FileMapSize(u, raw1);
    ResizeHead(raw1, pos + |chunk|);
    SameHeadSize(raw, raw1);
  }

  lemma Unchanged(v: Volume, raw: seq<byte>, u: Volume, raw1: seq<byte>, pos: nat)
    requires forall k: nat :: ByteAt(u, raw1, k) == ByteAt(v, raw, k)
    ensures Bytewise(v, raw, u, raw1, pos, [])
  {
    hide ByteAt;
  }

  /** Byte by byte agreement is the overwriting of the sequence of bytes. */
  lemma WrittenContent(v0: Volume, raw0: seq<byte>, v: Volume, raw: seq<byte>, p0: nat, done: seq<byte>)
    requires Written(v0, raw0, v, raw, p0, done) && TailZero(v0, raw0)
    ensures TailZero(v, raw) && Content(v, raw) == Overwrite(Content(v0, raw0), p0, done)
  {
    hide ByteAt, Valid, FileMap, Apart, Size;
    assert |Content(v, raw)| == |Overwrite(Content(v0, raw0), p0, done)|;
  }

  /** Copies an inode into its slot of the inode table. */
  method WriteInode(fs: Ext2, num: nat, raw: seq<byte>) returns (ok: bool)
    requires Valid(fs.vol) && |raw| == 128
    modifies fs
    ensures ok <==> 0 < num <= old(fs.vol).geo.inodes
    ensures !ok ==> fs.vol == old(fs.vol)
    ensures ok ==> fs.vol == StoreInode(old(fs.vol), num, raw)
  {
    if num == 0 || num > fs.vol.geo.inodes {
      return false;
    }
    var b, off := InodeBlock(fs.vol.geo, num), InodeOffset(fs.vol.geo, num);
    var block := BlockAt(fs.vol, b);
    InodeReady(fs.vol, num);
    fs.vol := Put(fs.vol, b, Splice(block, off, raw));
    return true;
  }

  function StoreInode(v: Volume, num: nat, raw: seq<byte>): Volume {
    var b, off := InodeBlock(v.geo, num), InodeOffset(v.geo, num);
    if off + |raw| <= |BlockAt(v, b)| then Put(v, b, Splice(BlockAt(v, b), off, raw)) else v
  }

  lemma InodeReady(v: Volume, num: nat)
    requires Valid(v) && 0 < num <= v.geo.inodes
    ensures InodeBlock(v.geo, num) < |v.blocks| && InodeOffset(v.geo, num) + 128 <= |BlockAt(v, InodeBlock(v.geo, num))|
    ensures |BlockAt(v, InodeBlock(v.geo, num))| == v.geo.bs
  {
    hide BlocksCounted, InodesCounted, DescsOnDisk, Padded, MetaUsed, InodeBlock, InodeOffset;
    InodeInTable(v.geo, num);
    ValidSizes(v);
  }

  /** After the inode is stored, reading it back gives it, and the file is what it was. */
  lemma StoreInodeKeeps(v0: Volume, raw0: seq<byte>, v: Volume, raw: seq<byte>, p0: nat, done: seq<byte>, num: nat)
    requires Written(v0, raw0, v, raw, p0, done) && 0 < num <= v.geo.inodes
    ensures Written(v0, raw0, StoreInode(v, num, raw), raw, p0, done)
    ensures InodeAt(StoreInode(v, num, raw), num) == raw
  {
    hide Valid, FileMap, ByteAt, Apart, InodeBlock, InodeOffset, SameData, Size, Put;
    var w := StoreInode(v, num, raw);
    FileMapSize(v, raw);
    InodeReady(v, num);
    InodeStoreKeeps(v, raw, num, Splice(BlockAt(v, InodeBlock(v.geo, num)), InodeOffset(v.geo, num), raw));
    ApartTrans(v0, raw0, v, raw, w, raw);
    assert w.geo == v.geo by { ApartGeo(v, raw, w, raw); }
    BytesSame(v, raw, w, raw);
    InodeStored(v, num, raw);
  }

  lemma InodeStored(v: Volume, num: nat, raw: seq<byte>)
    requires Valid(v) && 0 < num <= v.geo.inodes && |raw| == 128
    ensures InodeAt(StoreInode(v, num, raw), num) == raw && StoreInode(v, num, raw).geo == v.geo
  {
    hide Valid, InodeBlock, InodeOffset;
    InodeReady(v, num);
    assert InodeAt(StoreInode(v, num, raw), num) == raw;
  }

  // ---------------------------------------------------------------- other inodes

  /** Every inode but `num` is on disk what it was. */
  ghost predicate OtherInodes(v: Volume, w: Volume, num: nat) {
    && w.geo == v.geo && (forall n: nat :: 0 < n <= v.geo.inodes && n != num ==> InodeAt(w, n) == InodeAt(v, n))
    && forall n: nat :: InodeUsed(w, n) == InodeUsed(v, n)
  }

  lemma TablesSelf(v: Volume)
    ensures SameTables(v, v)
  {
  }

  lemma TablesTrans(v: Volume, u: Volume, w: Volume)
    requires SameTables(v, u) && SameTables(u, w)
    ensures SameTables(v, w)
  {
    hide InTable;
  }

  lemma TablesKeepInodes(v: Volume, w: Volume, num: nat)
    requires Valid(v) && SameTables(v, w)
    ensures OtherInodes(v, w, num)
  {
    hide InodeBlock, InodeOffset, InTable, IsMeta, IsUsed, BlocksCounted, InodesCounted, Padded, MetaUsed, DescsOnDisk;
    forall n: nat | 0 < n <= v.geo.inodes ensures InodeAt(w, n) == InodeAt(v, n) {
      InodeInTable(v.geo, n);
    }
  }

  /** Two inodes have different places. */
  lemma InodesApart(g: Geometry, n: nat, m: nat)
    requires Geometric(g) && 0 < n <= g.inodes && 0 < m <= g.inodes && n != m && InodeBlock(g, n) == InodeBlock(g, m)
    ensures InodeOffset(g, n) + 128 <= InodeOffset(g, m) || InodeOffset(g, m) + 128 <= InodeOffset(g, n)
  {
    hide Sizes;
    InodeInTable(g, n);
    InodeInTable(g, m);
    InodePlace(g, n);
    InodePlace(g, m);
    SameGroup(g, n, m);
    hide Layout, InodeGroup, InodeIndex;
    RecordsApart(InodeIndex(g, n), InodeIndex(g, m), g.isz, g.bs);
  }

  lemma SameGroup(g: Geometry, n: nat, m: nat)
    requires Geometric(g) && 0 < n <= g.inodes && 0 < m <= g.inodes && n != m && InodeBlock(g, n) == InodeBlock(g, m)
    ensures InodeGroup(g, n) == InodeGroup(g, m) && InodeIndex(g, n) != InodeIndex(g, m)
  {
    hide InodeBlock, InodeGroup, InodeIndex, Times;
    InodeInTable(g, n);
    InodeInTable(g, m);
    LocateInode(g, n);
    LocateInode(g, m);
  }

  /** Records of one size that start in the same block do not overlap. */
  lemma RecordsApart(i: nat, j: nat, size: nat, d: nat)
    requires size >= 128 && d > 0 && i != j && i * size / d == j * size / d
    ensures i * size % d + 128 <= j * size % d || j * size % d + 128 <= i * size % d
  {
    DivMod(i * size, d);
    DivMod(j * size, d);
    if i < j {
      MulMono(i + 1, j, size);
      assert (i + 1) * size == i * size + size;
    } else {
      MulMono(j + 1, i, size);
      assert (j + 1) * size == j * size + size;
    }
  }

  lemma StoreInodeUsed(v: Volume, num: nat, raw: seq<byte>)
    requires Valid(v) && 0 < num <= v.geo.inodes && |raw| == 128
    ensures forall n: nat :: InodeUsed(StoreInode(v, num, raw), n) == InodeUsed(v, n)
    ensures forall b: nat :: IsUsed(StoreInode(v, num, raw), b) == IsUsed(v, b)
  {
    hide BlocksCounted, InodesCounted, DescsOnDisk, Padded, MetaUsed, IsMeta, IsUsed, InodeUsed, SameMaps, InodeBlock,
      InodeOffset;
    InodeInTable(v.geo, num);
    InodeReady(v, num);
    var b := InodeBlock(v.geo, num);
    TableSameMaps(v, InodeGroup(v.geo, num), b, Splice(BlockAt(v, b), InodeOffset(v.geo, num), raw));
    SameMapsUsed(v, StoreInode(v, num, raw));
  }

  lemma StoreInodeOthers(v0: Volume, v: Volume, num: nat, raw: seq<byte>)
    requires Valid(v) && 0 < num <= v.geo.inodes && |raw| == 128 && OtherInodes(v0, v, num)
    ensures OtherInodes(v0, StoreInode(v, num, raw), num)
  {
    hide InodeBlock, InodeOffset, InTable, IsMeta, IsUsed, BlocksCounted, InodesCounted, Padded, MetaUsed, DescsOnDisk;
    hide Valid, StoreInode, InodeAt, InodeUsed;
    var w := StoreInode(v, num, raw);
    StoreInodeUsed(v, num, raw);
    InodeStored(v, num, raw);
    forall n: nat | 0 < n <= v.geo.inodes && n != num ensures InodeAt(w, n) == InodeAt(v, n) {
      StoreInodeOther(v, num, raw, n);
    }
  }

  lemma StoreInodeOther(v: Volume, num: nat, raw: seq<byte>, n: nat)
    requires Valid(v) && 0 < num <= v.geo.inodes && |raw| == 128 && 0 < n <= v.geo.inodes && n != num
    ensures InodeAt(StoreInode(v, num, raw), n) == InodeAt(v, n)
  {
    hide InodeBlock, InodeOffset, InTable, IsMeta, IsUsed, BlocksCounted, InodesCounted, Padded, MetaUsed, DescsOnDisk;
    InodeReady(v, num);
    InodeReady(v, n);
    if InodeBlock(v.geo, n) == InodeBlock(v.geo, num) {
      InodesApart(v.geo, n, num);
    }
  }

  lemma ApartGeo(v: Volume, raw: seq<byte>, w: Volume, raw': seq<byte>)
    requires Apart(v, raw, w, raw')
    ensures w.geo == v.geo
  {
  }

  lemma WrittenNothing(v: Volume, raw: seq<byte>, p0: nat)
    requires Valid(v) && FileMap(v, raw)
    ensures Written(v, raw, v, raw, p0, [])
  {
  }

  /** One turn of the loop of `ext2_write`: as much as fits in the block under the position. */
  method WriteChunk(fs: Ext2, f: OpenFile, data: seq<byte>, written: nat, ghost v0: Volume, ghost raw0: seq<byte>,
                    ghost p0: nat)
    returns (chunkSize: nat)
    requires written < |data| && f.position == p0 + written && p0 + |data| < 0x1_0000_0000
    requires Written(v0, raw0, fs.vol, f.inode, p0, data[..written])
    modifies fs, f
    ensures written + chunkSize <= |data| && f.position == p0 + written + chunkSize
    ensures Written(v0, raw0, fs.vol, f.inode, p0, data[..written + chunkSize])
    ensures chunkSize == 0 ==> FreeBlocks(fs.vol) == 0
    ensures SameTables(old(fs.vol), fs.vol)
  {
    hide Valid, FileMap, ByteAt, PathOf, Extends, At, IsUsed, IsMeta, Dom, Div, Mod, Written, Apart, Resize, PutChunk,
      Size, SameTables, FreeBlocks, SameFields, Lookup, Ptrs, Write32, Splice, Put, BlockAt;
    ghost var v, raw, done := fs.vol, f.inode, data[..written];
    WrittenFacts(v0, raw0, v, raw, p0, done);
    ValidSizes(v);
    var bs := fs.vol.geo.bs;
    var blockIndex, blockOffset := Div(f.position, bs), Mod(f.position, bs);
    chunkSize := Min(|data| - written, bs - blockOffset);
    PathExists(Ptrs(v.geo), bs, f.position);
    var b, inode := GetBlockNum(fs, f.inode, blockIndex, true);
    f.inode := inode;
    if b == 0 {
      WrittenExtends(v0, raw0, v, raw, p0, done, fs.vol, inode, PathOf(Ptrs(v.geo), blockIndex));
      return 0;
    }
    LookupOwn(fs.vol, inode, blockIndex);
    var chunk := data[written..written + chunkSize];
    WrittenStep(v0, raw0, v, raw, p0, done, fs.vol, inode, b, chunk);
    assert done + chunk == data[..written + chunkSize];
    FileMapSize(fs.vol, inode);
    ChunkIs(fs.vol, b, f.position, chunk);
    fs.vol := Put(fs.vol, b, Splice(BlockAt(fs.vol, b), blockOffset, chunk));
    f.position := f.position + chunkSize;
    ResizeIs(f.inode, f.position);
    if f.position > Size(f.inode) {
      f.inode := Write32(f.inode, 4, f.position);
    }
  }

  /**
   Writes at the position. Whatever part of the data was accepted, up to where the volume
   ran out of blocks, overwrites the zero-padded content; on success the inode is on disk.
   */
  method Write(fs: Ext2, f: OpenFile, data: seq<byte>) returns (n: int)
    requires Valid(fs.vol) && FileOk(fs.vol, f.inode) && f.position + |data| < 0x1_0000_0000
    modifies fs, f
    ensures Valid(fs.vol) && FileOk(fs.vol, f.inode) && Apart(old(fs.vol), old(f.inode), fs.vol, f.inode)
    ensures f.isDirectory ==>
      n == ERROR_IS_DIR && fs.vol == old(fs.vol) && f.inode == old(f.inode) && f.position == old(f.position)
    ensures 0 <= f.position - old(f.position) <= |data|
    ensures Content(fs.vol, f.inode) ==
              Overwrite(old(Content(fs.vol, f.inode)), old(f.position), data[..f.position - old(f.position)])
    ensures !f.isDirectory && f.position - old(f.position) == |data| ==> n == |data|
    ensures !f.isDirectory && f.position - old(f.position) < |data| ==> n == ERROR_NO_SPACE && FreeBlocks(fs.vol) == 0
    ensures n == |data| && 0 < f.num <= fs.vol.geo.inodes ==> InodeAt(fs.vol, f.num) == f.inode
    ensures OtherInodes(old(fs.vol), fs.vol, f.num)
    ensures n == ERROR_NO_SPACE ==> OtherInodes(old(fs.vol), fs.vol, 0)
    ensures SameFields(old(f.inode), f.inode)
  {
    hide Valid, FileMap, ByteAt, Written, TailZero, Apart, Size, StoreInode, Overwrite, Content, InodeAt, SameTables,
      OtherInodes, SameFields;
    ghost var v0, raw0, p0 := fs.vol, f.inode, f.position;
    WrittenNothing(v0, raw0, p0);
    WrittenFacts(v0, raw0, v0, raw0, p0, []);
    WrittenContent(v0, raw0, v0, raw0, p0, []);
    ApartSelf(v0, raw0);
    TablesSelf(v0);
    TablesKeepInodes(v0, v0, f.num);
    assert data[..0] == [];
    if f.isDirectory {
      return ERROR_IS_DIR;
    }
    var written := 0;
    while written < |data|
      invariant 0 <= written <= |data| && f.position == p0 + written
      invariant Written(v0, raw0, fs.vol, f.inode, p0, data[..written]) && SameTables(v0, fs.vol)
    {
      ghost var u := fs.vol;
      var chunkSize := WriteChunk(fs, f, data, written, v0, raw0, p0);
      TablesTrans(v0, u, fs.vol);
      if chunkSize == 0 {
        TablesKeepInodes(v0, fs.vol, f.num);
        TablesKeepInodes(v0, fs.vol, 0);
        WrittenContent(v0, raw0, fs.vol, f.inode, p0, data[..written]);
        WrittenFacts(v0, raw0, fs.vol, f.inode, p0, data[..written]);
        return ERROR_NO_SPACE;
      }
      written := written + chunkSize;
    }
    assert data[..written] == data;
    WrittenFacts(v0, raw0, fs.vol, f.inode, p0, data);
    FileMapSize(fs.vol, f.inode);
    ghost var v := fs.vol;
    var ok := WriteInode(fs, f.num, f.inode);
    TablesKeepInodes(v0, v, f.num);
    if ok {
      StoreInodeKeeps(v0, raw0, v, f.inode, p0, data, f.num);
      StoreInodeOthers(v0, v, f.num, f.inode);
    }
    WrittenFacts(v0, raw0, fs.vol, f.inode, p0, data);
    WrittenContent(v0, raw0, fs.vol, f.inode, p0, data);
    n := written;
  }

  lemma WrittenFacts(v0: Volume, raw0: seq<byte>, v: Volume, raw: seq<byte>, p0: nat, done: seq<byte>)
    requires Written(v0, raw0, v, raw, p0, done)
    ensures Valid(v) && FileMap(v, raw) && Apart(v0, raw0, v, raw) && v.geo == v0.geo && SameFields(raw0, raw)
  {
    hide Valid, FileMap, ByteAt;
  }

  /** A map that grew without being written to holds the same bytes. */
  lemma WrittenExtends(v0: Volume, raw0: seq<byte>, v: Volume, raw: seq<byte>, p0: nat, done: seq<byte>, u: Volume,
                       raw1: seq<byte>, path: Path)
    requires Written(v0, raw0, v, raw, p0, done) && Valid(u) && FileMap(u, raw1) && Extends(v, raw, u, raw1, path)
    ensures Written(v0, raw0, u, raw1, p0, done) && SameTables(v, u)
  {
    ExtendsApart(v, raw, u, raw1, path);
    hide Valid, FileMap, ByteAt, Apart, Grown, Kept, SameData, Size, SameHead, SameFields;
    ApartTrans(v0, raw0, v, raw, u, raw1);
    BytesSame(v, raw, u, raw1);
    SameHeadSize(raw, raw1);
    HeadFields(raw, raw1);
    FieldsTrans(raw0, raw, raw1);
  }

  lemma ChunkIs(u: Volume, b: nat, pos: nat, chunk: seq<byte>)
    requires u.geo.bs > 0 && Mod(pos, u.geo.bs) + |chunk| <= |BlockAt(u, b)|
    ensures PutChunk(u, b, pos, chunk) == Put(u, b, Splice(BlockAt(u, b), Mod(pos, u.geo.bs), chunk))
  {
  }

  lemma ResizeIs(raw: seq<byte>, end: nat)
    requires |raw| == 128
    ensures Resize(raw, end) == if end > Size(raw) then Write32(raw, 4, end) else raw
  {
  }

  // ---------------------------------------------------------------- other files

  /** No block of the file `g` belongs to the file `raw`. */
  ghost predicate Disjoint(v: Volume, raw: seq<byte>, g: seq<byte>) {
    forall x :: x in Dom(Ptrs(v.geo)) && x != [] && At(v, g, x) != 0 ==> NotIn(v, raw, At(v, g, x))
  }

  /** Whatever one file does, a file that shares no block with it keeps its bytes, and stays apart. */
  lemma OtherFile(v: Volume, raw: seq<byte>, w: Volume, raw': seq<byte>, g: seq<byte>)
    requires Apart(v, raw, w, raw') && FileOk(v, g) && Disjoint(v, raw, g)
    ensures FileOk(w, g) && Content(w, g) == Content(v, g) && Disjoint(w, raw', g)
  {
    hide Dom, IsMeta, IsUsed, At, Slots, Separated, NotIn, ByteAt, SameData, Size;
    forall x | x in Dom(Ptrs(v.geo)) && x != [] && At(v, g, x) != 0
      ensures BlockAt(w, At(v, g, x)) == BlockAt(v, At(v, g, x)) && Ownable(w, At(v, g, x))
      ensures NotIn(w, raw', At(v, g, x))
    {
      NodeIsOwn(v, g, x);
    }
    SameFile(v, w, g);
    BytesSame(v, g, w, g);
    assert Content(w, g) == Content(v, g);
  }
}
