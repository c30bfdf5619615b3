/**
 Directories as files: looking up, adding and removing names in the blocks of a directory's
 inode, over the block map and the allocator.
 */
module Ext2DirFile {
  import opened Arith
  import opened Bytes
  import opened Options
  import opened Ext2Volume
  import opened Ext2Alloc
  import opened RadixTree
  import opened Ext2BlockMap
  import opened Ext2File
  import D = Ext2Dir
  import N = Ext2Directory

  const SUCCESS := 0
  const ERROR_IO := -3
  const ERROR_NOT_FOUND := -4
  const ERROR_NOT_DIR := -9

  /** `i_mode & EXT2_S_IFDIR` */
  predicate IsDir(raw: seq<byte>) { |raw| >= 2 && Read16(raw, 0) / 0x4000 % 2 == 1 }

  // ---------------------------------------------------------------- the blocks of a directory

  /** Block `i` of a file, as a reader sees it. */
  function BlockOf(v: Volume, raw: seq<byte>, i: nat): seq<byte> {
    if Ptrs(v.geo) == 0 then [] else Data(v, raw, PathOf(Ptrs(v.geo), i))
  }

  function BlockCount(v: Volume, raw: seq<byte>): nat { if v.geo.bs == 0 then 0 else Div(Size(raw), v.geo.bs) }

  /** The blocks of a file, in order. */
  function DirView(v: Volume, raw: seq<byte>): (r: seq<seq<byte>>)
    ensures |r| == BlockCount(v, raw) && forall i :: 0 <= i < |r| ==> r[i] == BlockOf(v, raw, i)
  {
    seq(BlockCount(v, raw), i requires i >= 0 => BlockOf(v, raw, i))
  }

  /** A file of whole blocks without holes, tiled by `recs`. */
  ghost predicate DirFile(v: Volume, raw: seq<byte>, recs: seq<seq<D.Rec>>) {
    && FileOk(v, raw) && Ptrs(v.geo) > 0 && Size(raw) == N.Global(BlockCount(v, raw), 0, v.geo.bs)
    && (forall i: nat :: i < BlockCount(v, raw) ==> Lookup(v, raw, i) != 0)
    && N.DirOk(DirView(v, raw), recs, v.geo.bs)
  }

  /** Indices below the size have paths, different ones for different indices. */
  lemma IndexPath(v: Volume, raw: seq<byte>, i: nat, j: nat)
    requires Valid(v) && i <= BlockCount(v, raw)
    ensures Ptrs(v.geo) > 0 && v.geo.bs >= 1024
    ensures var x := PathOf(Ptrs(v.geo), i); x != [] && x in Dom(Ptrs(v.geo)) && Leaf(x)
    ensures PathOf(Ptrs(v.geo), i) == PathOf(Ptrs(v.geo), j) ==> i == j
  {
    hide Valid, PathOf, Dom, Leaf, Ptrs;
    ValidSizes(v);
    var bs := v.geo.bs;
    SizeBelow(raw);
    DivMod(Size(raw), bs);
    MulMono(i, Size(raw) / bs, bs);
    DivModUnique(i, 0, bs);
    PathExists(Ptrs(v.geo), bs, i * bs);
    PathInDom(Ptrs(v.geo), i);
    if PathOf(Ptrs(v.geo), i) == PathOf(Ptrs(v.geo), j) { PathPrefix(Ptrs(v.geo), i, j); }
  }

  /** The block at an index that is mapped is the one the driver fetches. */
  lemma Fetched(v: Volume, raw: seq<byte>, i: nat)
    requires Valid(v) && FileMap(v, raw) && Ptrs(v.geo) > 0 && Lookup(v, raw, i) != 0
    ensures 0 < Lookup(v, raw, i) < |v.blocks| && BlockAt(v, Lookup(v, raw, i)) == BlockOf(v, raw, i)
    ensures |BlockOf(v, raw, i)| == v.geo.bs
  {
    hide Valid, IsMeta, IsUsed, Dom, Ptrs, PathOf, At;
    PathInDom(Ptrs(v.geo), i);
    NodeIsOwn(v, raw, PathOf(Ptrs(v.geo), i));
    LookupOwn(v, raw, i);
  }

  // ---------------------------------------------------------------- storing one block of a directory

  /** Block `i` of the file became `data`; nothing else of any file did. */
  ghost predicate BlockStored(v: Volume, raw: seq<byte>, w: Volume, i: nat, data: seq<byte>) {
    && Valid(w) && FileMap(w, raw) && Apart(v, raw, w, raw) && SameTables(v, w) && w.geo == v.geo && Ptrs(v.geo) > 0
    && (forall y :: y in Dom(Ptrs(v.geo)) && Leaf(y) ==>
      Data(w, raw, y) == if y == PathOf(Ptrs(v.geo), i) then data else Data(v, raw, y))
    && (forall y :: y in Dom(Ptrs(v.geo)) ==> At(w, raw, y) == At(v, raw, y))
  }

  lemma StoreBlock(v: Volume, raw: seq<byte>, i: nat, data: seq<byte>)
    requires Valid(v) && FileMap(v, raw) && i <= BlockCount(v, raw)
    requires Ptrs(v.geo) > 0 && Lookup(v, raw, i) != 0 && |data| == v.geo.bs
    ensures Lookup(v, raw, i) > 0 && BlockStored(v, raw, Put(v, Lookup(v, raw, i), data), i, data)
  {
    hide Valid, FileMap, PathOf, At, IsUsed, IsMeta, Ptrs, NotIn, Separated, Slots, Apart, Leaf, Dom, Data, BlockCount,
      SameTables;
    IndexPath(v, raw, i, i);
    Fetched(v, raw, i);
    WriteData(v, raw, PathOf(Ptrs(v.geo), i), data);
    WriteKeepsTree(v, raw, PathOf(Ptrs(v.geo), i), data);
  }

  lemma StoredView(v: Volume, raw: seq<byte>, w: Volume, i: nat, data: seq<byte>)
    requires Valid(v) && BlockStored(v, raw, w, i, data) && i < BlockCount(v, raw)
    ensures DirView(w, raw) == DirView(v, raw)[i := data]
    ensures forall j: nat :: j < BlockCount(v, raw) ==> Lookup(w, raw, j) == Lookup(v, raw, j)
  {
    hide Valid, FileMap, PathOf, At, Ptrs, Apart, Leaf, Dom, Data, BlockCount, SameTables;
    SameCount(v, raw, w, raw);
    forall j: nat | j < BlockCount(v, raw)
      ensures BlockOf(w, raw, j) == (if j == i then data else BlockOf(v, raw, j))
        && Lookup(w, raw, j) == Lookup(v, raw, j)
    {
      IndexPath(v, raw, j, i);
    }
  }

  lemma SameCount(v: Volume, raw: seq<byte>, w: Volume, raw': seq<byte>)
    requires w.geo == v.geo && Size(raw') == Size(raw)
    ensures BlockCount(w, raw') == BlockCount(v, raw)
  {
  }

  /** A store below the size leaves the zeros past it. */
  lemma StoredTail(v: Volume, raw: seq<byte>, w: Volume, i: nat, data: seq<byte>)
    requires BlockStored(v, raw, w, i, data) && TailZero(v, raw) && v.geo.bs > 0 && i < BlockCount(v, raw)
    ensures TailZero(w, raw)
  {
    hide Valid, FileMap, PathOf, At, Ptrs, Apart, Leaf, Dom, Data, SameTables, Div, Mod, Size;
    forall k: nat | k >= Size(raw) ensures ByteAt(w, raw, k) == 0 {
      PastEnd(Size(raw), k, v.geo.bs);
      PathInDom(Ptrs(v.geo), Div(k, v.geo.bs));
      if PathOf(Ptrs(v.geo), Div(k, v.geo.bs)) == PathOf(Ptrs(v.geo), i) != [] {
        PathPrefix(Ptrs(v.geo), i, Div(k, v.geo.bs));
      }
      assert ByteAt(v, raw, k) == 0;
    }
  }

  lemma PastEnd(size: nat, k: nat, bs: nat)
    requires bs > 0 && k >= size
    ensures Div(k, bs) >= Div(size, bs)
  {
    DivMod(size, bs);
    DivMod(k, bs);
    if k / bs < size / bs { MulMono(k / bs + 1, size / bs, bs); }
  }

  /** With a block changed so that other records tile it, the directory holds those. */
  lemma StoredDir(v: Volume, raw: seq<byte>, w: Volume, i: nat, data: seq<byte>, recs: seq<seq<D.Rec>>,
                  recs': seq<seq<D.Rec>>)
    requires Valid(v) && DirFile(v, raw, recs) && BlockStored(v, raw, w, i, data) && i < BlockCount(v, raw)
    requires N.DirOk(DirView(v, raw)[i := data], recs', v.geo.bs)
    ensures DirFile(w, raw, recs')
  {
    hide Valid, FileMap, TailZero, BlockStored, BlockCount, Lookup, DirView, Size, N.DirOk, N.Global;
    StoredView(v, raw, w, i, data);
    StoredFacts(v, raw, w, i, data);
    SameCount(v, raw, w, raw);
    StoredTail(v, raw, w, i, data);
  }

  lemma StoredFacts(v: Volume, raw: seq<byte>, w: Volume, i: nat, data: seq<byte>)
    requires BlockStored(v, raw, w, i, data) && Valid(v)
    ensures Valid(w) && FileMap(w, raw) && Apart(v, raw, w, raw) && SameTables(v, w) && w.geo == v.geo && v.geo.bs > 0
  {
    hide Valid, FileMap, Apart, SameTables, Data, At, Leaf, Dom, PathOf, Ptrs;
    ValidSizes(v);
  }

  // ---------------------------------------------------------------- the same directory in another state

  lemma SameDir(v: Volume, raw: seq<byte>, w: Volume, raw': seq<byte>, recs: seq<seq<D.Rec>>)
    requires Valid(v) && DirFile(v, raw, recs) && FileMap(w, raw') && w.geo == v.geo && Size(raw') == Size(raw)
    requires SameData(v, raw, w, raw')
    requires forall i: nat :: i < BlockCount(v, raw) ==> Lookup(w, raw', i) != 0
    ensures DirFile(w, raw', recs) && DirView(w, raw') == DirView(v, raw)
  {
    hide Valid, FileMap, Lookup, BlockCount, Data, PathOf, Ptrs, Leaf, Dom, Size, N.DirOk, N.Global, ByteAt;
    SameCount(v, raw, w, raw');
    forall i: nat | i < BlockCount(v, raw) ensures BlockOf(w, raw', i) == BlockOf(v, raw, i) {
      IndexPath(v, raw, i, i);
    }
    BytesSame(v, raw, w, raw');
    assert DirView(w, raw') == DirView(v, raw);
  }

  // ---------------------------------------------------------------- one more block

  /** Past the end there are only zeros. */
  lemma NextZero(v: Volume, raw: seq<byte>)
    requires Valid(v) && TailZero(v, raw) && Size(raw) == N.Global(BlockCount(v, raw), 0, v.geo.bs)
    requires |BlockOf(v, raw, BlockCount(v, raw))| == v.geo.bs
    ensures BlockOf(v, raw, BlockCount(v, raw)) == Zeros(v.geo.bs)
  {
    hide Valid, PathOf, Data, Ptrs, Dom, Leaf, Size;
    var n, bs := BlockCount(v, raw), v.geo.bs;
    IndexPath(v, raw, n, n);
    forall j | 0 <= j < bs ensures BlockOf(v, raw, n)[j] == 0 {
      DivModUnique(n, j, bs);
      assert ByteAt(v, raw, n * bs + j) == 0;
    }
  }

  /** The file after its next block was filled and its size raised. */
  lemma Appended(u: Volume, raw: seq<byte>, w: Volume, raw': seq<byte>, data: seq<byte>)
    requires Valid(u) && TailZero(u, raw) && Size(raw) == N.Global(BlockCount(u, raw), 0, u.geo.bs) && |raw| == 128
    requires Size(raw) + u.geo.bs < 0x1_0000_0000
    requires BlockStored(u, raw, w, BlockCount(u, raw), data) && raw' == Write32(raw, 4, Size(raw) + u.geo.bs)
    ensures FileOk(w, raw') && Apart(u, raw, w, raw') && BlockCount(w, raw') == BlockCount(u, raw) + 1
    ensures Size(raw') == N.Global(BlockCount(w, raw'), 0, w.geo.bs)
    ensures DirView(w, raw') == DirView(u, raw) + [data]
    ensures forall i: nat :: i < BlockCount(w, raw') ==> Lookup(w, raw', i) == Lookup(u, raw, i)
  {
    hide Valid, FileMap, PathOf, Ptrs, Apart, Leaf, Dom, Data, SameTables, N.Global, ByteAt, BlockCount, At, Size;
    var n, bs := BlockCount(u, raw), u.geo.bs;
    StoredFacts(u, raw, w, n, data);
    Raised(raw, u.geo.bs, raw');
    HeadChange(w, raw, raw');
    HeadNodes(w, raw, raw');
    ApartTrans(u, raw, w, raw, w, raw');
    CountRaised(u, raw, w, raw');
    forall i: nat | i < n + 1
      ensures BlockOf(w, raw', i) == (if i == n then data else BlockOf(u, raw, i))
        && Lookup(w, raw', i) == Lookup(u, raw, i)
    {
      IndexPath(u, raw, i, n);
    }
    AppendedTail(u, raw, w, raw', data);
    assert DirView(w, raw') == DirView(u, raw) + [data];
  }

  lemma Raised(raw: seq<byte>, bs: nat, raw': seq<byte>)
    requires |raw| == 128 && Size(raw) + bs < 0x1_0000_0000 && raw' == Write32(raw, 4, Size(raw) + bs)
    ensures |raw'| == 128 && Size(raw') == Size(raw) + bs && (forall k :: 40 <= k < 128 ==> raw'[k] == raw[k])
      && IsDir(raw') == IsDir(raw)
  {
    Read32OfWrite32(raw, 4, Size(raw) + bs, 4);
    Read16OfSplice(raw, 4, Le32(Size(raw) + bs), 0);
  }

  /** Changes before `i_block` do not concern the nodes. */
  lemma HeadNodes(v: Volume, raw: seq<byte>, raw': seq<byte>)
    requires FileMap(v, raw) && |raw'| == 128 && forall k :: 40 <= k < 128 ==> raw'[k] == raw[k]
    ensures forall x :: x in Dom(Ptrs(v.geo)) ==> At(v, raw', x) == At(v, raw, x)
  {
    DomClosed(Ptrs(v.geo));
    HeadSlots(v, raw, raw');
    hide Dom, SlotOf, FileMap;
    SameTree(Slots(raw, v), Slots(raw', v), ROOT, Dom(Ptrs(v.geo)));
  }

  lemma HeadSlots(v: Volume, raw: seq<byte>, raw': seq<byte>)
    requires |raw| == |raw'| == 128 && forall k :: 40 <= k < 128 ==> raw'[k] == raw[k]
    ensures forall n: int, i: nat :: SlotOf(raw', v, n, i) == SlotOf(raw, v, n, i)
  {
  }

  lemma CountRaised(u: Volume, raw: seq<byte>, w: Volume, raw': seq<byte>)
    requires w.geo == u.geo && u.geo.bs > 0 && Size(raw) == N.Global(BlockCount(u, raw), 0, u.geo.bs)
      && Size(raw') == Size(raw) + u.geo.bs
    ensures BlockCount(w, raw') == BlockCount(u, raw) + 1 && Size(raw') == N.Global(BlockCount(w, raw'), 0, w.geo.bs)
  {
    hide Size;
    var n, bs := BlockCount(u, raw), u.geo.bs;
    assert (n + 1) * bs == n * bs + bs;
    DivModUnique(n + 1, 0, bs);
  }

  lemma AppendedTail(u: Volume, raw: seq<byte>, w: Volume, raw': seq<byte>, data: seq<byte>)
    requires BlockStored(u, raw, w, BlockCount(u, raw), data) && TailZero(u, raw) && u.geo.bs > 0
    requires Size(raw) == N.Global(BlockCount(u, raw), 0, u.geo.bs) && Size(raw') == Size(raw) + u.geo.bs
    requires forall x :: x in Dom(Ptrs(u.geo)) ==> Data(w, raw', x) == Data(w, raw, x)
    ensures TailZero(w, raw')
  {
    hide Valid, FileMap, PathOf, At, Ptrs, Apart, Leaf, Dom, Data, SameTables, Div, Mod, Size, N.Global;
    CountRaised(u, raw, w, raw');
    forall k: nat | k >= Size(raw') ensures ByteAt(w, raw', k) == 0 {
      PastEnd(Size(raw'), k, u.geo.bs);
      PathInDom(Ptrs(u.geo), Div(k, u.geo.bs));
      if PathOf(Ptrs(u.geo), Div(k, u.geo.bs)) == PathOf(Ptrs(u.geo), BlockCount(u, raw)) != [] {
        PathPrefix(Ptrs(u.geo), BlockCount(u, raw), Div(k, u.geo.bs));
      }
      assert ByteAt(u, raw, k) == 0;
    }
  }

  // ---------------------------------------------------------------- growth that is not written back

  /** `raw` has some of the root pointers of `raw'`, and zeros for the others. */
  ghost predicate Fewer(v: Volume, raw: seq<byte>, raw': seq<byte>) {
    |raw| == |raw'| == 128 && forall i: nat :: i < 15 ==>
      SlotOf(raw, v, ROOT, i) == 0 || SlotOf(raw, v, ROOT, i) == SlotOf(raw', v, ROOT, i)
  }

  lemma {:induction false} FewerAt(v: Volume, raw: seq<byte>, raw': seq<byte>, x: Path)
    requires Fewer(v, raw, raw') && x in Dom(Ptrs(v.geo)) && FileMap(v, raw')
    ensures At(v, raw, x) == if x != [] && SlotOf(raw, v, ROOT, x[0]) == 0 then 0 else At(v, raw', x)
    decreases |x|
  {
    hide Ownable, Separated;
    if |x| > 1 {
      var y := x[..|x| - 1];
      assert y[0] == x[0] && y in Dom(Ptrs(v.geo));
      FewerAt(v, raw, raw', y);
      if At(v, raw', y) != 0 { NodeIsOwn(v, raw', y); }
    } else if |x| == 1 {
      assert x == [x[0]];
      RootSlot(v, raw, x[0]);
      RootSlot(v, raw', x[0]);
    }
  }

  lemma FewerMap(v: Volume, raw: seq<byte>, raw': seq<byte>)
    requires Fewer(v, raw, raw') && FileMap(v, raw')
    ensures FileMap(v, raw) && forall c: int :: NotIn(v, raw', c) && c != 0 ==> NotIn(v, raw, c)
  {
    hide SlotOf, IsMeta, IsUsed, Dom;
    var dom := Dom(Ptrs(v.geo));
    forall x | x in dom ensures At(v, raw, x) == 0 || At(v, raw, x) == At(v, raw', x) { FewerAt(v, raw, raw', x); }
    forall x, y | x in dom && y in dom && Node(Slots(raw, v), ROOT, x) == Node(Slots(raw, v), ROOT, y) != 0
      ensures x == y {
      AtIs(v, raw, x);
      AtIs(v, raw, y);
      OneSlot(v, raw', x, y);
    }
    forall c: int | NotIn(v, raw', c) && c != 0 ensures NotIn(v, raw, c) {
      forall x | x in dom ensures Node(Slots(raw, v), ROOT, x) != c {
        AtIs(v, raw, x);
        InNotOut(v, raw', x, c);
      }
    }
  }

  /** A directory whose map grew in memory only, because the volume ran out of blocks, is still the directory it was. */
  lemma NotWrittenBack(v: Volume, raw: seq<byte>, u: Volume, raw': seq<byte>, path: Path, recs: seq<seq<D.Rec>>)
    requires Valid(v) && DirFile(v, raw, recs) && Valid(u) && FileMap(u, raw') && Extends(v, raw, u, raw', path)
    ensures DirFile(u, raw, recs) && Apart(v, raw, u, raw)
  {
    hide Valid, FileMap, IsMeta, IsUsed, BlockCount, Apart, TailZero, Size, PathOf, DirView, N.DirOk, SlotOf, At, Data,
      Dom, Leaf;
    GrownRoots(v, raw, u, raw', path);
    FewerMap(u, raw, raw');
    ExtendsApart(v, raw, u, raw', path);
    ApartFewer(v, raw, u, raw');
    forall x | x in Dom(Ptrs(v.geo)) && Leaf(x) ensures Data(u, raw, x) == Data(v, raw, x) {
      FewerBoth(v, raw, u, raw', path, x);
    }
    forall i: nat | i < BlockCount(v, raw) ensures Lookup(u, raw, i) != 0 {
      IndexPath(v, raw, i, i);
      assert Lookup(v, raw, i) != 0;
      FewerBoth(v, raw, u, raw', path, PathOf(Ptrs(v.geo), i));
    }
    SameDir(v, raw, u, raw, recs);
  }

  lemma GrownRoots(v: Volume, raw: seq<byte>, u: Volume, raw': seq<byte>, path: Path)
    requires Extends(v, raw, u, raw', path) && |raw| == 128
    ensures Fewer(u, raw, raw')
  {
    forall i: nat | i < 15 ensures SlotOf(raw, u, ROOT, i) == 0 || SlotOf(raw, u, ROOT, i) == SlotOf(raw', u, ROOT, i) {
      assert [i] in Dom(Ptrs(v.geo));
      RootSlot(v, raw, i);
      RootSlot(u, raw', i);
    }
  }

  lemma RootSlot(v: Volume, raw: seq<byte>, i: nat)
    requires i < 15
    ensures At(v, raw, [i]) == SlotOf(raw, v, ROOT, i)
  {
    assert [i][..0] == [] && At(v, raw, []) == ROOT;
  }

  lemma FewerBoth(v: Volume, raw: seq<byte>, u: Volume, raw': seq<byte>, path: Path, x: Path)
    requires Extends(v, raw, u, raw', path) && FileMap(v, raw) && FileMap(u, raw') && Fewer(u, raw, raw')
      && x in Dom(Ptrs(v.geo))
    ensures At(v, raw, x) != 0 ==> At(u, raw, x) == At(v, raw, x)
    ensures Leaf(x) ==> Data(u, raw, x) == Data(v, raw, x)
  {
    hide Separated, IsMeta, IsUsed, Kept;
    FewerAt(u, raw, raw', x);
    if x != [] && SlotOf(raw, u, ROOT, x[0]) == 0 {
      NoRoot(v, raw, x);
    }
  }

  /** Below an empty root pointer there is nothing. */
  lemma NoRoot(v: Volume, raw: seq<byte>, x: Path)
    requires x != [] && SlotOf(raw, v, ROOT, x[0]) == 0
    ensures At(v, raw, x) == 0
  {
    assert x[..1] == [x[0]] && At(v, raw, []) == ROOT && [x[0]][..0] == [];
    NoneBelow(v, raw, x, 1);
  }

  lemma ApartFewer(v: Volume, raw: seq<byte>, u: Volume, raw': seq<byte>)
    requires Apart(v, raw, u, raw') && forall c: int :: NotIn(u, raw', c) && c != 0 ==> NotIn(u, raw, c)
    ensures Apart(v, raw, u, raw)
  {
    hide IsUsed, IsMeta, NotIn;
  }

  // ---------------------------------------------------------------- the operations

  /** What a directory operation needs of the inode it is called on, if that is a directory at all. */
  ghost predicate Ready(v: Volume, num: nat, recs: seq<seq<D.Rec>>) {
    Valid(v) && (0 < num <= v.geo.inodes && IsDir(InodeAt(v, num)) ==> DirFile(v, InodeAt(v, num), recs))
  }

  /** One more block keeps `i_size` below 2^32. */
  ghost predicate MayGrow(v: Volume, num: nat) { Size(InodeAt(v, num)) + v.geo.bs < 0x1_0000_0000 }

  /** The map from names to inodes. */
  ghost function Names(recs: seq<seq<D.Rec>>, name: seq<byte>): Option<nat> { N.Find(N.Flat(recs), name) }

  /** The block that a directory operation looks at, at a byte offset of the directory. */
  method Fetch(fs: Ext2, raw: seq<byte>, index: nat, ghost recs: seq<seq<D.Rec>>) returns (b: nat)
    requires Valid(fs.vol) && DirFile(fs.vol, raw, recs) && index < |DirView(fs.vol, raw)|
    modifies fs
    ensures fs.vol == old(fs.vol) && 0 < b == Lookup(fs.vol, raw, index)
      && BlockAt(fs.vol, b) == DirView(fs.vol, raw)[index]
  {
    hide Valid, FileMap, TailZero, Extends, PathOf, BlockOf, N.DirOk, N.Global, Lookup;
    ghost var v := fs.vol;
    assert Lookup(v, raw, index) != 0;
    Fetched(v, raw, index);
    var found, _ := GetBlockNum(fs, raw, index, false);
    b := found;
  }

  /** `ext2_lookup` */
  method LookupEntry(fs: Ext2, num: nat, name: seq<byte>, ghost recs: seq<seq<D.Rec>>) returns (r: int, inode: nat)
    requires Ready(fs.vol, num, recs)
    modifies fs
    ensures fs.vol == old(fs.vol)
    ensures !(0 < num <= fs.vol.geo.inodes) ==> r == ERROR_IO
    ensures 0 < num <= fs.vol.geo.inodes && !IsDir(InodeAt(fs.vol, num)) ==> r == ERROR_NOT_DIR
    ensures 0 < num <= fs.vol.geo.inodes && IsDir(InodeAt(fs.vol, num)) ==>
              if Names(recs, name) == None then r == ERROR_NOT_FOUND
              else r == SUCCESS && Names(recs, name) == Some(inode)
  {
    hide Valid, DirFile, InodeAt, IsDir, N.Global, N.DirOk, D.Encodes, N.Flat, N.Todo, N.Find, N.Start, Div, Mod,
      DirView, Size;
    if num == 0 || num > fs.vol.geo.inodes {
      return ERROR_IO, 0;
    }
    var raw := InodeAt(fs.vol, num);
    if !IsDir(raw) {
      return ERROR_NOT_DIR, 0;
    }
    ghost var v, blocks := fs.vol, DirView(fs.vol, raw);
    var bs, size := fs.vol.geo.bs, Size(raw);
    DirFacts(v, raw, recs);
    var offset := 0;
    ghost var b: nat, i: nat := 0, 0;
    N.Begin(blocks, recs, bs);
    while offset < size
      invariant fs.vol == v && N.Position(recs, b, i) && offset == N.Global(b, N.Start(recs, b, i), bs)
      invariant N.Find(N.Todo(recs, b, i), name) == N.Find(N.Flat(recs), name)
      decreases size - offset
    {
      N.AtBlock(blocks, recs, bs, b, i);
      N.Here(blocks, recs, bs, b, i);
      N.FindTodo(recs, b, i, name);
      var at := Mod(offset, bs);
      var blockNum := Fetch(fs, raw, Div(offset, bs), recs);
      var block := BlockAt(fs.vol, blockNum);
      N.RecordIs(block, at, recs[b][i], name);
      if D.Inode(block, at) != 0 && D.NameLen(block, at) == |name| && D.Name(block, at, D.NameLen(block, at)) == name {
        return SUCCESS, D.Inode(block, at);
      }
      N.Onward(blocks, recs, bs, b, i);
      offset := offset + D.RecLen(block, at);
      b, i := N.NextB(recs, b, i), N.NextI(recs, b, i);
    }
    N.AtEnd(blocks, recs, bs, b, i);
    return ERROR_NOT_FOUND, 0;
  }

  lemma DirFacts(v: Volume, raw: seq<byte>, recs: seq<seq<D.Rec>>)
    requires DirFile(v, raw, recs)
    ensures N.DirOk(DirView(v, raw), recs, v.geo.bs) && |DirView(v, raw)| == |recs| == BlockCount(v, raw)
    ensures 1024 <= v.geo.bs <= 4096 && v.geo.bs % 4 == 0
    ensures Size(raw) == N.Global(|DirView(v, raw)|, 0, v.geo.bs) && FileMap(v, raw) && TailZero(v, raw) && |raw| == 128
    ensures forall i: nat :: i < BlockCount(v, raw) ==> Lookup(v, raw, i) != 0
  {
    hide TailZero, N.Global, Lookup;
  }

  /** The directory `num` now holds `recs'`; other files, inodes and every invariant are as they were. */
  ghost predicate Rewritten(v: Volume, w: Volume, num: nat, recs': seq<seq<D.Rec>>) {
    Confined(v, w, num) && DirFile(w, InodeAt(w, num), recs')
  }

  /** Of all files and inodes only the directory `num` changed, and it is still a file. */
  ghost predicate Confined(v: Volume, w: Volume, num: nat) {
    && Valid(w) && w.geo == v.geo && IsDir(InodeAt(w, num)) && FileOk(w, InodeAt(w, num))
    && Apart(v, InodeAt(v, num), w, InodeAt(w, num)) && OtherInodes(v, w, num)
  }

  /** One of its blocks was changed in place. */
  lemma StoredConfined(v: Volume, num: nat, i: nat, data: seq<byte>, recs: seq<seq<D.Rec>>)
    requires Ready(v, num, recs) && 0 < num <= v.geo.inodes && IsDir(InodeAt(v, num))
      && i < BlockCount(v, InodeAt(v, num))
    requires |data| == v.geo.bs
    ensures Ptrs(v.geo) > 0 && Lookup(v, InodeAt(v, num), i) > 0
    ensures var w := Put(v, Lookup(v, InodeAt(v, num), i), data);
      && Confined(v, w, num) && InodeAt(w, num) == InodeAt(v, num) && BlockStored(v, InodeAt(v, num), w, i, data)
      && DirView(w, InodeAt(w, num)) == DirView(v, InodeAt(v, num))[i := data]
  {
    hide Valid, DirFile, InodeAt, IsDir, Apart, OtherInodes, BlockStored, DirView, N.DirOk, BlockCount, Lookup, Size,
      SameTables, Put;
    var raw := InodeAt(v, num);
    DirFacts(v, raw, recs);
    ValidSizes(v);
    StoreBlock(v, raw, i, data);
    var w := Put(v, Lookup(v, raw, i), data);
    StoredFacts(v, raw, w, i, data);
    StoredView(v, raw, w, i, data);
    StoredTail(v, raw, w, i, data);
    TablesKeepInodes(v, w, num);
    TablesKeepInodes(v, w, 0);
    OneInode(v, w, num);
  }

  lemma StoredRewritten(v: Volume, num: nat, i: nat, data: seq<byte>, recs: seq<seq<D.Rec>>, recs': seq<seq<D.Rec>>)
    requires Ready(v, num, recs) && 0 < num <= v.geo.inodes && IsDir(InodeAt(v, num))
      && i < BlockCount(v, InodeAt(v, num))
    requires |data| == v.geo.bs && N.DirOk(DirView(v, InodeAt(v, num))[i := data], recs', v.geo.bs)
    ensures Ptrs(v.geo) > 0 && Lookup(v, InodeAt(v, num), i) > 0
    ensures Rewritten(v, Put(v, Lookup(v, InodeAt(v, num), i), data), num, recs')
  {
    hide Valid, DirFile, InodeAt, IsDir, BlockStored, DirView, N.DirOk, BlockCount, Lookup, Size, Confined, Put;
    StoredConfined(v, num, i, data, recs);
    StoredDir(v, InodeAt(v, num), Put(v, Lookup(v, InodeAt(v, num), i), data), i, data, recs, recs');
  }

  lemma OneInode(v: Volume, w: Volume, num: nat)
    requires OtherInodes(v, w, 0) && 0 < num <= v.geo.inodes
    ensures InodeAt(w, num) == InodeAt(v, num)
  {
    hide InodeAt;
  }

  /** Splitting a record in place adds the new name. */
  lemma SplitRewritten(v: Volume, num: nat, recs: seq<seq<D.Rec>>, b: nat, i: nat, entry: D.Rec)
    requires Ready(v, num, recs) && 0 < num <= v.geo.inodes && IsDir(InodeAt(v, num)) && N.Position(recs, b, i)
      && b < |recs|
    requires entry.inode != 0 && D.Shape(entry) && D.Real(|recs[b][i].name|) + entry.len == recs[b][i].len
    ensures Ptrs(v.geo) > 0 && Lookup(v, InodeAt(v, num), b) > 0
    ensures var c, at, need := Lookup(v, InodeAt(v, num), b), N.Start(recs, b, i), D.Real(|recs[b][i].name|);
      Rewritten(v, Put(v, c, D.PutRec(D.PutLen(BlockAt(v, c), at, need), at + need, entry)), num,
        recs[b := D.WithSplit(recs[b], i, entry)])
    ensures N.Inserted(N.Flat(recs), N.Flat(recs[b := D.WithSplit(recs[b], i, entry)]), entry.name, entry.inode)
  {
    hide Valid, DirFile, InodeAt, IsDir, N.DirOk, D.Encodes, N.Flat, N.Start, DirView, Size, BlockOf, FileMap, TailZero,
      N.Inserted, D.WithSplit, D.PutRec, D.PutLen, Rewritten, Put, BlockCount, Lookup, D.Shape, N.Global;
    var raw := InodeAt(v, num);
    var blocks, bs := DirView(v, raw), v.geo.bs;
    DirFacts(v, raw, recs);
    Mapped(v, raw, recs, b);
    N.AddSplit(blocks, recs, bs, b, i, entry);
    var at, need := N.Start(recs, b, i), D.Real(|recs[b][i].name|);
    var data := D.PutRec(D.PutLen(blocks[b], at, need), at + need, entry);
    BlockLength(blocks[b := data], recs[b := D.WithSplit(recs[b], i, entry)], bs, b);
    StoredRewritten(v, num, b, data, recs, recs[b := D.WithSplit(recs[b], i, entry)]);
  }

  lemma Mapped(v: Volume, raw: seq<byte>, recs: seq<seq<D.Rec>>, b: nat)
    requires Valid(v) && DirFile(v, raw, recs) && b < |recs|
    ensures Ptrs(v.geo) > 0 && BlockCount(v, raw) == |recs| == |DirView(v, raw)|
    ensures 0 < Lookup(v, raw, b) && BlockAt(v, Lookup(v, raw, b)) == DirView(v, raw)[b]
  {
    hide Valid, FileMap, TailZero, BlockOf, Lookup, N.Global, PathOf;
    assert Lookup(v, raw, b) != 0;
    Fetched(v, raw, b);
  }

  lemma BlockLength(blocks: seq<seq<byte>>, recs: seq<seq<D.Rec>>, bs: nat, b: nat)
    requires N.DirOk(blocks, recs, bs) && b < |blocks|
    ensures |blocks[b]| == bs
  {
    assert N.BlockOk(blocks[b], recs[b], bs);
  }

  /** What is left of a record makes a record for the name exactly when the record has room. */
  lemma Splits(x: D.Rec, entry: D.Rec)
    requires D.Shape(x) && |entry.name| <= 255 && entry.inode < 0x1_0000_0000
    ensures N.HasRoom(x, D.Real(|entry.name|)) <==> x.len - D.Real(|x.name|) >= D.Real(|entry.name|)
    ensures N.HasRoom(x, D.Real(|entry.name|)) && entry.len == x.len - D.Real(|x.name|) ==> D.Shape(entry)
  {
  }

  lemma WholeShape(entry: D.Rec)
    requires 1024 <= entry.len <= 4096 && entry.len % 4 == 0 && |entry.name| <= 255 && entry.inode < 0x1_0000_0000
    ensures D.Shape(entry)
  {
  }

  /** `ext2_add_dir_entry` */
  method AddEntry(fs: Ext2, num: nat, name: seq<byte>, inode: nat, kind: byte, ghost recs: seq<seq<D.Rec>>)
    returns (r: int, ghost recs': seq<seq<D.Rec>>)
    requires Ready(fs.vol, num, recs) && MayGrow(fs.vol, num) && |name| <= 255 && 0 < inode < 0x1_0000_0000
    modifies fs
    ensures !(0 < num <= old(fs.vol).geo.inodes) ==> r == ERROR_IO && fs.vol == old(fs.vol)
    ensures 0 < num <= old(fs.vol).geo.inodes && !IsDir(InodeAt(old(fs.vol), num)) ==>
      r == ERROR_NOT_DIR && fs.vol == old(fs.vol)
    ensures 0 < num <= old(fs.vol).geo.inodes && IsDir(InodeAt(old(fs.vol), num)) ==>
              (r == SUCCESS || r == ERROR_NO_SPACE) && Rewritten(old(fs.vol), fs.vol, num, recs')
    ensures r == SUCCESS ==> N.Inserted(N.Flat(recs), N.Flat(recs'), name, inode)
    ensures r == SUCCESS ==> |recs'| == |recs| + if N.AllFull(N.Flat(recs), D.Real(|name|)) then 1 else 0
    ensures r == ERROR_NO_SPACE ==> recs' == recs && FreeBlocks(fs.vol) == 0 && N.AllFull(N.Flat(recs), D.Real(|name|))
  {
    hide Valid, DirFile, InodeAt, IsDir, N.Global, N.DirOk, D.Encodes, N.Flat, N.Todo, N.Start, Div, Mod, DirView, Size,
      N.AllFull, N.Inserted, D.WithSplit, D.PutRec, D.PutLen, Rewritten, Put, FreeBlocks, D.Real, D.Shape, N.HasRoom,
        N.NextB, N.NextI,
      Lookup, MayGrow, D.RecLen, D.NameLen, D.Inode, D.Name, BlockAt;
    recs' := recs;
    if num == 0 || num > fs.vol.geo.inodes {
      return ERROR_IO, recs;
    }
    var raw := InodeAt(fs.vol, num);
    if !IsDir(raw) {
      return ERROR_NOT_DIR, recs;
    }
    ghost var v, blocks := fs.vol, DirView(fs.vol, raw);
    var bs, size := fs.vol.geo.bs, Size(raw);
    DirFacts(v, raw, recs);
    var required := D.Real(|name|);
    var offset := 0;
    ghost var b: nat, i: nat := 0, 0;
    N.Begin(blocks, recs, bs);
    while offset < size
      invariant fs.vol == v && N.Position(recs, b, i) && offset == N.Global(b, N.Start(recs, b, i), bs)
      invariant N.AllFull(N.Todo(recs, b, i), required) <==> N.AllFull(N.Flat(recs), required)
      decreases size - offset
    {
      N.AtBlock(blocks, recs, bs, b, i);
      N.Here(blocks, recs, bs, b, i);
      N.FullTodo(recs, b, i, required);
      var at := Mod(offset, bs);
      var blockNum := Fetch(fs, raw, Div(offset, bs), recs);
      var block := BlockAt(fs.vol, blockNum);
      N.RecordIs(block, at, recs[b][i], name);
      D.EncodedShape(block, at, recs[b][i]);
      var need := D.Real(D.NameLen(block, at));
      var extra := D.RecLen(block, at) - need;
      Splits(recs[b][i], D.Rec(inode, if extra < 0 then 0 else extra, name, kind));
      if extra >= required {
        var entry := D.Rec(inode, extra, name, kind);
        SplitRewritten(v, num, recs, b, i, entry);
        fs.vol := Put(fs.vol, blockNum, D.PutRec(D.PutLen(block, at, need), at + need, entry));
        return SUCCESS, recs[b := D.WithSplit(recs[b], i, entry)];
      }
      N.Onward(blocks, recs, bs, b, i);
      offset := offset + D.RecLen(block, at);
      b, i := N.NextB(recs, b, i), N.NextI(recs, b, i);
    }
    N.AtEnd(blocks, recs, bs, b, i);
    N.FullNone(required);
    WholeShape(D.Rec(inode, bs, name, kind));
    r, recs' := AppendEntry(fs, num, raw, D.Rec(inode, bs, name, kind), recs);
  }

  lemma NoneRewritten(v: Volume, u: Volume, num: nat, raw1: seq<byte>, path: Path, recs: seq<seq<D.Rec>>)
    requires Ready(v, num, recs) && 0 < num <= v.geo.inodes && IsDir(InodeAt(v, num))
    requires Valid(u) && FileMap(u, raw1) && Extends(v, InodeAt(v, num), u, raw1, path)
    ensures Rewritten(v, u, num, recs)
  {
    hide Valid, DirFile, InodeAt, IsDir, Apart, OtherInodes, Size, SameTables, FileMap, SameSuper, Grown, SameData,
      Kept, SameHead;
    NotWrittenBack(v, InodeAt(v, num), u, raw1, path, recs);
    DirFacts(u, InodeAt(v, num), recs);
    TablesKeepInodes(v, u, num);
    TablesKeepInodes(v, u, 0);
    OneInode(v, u, num);
    ApartGeo(v, InodeAt(v, num), u, InodeAt(v, num));
  }

  /** A directory whose map grew by the next block is still the directory it was. */
  lemma GrownDir(v: Volume, raw: seq<byte>, u: Volume, raw1: seq<byte>, recs: seq<seq<D.Rec>>)
    requires Valid(v) && Valid(u) && DirFile(v, raw, recs) && FileMap(u, raw1) && Ptrs(v.geo) > 0
    requires Extends(v, raw, u, raw1, PathOf(Ptrs(v.geo), BlockCount(v, raw)))
    ensures DirFile(u, raw1, recs) && Size(raw1) == Size(raw) && IsDir(raw1) == IsDir(raw) && |raw1| == 128
    ensures u.geo == v.geo && DirView(u, raw1) == DirView(v, raw) && BlockCount(u, raw1) == BlockCount(v, raw)
  {
    hide Valid, FileMap, Lookup, PathOf, TailZero, DirView, N.DirOk, N.Global, BlockCount, Grown, Kept, SameData, Size;
    SameHeadSize(raw, raw1);
    SameHeadMode(raw, raw1);
    SameCount(v, raw, u, raw1);
    forall i: nat | i < BlockCount(v, raw) ensures Lookup(u, raw1, i) != 0 {
      ExtendsLookup(v, raw, u, raw1, BlockCount(v, raw), i);
    }
    SameDir(v, raw, u, raw1, recs);
  }

  lemma SameHeadMode(raw: seq<byte>, raw1: seq<byte>)
    requires SameHead(raw, raw1)
    ensures IsDir(raw1) == IsDir(raw)
  {
  }

  /** The block to fill is all zeros, and filling it makes a directory with one more record. */
  lemma AppendReady(u: Volume, raw1: seq<byte>, recs: seq<seq<D.Rec>>, entry: D.Rec)
    requires Valid(u) && DirFile(u, raw1, recs) && Lookup(u, raw1, BlockCount(u, raw1)) != 0 && D.Shape(entry)
      && entry.len == u.geo.bs
    requires Size(raw1) + u.geo.bs < 0x1_0000_0000 && entry.inode != 0
    ensures var b := Lookup(u, raw1, BlockCount(u, raw1)); b > 0 && BlockAt(u, b) == Zeros(u.geo.bs)
    ensures var data := D.PutRec(Zeros(u.geo.bs), 0, entry);
      var w := Put(u, Lookup(u, raw1, BlockCount(u, raw1)), data);
      var raw2 := Write32(raw1, 4, Size(raw1) + u.geo.bs);
      && Valid(w) && DirFile(w, raw2, recs + [[entry]]) && Apart(u, raw1, w, raw2) && SameTables(u, w)
      && w.geo == u.geo && |raw2| == 128 && IsDir(raw2) == IsDir(raw1)
  {
    hide Valid, FileMap, Lookup, PathOf, TailZero, DirView, N.DirOk, N.Global, BlockCount, Size, BlockStored, Apart,
      SameTables, D.PutRec, BlockOf, Put, IsDir, D.Shape;
    var n := BlockCount(u, raw1);
    DirFacts(u, raw1, recs);
    Fetched(u, raw1, n);
    NextZero(u, raw1);
    var data := D.PutRec(Zeros(u.geo.bs), 0, entry);
    StoreBlock(u, raw1, n, data);
    var w, raw2 := Put(u, Lookup(u, raw1, n), data), Write32(raw1, 4, Size(raw1) + u.geo.bs);
    StoredFacts(u, raw1, w, n, data);
    Raised(raw1, u.geo.bs, raw2);
    Appended(u, raw1, w, raw2, data);
    N.AddBlock(DirView(u, raw1), recs, u.geo.bs, entry);
    AllMapped(u, raw1, w, raw2);
  }

  lemma AllMapped(u: Volume, raw1: seq<byte>, w: Volume, raw2: seq<byte>)
    requires Ptrs(u.geo) > 0 && w.geo == u.geo && BlockCount(w, raw2) == BlockCount(u, raw1) + 1
    requires forall i: nat :: i < BlockCount(u, raw1) ==> Lookup(u, raw1, i) != 0
    requires Lookup(u, raw1, BlockCount(u, raw1)) != 0
    requires forall i: nat :: i < BlockCount(w, raw2) ==> Lookup(w, raw2, i) == Lookup(u, raw1, i)
    ensures forall i: nat :: i < BlockCount(w, raw2) ==> Lookup(w, raw2, i) != 0
  {
    hide Lookup, BlockCount;
  }

  /** The inode with its new size is written back. */
  lemma AppendRewritten(v: Volume, w: Volume, num: nat, raw2: seq<byte>, recs2: seq<seq<D.Rec>>)
    requires Valid(v) && Valid(w) && DirFile(w, raw2, recs2) && Apart(v, InodeAt(v, num), w, raw2) && SameTables(v, w)
      && IsDir(raw2)
    requires 0 < num <= v.geo.inodes && w.geo == v.geo && |raw2| == 128
    ensures Rewritten(v, StoreInode(w, num, raw2), num, recs2)
  {
    hide Valid, FileMap, Lookup, PathOf, TailZero, DirView, N.DirOk, N.Global, BlockCount, Size, Apart, SameTables,
      IsDir, InodeAt, OtherInodes, InodeBlock, InodeOffset, At, Dom, SameData, BlockOf;
    var x := StoreInode(w, num, raw2);
    InodeReady(w, num);
    InodeStoreKeeps(w, raw2, num, Splice(BlockAt(w, InodeBlock(w.geo, num)), InodeOffset(w.geo, num), raw2));
    InodeStored(w, num, raw2);
    ApartTrans(v, InodeAt(v, num), w, raw2, x, raw2);
    TablesKeepInodes(v, w, num);
    StoreInodeOthers(v, w, num, raw2);
    StillMapped(w, raw2, x);
    SameDir(w, raw2, x, raw2, recs2);
  }

  lemma StillMapped(v: Volume, raw: seq<byte>, w: Volume)
    requires w.geo == v.geo && Ptrs(v.geo) > 0 && forall x :: x in Dom(Ptrs(v.geo)) ==> At(w, raw, x) == At(v, raw, x)
    requires forall i: nat :: i < BlockCount(v, raw) ==> Lookup(v, raw, i) != 0
    ensures forall i: nat :: i < BlockCount(v, raw) ==> Lookup(w, raw, i) != 0
  {
    hide At, Dom, PathOf, BlockCount;
    forall i: nat | i < BlockCount(v, raw) ensures Lookup(w, raw, i) != 0 {
      PathInDom(Ptrs(v.geo), i);
      assert Lookup(v, raw, i) != 0;
    }
  }

  /** A block of its own for a new record: allocated, filled, and counted in the size. */
  method AppendEntry(fs: Ext2, num: nat, raw: seq<byte>, entry: D.Rec, ghost recs: seq<seq<D.Rec>>)
    returns (r: int, ghost recs': seq<seq<D.Rec>>)
    requires Ready(fs.vol, num, recs) && MayGrow(fs.vol, num)
    requires 0 < num <= fs.vol.geo.inodes && IsDir(InodeAt(fs.vol, num)) && raw == InodeAt(fs.vol, num)
    requires D.Shape(entry) && 0 < entry.inode && entry.len == fs.vol.geo.bs
    modifies fs
    ensures Rewritten(old(fs.vol), fs.vol, num, recs') && (r == SUCCESS || r == ERROR_NO_SPACE)
    ensures r == SUCCESS ==>
      recs' == recs + [[entry]] && N.Inserted(N.Flat(recs), N.Flat(recs'), entry.name, entry.inode)
    ensures r == ERROR_NO_SPACE ==> recs' == recs && FreeBlocks(fs.vol) == 0
  {
    hide Valid, DirFile, InodeAt, IsDir, N.Global, N.DirOk, N.Flat, Div, DirView, Size, N.Inserted, D.PutRec,
      Rewritten, Put, Extends,
      PathOf, Lookup, FileMap, TailZero, FreeBlocks, SameTables, Apart, StoreInode, BlockOf, D.Shape;
    ghost var v := fs.vol;
    DirFacts(v, raw, recs);
    ValidSizes(v);
    IndexPath(v, raw, BlockCount(v, raw), 0);
    N.AddBlock(DirView(v, raw), recs, v.geo.bs, entry);
    var bs := fs.vol.geo.bs;
    var blockNum, raw1 := GetBlockNum(fs, raw, Div(Size(raw), bs), true);
    ghost var u := fs.vol;
    if blockNum == 0 {
      NoneRewritten(v, u, num, raw1, PathOf(Ptrs(v.geo), Div(Size(raw), bs)), recs);
      return ERROR_NO_SPACE, recs;
    }
    GrownDir(v, raw, u, raw1, recs);
    AppendReady(u, raw1, recs, entry);
    fs.vol := Put(fs.vol, blockNum, D.PutRec(BlockAt(fs.vol, blockNum), 0, entry));
    ghost var w := fs.vol;
    var raw2 := Write32(raw1, 4, Size(raw1) + bs);
    ExtendsApart(v, raw, u, raw1, PathOf(Ptrs(v.geo), Div(Size(raw), bs)));
    ApartTrans(v, raw, u, raw1, w, raw2);
    ExtendsTables(v, raw, u, raw1, PathOf(Ptrs(v.geo), Div(Size(raw), bs)));
    TablesTrans(v, u, w);
    var _ := WriteInode(fs, num, raw2);
    AppendRewritten(v, w, num, raw2, recs + [[entry]]);
    return SUCCESS, recs + [[entry]];
  }

  lemma ExtendsTables(v: Volume, raw: seq<byte>, u: Volume, raw1: seq<byte>, path: Path)
    requires Extends(v, raw, u, raw1, path)
    ensures SameTables(v, u) && u.geo == v.geo
  {
  }

  // ---------------------------------------------------------------- removing a name

  lemma JoinRewritten(v: Volume, num: nat, recs: seq<seq<D.Rec>>, b: nat, i: nat, name: seq<byte>)
    requires Ready(v, num, recs) && 0 < num <= v.geo.inodes && IsDir(InodeAt(v, num)) && N.Unique(N.Flat(recs))
    requires b < |recs| && 0 < i < |recs[b]| && N.Match(recs[b][i], name)
    ensures Ptrs(v.geo) > 0 && Lookup(v, InodeAt(v, num), b) > 0
    ensures var c, len := Lookup(v, InodeAt(v, num), b), recs[b][i - 1].len + recs[b][i].len;
      && len < 0x1_0000
      && Rewritten(v, Put(v, c, D.PutLen(BlockAt(v, c), N.Start(recs, b, i - 1), len)), num,
        recs[b := D.WithJoin(recs[b], i - 1)])
    ensures N.Deleted(N.Flat(recs), N.Flat(recs[b := D.WithJoin(recs[b], i - 1)]), name) && !N.FirstOfLater(recs, name)
  {
    hide Valid, DirFile, InodeAt, IsDir, N.DirOk, N.Flat, N.Start, DirView, Size, BlockOf, FileMap, TailZero,
      N.Deleted, N.Unique,
      N.FirstOfLater, D.WithJoin, D.PutLen, Rewritten, Put, BlockCount, Lookup, N.Global, N.Match;
    var raw := InodeAt(v, num);
    var blocks, bs := DirView(v, raw), v.geo.bs;
    DirFacts(v, raw, recs);
    Mapped(v, raw, recs, b);
    N.RemoveJoin(blocks, recs, bs, b, i, name);
    var data := D.PutLen(blocks[b], N.Start(recs, b, i - 1), recs[b][i - 1].len + recs[b][i].len);
    BlockLength(blocks[b := data], recs[b := D.WithJoin(recs[b], i - 1)], bs, b);
    StoredRewritten(v, num, b, data, recs, recs[b := D.WithJoin(recs[b], i - 1)]);
  }

  lemma UnuseRewritten(v: Volume, num: nat, recs: seq<seq<D.Rec>>, name: seq<byte>)
    requires Ready(v, num, recs) && 0 < num <= v.geo.inodes && IsDir(InodeAt(v, num)) && N.Unique(N.Flat(recs))
    requires recs != [] && recs[0] != [] && N.Match(recs[0][0], name)
    ensures Ptrs(v.geo) > 0 && Lookup(v, InodeAt(v, num), 0) > 0 && N.Start(recs, 0, 0) == 0
    ensures var c, recs' := Lookup(v, InodeAt(v, num), 0), recs[0 := recs[0][0 := recs[0][0].(inode := 0)]];
      && Rewritten(v, Put(v, c, D.PutInode(BlockAt(v, c), 0, 0)), num, recs')
      && N.Deleted(N.Flat(recs), N.Flat(recs'), name) && !N.FirstOfLater(recs, name)
  {
    hide Valid, DirFile, InodeAt, IsDir, N.DirOk, N.Flat, N.Start, DirView, Size, BlockOf, FileMap, TailZero,
      N.Deleted, N.Unique,
      N.FirstOfLater, D.PutInode, Rewritten, Put, BlockCount, Lookup, N.Global, N.Match;
    var raw := InodeAt(v, num);
    var blocks, bs, recs' := DirView(v, raw), v.geo.bs, recs[0 := recs[0][0 := recs[0][0].(inode := 0)]];
    DirFacts(v, raw, recs);
    Mapped(v, raw, recs, 0);
    N.RemoveFirst(blocks, recs, bs, name);
    BlockLength(blocks[0 := D.PutInode(blocks[0], 0, 0)], recs', bs, 0);
    StoredRewritten(v, num, 0, D.PutInode(blocks[0], 0, 0), recs, recs');
  }

  /** Joining across a block boundary leaves a file that no records tile. */
  lemma AcrossBroken(v: Volume, num: nat, recs: seq<seq<D.Rec>>, b: nat, name: seq<byte>)
    requires Ready(v, num, recs) && 0 < num <= v.geo.inodes && IsDir(InodeAt(v, num)) && N.Unique(N.Flat(recs))
    requires 0 < b < |recs| && recs[b] != [] && N.Match(recs[b][0], name)
    ensures Ptrs(v.geo) > 0 && Lookup(v, InodeAt(v, num), b - 1) > 0 && recs[b - 1] != [] && N.FirstOfLater(recs, name)
    ensures var p := recs[b - 1];
      var c, at, len := Lookup(v, InodeAt(v, num), b - 1), N.Start(recs, b - 1, |p| - 1),
        p[|p| - 1].len + recs[b][0].len;
      var w := Put(v, c, D.PutLen(BlockAt(v, c), at, len));
      len < 0x1_0000 && Confined(v, w, num) && N.Broken(DirView(w, InodeAt(w, num)), v.geo.bs)
  {
    hide Valid, DirFile, InodeAt, IsDir, N.DirOk, N.Flat, N.Start, DirView, Size, BlockOf, FileMap, TailZero, N.Broken,
      N.Unique,
      N.FirstOfLater, D.PutLen, Confined, Put, BlockCount, Lookup, N.Global, N.Match, BlockStored;
    var raw := InodeAt(v, num);
    var blocks, bs := DirView(v, raw), v.geo.bs;
    DirFacts(v, raw, recs);
    Mapped(v, raw, recs, b - 1);
    N.RemoveAcross(blocks, recs, bs, b, name);
    BlockLength(blocks, recs, bs, b - 1);
    var p := recs[b - 1];
    var at, len := N.Start(recs, b - 1, |p| - 1), p[|p| - 1].len + recs[b][0].len;
    LenSize(blocks[b - 1], at, len);
    StoredConfined(v, num, b - 1, D.PutLen(blocks[b - 1], at, len), recs);
  }

  lemma LenSize(s: seq<byte>, a: nat, len: nat)
    ensures |D.PutLen(s, a, len)| == |s|
  {
  }

  /** `ext2_remove_dir_entry`; the last record seen is carried on from one block to the next. */
  method RemoveEntry(fs: Ext2, num: nat, name: seq<byte>, ghost recs: seq<seq<D.Rec>>)
    returns (r: int, ghost recs': seq<seq<D.Rec>>)
    requires Ready(fs.vol, num, recs) && N.Unique(N.Flat(recs))
    modifies fs
    ensures !(0 < num <= old(fs.vol).geo.inodes) ==> r == ERROR_IO && fs.vol == old(fs.vol)
    ensures 0 < num <= old(fs.vol).geo.inodes && !IsDir(InodeAt(old(fs.vol), num)) ==>
      r == ERROR_NOT_DIR && fs.vol == old(fs.vol)
    ensures 0 < num <= old(fs.vol).geo.inodes && IsDir(InodeAt(old(fs.vol), num)) ==>
              if Names(recs, name) == None then r == ERROR_NOT_FOUND && fs.vol == old(fs.vol)
              else r == SUCCESS && Confined(old(fs.vol), fs.vol, num)
    ensures r == SUCCESS && !N.FirstOfLater(recs, name) ==>
              Rewritten(old(fs.vol), fs.vol, num, recs') && N.Deleted(N.Flat(recs), N.Flat(recs'), name)
    ensures 0 < num <= old(fs.vol).geo.inodes && IsDir(InodeAt(old(fs.vol), num)) && N.FirstOfLater(recs, name) ==>
              N.Broken(DirView(fs.vol, InodeAt(fs.vol, num)), fs.vol.geo.bs)
  {
    hide Valid, DirFile, InodeAt, IsDir, N.Global, N.DirOk, D.Encodes, N.Flat, N.Todo, N.Start, Div, Mod, DirView,
      Size, N.Find,
      N.Deleted, N.Unique, N.FirstOfLater, N.Broken, D.WithJoin, D.PutInode, D.PutLen, Rewritten, Confined, Put, Lookup,
      D.RecLen, D.NameLen, D.Inode, D.Name, BlockAt, N.Match, Removed;
    recs' := recs;
    if num == 0 || num > fs.vol.geo.inodes {
      return ERROR_IO, recs;
    }
    var raw := InodeAt(fs.vol, num);
    if !IsDir(raw) {
      return ERROR_NOT_DIR, recs;
    }
    ghost var v, blocks := fs.vol, DirView(fs.vol, raw);
    var bs, size := fs.vol.geo.bs, Size(raw);
    DirFacts(v, raw, recs);
    var offset, hasPrev, prevBlock, prevAt := 0, false, 0, 0;
    ghost var b: nat, i: nat, pb: nat, pi: nat := 0, 0, 0, 0;
    N.Begin(blocks, recs, bs);
    while offset < size
      invariant fs.vol == v && N.Position(recs, b, i) && offset == N.Global(b, N.Start(recs, b, i), bs)
      invariant N.Find(N.Todo(recs, b, i), name) == N.Find(N.Flat(recs), name)
      invariant hasPrev <==> !(b == 0 && i == 0)
      invariant hasPrev ==>
        N.Position(recs, pb, pi) && pb < |recs| && b == N.NextB(recs, pb, pi) && i == N.NextI(recs, pb, pi)
      invariant hasPrev ==> prevBlock == Lookup(v, raw, pb) && prevAt == N.Start(recs, pb, pi)
      decreases size - offset
    {
      N.AtBlock(blocks, recs, bs, b, i);
      N.Here(blocks, recs, bs, b, i);
      N.FindTodo(recs, b, i, name);
      var at := Mod(offset, bs);
      var blockNum := Fetch(fs, raw, Div(offset, bs), recs);
      var block := BlockAt(fs.vol, blockNum);
      N.RecordIs(block, at, recs[b][i], name);
      if D.Inode(block, at) != 0 && D.NameLen(block, at) == |name| && D.Name(block, at, D.NameLen(block, at)) == name {
        recs' := RemoveAt(fs, num, raw, name, recs, hasPrev, prevBlock, prevAt, blockNum, at, b, i, pb, pi);
        RemovedFacts(v, fs.vol, num, name, recs, recs');
        return SUCCESS, recs';
      }
      N.Onward(blocks, recs, bs, b, i);
      hasPrev, prevBlock, prevAt := true, blockNum, at;
      offset := offset + D.RecLen(block, at);
      pb, pi := b, i;
      b, i := N.NextB(recs, b, i), N.NextI(recs, b, i);
    }
    N.AtEnd(blocks, recs, bs, b, i);
    N.FirstFound(recs, name);
    return ERROR_NOT_FOUND, recs;
  }

  /** What removing a name does: it is gone, or, in the one case, no directory is left. */
  ghost predicate Removed(v: Volume, w: Volume, num: nat, name: seq<byte>, recs: seq<seq<D.Rec>>,
                          recs': seq<seq<D.Rec>>) {
    && Confined(v, w, num)
    && (!N.FirstOfLater(recs, name) ==> Rewritten(v, w, num, recs') && N.Deleted(N.Flat(recs), N.Flat(recs'), name))
    && (N.FirstOfLater(recs, name) ==> N.Broken(DirView(w, InodeAt(w, num)), w.geo.bs))
  }

  /** The record in place `(b, i)`, after that in `(pb, pi)`, as the code sees the two. */
  lemma Neighbours(v: Volume, num: nat, name: seq<byte>, recs: seq<seq<D.Rec>>, b: nat, i: nat, pb: nat, pi: nat)
    requires Valid(v) && DirFile(v, InodeAt(v, num), recs) && N.Position(recs, pb, pi) && pb < |recs|
    requires b < |recs| && b == N.NextB(recs, pb, pi) && i == N.NextI(recs, pb, pi) && N.Position(recs, b, i)
    ensures Ptrs(v.geo) > 0 && Lookup(v, InodeAt(v, num), b) > 0 && Lookup(v, InodeAt(v, num), pb) > 0
    ensures i < |recs[b]| && pi < |recs[pb]|
    ensures D.RecLen(BlockAt(v, Lookup(v, InodeAt(v, num), pb)), N.Start(recs, pb, pi)) == recs[pb][pi].len
    ensures D.RecLen(BlockAt(v, Lookup(v, InodeAt(v, num), b)), N.Start(recs, b, i)) == recs[b][i].len
  {
    hide Valid, DirFile, InodeAt, N.Global, N.DirOk, D.Encodes, N.Start, DirView, Size, Lookup, D.RecLen, BlockAt,
      FileMap, TailZero, N.NextB, N.NextI, N.Position;
    var raw := InodeAt(v, num);
    var blocks, bs := DirView(v, raw), v.geo.bs;
    DirFacts(v, raw, recs);
    InPlace(recs, b, i);
    InPlace(recs, pb, pi);
    Mapped(v, raw, recs, b);
    Mapped(v, raw, recs, pb);
    N.Here(blocks, recs, bs, b, i);
    N.Here(blocks, recs, bs, pb, pi);
    N.RecordIs(blocks[b], N.Start(recs, b, i), recs[b][i], name);
    N.RecordIs(blocks[pb], N.Start(recs, pb, pi), recs[pb][pi], name);
  }

  /** The records after a removal. */
  ghost function After(recs: seq<seq<D.Rec>>, b: nat, i: nat): seq<seq<D.Rec>>
    requires b < |recs| && i < |recs[b]|
  {
    if i > 0 then recs[b := D.WithJoin(recs[b], i - 1)]
    else if b == 0 then recs[0 := recs[0][0 := recs[0][0].(inode := 0)]] else recs
  }

  lemma MergeRemoved(v: Volume, num: nat, name: seq<byte>, recs: seq<seq<D.Rec>>, b: nat, i: nat, pb: nat, pi: nat)
    requires Ready(v, num, recs) && 0 < num <= v.geo.inodes && IsDir(InodeAt(v, num)) && N.Unique(N.Flat(recs))
    requires b < |recs| && N.Position(recs, b, i) && i < |recs[b]| && N.Match(recs[b][i], name)
    requires N.Position(recs, pb, pi) && pb < |recs| && pi < |recs[pb]|
    requires b == N.NextB(recs, pb, pi) && i == N.NextI(recs, pb, pi)
    ensures Ptrs(v.geo) > 0 && Lookup(v, InodeAt(v, num), pb) > 0 && recs[pb][pi].len + recs[b][i].len < 0x1_0000
    ensures var c := Lookup(v, InodeAt(v, num), pb);
      Removed(v, Put(v, c, D.PutLen(BlockAt(v, c), N.Start(recs, pb, pi), recs[pb][pi].len + recs[b][i].len)), num,
        name,
              recs, After(recs, b, i))
  {
    hide Valid, DirFile, InodeAt, IsDir, N.Flat, N.Start, DirView, Size, N.Deleted, N.Unique, N.FirstOfLater, N.Broken,
      D.WithJoin, D.PutLen, Rewritten, Confined, Put, Lookup, BlockAt, N.Match, N.NextB, N.NextI, N.Position, Ready;
    Before(recs, b, i, pb, pi);
    if i > 0 {
      JoinRewritten(v, num, recs, b, i, name);
      RewrittenConfined(v, Put(v, Lookup(v, InodeAt(v, num), b),
        D.PutLen(BlockAt(v, Lookup(v, InodeAt(v, num), b)), N.Start(recs, b, i - 1),
          recs[b][i - 1].len + recs[b][i].len)),
        num, After(recs, b, i));
    } else {
      AcrossBroken(v, num, recs, b, name);
      ConfinedGeo(v, Put(v, Lookup(v, InodeAt(v, num), pb),
        D.PutLen(BlockAt(v, Lookup(v, InodeAt(v, num), pb)), N.Start(recs, pb, pi),
          recs[pb][pi].len + recs[b][0].len)), num);
    }
  }

  lemma FirstRemoved(v: Volume, num: nat, name: seq<byte>, recs: seq<seq<D.Rec>>)
    requires Ready(v, num, recs) && 0 < num <= v.geo.inodes && IsDir(InodeAt(v, num)) && N.Unique(N.Flat(recs))
    requires recs != [] && recs[0] != [] && N.Match(recs[0][0], name)
    ensures Ptrs(v.geo) > 0 && Lookup(v, InodeAt(v, num), 0) > 0 && N.Start(recs, 0, 0) == 0
    ensures var c := Lookup(v, InodeAt(v, num), 0);
      Removed(v, Put(v, c, D.PutInode(BlockAt(v, c), 0, 0)), num, name, recs, After(recs, 0, 0))
  {
    hide Valid, DirFile, InodeAt, IsDir, N.Flat, N.Start, DirView, Size, N.Deleted, N.Unique, N.FirstOfLater, N.Broken,
      D.PutInode, Rewritten, Confined, Put, Lookup, BlockAt, N.Match, Ready;
    UnuseRewritten(v, num, recs, name);
    var c := Lookup(v, InodeAt(v, num), 0);
    RewrittenConfined(v, Put(v, c, D.PutInode(BlockAt(v, c), 0, 0)), num, After(recs, 0, 0));
  }

  /** The entry to remove is found: merged with the previous entry, or marked unused when there is none. */
  method RemoveAt(fs: Ext2, num: nat, ghost raw: seq<byte>, ghost name: seq<byte>, ghost recs: seq<seq<D.Rec>>,
                  hasPrev: bool, prevBlock: nat, prevAt: nat, blockNum: nat, at: nat,
                  ghost b: nat, ghost i: nat, ghost pb: nat, ghost pi: nat)
    returns (ghost recs': seq<seq<D.Rec>>)
    requires Ready(fs.vol, num, recs) && N.Unique(N.Flat(recs)) && 0 < num <= fs.vol.geo.inodes
      && IsDir(InodeAt(fs.vol, num))
    requires raw == InodeAt(fs.vol, num) && b < |recs| && N.Position(recs, b, i) && N.Match(recs[b][i], name)
      && Ptrs(fs.vol.geo) > 0
    requires blockNum == Lookup(fs.vol, raw, b) && at == N.Start(recs, b, i) && (hasPrev <==> !(b == 0 && i == 0))
    requires hasPrev ==>
      N.Position(recs, pb, pi) && pb < |recs| && b == N.NextB(recs, pb, pi) && i == N.NextI(recs, pb, pi)
    requires hasPrev ==> prevBlock == Lookup(fs.vol, raw, pb) && prevAt == N.Start(recs, pb, pi)
    modifies fs
    ensures Removed(old(fs.vol), fs.vol, num, name, recs, recs')
  {
    hide Valid, DirFile, InodeAt, IsDir, N.Flat, N.Start, DirView, N.Unique, Removed, D.PutInode, D.PutLen, Put, Lookup,
      D.RecLen, BlockAt, N.Match, Ready, N.NextB, N.NextI, N.Position, After;
    InPlace(recs, b, i);
    recs' := After(recs, b, i);
    if hasPrev {
      ReadyFacts(fs.vol, num, recs);
      Neighbours(fs.vol, num, name, recs, b, i, pb, pi);
      MergeRemoved(fs.vol, num, name, recs, b, i, pb, pi);
      var joined := (D.RecLen(BlockAt(fs.vol, prevBlock), prevAt) + D.RecLen(BlockAt(fs.vol, blockNum), at)) % 0x1_0000;
      fs.vol := Put(fs.vol, prevBlock, D.PutLen(BlockAt(fs.vol, prevBlock), prevAt, joined));
    } else {
      FirstRemoved(fs.vol, num, name, recs);
      fs.vol := Put(fs.vol, blockNum, D.PutInode(BlockAt(fs.vol, blockNum), at, 0));
    }
  }

  lemma RemovedFacts(v: Volume, w: Volume, num: nat, name: seq<byte>, recs: seq<seq<D.Rec>>, recs': seq<seq<D.Rec>>)
    requires Removed(v, w, num, name, recs, recs')
    ensures w.geo == v.geo && Confined(v, w, num)
    ensures !N.FirstOfLater(recs, name) ==>
      Rewritten(v, w, num, recs') && N.Deleted(N.Flat(recs), N.Flat(recs'), name)
    ensures N.FirstOfLater(recs, name) ==> N.Broken(DirView(w, InodeAt(w, num)), w.geo.bs)
  {
  }

  lemma InPlace(recs: seq<seq<D.Rec>>, b: nat, i: nat)
    requires N.Position(recs, b, i) && b < |recs|
    ensures i < |recs[b]|
  {
  }

  /** The record before another is in the same block, or the last of the block before. */
  lemma Before(recs: seq<seq<D.Rec>>, b: nat, i: nat, pb: nat, pi: nat)
    requires N.Position(recs, pb, pi) && pb < |recs| && b == N.NextB(recs, pb, pi) && i == N.NextI(recs, pb, pi)
    ensures pi < |recs[pb]| && (if i > 0 then pb == b && pi == i - 1 else b > 0 && pb == b - 1 && pi == |recs[pb]| - 1)
  {
  }

  lemma ReadyFacts(v: Volume, num: nat, recs: seq<seq<D.Rec>>)
    requires Ready(v, num, recs) && 0 < num <= v.geo.inodes && IsDir(InodeAt(v, num))
    ensures Valid(v) && DirFile(v, InodeAt(v, num), recs)
  {
  }

  lemma RewrittenConfined(v: Volume, w: Volume, num: nat, recs: seq<seq<D.Rec>>)
    requires Rewritten(v, w, num, recs)
    ensures Confined(v, w, num)
  {
  }

  lemma ConfinedGeo(v: Volume, w: Volume, num: nat)
    requires Confined(v, w, num)
    ensures w.geo == v.geo
  {
  }

  // ---------------------------------------------------------------- the first files

  /** The only pointer an inode holds is the first, and that one is `b`. */
  predicate Single(raw: seq<byte>, b: nat) {
    |raw| == 128 && Read32(raw, 40) == b && forall i: nat :: 1 <= i < 15 ==> Pointer(raw, i) == 0
  }

  function Pointer(raw: seq<byte>, i: nat): nat { if 40 + 4 * i + 4 <= |raw| then Read32(raw, 40 + 4 * i) else 0 }

  lemma SingleAt(v: Volume, raw: seq<byte>, b: nat, x: Path)
    requires Single(raw, b) && x in Dom(Ptrs(v.geo)) && x != []
    ensures At(v, raw, x) == if x == [0] then b else 0
  {
    hide Dom, At, SlotOf, Single, Ptrs;
    FirstStep(Ptrs(v.geo), x);
    PointerSlot(v, raw, b, x[0]);
    RootSlot(v, raw, x[0]);
    if x[0] != 0 {
      NoRoot(v, raw, x);
    }
  }

  lemma FirstStep(p: nat, x: Path)
    requires x in Dom(p) && x != []
    ensures x[0] < 15 && (x[0] == 0 <==> x == [0])
  {
  }

  lemma PointerSlot(v: Volume, raw: seq<byte>, b: nat, i: nat)
    requires Single(raw, b) && i < 15
    ensures SlotOf(raw, v, ROOT, i) == if i == 0 then b else 0
  {
    hide Read32;
    if i > 0 { assert Pointer(raw, i) == 0; }
  }

  lemma SingleMap(v: Volume, raw: seq<byte>, b: nat)
    requires Single(raw, b) && (b == 0 || Ownable(v, b))
    ensures FileMap(v, raw) && At(v, raw, []) == ROOT
    ensures forall x :: x in Dom(Ptrs(v.geo)) && x != [] ==> At(v, raw, x) == if x == [0] then b else 0
  {
    forall x | x in Dom(Ptrs(v.geo)) && x != [] ensures At(v, raw, x) == if x == [0] then b else 0 {
      SingleAt(v, raw, b, x);
    }
    hide Dom, Ownable, Single, SlotOf, Ptrs;
    SingleSize(raw, b);
    assert At(v, raw, []) == ROOT;
    forall x, y | x in Dom(Ptrs(v.geo)) && y in Dom(Ptrs(v.geo))
      && Node(Slots(raw, v), ROOT, x) == Node(Slots(raw, v), ROOT, y) != 0
      ensures x == y
    {
      AtIs(v, raw, x);
      AtIs(v, raw, y);
    }
    OwnablePositive(v, b);
  }

  lemma OwnablePositive(v: Volume, b: nat)
    ensures Ownable(v, b) ==> b > 0
  {
  }

  lemma SingleSize(raw: seq<byte>, b: nat)
    requires Single(raw, b)
    ensures |raw| == 128
  {
  }

  /** An inode whose block pointers are all zero is a file of holes, whatever its size. */
  lemma EmptyFile(v: Volume, raw: seq<byte>)
    requires Valid(v) && Single(raw, 0)
    ensures FileOk(v, raw) && Content(v, raw) == Zeros(Size(raw)) && forall c: int :: 0 < c ==> NotIn(v, raw, c)
  {
    hide Valid, Dom, Single, Size, Ptrs, PathOf, SlotOf;
    SingleMap(v, raw, 0);
    ValidSizes(v);
    forall k: nat ensures ByteAt(v, raw, k) == 0 { HoleByte(v, raw, k); }
    forall c: int | 0 < c ensures NotIn(v, raw, c) {
      forall x | x in Dom(Ptrs(v.geo)) ensures Node(Slots(raw, v), ROOT, x) != c { AtIs(v, raw, x); }
    }
  }

  lemma HoleByte(v: Volume, raw: seq<byte>, k: nat)
    requires forall x :: x in Dom(Ptrs(v.geo)) && x != [] ==> At(v, raw, x) == 0
    ensures ByteAt(v, raw, k) == 0
  {
    hide Dom, At, PathOf, Ptrs;
    if Ptrs(v.geo) != 0 && v.geo.bs != 0 { PathInDom(Ptrs(v.geo), Div(k, v.geo.bs)); }
  }

  /** An inode with one block and that block's size is that block. */
  lemma OneBlockFile(v: Volume, raw: seq<byte>, b: nat)
    requires Valid(v) && Single(raw, b) && Ownable(v, b) && Size(raw) == v.geo.bs
    ensures FileOk(v, raw) && Ptrs(v.geo) > 0 && Lookup(v, raw, 0) == b
    ensures BlockCount(v, raw) == 1 && DirView(v, raw) == [BlockAt(v, b)]
  {
    hide Valid, Dom, Single, Size, SlotOf, Ownable, Ptrs, IsMeta, IsUsed, BlockAt;
    SingleMap(v, raw, b);
    ValidSizes(v);
    OwnablePositive(v, b);
    DivModUnique(1, 0, v.geo.bs);
    IndexPath(v, raw, 0, 0);
    assert PathOf(Ptrs(v.geo), 0) == [0];
    forall k: nat | k >= Size(raw) ensures ByteAt(v, raw, k) == 0 {
      PastEnd(Size(raw), k, v.geo.bs);
      PathInDom(Ptrs(v.geo), Div(k, v.geo.bs));
      if PathOf(Ptrs(v.geo), Div(k, v.geo.bs)) == [0] { PathPrefix(Ptrs(v.geo), 0, Div(k, v.geo.bs)); }
    }
    assert DirView(v, raw)[0] == BlockOf(v, raw, 0);
  }
}
