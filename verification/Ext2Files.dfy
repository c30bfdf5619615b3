/** The files of all inodes in use: what every run of operations on a volume keeps. */
module Ext2Files {
  import opened Arith
  import opened Bytes
  import opened Options
  import opened Ext2Volume
  import opened Ext2Alloc
  import opened RadixTree
  import opened Ext2BlockMap
  import opened Ext2File
  import opened Ext2Mount
  import opened Ext2DirFile
  import I = Ext2Inodes
  import X = Ext2Format
  import D = Ext2Dir
  import N = Ext2Directory

  // ---------------------------------------------------------------- the invariant

  /** The inode exists and is in use. */
  predicate Held(v: Volume, n: nat) { 0 < n <= v.geo.inodes && InodeUsed(v, n) }

  /** A directory is tiled by records with different names. */
  ghost predicate Recorded(v: Volume, raw: seq<byte>) {
    IsDir(raw) ==> exists recs :: DirFile(v, raw, recs) && N.Unique(N.Flat(recs))
  }

  ghost predicate FileAt(v: Volume, n: nat) { FileOk(v, InodeAt(v, n)) && Recorded(v, InodeAt(v, n)) }

  /** Two inodes have no block in common. */
  ghost predicate NoShare(v: Volume, n: nat, m: nat) { Disjoint(v, InodeAt(v, n), InodeAt(v, m)) }

  /**
   Every inode in use has a tree of blocks that are in use and no metadata, every directory is well formed,
   and no block belongs to two inodes.
   */
  ghost predicate FsOk(v: Volume) {
    && Sound(v) && (forall n: nat :: Held(v, n) ==> FileAt(v, n))
    && forall n: nat, m: nat :: Held(v, n) && Held(v, m) && n != m ==> NoShare(v, n, m)
  }

  // ---------------------------------------------------------------- a file whose blocks stay

  ghost predicate Stays(v: Volume, w: Volume, g: seq<byte>) {
    w.geo == v.geo && forall x :: x in Dom(Ptrs(v.geo)) && x != [] && At(v, g, x) != 0 ==>
      BlockAt(w, At(v, g, x)) == BlockAt(v, At(v, g, x)) && Ownable(w, At(v, g, x))
  }

  lemma StaysFile(v: Volume, w: Volume, g: seq<byte>)
    requires Valid(v) && FileOk(v, g) && Recorded(v, g) && Stays(v, w, g)
    ensures FileOk(w, g) && Recorded(w, g) && Content(w, g) == Content(v, g) && SameRecords(v, w, g)
    ensures forall x :: x in Dom(Ptrs(v.geo)) ==> At(w, g, x) == At(v, g, x)
  {
    hide Dom, IsMeta, IsUsed, At, Slots, Separated, ByteAt, SameData, Size, Valid, IsDir, DirFile, N.Unique, N.Flat,
      Ownable;
    SameFile(v, w, g);
    BytesSame(v, g, w, g);
    assert Content(w, g) == Content(v, g);
    ValidSizes(v);
    forall recs | DirFile(v, g, recs) ensures DirFile(w, g, recs) {
      DirFacts(v, g, recs);
      StillMapped(v, g, w);
      SameDir(v, g, w, g, recs);
    }
  }

  /** Records that tiled the file still do. */
  ghost predicate SameRecords(v: Volume, w: Volume, g: seq<byte>) {
    forall recs :: DirFile(v, g, recs) ==> DirFile(w, g, recs)
  }

  /** Two files that stay keep apart. */
  lemma StaysApart(v: Volume, w: Volume, g: seq<byte>, h: seq<byte>)
    requires Disjoint(v, g, h) && w.geo == v.geo
    requires forall x :: x in Dom(Ptrs(v.geo)) ==> At(w, g, x) == At(v, g, x)
    requires forall x :: x in Dom(Ptrs(v.geo)) ==> At(w, h, x) == At(v, h, x)
    ensures Disjoint(w, g, h)
  {
    hide Dom, At, Slots;
    forall y | y in Dom(Ptrs(v.geo)) && y != [] && At(w, h, y) != 0 ensures NotIn(w, g, At(w, h, y)) {
      forall x | x in Dom(Ptrs(v.geo)) ensures Node(Slots(g, w), ROOT, x) != At(w, h, y) {
        AtIs(w, g, x);
        AtIs(v, g, x);
      }
    }
  }

  lemma DisjointSym(v: Volume, g: seq<byte>, h: seq<byte>)
    requires Disjoint(v, g, h) && FileMap(v, g) && FileMap(v, h)
    ensures Disjoint(v, h, g)
  {
    hide Dom, At, Slots, Separated, IsMeta, IsUsed;
    forall x | x in Dom(Ptrs(v.geo)) && x != [] && At(v, g, x) != 0 ensures NotIn(v, h, At(v, g, x)) {
      NodeIsOwn(v, g, x);
      forall y | y in Dom(Ptrs(v.geo)) ensures Node(Slots(h, v), ROOT, y) != At(v, g, x) {
        AtIs(v, h, y);
        AtIs(v, g, x);
        if At(v, h, y) != 0 { NodeIsOwn(v, h, y); }
      }
    }
  }

  // ---------------------------------------------------------------- steps

  /** Blocks in use outside the tree `raw`, and inodes other than `n`, are as they were. */
  ghost predicate Aside(v: Volume, w: Volume, raw: seq<byte>, n: nat) {
    && SameSuper(v, w)
    && (forall c: nat ::
      0 < c && v.geo.fdb <= c < v.geo.count && IsUsed(v, c) && !IsMeta(v.geo, c) && NotIn(v, raw, c) ==>
        IsUsed(w, c) && BlockAt(w, c) == BlockAt(v, c))
    && (forall m: nat :: 0 < m <= v.geo.inodes && m != n ==>
      InodeAt(w, m) == InodeAt(v, m) && InodeUsed(w, m) == InodeUsed(v, m))
  }

  /** An inode in use got other content and perhaps other blocks. */
  ghost predicate Touched(v: Volume, w: Volume, n: nat) {
    && Held(v, n) && Valid(w) && OtherInodes(v, w, n) && FileAt(w, n)
    && Apart(v, InodeAt(v, n), w, InodeAt(w, n))
  }

  /** An inode came into use, with a file that owns no block. */
  ghost predicate Born(v: Volume, w: Volume, n: nat) {
    && 0 < n <= v.geo.inodes && !InodeUsed(v, n) && Valid(w) && FileAt(w, n)
    && Single(InodeAt(w, n), 0) && Aside(v, w, InodeAt(w, n), n)
  }

  /** An inode went out of use, and some of its blocks with it. */
  ghost predicate Died(v: Volume, w: Volume, n: nat) {
    && Held(v, n) && Valid(w) && !InodeUsed(w, n) && Aside(v, w, InodeAt(v, n), n)
  }

  datatype Step = Touch(n: nat) | Birth(n: nat) | Death(n: nat) | Again

  /** The steps that operations are made of, the last one being an unmount and a mount. */
  ghost predicate Steps(v: Volume, s: Step, w: Volume) {
    match s
    case Touch(n) => Touched(v, w, n)
    case Birth(n) => Born(v, w, n)
    case Death(n) => Died(v, w, n)
    case Again => Mount(v.blocks, v.geo.bs) == Some(w)
  }

  /** A file apart from the one that changes stays. */
  lemma AsideStays(v: Volume, w: Volume, raw: seq<byte>, n: nat, g: seq<byte>)
    requires Aside(v, w, raw, n) && FileMap(v, g) && Disjoint(v, raw, g)
    ensures Stays(v, w, g)
  {
    hide Dom, At, Slots, Separated, IsMeta, IsUsed, NotIn, InodeAt, InodeUsed;
    forall x | x in Dom(Ptrs(v.geo)) && x != [] && At(v, g, x) != 0
      ensures BlockAt(w, At(v, g, x)) == BlockAt(v, At(v, g, x)) && Ownable(w, At(v, g, x))
    {
      NodeIsOwn(v, g, x);
    }
  }

  /** So all inodes but `n` keep what the invariant asks, and their content. */
  lemma OthersKept(v: Volume, w: Volume, raw: seq<byte>, n: nat)
    requires FsOk(v) && Aside(v, w, raw, n)
    requires forall m: nat :: Held(v, m) && m != n ==> Disjoint(v, raw, InodeAt(v, m))
    ensures forall m: nat :: m != n ==> Held(w, m) == Held(v, m)
    ensures forall m: nat :: Held(v, m) && m != n ==> FileAt(w, m) && Same(v, w, m)
    ensures forall m: nat, l: nat :: Held(v, m) && Held(v, l) && m != n && l != n && m != l ==> NoShare(w, m, l)
  {
    hide Sound, InodeAt, InodeUsed, Disjoint, Stays, FileOk, Recorded, Content, SameNodes, SameRecords;
    forall m: nat | Held(v, m) && m != n ensures FileAt(w, m) && Same(v, w, m) {
      assert FileAt(v, m);
      AsideFile(v, w, raw, n, m);
    }
    forall m: nat, l: nat | Held(v, m) && Held(v, l) && m != n && l != n && m != l ensures NoShare(w, m, l) {
      assert NoShare(v, m, l);
      assert Same(v, w, m) && Same(v, w, l);
      SameShare(v, w, m, l);
    }
  }

  /** All nodes of a tree are where they were. */
  ghost predicate SameNodes(v: Volume, w: Volume, g: seq<byte>) {
    w.geo == v.geo && forall x :: x in Dom(Ptrs(v.geo)) ==> At(w, g, x) == At(v, g, x)
  }

  /** Inode `m` is stored as it was, has the same blocks and the same content. */
  ghost predicate Same(v: Volume, w: Volume, m: nat) {
    && InodeAt(w, m) == InodeAt(v, m) && SameNodes(v, w, InodeAt(v, m)) && SameRecords(v, w, InodeAt(v, m))
    && Content(w, InodeAt(w, m)) == Content(v, InodeAt(v, m))
  }

  lemma AsideFile(v: Volume, w: Volume, raw: seq<byte>, n: nat, m: nat)
    requires Sound(v) && Aside(v, w, raw, n) && Held(v, m) && m != n && FileAt(v, m) && Disjoint(v, raw, InodeAt(v, m))
    ensures FileAt(w, m) && Same(v, w, m)
  {
    hide Valid, SuperStored, InodeAt, InodeUsed, Disjoint, Stays, FileMap, TailZero, Recorded, Content, Dom, At, IsUsed,
      IsMeta, NotIn, SameRecords;
    var g := InodeAt(v, m);
    AsideStays(v, w, raw, n, g);
    StaysFile(v, w, g);
  }

  lemma SameShare(v: Volume, w: Volume, m: nat, l: nat)
    requires Same(v, w, m) && Same(v, w, l) && NoShare(v, m, l)
    ensures NoShare(w, m, l)
  {
    hide InodeAt, Content, Dom, At, Disjoint, SameRecords;
    StaysApart(v, w, InodeAt(v, m), InodeAt(v, l));
  }

  lemma SoundKept(v: Volume, w: Volume)
    requires Sound(v) && Valid(w) && SameSuper(v, w)
    ensures Sound(w)
  {
    hide Valid, SuperStored;
    ValidSizes(v);
    ValidSizes(w);
    SuperKept(v, w);
  }

  /** The invariant, put together from what holds of inode `n` and of the others. */
  lemma FsOkWith(w: Volume, n: nat)
    requires Sound(w)
    requires forall m: nat :: Held(w, m) && m != n ==> FileAt(w, m)
    requires forall m: nat, l: nat :: Held(w, m) && Held(w, l) && m != n && l != n && m != l ==> NoShare(w, m, l)
    requires Held(w, n) ==> FileAt(w, n)
    requires Held(w, n) ==> forall m: nat :: Held(w, m) && m != n ==> NoShare(w, n, m)
    ensures FsOk(w)
  {
    hide Sound, FileOk, Recorded, InodeAt, Disjoint, InodeUsed;
    forall m: nat, l: nat | Held(w, m) && Held(w, l) && m != l ensures NoShare(w, m, l) {
      if l == n {
        assert NoShare(w, n, m);
        FileMapAt(w, n);
        FileMapAt(w, m);
        DisjointSym(w, InodeAt(w, n), InodeAt(w, m));
      }
    }
  }

  lemma FileMapAt(w: Volume, n: nat)
    requires FileAt(w, n)
    ensures FileMap(w, InodeAt(w, n))
  {
  }

  lemma ApartDisjoint(v: Volume, raw: seq<byte>, w: Volume, raw': seq<byte>, g: seq<byte>)
    requires Apart(v, raw, w, raw') && FileMap(v, g) && Disjoint(v, raw, g) && SameNodes(v, w, g)
    ensures Disjoint(w, raw', g)
  {
    hide Dom, At, Slots, Separated, IsMeta, IsUsed, NotIn;
    forall x | x in Dom(Ptrs(w.geo)) && x != [] && At(w, g, x) != 0 ensures NotIn(w, raw', At(w, g, x)) {
      NodeIsOwn(v, g, x);
    }
  }

  lemma ApartAside(v: Volume, w: Volume, n: nat)
    requires Apart(v, InodeAt(v, n), w, InodeAt(w, n)) && OtherInodes(v, w, n)
    ensures Aside(v, w, InodeAt(v, n), n)
  {
    hide InodeAt, InodeUsed, IsUsed, IsMeta, NotIn;
  }

  lemma TouchKeeps(v: Volume, w: Volume, n: nat)
    requires FsOk(v) && Touched(v, w, n)
    ensures FsOk(w) && forall m: nat :: Held(v, m) && m != n ==> Held(w, m) && Same(v, w, m)
  {
    hide Sound, InodeAt, InodeUsed, Disjoint, FileAt, Apart, OtherInodes, Valid, Same, Aside;
    ApartAside(v, w, n);
    forall m: nat | Held(v, m) && m != n ensures Disjoint(v, InodeAt(v, n), InodeAt(v, m)) {
      assert NoShare(v, n, m);
    }
    OthersKept(v, w, InodeAt(v, n), n);
    forall m: nat | Held(w, m) && m != n ensures NoShare(w, n, m) {
      assert Held(v, m) && Same(v, w, m);
      SameFacts(v, w, m);
      FileMapAt(v, m);
      ApartDisjoint(v, InodeAt(v, n), w, InodeAt(w, n), InodeAt(v, m));
    }
    AsideSuper(v, w, InodeAt(v, n), n);
    SoundKept(v, w);
    FsOkWith(w, n);
  }

  lemma SameFacts(v: Volume, w: Volume, m: nat)
    requires Same(v, w, m)
    ensures InodeAt(w, m) == InodeAt(v, m) && SameNodes(v, w, InodeAt(v, m))
  {
  }

  lemma AsideSuper(v: Volume, w: Volume, raw: seq<byte>, n: nat)
    requires Aside(v, w, raw, n)
    ensures SameSuper(v, w)
  {
  }

  /** A file without blocks shares none. */
  lemma EmptyDisjoint(v: Volume, raw: seq<byte>, g: seq<byte>)
    requires Valid(v) && Single(raw, 0) && FileMap(v, g)
    ensures Disjoint(v, raw, g)
  {
    hide Valid, Single, Dom, At, IsMeta, IsUsed, Separated, Slots, NotIn;
    EmptyFile(v, raw);
    forall x | x in Dom(Ptrs(v.geo)) && x != [] && At(v, g, x) != 0 ensures NotIn(v, raw, At(v, g, x)) {
      NodeIsOwn(v, g, x);
    }
  }

  lemma SoundValid(v: Volume)
    requires Sound(v)
    ensures Valid(v)
  {
  }

  lemma BirthKeeps(v: Volume, w: Volume, n: nat)
    requires FsOk(v) && Born(v, w, n)
    ensures FsOk(w) && forall m: nat :: Held(v, m) ==> Held(w, m) && Same(v, w, m)
  {
    hide Sound, InodeAt, Disjoint, FileAt, Valid, Same, Aside, Single;
    var raw := InodeAt(w, n);
    SoundValid(v);
    forall m: nat | Held(v, m) && m != n ensures Disjoint(v, raw, InodeAt(v, m)) {
      FileMapAt(v, m);
      EmptyDisjoint(v, raw, InodeAt(v, m));
    }
    OthersKept(v, w, raw, n);
    forall m: nat | Held(w, m) && m != n ensures NoShare(w, n, m) {
      FileMapAt(w, m);
      EmptyDisjoint(w, raw, InodeAt(w, m));
    }
    AsideSuper(v, w, raw, n);
    SoundKept(v, w);
    FsOkWith(w, n);
  }

  lemma DeathKeeps(v: Volume, w: Volume, n: nat)
    requires FsOk(v) && Died(v, w, n)
    ensures FsOk(w) && forall m: nat :: Held(v, m) && m != n ==> Held(w, m) && Same(v, w, m)
  {
    hide Sound, InodeAt, Disjoint, FileAt, Valid, Same, Aside;
    forall m: nat | Held(v, m) && m != n ensures Disjoint(v, InodeAt(v, n), InodeAt(v, m)) {
      assert NoShare(v, n, m);
    }
    OthersKept(v, w, InodeAt(v, n), n);
    AsideSuper(v, w, InodeAt(v, n), n);
    SoundKept(v, w);
    FsOkWith(w, n);
  }

  lemma AgainAside(v: Volume, w: Volume, raw: seq<byte>)
    requires Sound(v) && Mount(v.blocks, v.geo.bs) == Some(w)
    ensures Valid(w) && Aside(v, w, raw, 0) && ButTotals(v, w)
  {
    hide Mount, SuperStored, Valid, IsUsed, InodeUsed, InodeAt, BlockAt, NotIn, IsMeta;
    Remount(v);
    OtherTotals(v, w);
    TotalsAside(v, w);
  }

  lemma TotalsAside(v: Volume, w: Volume)
    requires ButTotals(v, w)
    ensures forall b: nat :: BlockAt(w, b) == BlockAt(v, b) && IsUsed(w, b) == IsUsed(v, b)
    ensures forall n: nat :: InodeUsed(w, n) == InodeUsed(v, n) && InodeAt(w, n) == InodeAt(v, n)
  {
    hide GroupOf, IndexOf, InodeGroup, InodeIndex, InodeBlock, InodeOffset;
    assert forall b: nat :: BlockAt(w, b) == BlockAt(v, b);
    assert forall k: nat :: BlockMap(w, k) == BlockMap(v, k) && InodeMap(w, k) == InodeMap(v, k);
  }

  lemma AgainKeeps(v: Volume, w: Volume)
    requires FsOk(v) && Mount(v.blocks, v.geo.bs) == Some(w)
    ensures FsOk(w) && forall m: nat :: Held(v, m) ==> Held(w, m) && Same(v, w, m)
  {
    hide Sound, InodeAt, InodeUsed, Disjoint, FileAt, Valid, Same, Aside, Mount, Single;
    var raw := Zeros(128);
    SoundValid(v);
    AgainAside(v, w, raw);
    ZerosSingle();
    forall m: nat | Held(v, m) && m != 0 ensures Disjoint(v, raw, InodeAt(v, m)) {
      FileMapAt(v, m);
      EmptyDisjoint(v, raw, InodeAt(v, m));
    }
    OthersKept(v, w, raw, 0);
    AsideSuper(v, w, raw, 0);
    SoundKept(v, w);
    FsOkWith(w, 0);
  }

  lemma ZerosSingle()
    ensures Single(Zeros(128), 0)
  {
    forall i: nat | i < 15 ensures Pointer(Zeros(128), i) == 0 && Read32(Zeros(128), 40) == 0 {
    }
  }

  /** The inode that a step is about, if any. */
  function About(s: Step): nat { if s.Again? then 0 else s.n }

  /** Every step keeps the invariant, and every inode but the one it is about. */
  lemma StepKeeps(v: Volume, s: Step, w: Volume)
    requires FsOk(v) && Steps(v, s, w)
    ensures FsOk(w) && forall m: nat :: Held(v, m) && m != About(s) ==> Held(w, m) && Same(v, w, m)
  {
    hide FsOk, Touched, Born, Died, Mount, Held, Same;
    match s
    case Touch(n) => TouchKeeps(v, w, n);
    case Birth(n) => BirthKeeps(v, w, n);
    case Death(n) => DeathKeeps(v, w, n);
    case Again => AgainKeeps(v, w);
  }

  ghost predicate IsFsRun(vs: seq<Volume>, ss: seq<Step>) {
    |vs| == |ss| + 1 && forall j :: 0 <= j < |ss| ==> Steps(vs[j], ss[j], vs[j + 1])
  }

  /**
   Over every run: the trees of all inodes in use are made of blocks in use and have no block in common, and an
   inode that no step was about has the content it had.
   */
  lemma {:induction false} RunKeeps(vs: seq<Volume>, ss: seq<Step>, m: nat)
    requires IsFsRun(vs, ss) && FsOk(vs[0])
    ensures FsOk(vs[|ss|])
    ensures Held(vs[0], m) && (forall j :: 0 <= j < |ss| ==> About(ss[j]) != m) ==>
      Held(vs[|ss|], m) && Content(vs[|ss|], InodeAt(vs[|ss|], m)) == Content(vs[0], InodeAt(vs[0], m))
    decreases |ss|
  {
    hide FsOk, Steps, Held, Content, InodeAt, SameNodes, SameRecords;
    if ss != [] {
      var n := |ss| - 1;
      RunKeeps(vs[..n + 1], ss[..n], m);
      assert vs[..n + 1][n] == vs[n] && vs[..n + 1][0] == vs[0];
      StepKeeps(vs[n], ss[n], vs[n + 1]);
    }
  }

  /** The invariant holds of a freshly formatted volume. */
  lemma FormatFsOk(blocks: seq<seq<byte>>, p: X.Plan)
    requires X.Formatted(blocks, p) && p.total <= 8192
    ensures FsOk(X.FormatVolume(blocks, p))
  {
    hide X.Formatted, Sound, FileAt, InodeAt, InodeUsed, Disjoint, Single, Totals, X.FormatVolume;
    var v := X.FormatVolume(blocks, p);
    X.FormatValid(blocks, p);
    SoundValid(v);
    FormatInodes(blocks, p);
    ZerosSingle();
    RootRecorded(blocks, p);
    forall n: nat | Held(v, n) && n != 2 ensures FileAt(v, n) {
      X.BlankInTable(blocks, p, n);
      BlankFile(v, n);
    }
    forall n: nat, m: nat | Held(v, n) && Held(v, m) && n != m && n != 2 ensures NoShare(v, n, m) {
      X.BlankInTable(blocks, p, n);
      FileMapAt(v, m);
      EmptyDisjoint(v, InodeAt(v, n), InodeAt(v, m));
    }
    forall m: nat | Held(v, 2) && Held(v, m) && m != 2 ensures NoShare(v, 2, m) {
      assert NoShare(v, m, 2);
      FileMapAt(v, m);
      FileMapAt(v, 2);
      DisjointSym(v, InodeAt(v, m), InodeAt(v, 2));
    }
    FsOkWith(v, 2);
  }

  lemma FormatInodes(blocks: seq<seq<byte>>, p: X.Plan)
    ensures X.FormatVolume(blocks, p).geo.inodes == p.inodes
  {
  }

  /** An inode without pointers and with no size is a file, and a directory without records. */
  lemma BlankFile(v: Volume, n: nat)
    requires Valid(v) && Single(InodeAt(v, n), 0) && Size(InodeAt(v, n)) == 0
    ensures FileAt(v, n) && Content(v, InodeAt(v, n)) == []
  {
    hide Valid, InodeAt, Single, Size, FileOk, IsDir, Content;
    var raw := InodeAt(v, n);
    EmptyFile(v, raw);
    BlankDir(v, raw);
  }

  lemma BlankDir(v: Volume, raw: seq<byte>)
    requires Valid(v) && FileOk(v, raw) && Size(raw) == 0
    ensures DirFile(v, raw, []) && N.Unique(N.Flat([]))
  {
    hide FileOk, Size, Valid;
    ValidSizes(v);
    GeoSizes(v);
    assert BlockCount(v, raw) == 0;
    assert DirView(v, raw) == [];
  }

  lemma GeoSizes(v: Volume)
    requires Valid(v)
    ensures 1024 <= v.geo.bs <= 4096 && v.geo.bs % 4 == 0
  {
  }

  lemma RootRecorded(blocks: seq<seq<byte>>, p: X.Plan)
    requires X.Formatted(blocks, p) && p.total <= 8192
    ensures FileAt(X.FormatVolume(blocks, p), 2)
  {
    hide X.Formatted, InodeAt, IsDir, DirFile, X.FormatVolume, FileOk;
    var v := X.FormatVolume(blocks, p);
    X.RootDirectory(blocks, p);
    var recs := [[X.Dot, X.DotDot]];
    DirIsFile(v, InodeAt(v, 2), recs);
    assert recs[1..] == [] && N.Flat([]) == [];
    assert N.Flat(recs) == [X.Dot, X.DotDot];
  }

  lemma DirIsFile(v: Volume, raw: seq<byte>, recs: seq<seq<D.Rec>>)
    requires DirFile(v, raw, recs)
    ensures FileOk(v, raw)
  {
  }

  /** From format onward, over every run of steps, the invariant holds. */
  lemma Reachable(blocks: seq<seq<byte>>, p: X.Plan, vs: seq<Volume>, ss: seq<Step>)
    requires X.Formatted(blocks, p) && p.total <= 8192 && IsFsRun(vs, ss) && vs[0] == X.FormatVolume(blocks, p)
    ensures FsOk(vs[|ss|])
  {
    hide X.Formatted, FsOk, Steps, X.FormatVolume;
    FormatFsOk(blocks, p);
    RunKeeps(vs, ss, 0);
  }

  // ---------------------------------------------------------------- open, write, close

  /** What the file holds in an inode is the same on the disk and in memory after it is stored. */
  lemma StoredBack(v: Volume, w: Volume, n: nat, raw: seq<byte>)
    requires Valid(w) && FileOk(w, raw) && Apart(v, InodeAt(v, n), w, raw) && OtherInodes(v, w, n)
    requires 0 < n <= v.geo.inodes && |raw| == 128
    ensures var x := StoreInode(w, n, raw);
      && Valid(x) && InodeAt(x, n) == raw && FileOk(x, raw) && Content(x, raw) == Content(w, raw)
      && Apart(v, InodeAt(v, n), x, raw) && OtherInodes(v, x, n) && FreeBlocks(x) == FreeBlocks(w)
  {
    hide Valid, FileMap, Size, Apart, InodeAt, OtherInodes, InodeBlock, InodeOffset, SameData, ByteAt, At, Dom,
      FreeBlocks;
    var x := StoreInode(w, n, raw);
    assert w.geo == v.geo by { ApartGeo(v, InodeAt(v, n), w, raw); }
    InodeReady(w, n);
    InodeStoreKeeps(w, raw, n, Splice(BlockAt(w, InodeBlock(w.geo, n)), InodeOffset(w.geo, n), raw));
    InodeStored(w, n, raw);
    ApartTrans(v, InodeAt(v, n), w, raw, x, raw);
    StoreInodeOthers(v, w, n, raw);
    BytesSame(w, raw, x, raw);
    assert Content(x, raw) == Content(w, raw);
    StoreInodeFree(w, n, raw);
  }

  lemma StoreInodeFree(w: Volume, n: nat, raw: seq<byte>)
    ensures FreeBlocks(StoreInode(w, n, raw)) == FreeBlocks(w) && FreeInodes(StoreInode(w, n, raw)) == FreeInodes(w)
  {
  }

  lemma FieldsDir(raw: seq<byte>, raw': seq<byte>)
    requires SameFields(raw, raw')
    ensures IsDir(raw') == IsDir(raw)
  {
  }

  /** A file that is no directory has been stored back. */
  lemma WriteTouches(v: Volume, w: Volume, n: nat, raw: seq<byte>)
    requires Held(v, n) && !IsDir(InodeAt(v, n)) && SameFields(InodeAt(v, n), raw)
    requires Valid(w) && FileOk(w, raw) && Apart(v, InodeAt(v, n), w, raw) && OtherInodes(v, w, n) && |raw| == 128
    ensures Touched(v, StoreInode(w, n, raw), n) && InodeAt(StoreInode(w, n, raw), n) == raw
    ensures Content(StoreInode(w, n, raw), raw) == Content(w, raw) && FreeBlocks(StoreInode(w, n, raw)) == FreeBlocks(w)
  {
    hide Valid, FileOk, Apart, InodeAt, OtherInodes, IsDir, SameFields, Content, StoreInode, FreeBlocks;
    StoredBack(v, w, n, raw);
    FieldsDir(InodeAt(v, n), raw);
  }

  /**
   `ext2_open`, `ext2_seek`, `ext2_write` and `ext2_close` of an inode in use: `done` bytes are written, all of them
   unless the volume is full. The invariant survives, and every other inode keeps its blocks and its content.
   */
  method WriteFile(fs: Ext2, n: nat, position: nat, data: seq<byte>) returns (r: int, ghost done: nat)
    requires FsOk(fs.vol) && Held(fs.vol, n) && position + |data| < 0x1_0000_0000
    modifies fs
    ensures FsOk(fs.vol) && Held(fs.vol, n)
    ensures forall m: nat :: Held(old(fs.vol), m) && m != n ==> Held(fs.vol, m) && Same(old(fs.vol), fs.vol, m)
    ensures IsDir(InodeAt(old(fs.vol), n)) ==> r == ERROR_IS_DIR && done == 0 && fs.vol == old(fs.vol)
    ensures !IsDir(InodeAt(old(fs.vol), n)) ==>
      && done <= |data| && Steps(old(fs.vol), Touch(n), fs.vol)
      && (if done == |data| then r == |data| else r == ERROR_NO_SPACE && FreeBlocks(fs.vol) == 0)
      && Content(fs.vol, InodeAt(fs.vol, n)) ==
           Overwrite(Content(old(fs.vol), InodeAt(old(fs.vol), n)), position, data[..done])
  {
    hide FsOk, Sound, Valid, FileOk, Apart, InodeAt, InodeUsed, OtherInodes, IsDir, SameFields, Content, StoreInode,
      Same,
      FreeBlocks, Overwrite, Touched;
    ghost var v := fs.vol;
    FileFacts(v, n);
    var f := new OpenFile(n, IsDir(InodeAt(fs.vol, n)), InodeAt(fs.vol, n));
    f.position := position;
    r := Write(fs, f, data);
    done := f.position - position;
    ghost var w := fs.vol;
    RawSize(w, f.inode);
    OtherGeo(v, w, n);
    if IsDir(InodeAt(v, n)) {
      StoreSame(v, n);
      SameAll(v);
    }
    var _ := WriteInode(fs, n, f.inode);
    if !IsDir(InodeAt(v, n)) {
      WriteTouches(v, w, n, f.inode);
      TouchKeeps(v, fs.vol, n);
      TouchedHeld(v, fs.vol, n);
    }
  }

  lemma FileFacts(v: Volume, n: nat)
    requires FsOk(v) && Held(v, n)
    ensures Valid(v) && FileOk(v, InodeAt(v, n)) && |InodeAt(v, n)| == 128 && 0 < n <= v.geo.inodes
  {
    hide InodeUsed, InodeAt, Valid, SuperStored, Recorded, TailZero;
    assert FileAt(v, n);
  }

  lemma RawSize(w: Volume, raw: seq<byte>)
    requires FileOk(w, raw)
    ensures |raw| == 128
  {
  }

  lemma OtherGeo(v: Volume, w: Volume, n: nat)
    requires OtherInodes(v, w, n)
    ensures w.geo == v.geo
  {
  }

  lemma TouchedHeld(v: Volume, w: Volume, n: nat)
    requires Touched(v, w, n)
    ensures Held(w, n)
  {
    hide InodeAt, InodeUsed, Apart, FileAt, Valid;
  }

  /** Storing an inode as it is changes nothing. */
  lemma StoreSame(v: Volume, n: nat)
    requires Valid(v) && 0 < n <= v.geo.inodes
    ensures StoreInode(v, n, InodeAt(v, n)) == v
  {
    hide Valid, InodeBlock, InodeOffset;
    InodeReady(v, n);
    var b, off := InodeBlock(v.geo, n), InodeOffset(v.geo, n);
    assert Splice(BlockAt(v, b), off, InodeAt(v, n)) == BlockAt(v, b);
    assert v.blocks[b := BlockAt(v, b)] == v.blocks;
  }

  lemma SameAll(v: Volume)
    ensures forall m: nat :: Same(v, v, m)
  {
    hide InodeAt, Content, At, Dom, DirFile;
  }

  lemma SameTrans(v: Volume, u: Volume, w: Volume, m: nat)
    requires Same(v, u, m) && Same(u, w, m)
    ensures Same(v, w, m)
  {
    hide InodeAt, Content, At, Dom, DirFile;
  }

  // ---------------------------------------------------------------- creating a file

  const ERROR_EXISTS := -5

  /** A new inode: `mode | EXT2_S_IFREG`, one link, no size and no blocks. */
  function NewInode(mode: nat): (r: seq<byte>)
    ensures |r| == 128
  {
    Write16(Write16(Zeros(128), 0, if mode / 0x8000 % 2 == 1 then mode else mode + 0x8000), 26, 1)
  }

  lemma NewInodeBlank(mode: nat)
    ensures Single(NewInode(mode), 0) && Size(NewInode(mode)) == 0
    ensures Links(NewInode(mode)) == 1 && forall k :: 2 <= k < 128 && k != 26 ==> NewInode(mode)[k] == 0
    ensures mode < 0x1_0000 ==> Read16(NewInode(mode), 0) == mode % 0x8000 + 0x8000
  {
    var raw := NewInode(mode);
    assert forall k :: 2 <= k < 128 && k != 26 ==> raw[k] == 0;
    forall i: nat | i < 15 ensures Pointer(raw, i) == 0 && Read32(raw, 40) == 0 {
    }
  }

  /** An inode was taken and a blank one stored in its place. */
  lemma BornIs(v: Volume, u: Volume, n: nat, raw: seq<byte>)
    requires Valid(v) && Valid(u) && I.Switched(v, u, n, true) && !InodeUsed(v, n)
    requires Single(raw, 0) && Size(raw) == 0 && |raw| == 128
    ensures Born(v, StoreInode(u, n, raw), n) && Held(StoreInode(u, n, raw), n)
    ensures InodeAt(StoreInode(u, n, raw), n) == raw && Content(StoreInode(u, n, raw), raw) == []
    ensures FreeBlocks(StoreInode(u, n, raw)) == FreeBlocks(v)
  {
    hide Valid, InodeAt, IsMeta, IsUsed, InodeUsed, Single, Size, NotIn, StoreInode, FreeBlocks, FreeInodes, FileOk,
      Recorded, Content;
    var w := StoreInode(u, n, raw);
    StoreInodeFree(u, n, raw);
    InodeStored(u, n, raw);
    StoredValid(u, n, raw);
    SwitchedAside(v, u, n);
    BlankFile(w, n);
  }

  /** Blocks of files are no blocks of inode tables. */
  lemma StoredValid(u: Volume, n: nat, raw: seq<byte>)
    requires Valid(u) && 0 < n <= u.geo.inodes && |raw| == 128
    ensures var w := StoreInode(u, n, raw);
      && Valid(w) && SameSuper(u, w) && (forall b: nat :: IsUsed(w, b) == IsUsed(u, b))
      && (forall b: nat :: !IsMeta(u.geo, b) ==> BlockAt(w, b) == BlockAt(u, b))
      && (forall m: nat :: InodeUsed(w, m) == InodeUsed(u, m))
      && (forall m: nat :: 0 < m <= u.geo.inodes && m != n ==> InodeAt(w, m) == InodeAt(u, m))
  {
    hide BlocksCounted, InodesCounted, DescsOnDisk, Padded, MetaUsed, IsMeta, IsUsed, InodeUsed, SameMaps, InodeBlock,
      InodeOffset, InodeAt, OtherInodes;
    StoreInodeUsed(u, n, raw);
    TablesSelf(u);
    TablesKeepInodes(u, u, n);
    StoreInodeOthers(u, u, n, raw);
    OtherInodesAre(u, StoreInode(u, n, raw), n);
    InodeInTable(u.geo, n);
    InodeReady(u, n);
    var b := InodeBlock(u.geo, n);
    TableSameMaps(u, InodeGroup(u.geo, n), b, Splice(BlockAt(u, b), InodeOffset(u.geo, n), raw));
    SameMapsValid(u, StoreInode(u, n, raw));
  }

  lemma OtherInodesAre(v: Volume, w: Volume, n: nat)
    requires OtherInodes(v, w, n)
    ensures forall m: nat :: 0 < m <= v.geo.inodes && m != n ==> InodeAt(w, m) == InodeAt(v, m)
  {
    hide InodeAt, InodeUsed;
  }

  /** Taking or giving back an inode leaves blocks and the content of all inodes alone. */
  lemma SwitchedAside(v: Volume, u: Volume, n: nat)
    requires Valid(v) && (I.Switched(v, u, n, true) || I.Switched(v, u, n, false))
    ensures forall m: nat :: 0 < m <= v.geo.inodes ==> InodeAt(u, m) == InodeAt(v, m)
  {
    hide InodeBlock, InodeOffset, InTable, IsMeta, IsUsed, BlocksCounted, InodesCounted, Padded, MetaUsed, DescsOnDisk,
      InodeUsed, FreeInodes, FreeBlocks;
    forall m: nat | 0 < m <= v.geo.inodes ensures InodeAt(u, m) == InodeAt(v, m) {
      InodeInTable(v.geo, m);
    }
  }

  /** An inode whose name could not be entered is given back. */
  lemma DiedIs(v: Volume, w: Volume, n: nat)
    requires Held(v, n) && Valid(v) && Valid(w) && I.Switched(v, w, n, false)
    ensures Died(v, w, n) && forall m: nat :: 0 < m <= v.geo.inodes && m != n ==> Held(w, m) == Held(v, m)
  {
    hide Valid, InodeAt, IsMeta, IsUsed, InodeUsed, NotIn, FreeBlocks, FreeInodes;
    SwitchedAside(v, w, n);
  }

  lemma InodesSmall(v: Volume)
    requires Valid(v)
    ensures v.geo.inodes < 0x1_0000_0000
  {
    hide BlocksCounted, InodesCounted, DescsOnDisk, Padded, MetaUsed, Layout;
    TimesIsMul(|v.geo.places|, v.geo.ipg);
    MulMono(|v.geo.places|, 128, v.geo.ipg);
  }

  /** Inodes in use before and other than these two are in use, with the same content. */
  ghost predicate AllSame(v: Volume, w: Volume, n: nat, m: nat) {
    forall l: nat :: Held(v, l) && l != n && l != m ==> Held(w, l) && Same(v, w, l)
  }

  /** The same inodes are in use, but for `n`. */
  ghost predicate SameHeld(v: Volume, w: Volume, n: nat) { forall m: nat :: m != n ==> Held(w, m) == Held(v, m) }

  lemma AllSameTrans(u: Volume, v: Volume, w: Volume, n: nat, m: nat)
    requires AllSame(u, v, n, m) && AllSame(v, w, n, m)
    ensures AllSame(u, w, n, m)
  {
    hide Held, Same;
    forall l: nat | Held(u, l) && l != n && l != m ensures Held(w, l) && Same(u, w, l) {
      SameTrans(u, v, w, l);
    }
  }

  lemma BornHeld(v: Volume, w: Volume, n: nat)
    requires Born(v, w, n)
    ensures SameHeld(v, w, n) && !Held(v, n)
  {
    hide InodeAt, InodeUsed, Valid, FileAt, Single, NotIn, IsUsed, IsMeta;
  }

  lemma TouchHeld(v: Volume, w: Volume, n: nat)
    requires Touched(v, w, n)
    ensures SameHeld(v, w, 0) && Held(w, n)
  {
    hide InodeAt, InodeUsed, Valid, FileAt, Apart;
  }

  /** A directory was rewritten, with different names. */
  lemma RewrittenTouches(v: Volume, w: Volume, n: nat, recs: seq<seq<D.Rec>>)
    requires Held(v, n) && Rewritten(v, w, n, recs) && N.Unique(N.Flat(recs))
    ensures Touched(v, w, n)
  {
    hide Held, Valid, InodeAt, IsDir, FileOk, Apart, OtherInodes, DirFile, N.Flat, N.Unique;
  }

  /** An inode is taken and initialised, or none is free. */
  method TakeBlank(fs: Ext2, parent: nat, mode: nat) returns (ok: bool, n: nat)
    requires FsOk(fs.vol)
    modifies fs
    ensures ok <==> FreeInodes(old(fs.vol)) > 0
    ensures !ok ==> fs.vol == old(fs.vol)
    ensures ok ==>
      FsOk(fs.vol) && Born(old(fs.vol), fs.vol, n) && Held(fs.vol, n) && InodeAt(fs.vol, n) == NewInode(mode)
    ensures ok ==> Content(fs.vol, NewInode(mode)) == [] && FreeBlocks(fs.vol) == FreeBlocks(old(fs.vol))
  {
    hide FsOk, Sound, Valid, InodeAt, InodeUsed, Born, Held, NewInode, I.Switched, I.MarkedAt, Content, FreeBlocks,
      FreeInodes, Single, StoreInode;
    ghost var v := fs.vol;
    FsOkValid(v);
    var taken := I.AllocInode(fs, parent, false);
    if taken.None? {
      return false, 0;
    }
    n := taken.value;
    ghost var u := fs.vol;
    SwitchedRange(v, u, n);
    NewInodeBlank(mode);
    var _ := WriteInode(fs, n, NewInode(mode));
    BornIs(v, u, n, NewInode(mode));
    BirthKeeps(v, fs.vol, n);
    ok := true;
  }

  lemma FsOkValid(v: Volume)
    requires FsOk(v)
    ensures Valid(v)
  {
  }

  lemma SwitchedRange(v: Volume, u: Volume, n: nat)
    requires I.Switched(v, u, n, true)
    ensures 0 < n <= u.geo.inodes && u.geo == v.geo
  {
  }

  /** The name is entered, or the inode is given back. */
  method Enter(fs: Ext2, parent: nat, name: seq<byte>, n: nat, ghost recs: seq<seq<D.Rec>>)
    returns (r: int, ghost recs': seq<seq<D.Rec>>)
    requires FsOk(fs.vol) && Held(fs.vol, parent) && Held(fs.vol, n) && n != parent && MayGrow(fs.vol, parent)
    requires Ready(fs.vol, parent, recs) && |name| <= 255
    requires IsDir(InodeAt(fs.vol, parent)) ==> N.Unique(N.Flat(recs)) && Names(recs, name) == None
    modifies fs
    ensures FsOk(fs.vol) && AllSame(old(fs.vol), fs.vol, n, parent) && Held(fs.vol, parent)
    ensures SameHeld(old(fs.vol), fs.vol, n) && (Held(fs.vol, n) <==> r == SUCCESS)
    ensures if IsDir(InodeAt(old(fs.vol), parent)) then r == SUCCESS || r == ERROR_NO_SPACE else r == ERROR_NOT_DIR
    ensures r == ERROR_NOT_DIR ==> Same(old(fs.vol), fs.vol, parent)
    ensures r == SUCCESS ==> Same(old(fs.vol), fs.vol, n) && N.Inserted(N.Flat(recs), N.Flat(recs'), name, n)
    ensures r == ERROR_NO_SPACE ==>
      recs' == recs && FreeBlocks(fs.vol) == 0 && N.AllFull(N.Flat(recs), D.Real(|name|))
    ensures r == SUCCESS || r == ERROR_NO_SPACE ==> DirFile(fs.vol, InodeAt(fs.vol, parent), recs')
  {
    hide FsOk, Valid, InodeAt, Held, FreeBlocks, IsDir, MayGrow, N.Flat, N.Unique, N.Find, N.Inserted, N.AllFull,
      D.Real,
      DirFile, Same, Rewritten, I.Switched, I.MarkedAt, AllSame, SameHeld, Touched, Died, Ready;
    ghost var u := fs.vol;
    HeldRange(u, n);
    HeldRange(u, parent);
    FsOkValid(u);
    InodesSmall(u);
    r, recs' := AddEntry(fs, parent, name, n, 1, recs);
    ghost var w := fs.vol;
    if IsDir(InodeAt(u, parent)) {
      StillUnique(recs, recs', name, n, r);
      EnteredTouches(u, w, parent, recs', n);
    } else {
      Unmoved(u, n, parent);
    }
    if r != SUCCESS {
      FsOkValid(w);
      HeldRange(w, n);
      var _ := I.FreeInode(fs, n, IsDir(InodeAt(fs.vol, n)));
      GivenBack(u, w, fs.vol, n, parent, recs');
    }
  }

  lemma HeldRange(v: Volume, n: nat)
    requires Held(v, n)
    ensures 0 < n <= v.geo.inodes && InodeUsed(v, n)
  {
  }

  lemma StillUnique(recs: seq<seq<D.Rec>>, recs': seq<seq<D.Rec>>, name: seq<byte>, n: nat, r: int)
    requires N.Unique(N.Flat(recs)) && Names(recs, name) == None
    requires if r == SUCCESS then N.Inserted(N.Flat(recs), N.Flat(recs'), name, n) else recs' == recs
    ensures N.Unique(N.Flat(recs'))
  {
    hide N.Flat, N.Unique, N.Find;
  }

  /** After the directory was rewritten. */
  lemma EnteredTouches(u: Volume, w: Volume, parent: nat, recs': seq<seq<D.Rec>>, n: nat)
    requires FsOk(u) && Held(u, parent) && Held(u, n) && n != parent
    requires Rewritten(u, w, parent, recs') && N.Unique(N.Flat(recs'))
    ensures FsOk(w) && AllSame(u, w, n, parent) && SameHeld(u, w, n) && Held(w, parent) && Held(w, n) && Same(u, w, n)
    ensures DirFile(w, InodeAt(w, parent), recs')
  {
    hide FsOk, Held, Same, Touched, N.Unique, N.Flat, DirFile, InodeAt, Confined;
    RewrittenTouches(u, w, parent, recs');
    TouchKeeps(u, w, parent);
    TouchHeld(u, w, parent);
    NoInodeZero(u, w);
  }

  lemma NoInodeZero(u: Volume, w: Volume)
    ensures !Held(u, 0) && !Held(w, 0)
  {
  }

  /** Nothing was done. */
  lemma Unmoved(u: Volume, n: nat, parent: nat)
    ensures AllSame(u, u, n, parent) && SameHeld(u, u, n) && Same(u, u, parent)
  {
    hide Held, Same;
    SameAll(u);
  }

  /** After the inode was given back. */
  lemma GivenBack(u: Volume, w: Volume, x: Volume, n: nat, parent: nat, recs: seq<seq<D.Rec>>)
    requires FsOk(w) && Held(w, n) && Held(w, parent) && n != parent && Valid(x) && I.Switched(w, x, n, false)
    requires AllSame(u, w, n, parent) && SameHeld(u, w, n)
    ensures FsOk(x) && AllSame(u, x, n, parent) && SameHeld(u, x, n) && Held(x, parent) && !Held(x, n)
    ensures Same(w, x, parent) && FreeBlocks(x) == FreeBlocks(w)
    ensures Same(u, w, parent) ==> Same(u, x, parent)
    ensures DirFile(w, InodeAt(w, parent), recs) ==> DirFile(x, InodeAt(x, parent), recs)
  {
    hide FsOk, Held, Same, Died, DirFile, InodeAt, Valid, I.Switched, FreeBlocks, AllSame, SameHeld;
    FsOkValid(w);
    DiedIs(w, x, n);
    DeathKeeps(w, x, n);
    DiedHeld(u, w, x, n);
    AllSameOf(w, x, n, parent);
    AllSameTrans(u, w, x, n, parent);
    SwitchedFree(w, x, n);
    if Same(u, w, parent) { SameTrans(u, w, x, parent); }
    RecordsOf(w, x, parent, recs);
  }

  lemma AllSameOf(w: Volume, x: Volume, n: nat, parent: nat)
    requires forall m: nat :: Held(w, m) && m != n ==> Held(x, m) && Same(w, x, m)
    ensures AllSame(w, x, n, parent)
  {
  }

  lemma DiedHeld(u: Volume, w: Volume, x: Volume, n: nat)
    requires SameHeld(u, w, n) && Died(w, x, n)
    ensures SameHeld(u, x, n) && !Held(x, n)
  {
    hide InodeAt, InodeUsed, Valid, NotIn, IsUsed, IsMeta;
  }

  lemma SwitchedFree(w: Volume, x: Volume, n: nat)
    requires I.Switched(w, x, n, false)
    ensures FreeBlocks(x) == FreeBlocks(w)
  {
  }

  lemma RecordsOf(v: Volume, w: Volume, n: nat, recs: seq<seq<D.Rec>>)
    requires Same(v, w, n)
    ensures DirFile(v, InodeAt(v, n), recs) ==> DirFile(w, InodeAt(w, n), recs)
  {
    hide InodeAt, DirFile, Content;
  }

  /** What a creation found: the name is there already. */
  ghost predicate Present(v: Volume, parent: nat, recs: seq<seq<D.Rec>>, name: seq<byte>) {
    IsDir(InodeAt(v, parent)) && Names(recs, name) != None
  }

  /**
   `ext2_create` in the directory that its path leads to. A new name is entered for a new, empty file; when that
   fails, no inode came into use. No other file changes, whatever the outcome.
   */
  method CreateFile(fs: Ext2, parent: nat, name: seq<byte>, mode: nat)
    returns (r: int, n: nat, ghost recs: seq<seq<D.Rec>>, ghost recs': seq<seq<D.Rec>>)
    requires FsOk(fs.vol) && Held(fs.vol, parent) && MayGrow(fs.vol, parent) && |name| <= 255
    modifies fs
    ensures FsOk(fs.vol) && Held(fs.vol, parent) && AllSame(old(fs.vol), fs.vol, parent, parent)
    ensures IsDir(InodeAt(old(fs.vol), parent)) ==> DirFile(old(fs.vol), InodeAt(old(fs.vol), parent), recs)
    ensures r == ERROR_EXISTS <==> Present(old(fs.vol), parent, recs, name)
    ensures r == ERROR_NOT_DIR <==> !IsDir(InodeAt(old(fs.vol), parent)) && FreeInodes(old(fs.vol)) > 0
    ensures r == ERROR_EXISTS ==> fs.vol == old(fs.vol)
    ensures r != SUCCESS ==> SameHeld(old(fs.vol), fs.vol, 0)
    ensures r == ERROR_NO_SPACE ==> FreeInodes(old(fs.vol)) == 0 || FreeBlocks(fs.vol) == 0
    ensures r == ERROR_NO_SPACE && IsDir(InodeAt(old(fs.vol), parent)) ==>
      DirFile(fs.vol, InodeAt(fs.vol, parent), recs)
    ensures r == SUCCESS || r == ERROR_EXISTS || r == ERROR_NOT_DIR || r == ERROR_NO_SPACE
    ensures r == SUCCESS ==>
      && !Held(old(fs.vol), n) && Held(fs.vol, n) && SameHeld(old(fs.vol), fs.vol, n)
      && InodeAt(fs.vol, n) == NewInode(mode) && Content(fs.vol, InodeAt(fs.vol, n)) == []
      && DirFile(fs.vol, InodeAt(fs.vol, parent), recs') && N.Inserted(N.Flat(recs), N.Flat(recs'), name, n)
  {
    hide FsOk, Valid, InodeAt, InodeUsed, FreeBlocks, FreeInodes, IsDir, MayGrow, N.Flat, N.Unique, N.Find, N.Inserted,
      N.AllFull, D.Real, DirFile, Same, AllSame, SameHeld, Born, NewInode, Content, Held;
    ghost var v := fs.vol;
    recs := RecordsIn(v, parent);
    recs' := recs;
    n := 0;
    FileFacts(v, parent);
    Unmoved(v, 0, parent);
    Nobody(v, parent);
    var found, _ := LookupEntry(fs, parent, name, recs);
    if found == SUCCESS {
      return ERROR_EXISTS, 0, recs, recs;
    }
    var ok, new_inode := TakeBlank(fs, parent, mode);
    if !ok {
      return ERROR_NO_SPACE, 0, recs, recs;
    }
    n := new_inode;
    ghost var u := fs.vol;
    AfterBirth(v, u, n, parent, recs);
    r, recs' := Enter(fs, parent, name, n, recs);
    AfterEnter(v, u, fs.vol, n, parent, r == SUCCESS);
    if r == SUCCESS { SameContent(u, fs.vol, n); }
  }

  /** The records of a directory in use. */
  ghost function RecordsIn(v: Volume, n: nat): (recs: seq<seq<D.Rec>>)
    requires FsOk(v) && Held(v, n)
    ensures IsDir(InodeAt(v, n)) ==> DirFile(v, InodeAt(v, n), recs) && N.Unique(N.Flat(recs))
  {
    assert FileAt(v, n);
    if IsDir(InodeAt(v, n)) then
      var recs :| DirFile(v, InodeAt(v, n), recs) && N.Unique(N.Flat(recs)); recs
    else []
  }

  lemma Nobody(v: Volume, parent: nat)
    ensures AllSame(v, v, parent, parent) && SameHeld(v, v, 0)
  {
    hide Held, Same;
    SameAll(v);
  }

  lemma AfterBirth(v: Volume, u: Volume, n: nat, parent: nat, recs: seq<seq<D.Rec>>)
    requires FsOk(v) && Born(v, u, n) && Held(v, parent) && MayGrow(v, parent) && Ready(v, parent, recs)
    ensures FsOk(u) && n != parent && Held(u, parent) && MayGrow(u, parent) && Ready(u, parent, recs)
    ensures InodeAt(u, parent) == InodeAt(v, parent) && !Held(v, n) && SameHeld(v, u, n) && AllSame(v, u, n, parent)
  {
    hide FsOk, Valid, InodeAt, IsDir, DirFile, Same, Size, SameHeld;
    BirthKeeps(v, u, n);
    BornHeld(v, u, n);
    SameFacts(v, u, parent);
    RecordsOf(v, u, parent, recs);
    FsOkValid(u);
  }

  lemma AfterEnter(v: Volume, u: Volume, w: Volume, n: nat, parent: nat, entered: bool)
    requires !Held(v, n) && SameHeld(v, u, n) && AllSame(v, u, n, parent) && SameHeld(u, w, n)
      && AllSame(u, w, n, parent)
    requires Held(w, n) <==> entered
    ensures AllSame(v, w, parent, parent) && SameHeld(v, w, n) && (!entered ==> SameHeld(v, w, 0))
  {
    hide Held, Same;
    AllSameTrans(v, u, w, n, parent);
    NoInodeZero(v, w);
  }

  lemma SameContent(v: Volume, w: Volume, n: nat)
    requires Same(v, w, n)
    ensures InodeAt(w, n) == InodeAt(v, n) && Content(w, InodeAt(w, n)) == Content(v, InodeAt(v, n))
  {
  }

  // ---------------------------------------------------------------- deleting a file

  /** How many direct pointers come before the first that is zero, from the `i`-th on. */
  function Leading(raw: seq<byte>, i: nat): (r: nat)
    requires i <= 12
    ensures i <= r <= 12 && (forall j :: i <= j < r ==> Pointer(raw, j) != 0) && (r < 12 ==> Pointer(raw, r) == 0)
    decreases 12 - i
  {
    if i < 12 && Pointer(raw, i) != 0 then Leading(raw, i + 1) else i
  }

  /** The block is one of the first `k` that the inode points to. */
  ghost predicate Among(raw: seq<byte>, k: nat, c: nat) { exists i: nat :: i < k && Pointer(raw, i) == c }

  /** `w` is `v` with the first `k` direct blocks, and nothing else, given back. */
  ghost predicate Freed(v: Volume, w: Volume, raw: seq<byte>, k: nat) {
    && SameSuper(v, w) && SameTables(v, w)
    && (forall c: nat :: v.geo.fdb <= c < v.geo.count ==> (IsUsed(w, c) <==> IsUsed(v, c) && !Among(raw, k, c)))
    && (forall c: nat :: !IsMeta(v.geo, c) ==> BlockAt(w, c) == BlockAt(v, c))
    && FreeBlocks(w) == FreeBlocks(v) + k && FreeInodes(w) == FreeInodes(v)
  }

  lemma FreedNone(v: Volume, raw: seq<byte>)
    ensures Freed(v, v, raw, 0)
  {
    hide IsUsed, IsMeta, InodeUsed, FreeBlocks, FreeInodes;
  }

  /** The next block to free is in use, is no metadata, and is none of those before. */
  lemma NextFreed(v: Volume, w: Volume, raw: seq<byte>, k: nat)
    requires FileMap(v, raw) && Freed(v, w, raw, k) && k < 12 && Pointer(raw, k) != 0
    ensures v.geo.fdb <= Pointer(raw, k) < v.geo.count && w.geo == v.geo
    ensures IsUsed(w, Pointer(raw, k)) && !IsMeta(v.geo, Pointer(raw, k))
  {
    hide IsUsed, IsMeta, InodeUsed, FreeBlocks, FreeInodes, At, Separated, Slots, SameTables;
    DirectNode(v, raw, k);
    NodeIsOwn(v, raw, [k]);
    if Among(raw, k, Pointer(raw, k)) {
      var i: nat :| i < k && Pointer(raw, i) == Pointer(raw, k);
      DirectNode(v, raw, i);
      OneSlot(v, raw, [i], [k]);
    }
  }

  lemma DirectNode(v: Volume, raw: seq<byte>, i: nat)
    requires |raw| == 128 && i < 12
    ensures [i] in Dom(Ptrs(v.geo)) && At(v, raw, [i]) == Pointer(raw, i)
  {
    RootSlot(v, raw, i);
    hide At;
  }

  lemma FreedMore(v: Volume, u: Volume, w: Volume, raw: seq<byte>, k: nat)
    requires Freed(v, u, raw, k) && Released(u, w, Pointer(raw, k))
    ensures Freed(v, w, raw, k + 1)
  {
    hide IsUsed, IsMeta, InodeUsed, FreeBlocks, FreeInodes, InTable;
    forall c: nat ensures Among(raw, k + 1, c) <==> Among(raw, k, c) || c == Pointer(raw, k) {
      if c == Pointer(raw, k) { assert k < k + 1 && Pointer(raw, k) == c; }
    }
  }

  lemma FreedGeo(v: Volume, w: Volume, raw: seq<byte>, k: nat)
    requires Freed(v, w, raw, k)
    ensures w.geo == v.geo
  {
  }

  /** The loop over the direct blocks; it ends at the first pointer that is zero. */
  method FreeDirect(fs: Ext2, raw: seq<byte>)
    requires Valid(fs.vol) && FileMap(fs.vol, raw)
    modifies fs
    ensures Valid(fs.vol) && Freed(old(fs.vol), fs.vol, raw, Leading(raw, 0))
  {
    hide Valid, FileMap, Freed, Released, IsUsed, IsMeta, Ext2Alloc.MarkedAt, Among;
    ghost var v := fs.vol;
    FreedNone(v, raw);
    var i := 0;
    while i < 12 && Pointer(raw, i) != 0
      invariant 0 <= i <= 12 && Valid(fs.vol) && Freed(v, fs.vol, raw, i) && Leading(raw, i) == Leading(raw, 0)
    {
      ghost var u := fs.vol;
      NextFreed(v, u, raw, i);
      var _ := fs.FreeBlock(Pointer(raw, i));
      FreedMore(v, u, fs.vol, raw, i);
      FreedGeo(v, fs.vol, raw, i + 1);
      i := i + 1;
    }
  }

  /** The inode and its leading direct blocks are gone. */
  lemma BuriedIs(v: Volume, u: Volume, w: Volume, n: nat, k: nat)
    requires Held(v, n) && Valid(v) && Valid(u) && FileMap(v, InodeAt(v, n)) && k <= 12
    requires Freed(v, u, InodeAt(v, n), k) && (forall i :: 0 <= i < k ==> Pointer(InodeAt(v, n), i) != 0)
    requires Valid(w) && I.Switched(u, w, n, false)
    ensures Died(v, w, n)
  {
    hide Valid, InodeAt, IsMeta, IsUsed, InodeUsed, NotIn, FreeBlocks, FreeInodes, FileMap, Among, InTable;
    TablesKeepInodes(v, u, 0);
    OtherInodesAre(v, u, 0);
    SwitchedAside(u, w, n);
    forall c: nat | 0 < c && NotIn(v, InodeAt(v, n), c) ensures !Among(InodeAt(v, n), k, c) {
      NotAmong(v, InodeAt(v, n), k, c);
    }
  }

  lemma NotAmong(v: Volume, raw: seq<byte>, k: nat, c: nat)
    requires FileMap(v, raw) && k <= 12 && NotIn(v, raw, c)
    ensures !Among(raw, k, c)
  {
    hide At, Separated, Slots, Ownable;
    if Among(raw, k, c) {
      var i: nat :| i < k && Pointer(raw, i) == c;
      DirectNode(v, raw, i);
      AtIs(v, raw, [i]);
    }
  }

  /** The inode is gone, and of its blocks exactly the leading direct ones. */
  ghost predicate Buried(v: Volume, w: Volume, n: nat) {
    var raw := InodeAt(v, n);
    && Died(v, w, n) && w.geo == v.geo
    && (forall c: nat :: v.geo.fdb <= c < v.geo.count ==>
      (IsUsed(w, c) <==> IsUsed(v, c) && !Among(raw, Leading(raw, 0), c)))
    && FreeBlocks(w) == FreeBlocks(v) + Leading(raw, 0) && FreeInodes(w) == FreeInodes(v) + 1
  }

  /** What becomes of a file whose last link is gone. */
  method Bury(fs: Ext2, n: nat, raw: seq<byte>)
    requires Valid(fs.vol) && Held(fs.vol, n) && FileMap(fs.vol, raw) && raw == InodeAt(fs.vol, n)
    modifies fs
    ensures Buried(old(fs.vol), fs.vol, n)
  {
    hide Valid, Held, FileMap, InodeAt, Freed, Buried, I.Switched, I.MarkedAt, IsDir, InodeUsed;
    ghost var v := fs.vol;
    HeldRange(v, n);
    FreeDirect(fs, raw);
    ghost var u := fs.vol;
    FreedGeo(v, u, raw, Leading(raw, 0));
    FreedInode(v, u, raw, Leading(raw, 0), n);
    var _ := I.FreeInode(fs, n, IsDir(InodeAt(fs.vol, n)));
    BuriedIs(v, u, fs.vol, n, Leading(raw, 0));
    BuriedCounts(v, u, fs.vol, n);
  }

  lemma FreedInode(v: Volume, w: Volume, raw: seq<byte>, k: nat, n: nat)
    requires Freed(v, w, raw, k)
    ensures InodeUsed(w, n) == InodeUsed(v, n)
  {
    hide InodeUsed, IsUsed, IsMeta;
  }

  lemma BuriedCounts(v: Volume, u: Volume, w: Volume, n: nat)
    requires Freed(v, u, InodeAt(v, n), Leading(InodeAt(v, n), 0)) && I.Switched(u, w, n, false) && Died(v, w, n)
    ensures Buried(v, w, n)
  {
    hide InodeAt, IsUsed, IsMeta, InodeUsed, Among, Died, Leading;
  }

  /** Blocks of the tree that are not freed stay in use, and belong to no inode any more. */
  lemma LostBlock(v: Volume, w: Volume, n: nat, x: Path)
    requires FsOk(v) && Buried(v, w, n) && x in Dom(Ptrs(v.geo)) && x != [] && At(v, InodeAt(v, n), x) != 0
    requires !Among(InodeAt(v, n), Leading(InodeAt(v, n), 0), At(v, InodeAt(v, n), x))
    ensures IsUsed(w, At(v, InodeAt(v, n), x)) && !IsMeta(w.geo, At(v, InodeAt(v, n), x))
    ensures forall m: nat :: Held(w, m) ==> NotIn(w, InodeAt(w, m), At(v, InodeAt(v, n), x))
  {
    hide FsOk, InodeAt, IsUsed, IsMeta, InodeUsed, Among, Leading, At, Dom, NotIn, Separated, Slots, Same, Valid, Aside;
    var c := At(v, InodeAt(v, n), x);
    FileFacts(v, n);
    NodeIsOwn(v, InodeAt(v, n), x);
    DeathKeeps(v, w, n);
    DiedHeld(v, v, w, n) by { Nobody(v, n); HeldSelf(v, n); }
    forall m: nat | Held(w, m) ensures NotIn(w, InodeAt(w, m), c) {
      assert m != n && Held(v, m) && Same(v, w, m);
      SharedNot(v, n, m, x);
      SameFacts(v, w, m);
      NotInSame(v, w, InodeAt(v, m), c);
    }
  }

  lemma HeldSelf(v: Volume, n: nat)
    ensures SameHeld(v, v, n)
  {
  }

  lemma SharedNot(v: Volume, n: nat, m: nat, x: Path)
    requires FsOk(v) && Held(v, n) && Held(v, m) && n != m
    requires x in Dom(Ptrs(v.geo)) && x != [] && At(v, InodeAt(v, n), x) != 0
    ensures NotIn(v, InodeAt(v, m), At(v, InodeAt(v, n), x))
  {
    hide Sound, InodeAt, InodeUsed, At, Dom, NotIn, FileAt;
    assert NoShare(v, m, n);
  }

  lemma NotInSame(v: Volume, w: Volume, g: seq<byte>, c: int)
    requires SameNodes(v, w, g) && NotIn(v, g, c)
    ensures NotIn(w, g, c)
  {
    hide Dom, At, Slots;
    forall x | x in Dom(Ptrs(w.geo)) ensures Node(Slots(g, w), ROOT, x) != c {
      AtIs(v, g, x);
      AtIs(w, g, x);
    }
  }

  /** The name, where it is in the directory, leads to an inode in use. */
  ghost predicate NameHeld(v: Volume, parent: nat, name: seq<byte>) {
    IsDir(InodeAt(v, parent)) ==> forall recs :: DirFile(v, InodeAt(v, parent), recs) && Names(recs, name).Some? ==>
      Held(v, Names(recs, name).value)
  }

  /** `i_links_count` */
  function Links(raw: seq<byte>): nat { if |raw| >= 28 then Read16(raw, 26) else 0 }

  /** The inode with one link less, in its 16 bits, and no other byte changed. */
  ghost predicate Unlinked(raw: seq<byte>, raw': seq<byte>) {
    && |raw'| == |raw| && (Links(raw') + 1) % 0x1_0000 == Links(raw)
    && forall k :: 0 <= k < |raw| && k != 26 && k != 27 ==> raw'[k] == raw[k]
  }

  lemma LinkLess(raw: seq<byte>)
    requires |raw| == 128
    ensures Unlinked(raw, Write16(raw, 26, (Read16(raw, 26) + 0xFFFF) % 0x1_0000))
  {
    var v := (Read16(raw, 26) + 0xFFFF) % 0x1_0000;
    var raw' := Write16(raw, 26, v);
    LinkFields(raw, v);
    assert Read16(raw', 26) == v by { HalfBack(raw, v); }
    OneLess(Read16(raw, 26));
    hide Write16, Read16;
  }

  lemma HalfBack(raw: seq<byte>, v: nat)
    requires |raw| == 128 && v < 0x1_0000
    ensures Read16(Write16(raw, 26, v), 26) == v
  {
  }

  lemma OneLess(n: nat)
    requires n < 0x1_0000
    ensures ((n + 0xFFFF) % 0x1_0000 + 1) % 0x1_0000 == n
  {
    if n > 0 { assert n + 0xFFFF == n - 1 + 0x1_0000; }
  }

  /**
   `ext2_delete` in the directory that its path leads to. The name goes; with the last link the inode and its leading
   direct blocks go too. When the record is the first of a later block no directory is left in its place.
   */
  method DeleteFile(fs: Ext2, parent: nat, name: seq<byte>)
    returns (r: int, n: nat, ghost recs: seq<seq<D.Rec>>, ghost recs': seq<seq<D.Rec>>, ghost between: Volume)
    requires FsOk(fs.vol) && Held(fs.vol, parent) && NameHeld(fs.vol, parent, name)
    modifies fs
    ensures IsDir(InodeAt(old(fs.vol), parent)) ==> DirFile(old(fs.vol), InodeAt(old(fs.vol), parent), recs)
    ensures r == if !IsDir(InodeAt(old(fs.vol), parent)) then ERROR_NOT_DIR
                 else if Names(recs, name) == None then ERROR_NOT_FOUND
                 else if IsDir(InodeAt(old(fs.vol), Names(recs, name).value)) then ERROR_IS_DIR
                 else SUCCESS
    ensures r != SUCCESS ==> fs.vol == old(fs.vol)
    ensures r == SUCCESS ==> Names(recs, name) == Some(n) && n != parent && Confined(old(fs.vol), between, parent)
    ensures r == SUCCESS && Links(InodeAt(old(fs.vol), n)) == 1 ==> Buried(between, fs.vol, n)
    ensures r == SUCCESS && Links(InodeAt(old(fs.vol), n)) != 1 ==>
      Touched(between, fs.vol, n) && Unlinked(InodeAt(old(fs.vol), n), InodeAt(fs.vol, n))
    ensures r == SUCCESS && N.FirstOfLater(recs, name) ==>
      N.Broken(DirView(between, InodeAt(between, parent)), between.geo.bs)
    ensures r == SUCCESS && !N.FirstOfLater(recs, name) ==>
      && FsOk(fs.vol) && AllSame(old(fs.vol), fs.vol, parent, n) && Held(fs.vol, parent)
      && DirFile(fs.vol, InodeAt(fs.vol, parent), recs') && N.Deleted(N.Flat(recs), N.Flat(recs'), name)
      && SameHeld(old(fs.vol), fs.vol, n) && (Held(fs.vol, n) <==> Links(InodeAt(old(fs.vol), n)) != 1)
  {
    hide FsOk, Valid, InodeAt, Held, IsDir, N.Flat, N.Unique, N.Find, N.Deleted, N.FirstOfLater, N.Broken, DirFile,
      Same,
      AllSame, SameHeld, Confined, Rewritten, Buried, Touched, DirView, Links, FileMap, Unlinked;
    ghost var v := fs.vol;
    recs := RecordsIn(v, parent);
    recs', between := recs, v;
    FileFacts(v, parent);
    var found;
    found, n := LookupEntry(fs, parent, name, recs);
    if found != SUCCESS {
      return found, n, recs, recs, v;
    }
    assert Held(v, n);
    FileFacts(v, n);
    var raw := InodeAt(fs.vol, n);
    if IsDir(raw) {
      return ERROR_IS_DIR, n, recs, recs, v;
    }
    r, recs' := RemoveEntry(fs, parent, name, recs);
    between := fs.vol;
    ghost var w := fs.vol;
    AfterRemove(v, w, parent, n);
    LinksIs(raw);
    var links := (Read16(raw, 26) + 0xFFFF) % 0x1_0000;
    if links == 0 {
      Bury(fs, n, raw);
      if !N.FirstOfLater(recs, name) { AfterBury(v, w, fs.vol, parent, n, recs, recs', name); }
    } else {
      LinkStored(w, n, links);
      LinkLess(raw);
      var _ := WriteInode(fs, n, Write16(raw, 26, links));
      if !N.FirstOfLater(recs, name) { AfterUnlink(v, w, fs.vol, parent, n, recs, recs', name); }
    }
  }

  lemma LinksIs(raw: seq<byte>)
    requires |raw| == 128
    ensures Links(raw) == Read16(raw, 26) < 0x1_0000
      && (Links(raw) == 1 <==> (Read16(raw, 26) + 0xFFFF) % 0x1_0000 == 0)
  {
  }

  /** Removing the name leaves the file itself alone. */
  lemma AfterRemove(v: Volume, w: Volume, parent: nat, n: nat)
    requires FsOk(v) && Held(v, parent) && Held(v, n) && n != parent && Confined(v, w, parent)
    ensures Valid(w) && w.geo == v.geo && Held(w, n) && InodeAt(w, n) == InodeAt(v, n)
    ensures FileAt(w, n) && FileMap(w, InodeAt(w, n)) && 0 < n <= w.geo.inodes
  {
    hide FsOk, InodeAt, InodeUsed, Apart, IsDir, FileAt, Valid, Aside, Same, FileOk, OtherInodes;
    FsOkValid(v);
    ApartAside(v, w, parent);
    AsideHeld(v, w, InodeAt(v, parent), parent, n);
    FsOkParts(v, parent, n);
    AsideFile(v, w, InodeAt(v, parent), parent, n);
    SameFacts(v, w, n);
    FileMapAt(w, n);
  }

  lemma FsOkParts(v: Volume, n: nat, m: nat)
    requires FsOk(v) && Held(v, n) && Held(v, m) && n != m
    ensures Sound(v) && FileAt(v, m) && Disjoint(v, InodeAt(v, n), InodeAt(v, m))
  {
    hide Sound, FileAt, InodeAt, InodeUsed, Disjoint;
    assert NoShare(v, n, m);
  }

  lemma AsideHeld(v: Volume, w: Volume, raw: seq<byte>, n: nat, m: nat)
    requires Aside(v, w, raw, n) && Held(v, m) && m != n
    ensures Held(w, m)
  {
    hide InodeAt, InodeUsed, NotIn, IsUsed, IsMeta;
  }

  /** The inode is stored back with one link less. */
  lemma LinkStored(w: Volume, n: nat, links: nat)
    requires Valid(w) && Held(w, n) && FileAt(w, n) && !IsDir(InodeAt(w, n)) && |InodeAt(w, n)| == 128
    ensures var raw' := Write16(InodeAt(w, n), 26, links);
      Touched(w, StoreInode(w, n, raw'), n) && InodeAt(StoreInode(w, n, raw'), n) == raw'
  {
    hide Valid, InodeAt, InodeUsed, FileMap, TailZero, Apart, OtherInodes, StoreInode, Data, Dom, IsDir, Size, ByteAt,
      Content;
    var raw := InodeAt(w, n);
    var raw' := Write16(raw, 26, links);
    LinkFields(raw, links);
    HeadChange(w, raw, raw');
    DataBytes(w, raw, raw');
    TablesSelf(w);
    TablesKeepInodes(w, w, n);
    StoredBack(w, w, n, raw');
  }

  lemma LinkFields(raw: seq<byte>, links: nat)
    requires |raw| == 128
    ensures var raw' := Write16(raw, 26, links);
      && |raw'| == 128 && (forall k :: 0 <= k < 128 && k != 26 && k != 27 ==> raw'[k] == raw[k])
      && Size(raw') == Size(raw)
      && IsDir(raw') == IsDir(raw)
  {
  }

  lemma DataBytes(w: Volume, raw: seq<byte>, raw': seq<byte>)
    requires (forall x :: x in Dom(Ptrs(w.geo)) ==> Data(w, raw', x) == Data(w, raw, x)) && Size(raw') == Size(raw)
    requires TailZero(w, raw)
    ensures TailZero(w, raw')
  {
    hide Dom, Data, PathOf, Div, Mod, Size, Ptrs;
    forall k: nat | k >= Size(raw') ensures ByteAt(w, raw', k) == 0 {
      assert ByteAt(w, raw, k) == 0;
      if Ptrs(w.geo) != 0 && w.geo.bs != 0 { PathInDom(Ptrs(w.geo), Div(k, w.geo.bs)); }
    }
  }

  lemma AfterBury(v: Volume, w: Volume, x: Volume, parent: nat, n: nat, recs: seq<seq<D.Rec>>, recs': seq<seq<D.Rec>>,
                  name: seq<byte>)
    requires FsOk(v) && Held(v, parent) && Held(v, n) && n != parent && Buried(w, x, n)
    requires Rewritten(v, w, parent, recs') && N.Deleted(N.Flat(recs), N.Flat(recs'), name)
    ensures FsOk(x) && AllSame(v, x, parent, n) && Held(x, parent) && DirFile(x, InodeAt(x, parent), recs')
    ensures SameHeld(v, x, n) && !Held(x, n)
  {
    hide FsOk, Held, Same, DirFile, InodeAt, IsUsed, Died, Leading, FreeBlocks, FreeInodes, Rewritten, N.Flat, N.Unique,
      N.Find, AllSame, SameHeld;
    EnteredTouches(v, w, parent, recs', n);
    DeathKeeps(w, x, n);
    DiedHeld(v, w, x, n);
    AllSameOf(w, x, n, parent);
    AllSameTrans(v, w, x, n, parent);
    AllSameSwap(v, x, n, parent);
    RecordsOf(w, x, parent, recs');
  }

  lemma AfterUnlink(v: Volume, w: Volume, x: Volume, parent: nat, n: nat, recs: seq<seq<D.Rec>>, recs': seq<seq<D.Rec>>,
                    name: seq<byte>)
    requires FsOk(v) && Held(v, parent) && Held(v, n) && n != parent && Touched(w, x, n)
    requires Rewritten(v, w, parent, recs') && N.Deleted(N.Flat(recs), N.Flat(recs'), name)
    ensures FsOk(x) && AllSame(v, x, parent, n) && Held(x, parent) && DirFile(x, InodeAt(x, parent), recs')
    ensures SameHeld(v, x, n) && Held(x, n)
  {
    hide FsOk, Held, Same, DirFile, InodeAt, Touched, Rewritten, N.Flat, N.Unique, N.Find, AllSame, SameHeld;
    EnteredTouches(v, w, parent, recs', n);
    TouchKeeps(w, x, n);
    TouchHeld(w, x, n);
    HeldTrans(v, w, x, n);
    AllSameOf(w, x, n, parent);
    AllSameTrans(v, w, x, n, parent);
    AllSameSwap(v, x, n, parent);
    RecordsOf(w, x, parent, recs');
  }

  lemma HeldTrans(v: Volume, w: Volume, x: Volume, n: nat)
    requires SameHeld(v, w, n) && SameHeld(w, x, 0)
    ensures SameHeld(v, x, n)
  {
    hide InodeUsed;
    NoInodeZero(w, x);
  }

  lemma AllSameSwap(v: Volume, x: Volume, n: nat, m: nat)
    requires AllSame(v, x, n, m)
    ensures AllSame(v, x, m, n)
  {
  }
}
