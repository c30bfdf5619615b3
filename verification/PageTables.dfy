/** The 4-level page tables of every address space, as one separated tree of frames. */
module PageTables {
  import opened Bitmap
  import opened Options
  import opened Pmm
  import opened RadixTree

  // ---------------------------------------------------------------- entries

  /** `entry & PAGE_PRESENT` */
  predicate Present(e: nat) { e % 2 == 1 }

  /** The frame number in `PTE_GET_ADDR(entry)`. */
  function FrameOf(e: nat): nat { e / 4096 }

  /** `entry & PAGE_WRITE` and `entry & PAGE_USER` */
  predicate Writes(e: nat) { e / 2 % 2 == 1 }

  predicate ForUser(e: nat) { e / 4 % 2 == 1 }

  /** An entry that lets user code through, for reading and writing. */
  predicate Wide(e: nat) { Present(e) && Writes(e) && ForUser(e) }

  /** `PTE_CREATE(frame * 4096, flags | PAGE_PRESENT)` for flags below the frame address. */
  function MakeEntry(frame: nat, flags: nat): nat
    requires flags < 4096
  {
    frame * 4096 + flags / 2 * 2 + 1
  }

  /** `entry | (PAGE_USER | PAGE_WRITE)` */
  function Widen(e: nat): nat { e / 8 * 8 + 6 + e % 2 }

  lemma MadeEntry(frame: nat, flags: nat)
    requires flags < 4096
    ensures Present(MakeEntry(frame, flags)) && FrameOf(MakeEntry(frame, flags)) == frame
    ensures MakeEntry(frame, flags) % 4096 == WithPresent(flags)
  {
  }

  /** `flags | PAGE_PRESENT` */
  function WithPresent(flags: nat): nat { flags / 2 * 2 + 1 }

  lemma TableEntry(frame: nat)
    ensures Wide(MakeEntry(frame, 6))
  {
    LowRights(frame * 512, 7);
    assert MakeEntry(frame, 6) == frame * 512 * 8 + 7;
  }

  /** The three flags are the low three bits. */
  lemma LowRights(b: nat, x: nat)
    requires x < 8
    ensures Present(b * 8 + x) == Present(x)
    ensures Writes(b * 8 + x) == Writes(x) && ForUser(b * 8 + x) == ForUser(x)
  {
    assert b * 8 + x == 2 * (4 * b + x / 2) + x % 2 && 4 * b + x / 2 == 2 * (2 * b + x / 4) + x / 2 % 2;
    Halved(4 * b + x / 2, x % 2);
    Halved(2 * b + x / 4, x / 2 % 2);
    Halved(b, x / 4);
    assert b * 8 + x == 4 * (2 * b + x / 4) + x % 4;
    Quartered(2 * b + x / 4, x % 4);
  }

  lemma Halved(p: nat, q: nat)
    requires q < 2
    ensures (2 * p + q) / 2 == p && (2 * p + q) % 2 == q
  {
  }

  lemma Quartered(p: nat, q: nat)
    requires q < 4
    ensures (4 * p + q) / 4 == p
  {
  }

  /** The low three bits do not reach the frame number. */
  lemma LowBits(a: nat, x: nat)
    requires x < 8
    ensures (a * 8 + x) / 4096 == a / 512 && (a * 8 + x) % 2 == x % 2
  {
  }

  lemma Widened(e: nat)
    ensures Present(Widen(e)) == Present(e) && FrameOf(Widen(e)) == FrameOf(e) && (Present(e) ==> Wide(Widen(e)))
  {
    LowBits(e / 8, 6 + e % 2);
    LowBits(e / 8, e % 8);
  }

  // ---------------------------------------------------------------- addresses

  function Pml4Index(a: nat): (r: nat) ensures r < 512 { a / 0x80_0000_0000 % 512 }
  function PdptIndex(a: nat): (r: nat) ensures r < 512 { a / 0x4000_0000 % 512 }
  function PdIndex(a: nat): (r: nat) ensures r < 512 { a / 0x20_0000 % 512 }
  function PtIndex(a: nat): (r: nat) ensures r < 512 { a / 4096 % 512 }

  /** Bits 63..48 copy bit 47. */
  predicate Canonical(a: nat) { a < 0x8000_0000_0000 || 0xFFFF_8000_0000_0000 <= a < 0x1_0000_0000_0000_0000 }

  predicate LowerHalf(a: nat) { a < 0x8000_0000_0000 }

  function PageOf(a: nat): nat { a / 4096 }

  /** The four indices of a canonical address determine its page. */
  lemma IndicesArePage(a: nat, b: nat)
    requires Canonical(a) && Canonical(b)
    requires Pml4Index(a) == Pml4Index(b) && PdptIndex(a) == PdptIndex(b) && PdIndex(a) == PdIndex(b)
      && PtIndex(a) == PtIndex(b)
    ensures PageOf(a) == PageOf(b)
  {
    var p, q := a / 4096, b / 4096;
    Digits(a);
    Digits(b);
  }

  lemma Digits(a: nat)
    requires Canonical(a)
    ensures a / 4096 == ((Pml4Index(a) * 512 + PdptIndex(a)) * 512 + PdIndex(a)) * 512 + PtIndex(a)
                        + (if LowerHalf(a) then 0 else 0xFFFF0_0000_0000)
    ensures LowerHalf(a) <==> Pml4Index(a) < 256
  {
    var p := a / 4096;
    var q := p / 512;
    var r := q / 512;
    var s := r / 512;
    Shifts(a);
    assert p == q * 512 + p % 512 && q == r * 512 + q % 512 && r == s * 512 + r % 512;
    TopDigit(a);
  }

  /** Each level divides by 512 once more. */
  lemma Shifts(a: nat)
    ensures a / 0x20_0000 == a / 4096 / 512 && a / 0x4000_0000 == a / 4096 / 512 / 512
    ensures a / 0x80_0000_0000 == a / 4096 / 512 / 512 / 512
  {
  }

  lemma TopDigit(a: nat)
    requires Canonical(a)
    ensures a / 0x80_0000_0000 == Pml4Index(a) + if LowerHalf(a) then 0 else 0x1FF_FE00
    ensures LowerHalf(a) <==> Pml4Index(a) < 256
  {
  }

  // ---------------------------------------------------------------- the tree of tables

  const ROOT: int := -1

  function Entry(r: Ram, f: nat, i: nat): nat {
    if i < |FrameAt(r, f)| then FrameAt(r, f)[i] else 0
  }

  /** The table that slot `i` of node `n` leads to: a space's top table, or a present entry's frame. */
  function SlotOf(r: Ram, ss: seq<Space>, n: int, i: nat): int {
    if n == ROOT then (if i < |ss| then ss[i].pml4 else 0)
    else if 0 < n then TableIn(Entry(r, n, i)) else 0
  }

  /** The table an entry leads to; page 0 holds no table, so an entry for it leads nowhere good. */
  function TableIn(e: nat): int { if !Present(e) then 0 else if FrameOf(e) == 0 then -2 else FrameOf(e) }

  function Slots(r: Ram, ss: seq<Space>): Links {
    (n: int, i: nat) => SlotOf(r, ss, n, i)
  }

  /** Space `k` exists. */
  predicate Live(ss: seq<Space>, k: nat) { k < |ss| && ss[k].pml4 > 0 }

  /**
   A user space reaches entry `i` of the upper half through the kernel's table, and that is no part of its own
   tree.
   */
  predicate Shared(ss: seq<Space>, k: nat, i: nat) { 0 < k < |ss| && 256 <= i && i in ss[k].shared }

  predicate InDom(ss: seq<Space>, x: Path) {
    x == [] || (x[0] < |ss| && |x| <= 4 && (|x| >= 2 ==> !Shared(ss, x[0], x[1])) && forall k :: 1 <= k < |x| ==>
      x[k] < 512)
  }

  ghost function Dom(ss: seq<Space>): iset<Path> { iset x: Path | InDom(ss, x) }

  lemma DomClosed(ss: seq<Space>)
    ensures PrefixClosed(Dom(ss))
  {
  }

  function At(r: Ram, ss: seq<Space>, x: Path): int { Node(Slots(r, ss), ROOT, x) }

  ghost predicate NotTable(r: Ram, ss: seq<Space>, f: int) { Fresh(Slots(r, ss), ROOT, Dom(ss), f) }

  ghost predicate OwnFrame(r: Ram, f: int) { 0 < f < r.total && InUse(r, f) }

  /** Tables and descriptors are frames in use, each serving one purpose in one place. */
  ghost predicate TablesOk(r: Ram, ss: seq<Space>) {
    && Separated(Slots(r, ss), ROOT, Dom(ss))
    && (forall x :: x in Dom(ss) && x != [] && At(r, ss, x) != 0 ==> OwnFrame(r, At(r, ss, x)))
    && (forall k :: 0 <= k < |ss| && ss[k].desc != 0 ==> OwnFrame(r, ss[k].desc) && NotTable(r, ss, ss[k].desc))
    && (forall k, l :: 0 <= k < l < |ss| && ss[k].desc != 0 ==> ss[k].desc != ss[l].desc)
    && SharedOk(r, ss)
  }

  /** A shared entry leads to the kernel's table. */
  ghost predicate SharedOk(r: Ram, ss: seq<Space>) {
    forall k: nat, i: nat :: Shared(ss, k, i) && Live(ss, k) ==> i < 512 && At(r, ss, [k, i]) == At(r, ss, [0, i]) != 0
  }

  lemma SharedIs(r: Ram, ss: seq<Space>, k: nat, i: nat)
    requires TablesOk(r, ss) && Shared(ss, k, i) && Live(ss, k)
    ensures i < 512 && [0, i] in Dom(ss) && [0] in Dom(ss) && [k] in Dom(ss)
      && At(r, ss, [k, i]) == At(r, ss, [0, i]) != 0
  {
  }

  /** Entries of top-level tables that lead where they led are shared as they were. */
  lemma SharedStays(r: Ram, s: Ram, ss: seq<Space>)
    requires SharedOk(r, ss)
    requires forall x :: x in Dom(ss) && |x| <= 2 && At(r, ss, x) != 0 ==> At(s, ss, x) == At(r, ss, x)
    requires forall k: nat, i: nat :: Shared(ss, k, i) && Live(ss, k) ==>
      SlotOf(s, ss, ss[k].pml4, i) == SlotOf(r, ss, ss[k].pml4, i)
    ensures SharedOk(s, ss)
  {
    hide SlotOf;
    forall k: nat, i: nat | Shared(ss, k, i) && Live(ss, k) ensures At(s, ss, [k, i]) == At(s, ss, [0, i]) != 0 {
      TopStep(r, ss, k, i);
      TopStep(s, ss, k, i);
      assert [0, i] in Dom(ss);
    }
  }

  lemma TopStep(r: Ram, ss: seq<Space>, k: nat, i: nat)
    requires Live(ss, k)
    ensures At(r, ss, [k]) == ss[k].pml4 && At(r, ss, [k, i]) == SlotOf(r, ss, ss[k].pml4, i)
  {
    assert At(r, ss, []) == ROOT;
    assert Parent([k]) == [] && Last([k]) == k && Parent([k, i]) == [k] && Last([k, i]) == i;
  }

  lemma NodeIsOwn(r: Ram, ss: seq<Space>, x: Path)
    requires TablesOk(r, ss) && x in Dom(ss) && At(r, ss, x) != 0
    ensures x == [] ==> At(r, ss, x) == ROOT
    ensures x != [] ==> OwnFrame(r, At(r, ss, x))
  {
  }

  lemma OneSlot(r: Ram, ss: seq<Space>, x: Path, y: Path)
    requires TablesOk(r, ss) && x in Dom(ss) && y in Dom(ss)
    ensures At(r, ss, x) == At(r, ss, y) != 0 ==> x == y
  {
  }

  lemma AtIs(r: Ram, ss: seq<Space>, x: Path)
    ensures At(r, ss, x) == Node(Slots(r, ss), ROOT, x)
  {
  }

  // ---------------------------------------------------------------- what table updates keep

  /** Every table of the new tree is an old one, or a frame that was free and hangs along `path`. */
  ghost predicate Grown(r: Ram, s: Ram, ss: seq<Space>, path: Path) {
    forall x :: x in Dom(ss) && At(s, ss, x) != At(r, ss, x)
      ==> At(r, ss, x) == 0 && x <= path && 0 < At(s, ss, x) < r.total && !InUse(r, At(s, ss, x))
  }

  /** Entry `i` of the last-level table at `x`; absent tables have absent entries. */
  function Pte(r: Ram, ss: seq<Space>, x: Path, i: nat): nat {
    if At(r, ss, x) > 0 then Entry(r, At(r, ss, x), i) else 0
  }

  ghost predicate SameLeaves(r: Ram, s: Ram, ss: seq<Space>) {
    forall x, i: nat :: x in Dom(ss) && |x| == 4 ==> Pte(s, ss, x, i) == Pte(r, ss, x, i)
  }

  /** Frames in use stay in use, and those that are no tables keep their content. */
  ghost predicate Kept(r: Ram, s: Ram, ss: seq<Space>) {
    && s.total == r.total && WideKept(r, s, ss)
    && forall f: nat :: InUse(r, f) ==>
      InUse(s, f) && (NotTable(r, ss, f) ==> NotTable(s, ss, f) && FrameAt(s, f) == FrameAt(r, f))
  }

  /** There is a table at `x`, and its entry `i` lets user code through. */
  predicate Passes(r: Ram, ss: seq<Space>, x: Path, i: nat) { At(r, ss, x) > 0 && Wide(Entry(r, At(r, ss, x), i)) }

  /** Entries above the last level that let user code through still do. */
  ghost predicate WideKept(r: Ram, s: Ram, ss: seq<Space>) {
    forall x, i: nat :: x in Dom(ss) && 0 < |x| < 4 && Passes(r, ss, x, i) ==> Passes(s, ss, x, i)
  }

  lemma WideTrans(r: Ram, s: Ram, t: Ram, ss: seq<Space>)
    requires WideKept(r, s, ss) && WideKept(s, t, ss)
    ensures WideKept(r, t, ss)
  {
    hide Passes, Dom;
  }

  /** Only the table at `a` was stored to, and no entry of it lost the bits. */
  lemma WideStore(r: Ram, s: Ram, ss: seq<Space>, a: Path)
    requires forall x :: x in Dom(ss) && x != [] && |x| < 4 && At(r, ss, x) > 0 ==> At(s, ss, x) == At(r, ss, x)
    requires forall x :: x in Dom(ss) && x != [] && |x| < 4 && At(r, ss, x) > 0 && x != a ==>
      FrameAt(s, At(r, ss, x)) == FrameAt(r, At(r, ss, x))
    requires At(r, ss, a) > 0 ==> forall j: nat :: Wide(Entry(r, At(r, ss, a), j)) ==> Wide(Entry(s, At(r, ss, a), j))
    ensures WideKept(r, s, ss)
  {
    hide At, Dom, Wide;
  }

  /** Tables may have been added along `path`; no translation and no page content changed. */
  ghost predicate Extends(r: Ram, s: Ram, ss: seq<Space>, path: Path) {
    Grown(r, s, ss, path) && SameLeaves(r, s, ss) && Kept(r, s, ss)
  }

  lemma ExtendsSelf(r: Ram, ss: seq<Space>, path: Path)
    ensures Extends(r, r, ss, path)
  {
    hide InUse, At, Dom, NotTable;
  }

  lemma ExtendsTrans(r: Ram, s: Ram, t: Ram, ss: seq<Space>, q: Path, path: Path)
    requires Extends(r, s, ss, q) && Extends(s, t, ss, path) && q <= path
    ensures Extends(r, t, ss, path)
  {
  }

  /** The tree is the same when every slot in it is and its frames are still in use. */
  lemma SameSlots(r: Ram, s: Ram, ss: seq<Space>)
    requires TablesOk(r, ss)
    requires forall x :: x in Dom(ss) && x != [] && At(r, ss, x) != 0 ==> OwnFrame(s, At(r, ss, x))
    requires forall k :: 0 <= k < |ss| && ss[k].desc != 0 ==> OwnFrame(s, ss[k].desc)
    requires forall x, i: nat :: x in Dom(ss) && |x| < 4 && x != [] && At(r, ss, x) != 0 ==>
               SlotOf(s, ss, At(r, ss, x), i) == SlotOf(r, ss, At(r, ss, x), i)
    ensures TablesOk(s, ss)
    ensures forall x :: x in Dom(ss) ==> At(s, ss, x) == At(r, ss, x)
    ensures forall f: int :: NotTable(r, ss, f) == NotTable(s, ss, f)
  {
    var dom := Dom(ss);
    DomClosed(ss);
    forall y, j: nat | y in dom && y + [j] in dom && At(r, ss, y) != 0
      ensures SlotOf(s, ss, At(r, ss, y), j) == SlotOf(r, ss, At(r, ss, y), j)
    {
      hide Dom, Separated, InUse;
      NodeIsOwn(r, ss, y);
    }
    hide Dom, Separated, InUse, SlotOf;
    SameTree(Slots(r, ss), Slots(s, ss), ROOT, dom);
    forall x | x in dom ensures At(s, ss, x) == At(r, ss, x) {
    }
    forall k: nat, i: nat | Shared(ss, k, i) && Live(ss, k)
      ensures SlotOf(s, ss, ss[k].pml4, i) == SlotOf(r, ss, ss[k].pml4, i) {
      TopStep(r, ss, k, i);
      SharedIs(r, ss, k, i);
    }
    SharedStays(r, s, ss);
  }

  /** Stores outside the tables leave the tree alone. */
  lemma SameTables(r: Ram, s: Ram, ss: seq<Space>)
    requires TablesOk(r, ss)
    requires forall f: nat :: OwnFrame(r, f) ==> OwnFrame(s, f)
    requires forall x, i: nat :: x in Dom(ss) && |x| < 4 && x != [] && At(r, ss, x) != 0 ==>
               SlotOf(s, ss, At(r, ss, x), i) == SlotOf(r, ss, At(r, ss, x), i)
    ensures TablesOk(s, ss)
    ensures forall x :: x in Dom(ss) ==> At(s, ss, x) == At(r, ss, x)
    ensures forall f: int :: NotTable(r, ss, f) == NotTable(s, ss, f)
  {
    hide Dom, Separated, InUse, SlotOf, At, NotTable, Slots;
    SameSlots(r, s, ss);
  }

  // ---------------------------------------------------------------- stores to tables

  /** `table->entries[i] = e` */
  function PutEntry(r: Ram, f: nat, i: nat, e: nat): Ram {
    if f < |r.frames| && i < |r.frames[f]| then
      var table: Frame := r.frames[f][i := e];
      r.(frames := r.frames[f := table])
    else r
  }

  lemma PutEntryEffect(r: Ram, f: nat, i: nat, e: nat)
    requires Valid(r) && f < r.total && i < 512
    ensures Valid(PutEntry(r, f, i, e)) && PutEntry(r, f, i, e).total == r.total
    ensures forall g: nat :: InUse(PutEntry(r, f, i, e), g) == InUse(r, g)
    ensures forall g: nat :: g != f ==> FrameAt(PutEntry(r, f, i, e), g) == FrameAt(r, g)
    ensures forall j: nat :: Entry(PutEntry(r, f, i, e), f, j) == if j == i then e else Entry(r, f, j)
  {
    hide Bit, CountClear;
  }

  /** A store to a table above the last level that leaves every slot leading where it led. */
  lemma SlotStore(r: Ram, s: Ram, ss: seq<Space>, a: Path, path: Path)
    requires TablesOk(r, ss) && s.total == r.total && a in Dom(ss) && At(r, ss, a) > 0 && |a| < 4
    requires forall f: nat :: InUse(s, f) == InUse(r, f)
    requires forall f: nat :: f != At(r, ss, a) ==> FrameAt(s, f) == FrameAt(r, f)
    requires forall j: nat :: SlotOf(s, ss, At(r, ss, a), j) == SlotOf(r, ss, At(r, ss, a), j)
    requires forall j: nat :: Wide(Entry(r, At(r, ss, a), j)) ==> Wide(Entry(s, At(r, ss, a), j))
    ensures TablesOk(s, ss) && Extends(r, s, ss, path)
    ensures forall x :: x in Dom(ss) ==> At(s, ss, x) == At(r, ss, x)
  {
    hide Dom, Separated, InUse, At, SlotOf;
    forall x, i: nat | x in Dom(ss) && |x| < 4 && x != [] && At(r, ss, x) != 0
      ensures SlotOf(s, ss, At(r, ss, x), i) == SlotOf(r, ss, At(r, ss, x), i)
    {
      if At(r, ss, x) != At(r, ss, a) {
        SameSlot(r, s, ss, At(r, ss, x), i);
      }
    }
    SameTables(r, s, ss);
    hide Slots, NotTable, TablesOk;
    forall x, i: nat | x in Dom(ss) && |x| == 4 ensures Pte(s, ss, x, i) == Pte(r, ss, x, i) {
      OneSlot(r, ss, x, a);
    }
    forall x | x in Dom(ss) && x != [] && |x| < 4 && At(r, ss, x) > 0 && x != a
      ensures FrameAt(s, At(r, ss, x)) == FrameAt(r, At(r, ss, x))
    {
      OneSlot(r, ss, x, a);
    }
    WideStore(r, s, ss, a);
    assert Kept(r, s, ss) by {
      hide WideKept;
      TableIsTable(r, ss, a);
    }
  }

  lemma TableIsTable(r: Ram, ss: seq<Space>, a: Path)
    requires a in Dom(ss) && At(r, ss, a) != 0
    ensures !NotTable(r, ss, At(r, ss, a))
  {
  }

  /** Taking a free frame leaves the tables as they are. */
  lemma TakenKeepsTables(r: Ram, u: Ram, ss: seq<Space>, b: nat)
    requires TablesOk(r, ss) && Taken(r, u, b)
    ensures TablesOk(u, ss) && NotTable(r, ss, b) && NotTable(u, ss, b)
    ensures forall x :: x in Dom(ss) ==> At(u, ss, x) == At(r, ss, x)
    ensures forall f: int :: NotTable(r, ss, f) == NotTable(u, ss, f)
  {
    assert NotTable(r, ss, b) by {
      forall x | x in Dom(ss) ensures Node(Slots(r, ss), ROOT, x) != b {
        AtIs(r, ss, x);
        if At(r, ss, x) != 0 {
          NodeIsOwn(r, ss, x);
        }
      }
    }
    hide Dom, Separated, InUse, At, NotTable;
    forall x, i: nat | x in Dom(ss) && x != [] && At(r, ss, x) != 0
      ensures SlotOf(u, ss, At(r, ss, x), i) == SlotOf(r, ss, At(r, ss, x), i)
    {
      NodeIsOwn(r, ss, x);
      assert FrameAt(u, At(r, ss, x)) == FrameAt(r, At(r, ss, x));
    }
    SameTables(r, u, ss);
  }

  lemma ZeroSlot(s: Ram, ss: seq<Space>, b: nat, j: nat)
    requires b > 0 && FrameAt(s, b) == ZeroFrame()
    ensures SlotOf(s, ss, b, j) == 0
  {
  }

  lemma SameSlot(u: Ram, s: Ram, ss: seq<Space>, n: int, j: nat)
    requires n > 0 ==> FrameAt(s, n) == FrameAt(u, n)
    ensures SlotOf(s, ss, n, j) == SlotOf(u, ss, n, j)
  {
  }

  /** The tree after the cleared frame `b` was hung from slot `i` of the table at `a`. */
  lemma LinkGrows(u: Ram, s: Ram, ss: seq<Space>, a: Path, i: nat, b: nat)
    requires TablesOk(u, ss) && NotTable(u, ss, b) && b > 0
    requires a != [] && a in Dom(ss) && a + [i] in Dom(ss) && At(u, ss, a) > 0 && At(u, ss, a + [i]) == 0
    requires forall f: nat :: f != At(u, ss, a) ==> FrameAt(s, f) == FrameAt(u, f)
    requires FrameAt(s, b) == ZeroFrame()
    requires forall j: nat :: SlotOf(s, ss, At(u, ss, a), j) == if j == i then b else SlotOf(u, ss, At(u, ss, a), j)
    ensures Separated(Slots(s, ss), ROOT, Dom(ss))
    ensures forall x :: x in Dom(ss) ==> At(s, ss, x) == if x == a + [i] then b else At(u, ss, x)
  {
    var dom := Dom(ss);
    var child, child' := Slots(u, ss), Slots(s, ss);
    DomClosed(ss);
    hide Dom, Separated, InUse, SlotOf, At;
    var node := At(u, ss, a);
    AtIs(u, ss, a);
    AtIs(u, ss, a + [i]);
    assert node != b;
    forall j: nat ensures child'(b, j) == 0 {
      ZeroSlot(s, ss, b, j);
    }
    forall x, j: nat | x in dom && x + [j] in dom && Node(child, ROOT, x) != 0
      && (Node(child, ROOT, x) != node || j != i)
      ensures child'(Node(child, ROOT, x), j) == child(Node(child, ROOT, x), j)
    {
      AtIs(u, ss, x);
      NodeIsOwn(u, ss, x);
      if Node(child, ROOT, x) != node {
        SameSlot(u, s, ss, Node(child, ROOT, x), j);
      }
    }
    Hang(child, child', ROOT, dom, a, i, b);
    forall x | x in dom ensures At(s, ss, x) == if x == a + [i] then b else At(u, ss, x) {
      AtIs(u, ss, x);
      AtIs(s, ss, x);
    }
  }

  lemma LinkTables(r: Ram, s: Ram, ss: seq<Space>, q: Path, b: nat)
    requires TablesOk(r, ss) && s.total == r.total && 0 < b < r.total && q != [] && NotTable(r, ss, b) && !InUse(r, b)
    requires forall f: nat :: InUse(s, f) <==> f == b || InUse(r, f)
    requires Separated(Slots(s, ss), ROOT, Dom(ss))
    requires forall x :: x in Dom(ss) ==> At(s, ss, x) == if x == q then b else At(r, ss, x)
    requires SharedOk(s, ss)
    ensures TablesOk(s, ss) && forall f: int :: NotTable(r, ss, f) && f != b ==> NotTable(s, ss, f)
  {
  }

  lemma LinkShared(u: Ram, s: Ram, ss: seq<Space>, a: Path, i: nat, b: nat)
    requires TablesOk(u, ss) && a != [] && a in Dom(ss) && a + [i] in Dom(ss) && At(u, ss, a) > 0
      && At(u, ss, a + [i]) == 0
    requires forall f: nat :: f != At(u, ss, a) ==> FrameAt(s, f) == FrameAt(u, f)
    requires forall j: nat :: SlotOf(s, ss, At(u, ss, a), j) == if j == i then b else SlotOf(u, ss, At(u, ss, a), j)
    requires forall x :: x in Dom(ss) ==> At(s, ss, x) == if x == a + [i] then b else At(u, ss, x)
    ensures SharedOk(s, ss)
  {
    forall k: nat, j: nat | Shared(ss, k, j) && Live(ss, k)
      ensures SlotOf(s, ss, ss[k].pml4, j) == SlotOf(u, ss, ss[k].pml4, j) {
      hide SlotOf, At, Separated;
      TopStep(u, ss, k, j);
      SharedIs(u, ss, k, j);
      OneSlot(u, ss, a, [k]);
      if At(u, ss, a) == ss[k].pml4 {
        assert [k] + [i] == a + [i] && [k, i] == [k] + [i];
      } else {
        SameSlot(u, s, ss, ss[k].pml4, j);
      }
    }
    hide SlotOf, At, Separated, Dom, InUse;
    SharedStays(u, s, ss);
  }

  lemma LinkLeaf(r: Ram, s: Ram, ss: seq<Space>, a: Path, q: Path, b: nat, x: Path, j: nat)
    requires TablesOk(r, ss) && a in Dom(ss) && |a| < 4 && x in Dom(ss) && |x| == 4 && !InUse(r, b) && b > 0
    requires At(s, ss, x) == if x == q then b else At(r, ss, x)
    requires At(r, ss, q) == 0 && FrameAt(s, b) == ZeroFrame()
    requires forall f: nat :: f != At(r, ss, a) && f != b ==> FrameAt(s, f) == FrameAt(r, f)
    ensures Pte(s, ss, x, j) == Pte(r, ss, x, j)
  {
  }

  /** A table grows by the free frame `b`, cleared and linked at `a + [i]`. */
  lemma LinkStep(r: Ram, u: Ram, s: Ram, ss: seq<Space>, a: Path, i: nat, b: nat)
    requires TablesOk(r, ss) && Taken(r, u, b) && s.total == u.total
    requires a != [] && a in Dom(ss) && a + [i] in Dom(ss) && |a| < 4 && At(r, ss, a) > 0 && At(r, ss, a + [i]) == 0
    requires forall f: nat :: InUse(s, f) == InUse(u, f)
    requires forall f: nat :: f != At(r, ss, a) ==> FrameAt(s, f) == FrameAt(u, f)
    requires forall j: nat :: SlotOf(s, ss, At(r, ss, a), j) == if j == i then b else SlotOf(u, ss, At(r, ss, a), j)
    requires forall j: nat :: Wide(Entry(r, At(r, ss, a), j)) ==> Wide(Entry(s, At(r, ss, a), j))
    ensures TablesOk(s, ss) && At(s, ss, a + [i]) == b && Extends(r, s, ss, a + [i])
  {
    hide Dom, Separated, InUse, At, SlotOf, Slots, NotTable, TablesOk, Pte, WideKept, Wide, Entry;
    TakenKeepsTables(r, u, ss, b);
    assert At(r, ss, a) != b by { TableIsTable(r, ss, a); }
    LinkGrows(u, s, ss, a, i, b);
    LinkShared(u, s, ss, a, i, b);
    LinkTables(r, s, ss, a + [i], b);
    assert SameLeaves(r, s, ss) by {
      forall x, j: nat | x in Dom(ss) && |x| == 4 ensures Pte(s, ss, x, j) == Pte(r, ss, x, j) {
        LinkLeaf(r, s, ss, a, a + [i], b, x, j);
      }
    }
    forall x | x in Dom(ss) && x != [] && |x| < 4 && At(r, ss, x) > 0 && x != a
      ensures FrameAt(s, At(r, ss, x)) == FrameAt(r, At(r, ss, x))
    {
      OneSlot(r, ss, x, a);
      TableIsTable(r, ss, x);
    }
    WideStore(r, s, ss, a);
    assert Kept(r, s, ss) by {
      TableIsTable(r, ss, a);
    }
  }

  /** Slot `i` of the table at `a` belongs to a space's tree, or is one that the space shares with the kernel. */
  ghost predicate Follows(ss: seq<Space>, a: Path, i: nat) {
    a != [] && a in Dom(ss) && i < 512 && (a + [i] in Dom(ss) || (|a| == 1 && Live(ss, a[0]) && Shared(ss, a[0], i)))
  }

  /** Where the table below that slot hangs. */
  function Target(ss: seq<Space>, a: Path, i: nat): Path { if |a| == 1 && Shared(ss, a[0], i) then [0, i] else a + [i] }

  lemma TargetIs(r: Ram, ss: seq<Space>, a: Path, i: nat)
    requires TablesOk(r, ss) && Follows(ss, a, i)
    ensures Target(ss, a, i) in Dom(ss) && At(r, ss, Target(ss, a, i)) == At(r, ss, a + [i]) && |a| < 4
    ensures At(r, ss, a + [i]) == 0 ==> Target(ss, a, i) == a + [i]
  {
    if |a| == 1 && Shared(ss, a[0], i) {
      assert a + [i] == [a[0], i];
      SharedIs(r, ss, a[0], i);
    }
  }

  /**
   The table below slot `index` of a table. A present entry gets the flags and is followed;
   an absent one is filled with a freshly allocated, cleared table when `create` is set.
   */
  method GetNextLevel(m: Machine, ghost a: Path, table: nat, index: nat, create: bool, widen: bool) returns (next: nat)
    requires Valid(m.ram) && TablesOk(m.ram, m.spaces) && Follows(m.spaces, a, index)
    requires At(m.ram, m.spaces, a) == table > 0
    modifies m`ram
    ensures Valid(m.ram) && TablesOk(m.ram, m.spaces)
      && Extends(old(m.ram), m.ram, m.spaces, Target(m.spaces, a, index))
    ensures next == At(m.ram, m.spaces, Target(m.spaces, a, index))
    ensures !create ==> next == old(At(m.ram, m.spaces, Target(m.spaces, a, index)))
    ensures !create && !widen ==> m.ram == old(m.ram)
    ensures m.ram.used <= old(m.ram).used + 1
    ensures next != 0 && create && widen ==> Wide(Entry(m.ram, table, index))
    ensures next == 0 && create ==> forall f: nat :: f < m.ram.total ==> InUse(m.ram, f)
  {
    hide Dom, Separated, InUse, At, SlotOf, Slots, TablesOk, Extends, Valid, Taken, MakeEntry, Widen, Target, Follows,
      Wide;
    ghost var r, ss := m.ram, m.spaces;
    var entry := Entry(m.ram, table, index);
    StepSlot(r, ss, a, index);
    TableFacts(r, ss, a, index);
    TargetIs(r, ss, a, index);
    ExtendsSelf(r, ss, Target(ss, a, index));
    if Present(entry) {
      if widen {
        m.ram := PutEntry(m.ram, table, index, Widen(entry));
        WidenStep(r, ss, a, index, Target(ss, a, index));
        Widened(entry);
        PutEntryEffect(r, table, index, Widen(entry));
      }
      return FrameOf(entry);
    }
    if !create {
      return 0;
    }
    var b := m.Alloc();
    if b == 0 {
      return 0;
    }
    ghost var u := m.ram;
    TakenCount(r, u, b);
    m.ram := PutEntry(m.ram, table, index, MakeEntry(b, 6));
    EntryStep(r, u, ss, a, index, b);
    TableEntry(b);
    PutEntryEffect(u, table, index, MakeEntry(b, 6));
    return b;
  }

  lemma StepSlot(r: Ram, ss: seq<Space>, a: Path, i: nat)
    requires At(r, ss, a) != 0
    ensures At(r, ss, a + [i]) == SlotOf(r, ss, At(r, ss, a), i)
    ensures At(r, ss, a) > 0 ==> At(r, ss, a + [i]) == TableIn(Entry(r, At(r, ss, a), i))
  {
  }

  lemma TableFacts(r: Ram, ss: seq<Space>, a: Path, i: nat)
    requires Valid(r) && TablesOk(r, ss) && Follows(ss, a, i) && At(r, ss, a) > 0
    ensures a != [] && a in Dom(ss) && i < 512
    ensures At(r, ss, a) < r.total == |r.frames| && |FrameAt(r, At(r, ss, a))| == 512 && |a| < 4
    ensures At(r, ss, a + [i]) >= 0
  {
    NodeIsOwn(r, ss, a);
    TargetIs(r, ss, a, i);
    hide Follows, Dom, TablesOk, At, Target;
    if At(r, ss, a + [i]) != 0 {
      NodeIsOwn(r, ss, Target(ss, a, i));
      TargetNotRoot(ss, a, i);
    }
  }

  lemma TargetNotRoot(ss: seq<Space>, a: Path, i: nat)
    ensures Target(ss, a, i) != []
  {
  }

  lemma WidenStep(r: Ram, ss: seq<Space>, a: Path, i: nat, path: Path)
    requires Valid(r) && TablesOk(r, ss) && Follows(ss, a, i) && At(r, ss, a) > 0 && path in Dom(ss)
    ensures var s := PutEntry(r, At(r, ss, a), i, Widen(Entry(r, At(r, ss, a), i)));
      && Valid(s) && TablesOk(s, ss) && Extends(r, s, ss, path) && At(s, ss, path) == At(r, ss, path)
  {
    TableFacts(r, ss, a, i);
    hide Dom, Separated, InUse, At, Slots, TablesOk, Valid, Widen, Present, FrameOf, Follows;
    var t := At(r, ss, a);
    var s := PutEntry(r, t, i, Widen(Entry(r, t, i)));
    PutEntryEffect(r, t, i, Widen(Entry(r, t, i)));
    Widened(Entry(r, t, i));
    SlotStore(r, s, ss, a, path);
  }

  lemma ExtendsFurther(r: Ram, s: Ram, ss: seq<Space>, q: Path, path: Path)
    requires Extends(r, s, ss, q) && q <= path
    ensures Extends(r, s, ss, path)
  {
    hide Dom, At, InUse, SameLeaves, Kept;
  }

  lemma EntryStep(r: Ram, u: Ram, ss: seq<Space>, a: Path, i: nat, b: nat)
    requires Valid(u) && TablesOk(r, ss) && Taken(r, u, b) && Follows(ss, a, i) && At(r, ss, a) > 0
      && At(r, ss, a + [i]) == 0
    ensures var s := PutEntry(u, At(r, ss, a), i, MakeEntry(b, 6));
      Valid(s) && TablesOk(s, ss) && Extends(r, s, ss, Target(ss, a, i)) && At(s, ss, Target(ss, a, i)) == b
  {
    TargetIs(r, ss, a, i);
    NodeIsOwn(r, ss, a);
    assert |a + [i]| <= 4;
    hide Dom, Separated, InUse, At, Slots, TablesOk, Valid, Present, FrameOf, MakeEntry, NotTable;
    var t := At(r, ss, a);
    var s := PutEntry(u, t, i, MakeEntry(b, 6));
    PutEntryEffect(u, t, i, MakeEntry(b, 6));
    MadeEntry(b, 6);
    LinkStep(r, u, s, ss, a, i, b);
  }

  // ---------------------------------------------------------------- translation

  function TablePath(k: nat, a: nat): Path { [k, Pml4Index(a), PdptIndex(a), PdIndex(a)] }

  /** The address may be used with space `k`: the space exists, and the address is canonical. */
  predicate Addressable(ss: seq<Space>, k: nat, a: nat) { Live(ss, k) && Canonical(a) }

  /** The space whose tree holds the tables for an address of space `k`: its own, or the kernel's. */
  function Home(ss: seq<Space>, k: nat, a: nat): nat { if Shared(ss, k, Pml4Index(a)) then 0 else k }

  /** A frame, with the low bits of the entry that leads to it. */
  datatype Page = Page(frame: nat, flags: nat)

  /** What the page of a virtual address of space `k` stands for. */
  function Translate(r: Ram, ss: seq<Space>, k: nat, a: nat): Option<Page> {
    var e := Pte(r, ss, TablePath(k, a), PtIndex(a));
    if Present(e) then Some(PageIn(e)) else None
  }

  function PageIn(e: nat): Page { Page(FrameOf(e), e % 4096) }

  lemma PathInDom(ss: seq<Space>, k: nat, a: nat)
    requires Addressable(ss, k, a)
    ensures TablePath(Home(ss, k, a), a) in Dom(ss) && |TablePath(k, a)| == 4 && Home(ss, k, a) < |ss|
    ensures Follows(ss, [k], Pml4Index(a)) && Target(ss, [k], Pml4Index(a)) == [Home(ss, k, a), Pml4Index(a)]
    ensures Follows(ss, [Home(ss, k, a), Pml4Index(a)], PdptIndex(a))
      && Follows(ss, [Home(ss, k, a), Pml4Index(a), PdptIndex(a)], PdIndex(a))
  {
  }

  /** An address is translated by the tables of its home. */
  lemma ViaHome(r: Ram, ss: seq<Space>, k: nat, a: nat)
    requires TablesOk(r, ss) && Addressable(ss, k, a)
    ensures At(r, ss, TablePath(k, a)) == At(r, ss, TablePath(Home(ss, k, a), a))
    ensures Translate(r, ss, k, a) == Translate(r, ss, Home(ss, k, a), a)
  {
    hide TablesOk, Pml4Index, PdptIndex, PdIndex, PtIndex, Dom, At, Canonical;
    if Shared(ss, k, Pml4Index(a)) {
      var i, j, l := Pml4Index(a), PdptIndex(a), PdIndex(a);
      SharedIs(r, ss, k, i);
      assert [k, i] + [j] == [k, i, j] && [0, i] + [j] == [0, i, j];
      assert [k, i, j] + [l] == TablePath(k, a) && [0, i, j] + [l] == TablePath(0, a);
      SameBelow(r, ss, [k, i], [0, i], j);
      SameBelow(r, ss, [k, i, j], [0, i, j], l);
    }
  }

  lemma SameBelow(r: Ram, ss: seq<Space>, x: Path, y: Path, i: nat)
    requires At(r, ss, x) == At(r, ss, y)
    ensures At(r, ss, x + [i]) == At(r, ss, y + [i])
  {
    assert Parent(x + [i]) == x && Parent(y + [i]) == y;
  }

  /** No translation of any space differs. */
  ghost predicate SameTranslations(r: Ram, s: Ram, ss: seq<Space>) {
    forall k: nat, a: nat :: Addressable(ss, k, a) ==> Translate(s, ss, k, a) == Translate(r, ss, k, a)
  }

  lemma LeavesTranslate(r: Ram, s: Ram, ss: seq<Space>)
    requires TablesOk(r, ss) && TablesOk(s, ss) && SameLeaves(r, s, ss)
    ensures SameTranslations(r, s, ss)
  {
    hide Dom, Pte, Addressable, PtIndex, TablePath, FrameOf, Home, TablesOk;
    forall k: nat, a: nat | Addressable(ss, k, a) ensures Translate(s, ss, k, a) == Translate(r, ss, k, a) {
      PathInDom(ss, k, a);
      PathLength(Home(ss, k, a), a);
      ViaHome(r, ss, k, a);
      ViaHome(s, ss, k, a);
    }
  }

  lemma PathLength(k: nat, a: nat)
    ensures |TablePath(k, a)| == 4
  {
  }

  /** Two spaces use the same tables for an address: a space and itself, or spaces that have it from the kernel. */
  predicate Together(ss: seq<Space>, l: nat, k: nat, a: nat) { Home(ss, l, a) == Home(ss, k, a) }

  /** All addresses of a page have the same home. */
  lemma HomeOfPage(ss: seq<Space>, k: nat, a: nat, b: nat)
    requires PageOf(a) == PageOf(b)
    ensures Home(ss, k, a) == Home(ss, k, b)
  {
    PageIndices(a, b);
  }

  /** Exactly the page of `virt` now stands for `to`, in space `k` and those that use the same tables for it. */
  ghost predicate Remapped(r: Ram, s: Ram, ss: seq<Space>, k: nat, virt: nat, to: Option<Page>) {
    forall l: nat, a: nat :: Addressable(ss, l, a) ==>
      Translate(s, ss, l, a) ==
        if Together(ss, l, k, a) && PageOf(a) == PageOf(virt) then to else Translate(r, ss, l, a)
  }

  /** A store to a last-level entry changes that entry only, and no table. */
  lemma LeafStore(r: Ram, ss: seq<Space>, x: Path, i: nat, e: nat)
    requires Valid(r) && TablesOk(r, ss) && x in Dom(ss) && |x| == 4 && At(r, ss, x) > 0 && i < 512
    ensures var s := PutEntry(r, At(r, ss, x), i, e);
      && Valid(s) && TablesOk(s, ss) && Kept(r, s, ss)
      && forall y, j: nat :: y in Dom(ss) && |y| == 4 ==>
        Pte(s, ss, y, j) == if y == x && j == i then e else Pte(r, ss, y, j)
  {
    NodeIsOwn(r, ss, x);
    forall y, j: nat | y in Dom(ss) && |y| == 4 ensures y + [j] !in Dom(ss) {
    }
    hide Dom, Separated, InUse, At, Slots, Valid, SlotOf, NotTable;
    var t := At(r, ss, x);
    var s := PutEntry(r, t, i, e);
    PutEntryEffect(r, t, i, e);
    forall y, j: nat | y in Dom(ss) && y + [j] in Dom(ss) && y != [] && At(r, ss, y) != 0
      ensures SlotOf(s, ss, At(r, ss, y), j) == SlotOf(r, ss, At(r, ss, y), j)
    {
      OneSlot(r, ss, x, y);
      SameSlot(r, s, ss, At(r, ss, y), j);
    }
    SameTables(r, s, ss);
    hide TablesOk;
    forall y, j: nat | y in Dom(ss) && |y| == 4
      ensures Pte(s, ss, y, j) == if y == x && j == i then e else Pte(r, ss, y, j)
    {
      OneSlot(r, ss, x, y);
    }
    TableIsTable(r, ss, x);
  }

  lemma LeafTranslate(r: Ram, s: Ram, ss: seq<Space>, k: nat, virt: nat, e: nat)
    requires Addressable(ss, k, virt) && TablesOk(r, ss) && TablesOk(s, ss)
    requires forall y, j: nat :: y in Dom(ss) && |y| == 4 ==>
               Pte(s, ss, y, j) == if y == TablePath(Home(ss, k, virt), virt)
                 && j == PtIndex(virt) then e else Pte(r, ss, y, j)
    ensures Remapped(r, s, ss, k, virt, if Present(e) then Some(PageIn(e)) else None)
  {
    hide Dom, Pte, PageIn, Present, TablePath, PtIndex, PageOf, Canonical, LowerHalf, Home, Live, TablesOk;
    forall l: nat, a: nat | Addressable(ss, l, a)
      ensures Translate(s, ss, l, a) ==
        if Together(ss, l, k, a) && PageOf(a) == PageOf(virt)
        then (if Present(e) then Some(PageIn(e)) else None)
        else Translate(r, ss, l, a)
    {
      PathInDom(ss, l, a);
      PathLength(Home(ss, l, a), a);
      ViaHome(r, ss, l, a);
      ViaHome(s, ss, l, a);
      SamePage(Home(ss, l, a), a, Home(ss, k, virt), virt);
      if PageOf(a) == PageOf(virt) { HomeOfPage(ss, k, a, virt); }
    }
  }

  /** Two addresses use the same entry exactly when they are in the same page of the same space. */
  lemma SamePage(l: nat, a: nat, k: nat, b: nat)
    requires Canonical(a) && Canonical(b)
    ensures TablePath(l, a) == TablePath(k, b) && PtIndex(a) == PtIndex(b) <==> l == k && PageOf(a) == PageOf(b)
  {
    var x, y := TablePath(l, a), TablePath(k, b);
    if x == y && PtIndex(a) == PtIndex(b) {
      assert x[0] == y[0] && x[1] == y[1] && x[2] == y[2] && x[3] == y[3];
      IndicesArePage(a, b);
    } else if l == k && PageOf(a) == PageOf(b) {
      PageIndices(a, b);
    }
  }

  lemma PageIndices(a: nat, b: nat)
    requires PageOf(a) == PageOf(b)
    ensures Pml4Index(a) == Pml4Index(b) && PdptIndex(a) == PdptIndex(b) && PdIndex(a) == PdIndex(b)
      && PtIndex(a) == PtIndex(b)
  {
    forall c: nat ensures c / 0x20_0000 == c / 4096 / 512 && c / 0x4000_0000 == c / 4096 / 0x4_0000
      && c / 0x80_0000_0000 == c / 4096 / 0x800_0000 {
    }
  }
}
