/** Creation and destruction of address spaces. */
module AddressSpaces {
  import opened Options
  import opened Pmm
  import opened RadixTree
  import opened PageTables
  import opened Vmm

  // ---------------------------------------------------------------- destruction

  /** The tables below `x` whose branch at `x` has index less than `n`. */
  ghost function Below(r: Ram, ss: seq<Space>, x: Path, n: nat): set<nat> {
    set f: nat | f < r.total && InBelow(r, ss, x, n, f)
  }

  ghost predicate InBelow(r: Ram, ss: seq<Space>, x: Path, n: nat, f: nat) {
    f != 0 && exists y :: Branch(ss, x, n, y) && At(r, ss, y) == f
  }

  ghost predicate Branch(ss: seq<Space>, x: Path, n: nat, y: Path) {
    y in Dom(ss) && |x| < |y| && x <= y && y[|x|] < n
  }

  /** How many entries of its top-level table are a space's alone from the start. */
  function Half(k: nat): nat { if k == 0 then 512 else 256 }

  /** How many children a table at `x` has in its own space. */
  function Width(x: Path): nat { if |x| == 1 then Half(x[0]) else 512 }

  lemma BranchSplit(ss: seq<Space>, x: Path, i: nat, y: Path)
    requires x + [i] in Dom(ss)
    ensures Branch(ss, x, i + 1, y) <==> Branch(ss, x, i, y) || y == x + [i] || Branch(ss, x + [i], 512, y)
    ensures Branch(ss, x, i, y) ==> y != x + [i] && !Branch(ss, x + [i], 512, y)
    ensures !Branch(ss, x + [i], 512, x + [i])
  {
  }

  lemma BelowSplit(r: Ram, ss: seq<Space>, x: Path, i: nat, f: nat)
    requires x + [i] in Dom(ss)
    ensures InBelow(r, ss, x, i + 1, f) <==>
      InBelow(r, ss, x, i, f) || InBelow(r, ss, x + [i], 512, f) || (f != 0 && f == At(r, ss, x + [i]))
  {
    hide Dom, At, Branch;
    if InBelow(r, ss, x, i + 1, f) {
      var y :| Branch(ss, x, i + 1, y) && At(r, ss, y) == f;
      BranchSplit(ss, x, i, y);
    }
    if InBelow(r, ss, x, i, f) {
      var y :| Branch(ss, x, i, y) && At(r, ss, y) == f;
      BranchSplit(ss, x, i, y);
    }
    if InBelow(r, ss, x + [i], 512, f) {
      var y :| Branch(ss, x + [i], 512, y) && At(r, ss, y) == f;
      BranchSplit(ss, x, i, y);
    }
    if f != 0 && f == At(r, ss, x + [i]) {
      BranchSplit(ss, x, i, x + [i]);
    }
  }

  /** One more branch: its own table, the tables below it, and what came before. */
  lemma BelowStep(r: Ram, ss: seq<Space>, x: Path, i: nat)
    requires Ok(r, ss) && x + [i] in Dom(ss) && x in Dom(ss) && x != []
    ensures At(r, ss, x + [i]) > 0 ==>
      Below(r, ss, x, i + 1) == Below(r, ss, x, i) + Below(r, ss, x + [i], 512) + {At(r, ss, x + [i])}
    ensures At(r, ss, x + [i]) == 0 ==> Below(r, ss, x, i + 1) == Below(r, ss, x, i)
    ensures At(r, ss, x + [i]) > 0 ==> At(r, ss, x + [i]) !in Below(r, ss, x, i) + Below(r, ss, x + [i], 512)
  {
    hide Dom, At, TablesOk, Valid, Branch;
    var q := x + [i];
    forall f: nat ensures InBelow(r, ss, x, i + 1, f) <==>
      InBelow(r, ss, x, i, f) || InBelow(r, ss, q, 512, f) || (f != 0 && f == At(r, ss, q))
    {
      BelowSplit(r, ss, x, i, f);
    }
    if At(r, ss, q) > 0 {
      NodeIsOwn(r, ss, q);
      forall y: Path | Branch(ss, x, i, y) || Branch(ss, q, 512, y) ensures At(r, ss, y) != At(r, ss, q) {
        BranchSplit(ss, x, i, y);
        BranchSplit(ss, x, i, q);
        BranchInDom(ss, x, i, y);
        BranchInDom(ss, q, 512, y);
        OneSlot(r, ss, y, q);
      }
    } else if At(r, ss, q) == 0 {
      forall f: nat ensures !InBelow(r, ss, q, 512, f) {
        forall y: Path | Branch(ss, q, 512, y) ensures At(r, ss, y) == 0 {
          BranchInDom(ss, q, 512, y);
          EmptyBelow(r, ss, q, y);
        }
      }
    }
  }

  lemma BranchInDom(ss: seq<Space>, x: Path, n: nat, y: Path)
    ensures Branch(ss, x, n, y) ==> y in Dom(ss) && x <= y && x != y
  {
  }

  lemma {:induction false} EmptyBelow(r: Ram, ss: seq<Space>, x: Path, y: Path)
    requires x <= y && At(r, ss, x) == 0
    ensures At(r, ss, y) == 0
    decreases |y|
  {
    if x != y {
      assert x <= Parent(y);
      EmptyBelow(r, ss, x, Parent(y));
    }
  }

  lemma NoneBelow(r: Ram, ss: seq<Space>, x: Path, n: nat)
    requires |x| == 4 || n == 0
    ensures Below(r, ss, x, n) == {}
  {
  }

  /** What a table's space frees below it: disjoint from everything freed so far. */
  ghost predicate Untouched(r: Ram, ss: seq<Space>, x: Path, n: nat, freed: set<nat>) {
    Below(r, ss, x, n) !! freed
  }

  lemma BelowMono(r: Ram, ss: seq<Space>, x: Path, i: nat, n: nat)
    requires i <= n
    ensures Below(r, ss, x, i) <= Below(r, ss, x, n)
  {
  }

  lemma SlotInDom(ss: seq<Space>, x: Path, i: nat)
    requires x in Dom(ss) && x != [] && |x| < 4 && i < Width(x)
    ensures x + [i] in Dom(ss)
  {
  }

  /**
   Frees every table below `table`, the tables under an entry before the entry's own: the
   nested loops of the source, one level a call.
   */
  method FreeTables(m: Machine, table: nat, width: nat, levels: nat, ghost r: Ram, ghost x: Path, ghost freed: set<nat>)
    requires Ok(r, m.spaces) && Valid(m.ram) && Released(r, m.ram, freed)
    requires x in Dom(m.spaces) && x != [] && |x| + levels == 4 && At(r, m.spaces, x) == table > 0 && width == Width(x)
    requires Untouched(r, m.spaces, x, width, freed)
    modifies m`ram
    ensures Valid(m.ram) && Released(r, m.ram, freed + Below(r, m.spaces, x, width))
    decreases levels
  {
    hide Dom, At, TablesOk, Valid, Below, InUse, Branch, Released;
    ghost var ss := m.spaces;
    if levels == 0 {
      NoneBelow(r, ss, x, width);
      assert freed + {} == freed;
      return;
    }
    NoneBelow(r, ss, x, 0);
    assert freed + {} == freed;
    for i := 0 to width
      invariant Valid(m.ram) && Released(r, m.ram, freed + Below(r, ss, x, i))
    {
      ghost var done := freed + Below(r, ss, x, i);
      SameFrames(r, m.ram, done, table, i);
      var entry := Entry(m.ram, table, i);
      SlotInDom(ss, x, i);
      EntryAt(r, ss, x, i);
      BelowStep(r, ss, x, i);
      BelowMono(r, ss, x, i + 1, width);
      if !Present(entry) {
        continue;
      }
      var child := FrameOf(entry);
      ghost var sub := Below(r, ss, x + [i], 512);
      DisjointBelow(r, ss, x, i, done, freed);
      FreeTables(m, child, 512, levels - 1, r, x + [i], done);
      ReleasedFacts(r, m.ram, done + sub, child);
      ChildFacts(r, ss, x, i);
      ghost var s := m.ram;
      m.Free(child * 4096);
      assert child * 4096 / 4096 == child;
      ReleasedMore(r, s, m.ram, done + sub, child);
      assert done + sub + {child} == freed + Below(r, ss, x, i + 1);
    }
  }

  lemma SameFrames(r: Ram, s: Ram, freed: set<nat>, t: nat, i: nat)
    requires Released(r, s, freed)
    ensures Entry(s, t, i) == Entry(r, t, i)
  {
  }

  lemma EntryAt(r: Ram, ss: seq<Space>, x: Path, i: nat)
    requires Ok(r, ss) && x in Dom(ss) && x + [i] in Dom(ss) && x != [] && At(r, ss, x) > 0
    ensures Present(Entry(r, At(r, ss, x), i)) <==> At(r, ss, x + [i]) > 0
    ensures Present(Entry(r, At(r, ss, x), i)) ==> At(r, ss, x + [i]) == FrameOf(Entry(r, At(r, ss, x), i))
    ensures At(r, ss, x + [i]) >= 0
  {
  }

  /** The tables under one entry are none of those freed before it. */
  lemma DisjointBelow(r: Ram, ss: seq<Space>, x: Path, i: nat, done: set<nat>, freed: set<nat>)
    requires Ok(r, ss) && x in Dom(ss) && x + [i] in Dom(ss) && x != [] && i < Width(x)
    requires Untouched(r, ss, x, Width(x), freed) && done == freed + Below(r, ss, x, i) && At(r, ss, x + [i]) > 0
    ensures Untouched(r, ss, x + [i], 512, done)
    ensures At(r, ss, x + [i]) !in done + Below(r, ss, x + [i], 512)
  {
    hide Dom, At, TablesOk, Valid, Branch, InUse;
    BelowStep(r, ss, x, i);
    BelowMono(r, ss, x, i + 1, Width(x));
    forall f | f in Below(r, ss, x + [i], 512) ensures f !in Below(r, ss, x, i) {
      if InBelow(r, ss, x, i, f) {
        var y :| Branch(ss, x, i, y) && At(r, ss, y) == f;
        var z :| Branch(ss, x + [i], 512, z) && At(r, ss, z) == f;
        BranchSplit(ss, x, i, y);
        BranchInDom(ss, x, i, y);
        BranchInDom(ss, x + [i], 512, z);
        OneSlot(r, ss, y, z);
      }
    }
  }

  lemma ReleasedFacts(r: Ram, s: Ram, freed: set<nat>, f: nat)
    requires Released(r, s, freed)
    ensures s.total == r.total && (f !in freed && InUse(r, f) ==> InUse(s, f))
  {
  }

  lemma ChildFacts(r: Ram, ss: seq<Space>, x: Path, i: nat)
    requires Ok(r, ss) && x + [i] in Dom(ss) && At(r, ss, x + [i]) > 0
    ensures 0 < At(r, ss, x + [i]) < r.total && InUse(r, At(r, ss, x + [i]))
  {
  }

  /** The spaces without space `k`. */
  function Gone(ss: seq<Space>, k: nat): seq<Space>
    requires k < |ss|
  {
    ss[k := ss[k].(pml4 := 0, desc := 0)]
  }

  /** The tree once space `k` is gone and frames are otherwise untouched. */
  lemma {:induction false} DroppedAt(r: Ram, s: Ram, ss: seq<Space>, k: nat, x: Path)
    requires k < |ss| && s.frames == r.frames
    ensures At(s, Gone(ss, k), x) == if x != [] && x[0] == k then 0 else At(r, ss, x)
    decreases |x|
  {
    if x != [] {
      DroppedAt(r, s, ss, k, Parent(x));
    }
  }

  /** Everything space `k` owns: its tables, its top table and its descriptor. */
  ghost function Owned(r: Ram, ss: seq<Space>, k: nat): set<nat>
    requires k < |ss|
  {
    Below(r, ss, [k], Half(k)) + {ss[k].pml4, ss[k].desc}
  }

  lemma OwnedElsewhere(r: Ram, ss: seq<Space>, k: nat, x: Path)
    requires Ok(r, ss) && Live(ss, k) && ss[k].desc != 0 && x in Dom(ss) && x != [] && x[0] != k && At(r, ss, x) != 0
    ensures At(r, ss, x) !in Owned(r, ss, k)
  {
    AtTop(r, ss, k);
    assert [k] in Dom(ss);
    OneSlot(r, ss, x, [k]);
    assert NotTable(r, ss, ss[k].desc);
    AtIs(r, ss, x);
    forall y: Path | Branch(ss, [k], Half(k), y) ensures At(r, ss, y) != At(r, ss, x) {
      OneSlot(r, ss, x, y);
    }
  }

  /** The trees of two states agree except that space `k` has none in the second. */
  ghost predicate Dropped(r: Ram, s: Ram, ss: seq<Space>, k: nat)
    requires k < |ss|
  {
    && Dom(Gone(ss, k)) == Dom(ss)
    && forall x: Path :: At(s, Gone(ss, k), x) == if x != [] && x[0] == k then 0 else At(r, ss, x)
  }

  lemma IsDropped(r: Ram, s: Ram, ss: seq<Space>, k: nat)
    requires k < |ss| && s.frames == r.frames
    ensures Dropped(r, s, ss, k)
  {
    assert Dom(Gone(ss, k)) == Dom(ss);
    forall x: Path ensures At(s, Gone(ss, k), x) == if x != [] && x[0] == k then 0 else At(r, ss, x) {
      DroppedAt(r, s, ss, k, x);
    }
  }

  lemma DropSeparated(r: Ram, s: Ram, ss: seq<Space>, k: nat)
    requires TablesOk(r, ss) && k < |ss| && Dropped(r, s, ss, k)
    ensures Separated(Slots(s, Gone(ss, k)), ROOT, Dom(ss))
  {
  }

  lemma DropNotTable(r: Ram, s: Ram, ss: seq<Space>, k: nat, f: int)
    requires k < |ss| && Dropped(r, s, ss, k) && NotTable(r, ss, f)
    ensures NotTable(s, Gone(ss, k), f)
  {
  }

  lemma StillOwn(r: Ram, s: Ram, fs: set<nat>, f: int)
    requires Released(r, s, fs) && OwnFrame(r, f) && f !in fs
    ensures OwnFrame(s, f)
  {
  }

  /** Dropping a space and freeing what it owned leaves every other space's tables in order. */
  lemma DropKeeps(r: Ram, s: Ram, ss: seq<Space>, k: nat)
    requires Ok(r, ss) && k > 0 && Live(ss, k) && ss[k].desc != 0 && Released(r, s, Owned(r, ss, k)) && Valid(s)
    ensures Ok(s, Gone(ss, k))
  {
    hide Dom, At, Valid, InUse, Slots, Owned, Separated, NotTable, Released, OwnFrame, SharedOk;
    var ss' := Gone(ss, k);
    var gone := Owned(r, ss, k);
    ReleasedFrames(r, s, gone);
    IsDropped(r, s, ss, k);
    DropShared(r, s, ss, k);
    DropSeparated(r, s, ss, k);
    forall x | x in Dom(ss') && x != [] && At(s, ss', x) != 0 ensures OwnFrame(s, At(s, ss', x)) {
      NodeIsOwn(r, ss, x);
      OwnedElsewhere(r, ss, k, x);
      StillOwn(r, s, gone, At(r, ss, x));
    }
    forall l | 0 <= l < |ss| && ss'[l].desc != 0 ensures OwnFrame(s, ss'[l].desc) && NotTable(s, ss', ss'[l].desc) {
      DescElsewhere(r, ss, k, l);
      StillOwn(r, s, gone, ss[l].desc);
      DropNotTable(r, s, ss, k, ss[l].desc);
    }
  }

  lemma DropShared(r: Ram, s: Ram, ss: seq<Space>, k: nat)
    requires SharedOk(r, ss) && 0 < k < |ss| && Dropped(r, s, ss, k)
    ensures SharedOk(s, Gone(ss, k))
  {
    hide At, Dom;
    forall l: nat, i: nat | Shared(Gone(ss, k), l, i) && Live(Gone(ss, k), l)
      ensures i < 512 && At(s, Gone(ss, k), [l, i]) == At(s, Gone(ss, k), [0, i]) != 0
    {
      assert Shared(ss, l, i) && Live(ss, l);
    }
  }

  lemma DescElsewhere(r: Ram, ss: seq<Space>, k: nat, l: nat)
    requires Ok(r, ss) && Live(ss, k) && ss[k].desc != 0 && l < |ss| && l != k && ss[l].desc != 0
    ensures OwnFrame(r, ss[l].desc) && ss[l].desc !in Owned(r, ss, k)
  {
    assert NotTable(r, ss, ss[l].desc);
    AtTop(r, ss, k);
    assert [k] in Dom(ss);
    AtIs(r, ss, [k]);
    forall y: Path | Branch(ss, [k], Half(k), y) ensures At(r, ss, y) != ss[l].desc {
      AtIs(r, ss, y);
    }
  }

  /** Other spaces translate as before. */
  lemma DropTranslate(r: Ram, s: Ram, ss: seq<Space>, k: nat, l: nat, a: nat)
    requires k < |ss| && s.frames == r.frames && l < |ss|
    ensures Translate(s, Gone(ss, k), l, a) == if l == k then None else Translate(r, ss, l, a)
  {
    DroppedAt(r, s, ss, k, TablePath(l, a));
    hide Pml4Index, PdptIndex, PdIndex, PtIndex, At;
  }

  /**
   Destroys a user space: its lower-half tables, its top table and its descriptor are each
   given back exactly once, and nothing else is.
   */
  method DestroyAddressSpace(m: Machine, k: nat)
    requires Ok(m.ram, m.spaces) && k > 0 && Live(m.spaces, k) && m.spaces[k].desc != 0
    modifies m
    ensures m.spaces == Gone(old(m.spaces), k) && Ok(m.ram, m.spaces)
    ensures Released(old(m.ram), m.ram, Owned(old(m.ram), old(m.spaces), k))
    ensures forall l: nat, a: nat :: l < |m.spaces| ==>
              Translate(m.ram, m.spaces, l, a) == if l == k then None else Translate(old(m.ram), old(m.spaces), l, a)
  {
    hide Dom, At, TablesOk, Valid, InUse, Branch, Released, Below, Translate;
    ghost var r, ss := m.ram, m.spaces;
    var pml4, desc := m.spaces[k].pml4, m.spaces[k].desc;
    ghost var sub := Below(r, ss, [k], 256);
    TopFacts(r, ss, k);
    ReleasedNone(r);
    FreeTables(m, pml4, 256, 3, r, [k], {});
    assert {} + sub == sub;
    ReleasedFacts(r, m.ram, sub, pml4);
    ghost var s := m.ram;
    m.Free(pml4 * 4096);
    assert pml4 * 4096 / 4096 == pml4;
    ReleasedMore(r, s, m.ram, sub, pml4);
    ghost var t := m.ram;
    ReleasedFacts(r, t, sub + {pml4}, desc);
    m.Free(desc * 4096);
    assert desc * 4096 / 4096 == desc;
    ReleasedMore(r, t, m.ram, sub + {pml4}, desc);
    assert sub + {pml4} + {desc} == Owned(r, ss, k);
    m.spaces := Gone(m.spaces, k);
    DropKeeps(r, m.ram, ss, k);
    assert m.ram.frames == r.frames by { ReleasedFrames(r, m.ram, Owned(r, ss, k)); }
    forall l: nat, a: nat | l < |m.spaces|
      ensures Translate(m.ram, m.spaces, l, a) == if l == k then None else Translate(r, ss, l, a)
    {
      DropTranslate(r, m.ram, ss, k, l, a);
    }
  }

  /** Tables that a user space was given of its own in the upper half stay behind: in use, and in no tree. */
  lemma UpperTablesStay(r: Ram, s: Ram, ss: seq<Space>, k: nat, x: Path)
    requires Ok(r, ss) && k > 0 && Live(ss, k) && ss[k].desc != 0 && Released(r, s, Owned(r, ss, k))
    requires x in Dom(ss) && |x| >= 2 && x[0] == k && x[1] >= 256 && At(r, ss, x) != 0
    ensures OwnFrame(s, At(r, ss, x)) && NotTable(s, Gone(ss, k), At(r, ss, x))
  {
    hide At, TablesOk, Valid, Owned, Released, Dom, OwnFrame, NotTable, Gone;
    var f := At(r, ss, x);
    NodeIsOwn(r, ss, x);
    UpperNotOwned(r, ss, k, x);
    StillOwn(r, s, Owned(r, ss, k), f);
    ReleasedFrames(r, s, Owned(r, ss, k));
    IsDropped(r, s, ss, k);
    NowhereElse(r, s, ss, k, x);
  }

  lemma UpperNotOwned(r: Ram, ss: seq<Space>, k: nat, x: Path)
    requires Ok(r, ss) && k > 0 && Live(ss, k) && ss[k].desc != 0
    requires x in Dom(ss) && |x| >= 2 && x[0] == k && x[1] >= 256 && At(r, ss, x) != 0
    ensures At(r, ss, x) !in Owned(r, ss, k)
  {
    hide At, TablesOk, Valid, Dom, NotTable, InUse, Untouched;
    TopFacts(r, ss, k);
    DescApart(r, ss, k, x);
    OneSlot(r, ss, x, [k]);
    forall y: Path | Branch(ss, [k], 256, y) ensures At(r, ss, y) != At(r, ss, x) {
      OneSlot(r, ss, x, y);
    }
  }

  lemma DescApart(r: Ram, ss: seq<Space>, k: nat, x: Path)
    requires TablesOk(r, ss) && k < |ss| && ss[k].desc != 0 && x in Dom(ss)
    ensures At(r, ss, x) != ss[k].desc
  {
    assert NotTable(r, ss, ss[k].desc);
    hide At, Separated, SharedOk;
    AtIs(r, ss, x);
  }

  lemma NowhereElse(r: Ram, s: Ram, ss: seq<Space>, k: nat, x: Path)
    requires TablesOk(r, ss) && k < |ss| && Dropped(r, s, ss, k) && x in Dom(ss) && x != [] && x[0] == k
      && At(r, ss, x) != 0
    ensures NotTable(s, Gone(ss, k), At(r, ss, x))
  {
    hide At, TablesOk, Dom, Gone;
    forall y | y in Dom(Gone(ss, k)) ensures Node(Slots(s, Gone(ss, k)), ROOT, y) != At(r, ss, x) {
      AtIs(s, Gone(ss, k), y);
      OneSlot(r, ss, x, y);
    }
  }

  lemma ReleasedNone(r: Ram)
    ensures Released(r, r, {})
  {
  }

  lemma ReleasedFrames(r: Ram, s: Ram, fs: set<nat>)
    requires Released(r, s, fs)
    ensures s.frames == r.frames
  {
  }

  lemma TopFacts(r: Ram, ss: seq<Space>, k: nat)
    requires Ok(r, ss) && k > 0 && Live(ss, k) && ss[k].desc != 0
    ensures [k] in Dom(ss) && At(r, ss, [k]) == ss[k].pml4 && Width([k]) == 256 && Untouched(r, ss, [k], 256, {})
    ensures 0 < ss[k].pml4 < r.total && InUse(r, ss[k].pml4) && ss[k].pml4 !in Below(r, ss, [k], 256)
    ensures 0 < ss[k].desc < r.total && InUse(r, ss[k].desc) && ss[k].desc !in Below(r, ss, [k], 256) + {ss[k].pml4}
  {
    AtTop(r, ss, k);
    assert [k] in Dom(ss);
    NodeIsOwn(r, ss, [k]);
    assert NotTable(r, ss, ss[k].desc);
    AtIs(r, ss, [k]);
    forall y: Path | Branch(ss, [k], 256, y) ensures At(r, ss, y) != ss[k].pml4 && At(r, ss, y) != ss[k].desc {
      AtIs(r, ss, y);
      OneSlot(r, ss, y, [k]);
    }
  }

  // ---------------------------------------------------------------- creation

  /** Stores to a frame that is no table leave every table alone. */
  lemma OutsideStore(r: Ram, s: Ram, ss: seq<Space>, f: nat)
    requires TablesOk(r, ss) && NotTable(r, ss, f) && s.total == r.total
    requires forall g: nat :: InUse(s, g) == InUse(r, g)
    requires forall g: nat :: g != f ==> FrameAt(s, g) == FrameAt(r, g)
    ensures TablesOk(s, ss) && forall x :: x in Dom(ss) ==> At(s, ss, x) == At(r, ss, x)
    ensures forall g: int :: NotTable(r, ss, g) == NotTable(s, ss, g)
    ensures SameTranslations(r, s, ss)
  {
    hide Dom, At, InUse, SlotOf, Separated, Slots;
    forall x, i: nat | x in Dom(ss) && |x| < 4 && x != [] && At(r, ss, x) != 0
      ensures SlotOf(s, ss, At(r, ss, x), i) == SlotOf(r, ss, At(r, ss, x), i)
    {
      AtIs(r, ss, x);
      SameSlot(r, s, ss, At(r, ss, x), i);
    }
    SameTables(r, s, ss);
    forall x, i: nat | x in Dom(ss) && |x| == 4 ensures Pte(s, ss, x, i) == Pte(r, ss, x, i) {
      AtIs(r, ss, x);
    }
    LeavesTranslate(r, s, ss);
  }

  lemma {:induction false} AppendedAt(r: Ram, ss: seq<Space>, sp: Space, x: Path)
    ensures (x == [] || x[0] < |ss|) ==> At(r, ss + [sp], x) == At(r, ss, x)
    decreases |x|
  {
    if x != [] {
      AppendedAt(r, ss, sp, Parent(x));
    }
  }

  /** Nothing hangs from the top-level table of a space, but for what it shares. */
  ghost predicate Hollow(r: Ram, sp: Space) {
    forall i: nat :: i < 512 && !(256 <= i && i in sp.shared) ==> !Present(Entry(r, sp.pml4, i))
  }

  /** The new space has a top table and nothing below it. */
  lemma {:induction false} AppendedNew(r: Ram, ss: seq<Space>, sp: Space, x: Path)
    requires x in Dom(ss + [sp]) && x != [] && x[0] == |ss| && |ss| > 0
    requires Hollow(r, sp)
    ensures At(r, ss + [sp], x) == if |x| == 1 then sp.pml4 else 0
    decreases |x|
  {
    if |x| == 1 {
      AtTop(r, ss + [sp], |ss|);
      assert x == [|ss|];
    } else {
      AppendedNew(r, ss, sp, Parent(x));
      StepIn(r, ss + [sp], x);
      if |x| == 2 {
        assert x[1] == Last(x);
      }
    }
  }

  lemma StepIn(r: Ram, ss: seq<Space>, x: Path)
    requires x != []
    ensures At(r, ss, x) == if At(r, ss, Parent(x)) == 0 then 0 else SlotOf(r, ss, At(r, ss, Parent(x)), Last(x))
  {
  }

  lemma InDomAppended(ss: seq<Space>, sp: Space, x: Path)
    ensures x in Dom(ss) ==> x in Dom(ss + [sp])
    ensures x in Dom(ss + [sp]) && (x == [] || x[0] < |ss|) ==> x in Dom(ss)
    ensures x in Dom(ss + [sp]) && x != [] ==> x[0] <= |ss|
  {
  }

  /** Every node of the extended forest is an old one or the new top table. */
  lemma AppendedCases(r: Ram, ss: seq<Space>, sp: Space, x: Path)
    requires x in Dom(ss + [sp]) && |ss| > 0
    requires Hollow(r, sp)
    ensures if x == [] || x[0] < |ss| then x in Dom(ss) && At(r, ss + [sp], x) == At(r, ss, x)
            else At(r, ss + [sp], x) == if x == [|ss|] then sp.pml4 else 0
  {
    InDomAppended(ss, sp, x);
    AppendedAt(r, ss, sp, x);
    if x != [] && x[0] == |ss| {
      AppendedNew(r, ss, sp, x);
    }
  }

  ghost predicate Ready(r: Ram, ss: seq<Space>, sp: Space) {
    && TablesOk(r, ss) && |ss| > 0
    && OwnFrame(r, sp.pml4) && OwnFrame(r, sp.desc) && sp.pml4 != sp.desc
    && NotTable(r, ss, sp.pml4) && NotTable(r, ss, sp.desc)
    && (forall k :: 0 <= k < |ss| ==> ss[k].desc != sp.pml4 && ss[k].desc != sp.desc)
    && Hollow(r, sp)
  }

  lemma AppendNotTable(r: Ram, ss: seq<Space>, sp: Space, f: int)
    requires Ready(r, ss, sp) && NotTable(r, ss, f) && f != sp.pml4
    ensures NotTable(r, ss + [sp], f)
  {
    hide Dom, At, InUse, TablesOk, Slots, Entry;
    forall x | x in Dom(ss + [sp]) ensures Node(Slots(r, ss + [sp]), ROOT, x) != f {
      AtIs(r, ss + [sp], x);
      AtIs(r, ss, x);
      AppendedCases(r, ss, sp, x);
    }
  }

  lemma AppendSeparated(r: Ram, ss: seq<Space>, sp: Space)
    requires Ready(r, ss, sp)
    ensures Separated(Slots(r, ss + [sp]), ROOT, Dom(ss + [sp]))
  {
    hide Dom, At, InUse, TablesOk, Slots, Entry;
    forall x, y | x in Dom(ss + [sp]) && y in Dom(ss + [sp])
      && Node(Slots(r, ss + [sp]), ROOT, x) == Node(Slots(r, ss + [sp]), ROOT, y) != 0
      ensures x == y
    {
      AtIs(r, ss + [sp], x);
      AtIs(r, ss + [sp], y);
      AtIs(r, ss, x);
      AtIs(r, ss, y);
      AppendedCases(r, ss, sp, x);
      AppendedCases(r, ss, sp, y);
      if x in Dom(ss) && y in Dom(ss) {
        OneSlot(r, ss, x, y);
      }
    }
  }

  /** The entries that a new space shares are the kernel's present ones of the upper half, copied. */
  ghost predicate Mirrors(r: Ram, ss: seq<Space>, sp: Space) {
    && Live(ss, 0) && (forall i :: i in sp.shared ==> 256 <= i < 512)
    && forall i: nat :: 256 <= i < 512 ==>
      (i in sp.shared <==> Present(Entry(r, ss[0].pml4, i))) && Entry(r, sp.pml4, i) == Entry(r, ss[0].pml4, i)
  }

  lemma AppendShared(r: Ram, ss: seq<Space>, sp: Space)
    requires Ready(r, ss, sp) && Mirrors(r, ss, sp)
    ensures SharedOk(r, ss + [sp])
  {
    var ss' := ss + [sp];
    hide At, Dom, Separated, NotTable, OwnFrame, Entry, Present;
    forall k: nat, i: nat | Shared(ss', k, i) && Live(ss', k)
      ensures i < 512 && At(r, ss', [k, i]) == At(r, ss', [0, i]) != 0 {
      AppendedAt(r, ss, sp, [k, i]);
      AppendedAt(r, ss, sp, [0, i]);
      if k < |ss| {
        assert Shared(ss, k, i) && Live(ss, k);
      } else {
        TopStep(r, ss', k, i);
        TopStep(r, ss', 0, i);
      }
    }
  }

  lemma AppendTables(r: Ram, ss: seq<Space>, sp: Space)
    requires Ready(r, ss, sp) && Mirrors(r, ss, sp)
    ensures TablesOk(r, ss + [sp])
  {
    var ss' := ss + [sp];
    AppendSeparated(r, ss, sp);
    AppendShared(r, ss, sp);
    hide Dom, At, InUse, Slots, Entry, Separated, OwnFrame, NotTable, Present, SharedOk, Hollow, Mirrors;
    forall x | x in Dom(ss') && x != [] && At(r, ss', x) != 0 ensures OwnFrame(r, At(r, ss', x)) {
      AppendedCases(r, ss, sp, x);
      if x in Dom(ss) {
        NodeIsOwn(r, ss, x);
      }
    }
    forall k | 0 <= k < |ss'| && ss'[k].desc != 0 ensures OwnFrame(r, ss'[k].desc) && NotTable(r, ss', ss'[k].desc) {
      AppendNotTable(r, ss, sp, ss'[k].desc);
    }
  }

  lemma AppendKeeps(r: Ram, ss: seq<Space>, sp: Space)
    requires Ready(r, ss, sp) && Mirrors(r, ss, sp)
    ensures TablesOk(r, ss + [sp])
    ensures forall l: nat, a: nat :: l < |ss| ==> Translate(r, ss + [sp], l, a) == Translate(r, ss, l, a)
    ensures forall a: nat :: Canonical(a) ==>
              Translate(r, ss + [sp], |ss|, a) == if LowerHalf(a) then None else Translate(r, ss + [sp], 0, a)
  {
    AppendTables(r, ss, sp);
    hide Translate, TablesOk, NotTable, Ready, Mirrors, Canonical;
    forall l: nat, a: nat | l < |ss| ensures Translate(r, ss + [sp], l, a) == Translate(r, ss, l, a) {
      AppendTranslate(r, ss, sp, l, a);
    }
    forall a: nat | Canonical(a)
      ensures Translate(r, ss + [sp], |ss|, a) == if LowerHalf(a) then None else Translate(r, ss + [sp], 0, a)
    {
      NewTranslate(r, ss, sp, a);
    }
  }

  lemma AppendTranslate(r: Ram, ss: seq<Space>, sp: Space, l: nat, a: nat)
    requires l < |ss|
    ensures Translate(r, ss + [sp], l, a) == Translate(r, ss, l, a)
  {
    hide At, Entry, Pml4Index, PdptIndex, PdIndex, PtIndex, FrameOf;
    AppendedAt(r, ss, sp, TablePath(l, a));
  }

  /** The new space has nothing in the lower half, and in the upper half what the kernel has. */
  lemma NewTranslate(r: Ram, ss: seq<Space>, sp: Space, a: nat)
    requires Ready(r, ss, sp) && Mirrors(r, ss, sp) && TablesOk(r, ss + [sp]) && Canonical(a)
    ensures Translate(r, ss + [sp], |ss|, a) == if LowerHalf(a) then None else Translate(r, ss + [sp], 0, a)
  {
    var ss', i, k := ss + [sp], Pml4Index(a), |ss|;
    Digits(a);
    ReadyLive(r, ss, sp);
    ViaHome(r, ss', k, a);
    hide Dom, At, TablesOk, NotTable, OwnFrame, Pml4Index, PdptIndex, PdIndex, PtIndex, FrameOf, Present, Entry,
      TablePath;
    if !Shared(ss', k, i) {
      TopStep(r, ss', k, i);
      TopStep(r, ss', 0, i);
      if i < 256 || !Present(Entry(r, ss[0].pml4, i)) {
        Untranslated(r, ss', k, a);
        if i >= 256 { Untranslated(r, ss', 0, a); }
      }
    }
  }

  lemma ReadyLive(r: Ram, ss: seq<Space>, sp: Space)
    requires Ready(r, ss, sp)
    ensures Live(ss + [sp], |ss|)
  {
  }

  /** Below an absent entry of the top-level table nothing is mapped. */
  lemma Untranslated(r: Ram, ss: seq<Space>, k: nat, a: nat)
    requires At(r, ss, [k, Pml4Index(a)]) == 0
    ensures Translate(r, ss, k, a) == None
  {
    hide At, Pml4Index, PdptIndex, PdIndex, PtIndex, FrameOf;
    EmptyBelow(r, ss, [k, Pml4Index(a)], TablePath(k, a));
  }

  /** The state while a new space is under construction in two fresh frames. */
  ghost predicate Building(r0: Ram, r: Ram, ss: seq<Space>, sp: Space) {
    && Valid(r) && Ready(r, ss, sp) && r.total == r0.total && r.used == r0.used + 2
    && (forall f: nat :: InUse(r0, f) ==>
      InUse(r, f) && FrameAt(r, f) == FrameAt(r0, f) && f != sp.pml4 && f != sp.desc)
    && (forall f: nat :: InUse(r, f) ==> InUse(r0, f) || f == sp.pml4 || f == sp.desc)
    && SameTranslations(r0, r, ss)
    && (forall f: int :: NotTable(r0, ss, f) ==> NotTable(r, ss, f))
  }

  lemma StartBuilding(r0: Ram, r1: Ram, r2: Ram, ss: seq<Space>, d: nat, p: nat, shared: set<nat>)
    requires Ok(r0, ss) && Taken(r0, r1, d) && Valid(r2) && Taken(r1, r2, p) && |ss| > 0
    ensures Building(r0, r2, ss, Space(p, d, shared))
  {
    hide Dom, At, InUse, Slots, Separated, Valid;
    TakenKeepsTables(r0, r1, ss, d);
    TakenKeepsTables(r1, r2, ss, p);
    hide NotTable;
    assert forall k :: 0 <= k < |ss| && ss[k].desc != 0 ==> OwnFrame(r0, ss[k].desc);
    TakenTranslate(r0, r1, ss, d);
    TakenTranslate(r1, r2, ss, p);
  }

  lemma TakenTranslate(r: Ram, u: Ram, ss: seq<Space>, b: nat)
    requires TablesOk(r, ss) && Taken(r, u, b)
    ensures SameTranslations(r, u, ss)
  {
    hide Dom, At, InUse, Slots, Separated;
    TakenKeepsTables(r, u, ss, b);
    forall x, i: nat | x in Dom(ss) && |x| == 4 ensures Pte(u, ss, x, i) == Pte(r, ss, x, i) {
      if At(r, ss, x) > 0 {
        NodeIsOwn(r, ss, x);
      }
    }
    LeavesTranslate(r, u, ss);
  }

  lemma CopyEntry(r0: Ram, r: Ram, ss: seq<Space>, sp: Space, i: nat, e: nat)
    requires Building(r0, r, ss, sp) && 256 <= i < 512 && (Present(e) ==> i in sp.shared)
    ensures Building(r0, PutEntry(r, sp.pml4, i, e), ss, sp)
    ensures FrameAt(PutEntry(r, sp.pml4, i, e), sp.pml4) == FrameAt(r, sp.pml4)[i := e]
  {
    hide Dom, At, Slots, Separated, TablesOk, NotTable, SameTranslations, Present;
    var s := PutEntry(r, sp.pml4, i, e);
    assert |FrameAt(r, sp.pml4)| == 512;
    PutEntryEffect(r, sp.pml4, i, e);
    hide InUse, Valid, Entry;
    OutsideStore(r, s, ss, sp.pml4);
    SameTrans(r0, r, s, ss);
  }

  lemma SameSelf(r: Ram, ss: seq<Space>)
    ensures SameTranslations(r, r, ss)
  {
    hide Translate, Addressable;
  }

  lemma SameTrans(r: Ram, s: Ram, t: Ram, ss: seq<Space>)
    requires SameTranslations(r, s, ss) && SameTranslations(s, t, ss)
    ensures SameTranslations(r, t, ss)
  {
    hide Translate, Addressable;
  }

  /**
   Creates a user space: an empty lower half and a copy of the kernel's upper half, in two
   frames that were free. No translation of an existing space and no page in use changes.
   */
  method CreateAddressSpace(m: Machine) returns (k: nat)
    requires Ok(m.ram, m.spaces) && Live(m.spaces, 0)
    modifies m
    ensures Ok(m.ram, m.spaces)
    ensures forall f: nat :: InUse(old(m.ram), f) ==> InUse(m.ram, f) && FrameAt(m.ram, f) == FrameAt(old(m.ram), f)
    ensures m.ram.total == old(m.ram).total
    ensures k == 0 <==> FreeCount(old(m.ram)) < 2
    ensures m.ram.used == old(m.ram).used + if k == 0 then 0 else 2
    ensures k == 0 ==> m.spaces == old(m.spaces) && SameTranslations(old(m.ram), m.ram, m.spaces)
    ensures k == 0 ==> forall f: nat :: InUse(m.ram, f) ==> InUse(old(m.ram), f)
    ensures k != 0 ==>
      k == |old(m.spaces)| && |m.spaces| == k + 1 && m.spaces[..k] == old(m.spaces) && Live(m.spaces, k)
    ensures k != 0 ==>
      m.spaces[k].desc != 0 && !InUse(old(m.ram), m.spaces[k].pml4) && !InUse(old(m.ram), m.spaces[k].desc)
    ensures k != 0 ==> forall l: nat, a: nat :: Addressable(old(m.spaces), l, a) ==>
              Translate(m.ram, m.spaces, l, a) == Translate(old(m.ram), old(m.spaces), l, a)
    ensures k != 0 ==> forall a: nat :: Canonical(a) ==>
              Translate(m.ram, m.spaces, k, a) == if LowerHalf(a) then None else Translate(m.ram, m.spaces, 0, a)
    ensures k != 0 ==> forall f: int :: NotTable(old(m.ram), old(m.spaces), f) && f != m.spaces[k].pml4 ==>
      NotTable(m.ram, m.spaces, f)
    ensures k != 0 ==> Mirrors(m.ram, old(m.spaces), m.spaces[k])
  {
    hide Dom, At, TablesOk, Valid, InUse, Translate, Canonical, NotTable, Building, Taken, Released, Ready, Present;
    ghost var r0, ss := m.ram, m.spaces;
    var desc := m.Alloc();
    ghost var r1 := m.ram;
    NoneFree(r0);
    NoneFree(r1);
    if desc != 0 { TakenCount(r0, r1, desc); }
    var pml4 := m.Alloc();
    if pml4 != 0 {
      NoneFree(m.ram);
      TakenCount(r1, m.ram, pml4);
    }
    if pml4 == 0 {
      if desc != 0 {
        FreshFrame(r0, r1, desc);
      }
      m.Free(desc * 4096);
      assert desc * 4096 / 4096 == desc;
      if desc != 0 {
        GaveBack(r0, r1, m.ram, ss, desc);
      } else {
        SameSelf(r0, ss);
      }
      return 0;
    }
    NotExhausted(r0, r1, m.ram, desc, pml4);
    var kernel := m.spaces[0].pml4;
    var sp := Space(pml4, desc, set i | 256 <= i < 512 && Present(Entry(m.ram, kernel, i)));
    StartBuilding(r0, r1, m.ram, ss, desc, pml4, sp.shared);
    for i := 256 to 512
      invariant m.spaces == ss && Building(r0, m.ram, ss, sp)
      invariant forall j: nat :: 256 <= j < i ==> Entry(m.ram, pml4, j) == Entry(m.ram, kernel, j)
      invariant forall j: nat :: 256 <= j < 512 ==> (j in sp.shared <==> Present(Entry(m.ram, kernel, j)))
    {
      ghost var s, e := m.ram, Entry(m.ram, kernel, i);
      KernelApart(r0, s, ss, sp);
      CopyEntry(r0, s, ss, sp, i, e);
      m.ram := PutEntry(m.ram, pml4, i, Entry(m.ram, kernel, i));
      PutEntryEntries(s, pml4, i, e, kernel);
    }
    k := |m.spaces|;
    BuiltFacts(r0, m.ram, ss, sp);
    m.spaces := m.spaces + [sp];
    assert m.spaces[..k] == ss;
  }

  lemma FreshFrame(r0: Ram, r1: Ram, d: nat)
    requires Taken(r0, r1, d)
    ensures 0 < d < r1.total && InUse(r1, d)
  {
  }

  lemma NotExhausted(r0: Ram, r1: Ram, r2: Ram, d: nat, p: nat)
    requires Taken(r1, r2, p) && (d == 0 ==> forall f: nat :: f < r1.total ==> InUse(r1, f))
    ensures d != 0
  {
  }

  /** A frame taken and given back leaves the frames in use, and all tables, as they were. */
  lemma GaveBack(r0: Ram, r1: Ram, r2: Ram, ss: seq<Space>, d: nat)
    requires Ok(r0, ss) && Taken(r0, r1, d) && Released(r1, r2, {d}) && Valid(r2)
    ensures Ok(r2, ss) && r2.total == r0.total && r2.used == r0.used && forall f: nat :: InUse(r2, f) == InUse(r0, f)
    ensures SameTranslations(r0, r2, ss)
    ensures forall f: nat :: InUse(r0, f) ==> FrameAt(r2, f) == FrameAt(r0, f)
  {
    hide Dom, At, InUse, Slots, Separated, Valid;
    forall x, i: nat | x in Dom(ss) && |x| < 4 && x != [] && At(r0, ss, x) != 0
      ensures SlotOf(r2, ss, At(r0, ss, x), i) == SlotOf(r0, ss, At(r0, ss, x), i)
    {
      NodeIsOwn(r0, ss, x);
      SameSlot(r0, r2, ss, At(r0, ss, x), i);
    }
    SameTables(r0, r2, ss);
    forall x, i: nat | x in Dom(ss) && |x| == 4 ensures Pte(r2, ss, x, i) == Pte(r0, ss, x, i) {
      if At(r0, ss, x) > 0 {
        NodeIsOwn(r0, ss, x);
      }
    }
    LeavesTranslate(r0, r2, ss);
  }

  lemma KernelApart(r0: Ram, r: Ram, ss: seq<Space>, sp: Space)
    requires Building(r0, r, ss, sp) && Live(ss, 0)
    ensures ss[0].pml4 != sp.pml4 && sp.pml4 < |r.frames| && |FrameAt(r, sp.pml4)| == 512
  {
    AtTop(r, ss, 0);
    assert [0] in Dom(ss);
    AtIs(r, ss, [0]);
  }

  lemma PutEntryEntries(r: Ram, f: nat, i: nat, e: nat, g: nat)
    requires f < |r.frames| && i < |FrameAt(r, f)| && g != f
    ensures forall j: nat :: Entry(PutEntry(r, f, i, e), f, j) == if j == i then e else Entry(r, f, j)
    ensures forall j: nat :: Entry(PutEntry(r, f, i, e), g, j) == Entry(r, g, j)
  {
  }

  lemma BuiltFacts(r0: Ram, r: Ram, ss: seq<Space>, sp: Space)
    requires Ok(r0, ss) && Building(r0, r, ss, sp) && Mirrors(r, ss, sp)
    ensures r.total == r0.total && r.used == r0.used + 2 && Ok(r, ss + [sp]) && sp.pml4 > 0 && sp.desc > 0
      && !InUse(r0, sp.pml4)
      && !InUse(r0, sp.desc)
    ensures forall f: nat :: InUse(r0, f) ==> InUse(r, f) && FrameAt(r, f) == FrameAt(r0, f)
    ensures forall l: nat, a: nat :: Addressable(ss, l, a) ==> Translate(r, ss + [sp], l, a) == Translate(r0, ss, l, a)
    ensures forall a: nat :: Canonical(a) ==>
              Translate(r, ss + [sp], |ss|, a) == if LowerHalf(a) then None else Translate(r, ss + [sp], 0, a)
    ensures forall f: int :: NotTable(r0, ss, f) && f != sp.pml4 ==> NotTable(r, ss + [sp], f)
  {
    hide Dom, At, InUse, Slots, Separated, Valid, Translate, Canonical, NotTable, TablesOk, Mirrors, Hollow;
    AppendKeeps(r, ss, sp);
    forall f: int | NotTable(r0, ss, f) && f != sp.pml4 ensures NotTable(r, ss + [sp], f) {
      AppendNotTable(r, ss, sp, f);
    }
  }
}
