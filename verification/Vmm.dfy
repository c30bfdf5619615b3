/** Mapping, unmapping and translation of virtual pages. */
module Vmm {
  import opened Options
  import opened Pmm
  import opened RadixTree
  import opened PageTables

  ghost predicate Exhausted(r: Ram) { forall f: nat :: f < r.total ==> InUse(r, f) }

  /** What every operation on page tables keeps: the invariants, and every page that is no table. */
  ghost predicate Ok(r: Ram, ss: seq<Space>) { Valid(r) && TablesOk(r, ss) }

  lemma AtTop(r: Ram, ss: seq<Space>, k: nat)
    requires k < |ss|
    ensures At(r, ss, [k]) == ss[k].pml4
  {
    assert At(r, ss, []) == ROOT;
    StepSlot(r, ss, [], k);
    assert [] + [k] == [k];
  }

  lemma Below(r: Ram, ss: seq<Space>, x: Path, i: nat)
    requires At(r, ss, x) == 0
    ensures At(r, ss, x + [i]) == 0
  {
  }

  /** All three entries above the last level on the way to an address let user code through. */
  predicate Walkable(r: Ram, ss: seq<Space>, k: nat, a: nat) {
    var h := Home(ss, k, a);
    && Passes(r, ss, [k], Pml4Index(a)) && Passes(r, ss, [h, Pml4Index(a)], PdptIndex(a))
    && Passes(r, ss, [h, Pml4Index(a), PdptIndex(a)], PdIndex(a))
  }

  lemma StillWalkable(r: Ram, s: Ram, ss: seq<Space>, k: nat, a: nat)
    requires Addressable(ss, k, a) && Kept(r, s, ss) && Walkable(r, ss, k, a)
    ensures Walkable(s, ss, k, a)
  {
    hide Passes, Home, Canonical, NotTable, InUse, Pml4Index, PdptIndex, PdIndex;
    PathInDom(ss, k, a);
  }

  /** Follows the three upper levels for an address, creating and widening them when asked to. */
  method Walk(m: Machine, k: nat, a: nat, create: bool) returns (pt: nat)
    requires Ok(m.ram, m.spaces) && Addressable(m.spaces, k, a)
    modifies m`ram
    ensures Ok(m.ram, m.spaces) && Extends(old(m.ram), m.ram, m.spaces, TablePath(Home(m.spaces, k, a), a))
    ensures pt == At(m.ram, m.spaces, TablePath(Home(m.spaces, k, a), a))
    ensures !create ==> m.ram == old(m.ram)
    ensures m.ram.used <= old(m.ram).used + 3
    ensures pt == 0 && create ==> Exhausted(m.ram)
    ensures pt != 0 && create ==> Walkable(m.ram, m.spaces, k, a)
  {
    hide Dom, At, Extends, InUse, Valid, TablesOk, Canonical, Pml4Index, PdptIndex, PdIndex, Follows, Home, Target,
      Wide, Entry;
    ghost var r, ss, h := m.ram, m.spaces, Home(m.spaces, k, a);
    ghost var path := TablePath(h, a);
    PathInDom(ss, k, a);
    AtTop(r, ss, k);
    var i1, i2, i3 := Pml4Index(a), PdptIndex(a), PdIndex(a);
    assert [h, i1] + [i2] == [h, i1, i2] && [h, i1, i2] + [i3] == path;
    assert [h, i1] <= [h, i1, i2] <= path;
    Deeper(ss, [h, i1], i2);
    Deeper(ss, [h, i1, i2], i3);
    var pdpt := GetNextLevel(m, [k], m.spaces[k].pml4, i1, create, create);
    ghost var s := m.ram;
    ExtendsFurther(r, s, ss, [h, i1], path);
    if pdpt == 0 {
      Below(s, ss, [h, i1], i2);
      Below(s, ss, [h, i1, i2], i3);
      return 0;
    }
    var pd := GetNextLevel(m, [h, i1], pdpt, i2, create, create);
    ghost var t := m.ram;
    ExtendsFurther(s, t, ss, [h, i1, i2], path);
    ExtendsTrans(r, s, t, ss, path, path);
    if pd == 0 {
      Below(t, ss, [h, i1, i2], i3);
      return 0;
    }
    pt := GetNextLevel(m, [h, i1, i2], pd, i3, create, create);
    ExtendsTrans(r, t, m.ram, ss, path, path);
    AtTop(s, ss, k);
    StillPasses(s, t, ss, path, [k], i1);
    StillPasses(s, t, ss, path, [h, i1], i2);
    StillPasses(t, m.ram, ss, path, [h, i1, i2], i3);
    StillPasses(t, m.ram, ss, path, [k], i1);
    StillPasses(t, m.ram, ss, path, [h, i1], i2);
  }

  lemma StillPasses(r: Ram, s: Ram, ss: seq<Space>, path: Path, x: Path, i: nat)
    requires Extends(r, s, ss, path) && x in Dom(ss) && 0 < |x| < 4
    ensures At(r, ss, x) > 0 ==> At(s, ss, x) == At(r, ss, x)
    ensures Passes(r, ss, x, i) ==> Passes(s, ss, x, i)
  {
    hide Passes, At, Dom, InUse;
  }

  lemma Deeper(ss: seq<Space>, x: Path, i: nat)
    requires |x| > 1
    ensures Target(ss, x, i) == x + [i]
  {
  }

  /** The effect of a table walk on translations: none. */
  lemma WalkKeeps(r: Ram, s: Ram, ss: seq<Space>, path: Path)
    requires TablesOk(r, ss) && TablesOk(s, ss) && Extends(r, s, ss, path)
    ensures SameTranslations(r, s, ss) && Kept(r, s, ss)
  {
    hide TablesOk, Grown, Kept, SameTranslations, SameLeaves;
    LeavesTranslate(r, s, ss);
  }

  lemma RemapAfterWalk(r: Ram, s: Ram, t: Ram, ss: seq<Space>, k: nat, virt: nat, to: Option<Page>)
    requires SameTranslations(r, s, ss) && Remapped(s, t, ss, k, virt, to)
    ensures Remapped(r, t, ss, k, virt, to)
  {
    hide Translate, Addressable, PageOf;
  }

  lemma KeptTrans(r: Ram, s: Ram, t: Ram, ss: seq<Space>)
    requires Kept(r, s, ss) && Kept(s, t, ss)
    ensures Kept(r, t, ss)
  {
    WideTrans(r, s, t, ss);
    hide NotTable, InUse, WideKept;
  }

  // ---------------------------------------------------------------- the processor's view

  /** What an access to an address reaches, and which accesses are let through. */
  datatype Access = Access(frame: nat, write: bool, user: bool)

  /**
   The processor's own walk of four levels of 4 KiB tables from the frame in CR3: bits 47 to 39, 38 to 30, 29 to 21
   and 20 to 12 of the address choose the entries, each must be present, and a write or an access from user mode
   needs its bit on all four.
   */
  function Mmu(r: Ram, cr3: nat, a: nat): Option<Access> {
    var e4 := Entry(r, cr3, a / 0x80_0000_0000 % 512);
    var e3 := Entry(r, e4 / 4096, a / 0x4000_0000 % 512);
    var e2 := Entry(r, e3 / 4096, a / 0x20_0000 % 512);
    var e1 := Entry(r, e2 / 4096, a / 4096 % 512);
    if Present(e4) && Present(e3) && Present(e2) && Present(e1) then
      Some(Access(e1 / 4096, Writes(e4) && Writes(e3) && Writes(e2) && Writes(e1),
        ForUser(e4) && ForUser(e3) && ForUser(e2) && ForUser(e1)))
    else None
  }

  /** What is known of the walk one level down: nothing there, or a table whose entry comes next. */
  lemma MmuStep(r: Ram, ss: seq<Space>, x: Path, i: nat)
    requires TablesOk(r, ss) && Follows(ss, x, i) && At(r, ss, x) > 0
    ensures var e := Entry(r, At(r, ss, x), i);
      && At(r, ss, Target(ss, x, i)) == (if Present(e) then FrameOf(e) else 0)
      && (At(r, ss, Target(ss, x, i)) > 0 <==> Present(e))
    ensures Passes(r, ss, x, i) == Wide(Entry(r, At(r, ss, x), i))
  {
    hide Dom, TablesOk, Follows, Target, At, FrameOf, Wide;
    StepSlot(r, ss, x, i);
    TargetIs(r, ss, x, i);
    TargetNotRoot(ss, x, i);
    if At(r, ss, Target(ss, x, i)) != 0 { NodeIsOwn(r, ss, Target(ss, x, i)); }
  }

  /** The walk down to the last table. */
  lemma MmuTable(r: Ram, ss: seq<Space>, k: nat, a: nat)
    requires TablesOk(r, ss) && Addressable(ss, k, a)
    ensures var e4 := Entry(r, ss[k].pml4, Pml4Index(a));
      var e3 := Entry(r, FrameOf(e4), PdptIndex(a));
      var e2 := Entry(r, FrameOf(e3), PdIndex(a));
      && At(r, ss, TablePath(k, a)) == (if Present(e4) && Present(e3) && Present(e2) then FrameOf(e2) else 0)
      && (At(r, ss, TablePath(k, a)) > 0 <==> Present(e4) && Present(e3) && Present(e2))
      && (Walkable(r, ss, k, a) ==> Wide(e4) && Wide(e3) && Wide(e2))
  {
    hide Dom, At, TablesOk, Canonical, Follows, Home, Target, Entry, Passes, Wide, Present, FrameOf, Pml4Index,
      PdptIndex,
      PdIndex;
    var h, i1, i2, i3 := Home(ss, k, a), Pml4Index(a), PdptIndex(a), PdIndex(a);
    PathInDom(ss, k, a);
    ViaHome(r, ss, k, a);
    AtTop(r, ss, k);
    Deeper(ss, [h, i1], i2);
    Deeper(ss, [h, i1, i2], i3);
    assert [h, i1] + [i2] == [h, i1, i2] && [h, i1, i2] + [i3] == TablePath(h, a);
    MmuStep(r, ss, [k], i1);
    if At(r, ss, [h, i1]) == 0 {
      Below(r, ss, [h, i1], i2);
      Below(r, ss, [h, i1, i2], i3);
      NoPass(r, ss, [h, i1], i2);
    } else {
      MmuStep(r, ss, [h, i1], i2);
      if At(r, ss, [h, i1, i2]) == 0 {
        Below(r, ss, [h, i1, i2], i3);
        NoPass(r, ss, [h, i1, i2], i3);
      } else {
        MmuStep(r, ss, [h, i1, i2], i3);
      }
    }
  }

  lemma NoPass(r: Ram, ss: seq<Space>, x: Path, i: nat)
    ensures Passes(r, ss, x, i) ==> At(r, ss, x) > 0
  {
  }

  lemma LowFlags(e: nat)
    ensures Writes(e % 4096) == Writes(e) && ForUser(e % 4096) == ForUser(e)
  {
    assert e % 4096 == e / 8 % 512 * 8 + e % 8;
    LowRights(e / 8, e % 8);
    LowRights(e / 8 % 512, e % 8);
  }

  /**
   The processor finds exactly what the tables say of the page, and where the upper levels let user code through
   the rights are those of the last entry.
   */
  lemma MmuIs(r: Ram, ss: seq<Space>, k: nat, a: nat)
    requires TablesOk(r, ss) && Addressable(ss, k, a)
    ensures Mmu(r, ss[k].pml4, a).Some? == Translate(r, ss, k, a).Some?
    ensures Translate(r, ss, k, a).Some? ==> Mmu(r, ss[k].pml4, a).value.frame == Translate(r, ss, k, a).value.frame
    ensures Translate(r, ss, k, a).Some? && Walkable(r, ss, k, a) ==>
      var p := Translate(r, ss, k, a).value;
      Mmu(r, ss[k].pml4, a) == Some(Access(p.frame, Writes(p.flags), ForUser(p.flags)))
  {
    hide At, TablesOk, Canonical, Entry, Walkable, Writes, ForUser;
    MmuTable(r, ss, k, a);
    LowFlags(Pte(r, ss, TablePath(k, a), PtIndex(a)));
  }

  /**
   Maps the page of `virt` to a frame. On success that page, and no other page of any
   space, translates anew, to the frame and with the flags given, and the processor lets through on it what the
   flags let through; on failure memory is exhausted and every translation is as before.
   */
  method Map(m: Machine, k: nat, virt: nat, frame: nat, flags: nat) returns (ok: bool)
    requires Ok(m.ram, m.spaces) && Addressable(m.spaces, k, virt) && flags < 4096
    modifies m`ram
    ensures Ok(m.ram, m.spaces) && Kept(old(m.ram), m.ram, m.spaces)
    ensures ok ==> Remapped(old(m.ram), m.ram, m.spaces, k, virt, Some(Page(frame, WithPresent(flags))))
    ensures ok ==> Walkable(m.ram, m.spaces, k, virt)
    ensures ok ==> Mmu(m.ram, m.spaces[k].pml4, virt) == Some(Access(frame, Writes(flags), ForUser(flags)))
    ensures !ok ==> SameTranslations(old(m.ram), m.ram, m.spaces) && Exhausted(m.ram)
    ensures m.ram.used <= old(m.ram).used + 3
  {
    hide Dom, At, Extends, InUse, Valid, TablesOk, Addressable, TablePath, PtIndex, SameTranslations, Remapped, Kept,
      MakeEntry, Present, FrameOf, Pte, Exhausted;
    ghost var r, ss := m.ram, m.spaces;
    var pt := Walk(m, k, virt, true);
    ghost var s := m.ram;
    WalkKeeps(r, s, ss, TablePath(Home(ss, k, virt), virt));
    if pt == 0 {
      return false;
    }
    PathInDom(ss, k, virt);
    PathLength(Home(ss, k, virt), virt);
    LeafStore(s, ss, TablePath(Home(ss, k, virt), virt), PtIndex(virt), MakeEntry(frame, flags));
    m.ram := PutEntry(m.ram, pt, PtIndex(virt), MakeEntry(frame, flags));
    MadeEntry(frame, flags);
    LeafTranslate(s, m.ram, ss, k, virt, MakeEntry(frame, flags));
    RemapAfterWalk(r, s, m.ram, ss, k, virt, Some(Page(frame, WithPresent(flags))));
    KeptTrans(r, s, m.ram, ss);
    StillWalkable(s, m.ram, ss, k, virt);
    MappedRights(s, m.ram, ss, k, virt, frame, flags);
    return true;
  }

  lemma MappedRights(r: Ram, s: Ram, ss: seq<Space>, k: nat, virt: nat, frame: nat, flags: nat)
    requires TablesOk(s, ss) && Addressable(ss, k, virt) && Walkable(s, ss, k, virt)
    requires Remapped(r, s, ss, k, virt, Some(Page(frame, WithPresent(flags))))
    ensures Mmu(s, ss[k].pml4, virt) == Some(Access(frame, Writes(flags), ForUser(flags)))
  {
    hide Mmu, TablesOk, Walkable, Canonical, Home, Translate, PageOf, Writes, ForUser, WithPresent;
    MmuIs(s, ss, k, virt);
    PresentRights(flags);
  }

  lemma PresentRights(flags: nat)
    ensures Writes(WithPresent(flags)) == Writes(flags) && ForUser(WithPresent(flags)) == ForUser(flags)
  {
  }

  /** Removes the translation of the page of `virt`, and of no other page. */
  method Unmap(m: Machine, k: nat, virt: nat)
    requires Ok(m.ram, m.spaces) && Addressable(m.spaces, k, virt)
    modifies m`ram
    ensures Ok(m.ram, m.spaces) && Kept(old(m.ram), m.ram, m.spaces)
    ensures Remapped(old(m.ram), m.ram, m.spaces, k, virt, None) && m.ram.used == old(m.ram).used
  {
    hide Dom, At, Extends, InUse, Valid, TablesOk, Addressable, TablePath, PtIndex, SameTranslations, Remapped, Kept,
      FrameOf, Pte;
    ghost var r, ss := m.ram, m.spaces;
    var pt := Walk(m, k, virt, false);
    WalkKeeps(r, m.ram, ss, TablePath(Home(ss, k, virt), virt));
    if pt == 0 {
      NothingMapped(r, ss, k, virt);
      return;
    }
    PathInDom(ss, k, virt);
    PathLength(Home(ss, k, virt), virt);
    LeafStore(r, ss, TablePath(Home(ss, k, virt), virt), PtIndex(virt), 0);
    m.ram := PutEntry(m.ram, pt, PtIndex(virt), 0);
    LeafTranslate(r, m.ram, ss, k, virt, 0);
  }

  lemma NothingMapped(r: Ram, ss: seq<Space>, k: nat, virt: nat)
    requires TablesOk(r, ss) && Addressable(ss, k, virt) && At(r, ss, TablePath(Home(ss, k, virt), virt)) == 0
    ensures Remapped(r, r, ss, k, virt, None)
  {
    hide At, Canonical, LowerHalf, FrameOf, PtIndex, TablePath, PageOf, Entry, Home, TablesOk, Live;
    forall l: nat, a: nat | Addressable(ss, l, a) && Together(ss, l, k, a) && PageOf(a) == PageOf(virt)
      ensures Translate(r, ss, l, a) == None
    {
      HomeOfPage(ss, k, a, virt);
      ViaHome(r, ss, l, a);
      SamePage(Home(ss, l, a), a, Home(ss, k, virt), virt);
    }
  }

  /** The physical address of a virtual one, or none; nothing changes. */
  method GetPhysical(m: Machine, k: nat, virt: nat) returns (phys: Option<nat>)
    requires Ok(m.ram, m.spaces) && Addressable(m.spaces, k, virt)
    modifies m`ram
    ensures m.ram == old(m.ram)
    ensures phys == match Translate(m.ram, m.spaces, k, virt)
      case None => None
      case Some(p) => Some(p.frame * 4096 + virt % 4096)
  {
    hide Dom, Extends, InUse, Valid, TablesOk, Addressable, TablePath, PtIndex, Home;
    ViaHome(m.ram, m.spaces, k, virt);
    var pt := Walk(m, k, virt, false);
    if pt == 0 {
      return None;
    }
    var entry := Entry(m.ram, pt, PtIndex(virt));
    if !Present(entry) {
      return None;
    }
    return Some(FrameOf(entry) * 4096 + virt % 4096);
  }

  // ---------------------------------------------------------------- every run

  /** A page of a space is mapped to a frame, or unmapped. */
  datatype Change = Change(k: nat, virt: nat, to: Option<Page>)

  /** `rs` are the states before, between and after the changes. */
  ghost predicate IsRun(rs: seq<Ram>, ss: seq<Space>, cs: seq<Change>) {
    && |rs| == |cs| + 1 && (forall i :: 0 <= i < |rs| ==> TablesOk(rs[i], ss))
    && forall i :: 0 <= i < |cs| ==>
      Addressable(ss, cs[i].k, cs[i].virt) && Remapped(rs[i], rs[i + 1], ss, cs[i].k, cs[i].virt, cs[i].to)
  }

  /** The last change to a page, counted by the space whose tables hold it. */
  function LastChange(ss: seq<Space>, cs: seq<Change>, home: nat, page: nat): Option<Change>
    decreases |cs|
  {
    if cs == [] then None else
      var c := cs[|cs| - 1];
      if Home(ss, c.k, c.virt) == home && PageOf(c.virt) == page then Some(c)
        else LastChange(ss, cs[..|cs| - 1], home, page)
  }

  /**
   The page tables of all spaces are one finite map: after every run of mappings and unmappings, an address of any
   space translates as the last change to its page left it, and as at the start if there was none.
   */
  lemma {:induction false} RunTranslates(rs: seq<Ram>, ss: seq<Space>, cs: seq<Change>, l: nat, a: nat)
    requires IsRun(rs, ss, cs) && Addressable(ss, l, a)
    ensures Translate(rs[|cs|], ss, l, a) ==
      match LastChange(ss, cs, Home(ss, l, a), PageOf(a))
      case None => Translate(rs[0], ss, l, a)
      case Some(c) => c.to
    decreases |cs|
  {
    hide Translate, Addressable, Home, PageOf, TablesOk;
    if cs != [] {
      var n := |cs| - 1;
      var c := cs[n];
      RunTranslates(rs[..n + 1], ss, cs[..n], l, a);
      assert rs[..n + 1][n] == rs[n] && rs[..n + 1][0] == rs[0];
      if PageOf(a) == PageOf(c.virt) { HomeOfPage(ss, c.k, a, c.virt); }
    }
  }

  /**
   What the kernel does to its upper half after a user space was created shows in that space exactly through the
   top-level entries it got then; at all other addresses the space sees none of it.
   */
  lemma KernelRunSeen(rs: seq<Ram>, ss: seq<Space>, cs: seq<Change>, k: nat, a: nat)
    requires IsRun(rs, ss, cs) && k > 0 && Addressable(ss, k, a) && Live(ss, 0) && forall i :: 0 <= i < |cs| ==>
      cs[i].k == 0
    ensures Translate(rs[|cs|], ss, k, a) ==
      if Shared(ss, k, Pml4Index(a)) then Translate(rs[|cs|], ss, 0, a) else Translate(rs[0], ss, k, a)
  {
    hide Translate, Canonical, PageOf, TablesOk, Remapped, Pml4Index;
    if Shared(ss, k, Pml4Index(a)) {
      ViaHome(rs[|cs|], ss, k, a);
    } else {
      RunTranslates(rs, ss, cs, k, a);
      NoneOf(ss, cs, k, PageOf(a));
    }
  }

  lemma {:induction false} NoneOf(ss: seq<Space>, cs: seq<Change>, k: nat, page: nat)
    requires k > 0 && forall i :: 0 <= i < |cs| ==> cs[i].k == 0
    ensures LastChange(ss, cs, k, page) == None
    decreases |cs|
  {
    if cs != [] { NoneOf(ss, cs[..|cs| - 1], k, page); }
  }

  // ---------------------------------------------------------------- ranges

  /** Pages `[page, page + n)` of space `k` stand for consecutive frames, with the flags; all else is as it was. */
  ghost predicate RangeMapped(r: Ram, s: Ram, ss: seq<Space>, k: nat, page: nat, n: nat, frame: nat,
                              flags: nat) {
    forall l: nat, a: nat :: Addressable(ss, l, a) ==>
      Translate(s, ss, l, a) ==
        if Together(ss, l, k, a) && page <= PageOf(a) < page + n
        then Some(Page(frame + (PageOf(a) - page), WithPresent(flags)))
        else Translate(r, ss, l, a)
  }

  /** Pages `[page, page + n)` of space `k` stand for nothing; all else is as it was. */
  ghost predicate RangeCleared(r: Ram, s: Ram, ss: seq<Space>, k: nat, page: nat, n: nat) {
    forall l: nat, a: nat :: Addressable(ss, l, a) ==>
      Translate(s, ss, l, a) == if Together(ss, l, k, a)
        && page <= PageOf(a) < page + n then None else Translate(r, ss, l, a)
  }

  lemma MapOneMore(r: Ram, s: Ram, t: Ram, ss: seq<Space>, k: nat, page: nat, n: nat, frame: nat, flags: nat,
                   virt: nat)
    requires RangeMapped(r, s, ss, k, page, n, frame, flags) && PageOf(virt) == page + n
    requires Remapped(s, t, ss, k, virt, Some(Page(frame + n, WithPresent(flags))))
    ensures RangeMapped(r, t, ss, k, page, n + 1, frame, flags)
  {
    hide Translate, WithPresent, Addressable, PageOf;
  }

  lemma ClearOneMore(r: Ram, s: Ram, t: Ram, ss: seq<Space>, k: nat, page: nat, n: nat, virt: nat)
    requires RangeCleared(r, s, ss, k, page, n) && PageOf(virt) == page + n
    requires Remapped(s, t, ss, k, virt, None)
    ensures RangeCleared(r, t, ss, k, page, n + 1)
  {
    hide Translate, Addressable, PageOf;
  }

  /** Rolling back the part that was mapped leaves those pages unmapped. */
  lemma RolledBack(r: Ram, s: Ram, t: Ram, u: Ram, ss: seq<Space>, k: nat, page: nat, n: nat, frame: nat,
                   flags: nat)
    requires RangeMapped(r, s, ss, k, page, n, frame, flags) && SameTranslations(s, t, ss)
      && RangeCleared(t, u, ss, k, page, n)
    ensures RangeCleared(r, u, ss, k, page, n)
  {
    hide Translate, Addressable, PageOf;
  }

  /** A range with no translation, cleared, is as it was. */
  lemma ClearedIsSame(r: Ram, s: Ram, ss: seq<Space>, k: nat, page: nat, n: nat)
    requires TablesOk(r, ss) && Live(ss, k) && RangeCleared(r, s, ss, k, page, n) && Unmapped(r, ss, k, page, n)
    ensures SameTranslations(r, s, ss)
  {
    hide Translate, Canonical, Live, PageOf, Home, TablesOk;
    forall l: nat, a: nat | Addressable(ss, l, a) ensures Translate(s, ss, l, a) == Translate(r, ss, l, a) {
      ViaHome(r, ss, l, a);
      ViaHome(r, ss, k, a);
    }
  }

  ghost predicate Unmapped(r: Ram, ss: seq<Space>, k: nat, page: nat, n: nat) {
    forall a: nat :: Addressable(ss, k, a) && page <= PageOf(a) < page + n ==> Translate(r, ss, k, a) == None
  }

  lemma ShorterUnmapped(r: Ram, ss: seq<Space>, k: nat, page: nat, n: nat, i: nat)
    requires Unmapped(r, ss, k, page, n) && i <= n
    ensures Unmapped(r, ss, k, page, i)
  {
    hide Translate, Addressable, PageOf;
  }

  function NthAddr(virt: nat, i: nat): nat { virt + i * 4096 }

  lemma NthPage(virt: nat, i: nat)
    ensures PageOf(NthAddr(virt, i)) == PageOf(virt) + i
  {
  }

  lemma RangeStart(r: Ram, ss: seq<Space>, k: nat, page: nat, frame: nat, flags: nat)
    ensures RangeMapped(r, r, ss, k, page, 0, frame, flags) && RangeCleared(r, r, ss, k, page, 0)
  {
    hide Translate, Addressable, PageOf;
  }

  ghost predicate AllAddressable(ss: seq<Space>, k: nat, virt: nat, n: nat) {
    forall i: nat :: i < n ==> Addressable(ss, k, NthAddr(virt, i))
  }

  method UnmapRange(m: Machine, k: nat, virt: nat, pages: nat)
    requires Ok(m.ram, m.spaces) && Live(m.spaces, k) && AllAddressable(m.spaces, k, virt, pages)
    modifies m`ram
    ensures Ok(m.ram, m.spaces) && Kept(old(m.ram), m.ram, m.spaces)
    ensures RangeCleared(old(m.ram), m.ram, m.spaces, k, PageOf(virt), pages) && m.ram.used == old(m.ram).used
  {
    hide InUse, Valid, TablesOk, Addressable, Remapped, Kept, RangeCleared, PageOf;
    ghost var r, ss := m.ram, m.spaces;
    RangeStart(r, ss, k, PageOf(virt), 0, 0);
    KeptSelf(r, ss);
    for i := 0 to pages
      invariant Ok(m.ram, ss) && Kept(r, m.ram, ss) && RangeCleared(r, m.ram, ss, k, PageOf(virt), i)
      invariant m.ram.used == r.used
    {
      ghost var s := m.ram;
      assert Addressable(ss, k, NthAddr(virt, i));
      Unmap(m, k, NthAddr(virt, i));
      NthPage(virt, i);
      ClearOneMore(r, s, m.ram, ss, k, PageOf(virt), i, NthAddr(virt, i));
      KeptTrans(r, s, m.ram, ss);
    }
  }

  lemma StillExhausted(r: Ram, s: Ram, ss: seq<Space>)
    requires Exhausted(r) && Kept(r, s, ss)
    ensures Exhausted(s)
  {
    hide NotTable;
  }

  /** With every page in use, the count says so too. */
  lemma NothingLeft(r: Ram, s: Ram, ss: seq<Space>)
    requires Kept(r, s, ss) && Exhausted(s) && Valid(s)
    ensures s.used == r.total == s.total
  {
    NoneFree(s);
  }

  lemma KeptSelf(r: Ram, ss: seq<Space>)
    ensures Kept(r, r, ss)
  {
    hide InUse, NotTable;
  }

  lemma StillAllWalkable(r: Ram, s: Ram, ss: seq<Space>, k: nat, virt: nat, n: nat)
    requires Kept(r, s, ss) && forall j: nat :: j < n ==>
      Addressable(ss, k, NthAddr(virt, j)) && Walkable(r, ss, k, NthAddr(virt, j))
    ensures forall j: nat :: j < n ==> Walkable(s, ss, k, NthAddr(virt, j))
  {
    hide Kept, Addressable, Walkable, NthAddr;
    forall j: nat | j < n ensures Walkable(s, ss, k, NthAddr(virt, j)) { StillWalkable(r, s, ss, k, NthAddr(virt, j)); }
  }

  lemma RangeRights(r: Ram, s: Ram, ss: seq<Space>, k: nat, virt: nat, n: nat, frame: nat, flags: nat)
    requires TablesOk(s, ss) && Live(ss, k) && AllAddressable(ss, k, virt, n)
      && RangeMapped(r, s, ss, k, PageOf(virt), n, frame, flags)
    requires forall j: nat :: j < n ==> Walkable(s, ss, k, NthAddr(virt, j))
    ensures forall i: nat :: i < n ==>
      Mmu(s, ss[k].pml4, NthAddr(virt, i)) == Some(Access(frame + i, Writes(flags), ForUser(flags)))
  {
    hide TablesOk, Addressable, Walkable, NthAddr, Mmu, Translate, PageOf, WithPresent, Writes, ForUser;
    PresentRights(flags);
    forall i: nat | i < n
      ensures Mmu(s, ss[k].pml4, NthAddr(virt, i)) == Some(Access(frame + i, Writes(flags), ForUser(flags)))
    {
      NthPage(virt, i);
      MmuIs(s, ss, k, NthAddr(virt, i));
    }
  }

  /**
   Maps consecutive pages to consecutive frames. When it fails, the pages it had mapped are
   unmapped again: over a range that was unmapped before, every translation is as before.
   It fails only with every page in use, so not when three pages are free for each to be mapped.
   */
  method MapRange(m: Machine, k: nat, virt: nat, frame: nat, pages: nat, flags: nat) returns (ok: bool)
    requires Ok(m.ram, m.spaces) && Live(m.spaces, k) && AllAddressable(m.spaces, k, virt, pages) && flags < 4096
    modifies m`ram
    ensures Ok(m.ram, m.spaces) && Kept(old(m.ram), m.ram, m.spaces)
    ensures ok ==> RangeMapped(old(m.ram), m.ram, m.spaces, k, PageOf(virt), pages, frame, flags)
    ensures ok ==> forall i: nat :: i < pages ==>
      Mmu(m.ram, m.spaces[k].pml4, NthAddr(virt, i)) == Some(Access(frame + i, Writes(flags), ForUser(flags)))
    ensures !ok ==> Exhausted(m.ram)
    ensures FreeCount(old(m.ram)) > 3 * pages ==> ok
    ensures !ok ==> exists i: nat :: i < pages && RangeCleared(old(m.ram), m.ram, m.spaces, k, PageOf(virt), i)
    ensures !ok && Unmapped(old(m.ram), m.spaces, k, PageOf(virt), pages) ==>
      SameTranslations(old(m.ram), m.ram, m.spaces)
  {
    hide InUse, Valid, TablesOk, Addressable, Remapped, Kept, RangeCleared, RangeMapped, PageOf, SameTranslations,
      Unmapped, Exhausted, Walkable, Mmu, NthAddr, Writes, ForUser;
    ghost var r, ss, page := m.ram, m.spaces, PageOf(virt);
    RangeStart(r, ss, k, page, frame, flags);
    KeptSelf(r, ss);
    for i := 0 to pages
      invariant Ok(m.ram, ss) && Kept(r, m.ram, ss) && RangeMapped(r, m.ram, ss, k, page, i, frame, flags)
      invariant forall j: nat :: j < i ==> Walkable(m.ram, ss, k, NthAddr(virt, j))
      invariant m.ram.used <= r.used + 3 * i
    {
      ghost var s := m.ram;
      assert Addressable(ss, k, NthAddr(virt, i));
      var mapped := Map(m, k, NthAddr(virt, i), frame + i, flags);
      KeptTrans(r, s, m.ram, ss);
      if !mapped {
        ghost var t := m.ram;
        assert AllAddressable(ss, k, virt, i);
        UnmapRange(m, k, virt, i);
        StillExhausted(t, m.ram, ss);
        NothingLeft(r, t, ss);
        KeptTrans(r, t, m.ram, ss);
        RolledBack(r, s, t, m.ram, ss, k, page, i, frame, flags);
        if Unmapped(r, ss, k, page, pages) {
          ShorterUnmapped(r, ss, k, page, pages, i);
          ClearedIsSame(r, m.ram, ss, k, page, i);
        }
        return false;
      }
      NthPage(virt, i);
      MapOneMore(r, s, m.ram, ss, k, page, i, frame, flags, NthAddr(virt, i));
      StillAllWalkable(s, m.ram, ss, k, virt, i);
    }
    RangeRights(r, m.ram, ss, k, virt, pages, frame, flags);
    return true;
  }
}
