/** Copying a process image: every mapped page of the parent, into fresh frames of the child. */
module Fork {
  import opened Bitmap
  import opened Options
  import opened Pmm
  import opened RadixTree
  import opened PageTables
  import opened Vmm
  import opened AddressSpaces

  /** The kernel page through which frames are reached: `VMM_SCRATCH_VA`. */
  const SCRATCH: nat := 0xFFFF_FFFF_80F0_0000

  const KERNEL_PAGE := 3
  const USER_PAGE := 7

  /** An address of the lower half of a user space. */
  predicate UserAddress(ss: seq<Space>, l: nat, a: nat) { l > 0 && Live(ss, l) && LowerHalf(a) }

  /** User translations are those of the lower half of every space but the kernel's. */
  ghost predicate SameUser(r: Ram, s: Ram, ss: seq<Space>) {
    forall l: nat, a: nat :: UserAddress(ss, l, a) ==> Translate(s, ss, l, a) == Translate(r, ss, l, a)
  }

  /** In user space `k` the page of `virt` now stands for frame `f`, open to user code; no other user page changed. */
  ghost predicate UserRemapped(r: Ram, s: Ram, ss: seq<Space>, k: nat, virt: nat, f: nat) {
    forall l: nat, a: nat :: UserAddress(ss, l, a) ==>
      Translate(s, ss, l, a) ==
        if l == k && PageOf(a) == PageOf(virt) then Some(Page(f, USER_PAGE)) else Translate(r, ss, l, a)
  }

  /** A page frame that holds data: in use and no table. */
  ghost predicate DataFrame(r: Ram, ss: seq<Space>, f: nat) {
    f > 0 && f < r.total && InUse(r, f) && NotTable(r, ss, f)
  }

  lemma ScratchAddressable(ss: seq<Space>)
    requires Live(ss, 0)
    ensures Addressable(ss, 0, SCRATCH)
  {
  }

  /** The lower half is each space's own. */
  lemma LowerHome(ss: seq<Space>, l: nat, k: nat, a: nat)
    requires UserAddress(ss, l, a)
    ensures Addressable(ss, l, a) && (Together(ss, l, k, a) <==> l == k)
  {
    Digits(a);
  }

  lemma KernelRemapUser(r: Ram, s: Ram, ss: seq<Space>, virt: nat, to: Option<Page>)
    requires Remapped(r, s, ss, 0, virt, to)
    ensures SameUser(r, s, ss)
  {
    hide Translate, Addressable, PageOf, Together, UserAddress;
    forall l: nat, a: nat | UserAddress(ss, l, a) ensures Translate(s, ss, l, a) == Translate(r, ss, l, a) {
      LowerHome(ss, l, 0, a);
      UserFacts(ss, l, a);
    }
  }

  lemma UserFacts(ss: seq<Space>, l: nat, a: nat)
    requires UserAddress(ss, l, a)
    ensures l > 0 && Live(ss, l) && Addressable(ss, l, a)
  {
  }

  lemma SameIsUser(r: Ram, s: Ram, ss: seq<Space>)
    requires SameTranslations(r, s, ss)
    ensures SameUser(r, s, ss)
  {
    hide Translate;
  }

  lemma UserTrans(r: Ram, s: Ram, t: Ram, ss: seq<Space>)
    requires SameUser(r, s, ss) && SameUser(s, t, ss)
    ensures SameUser(r, t, ss)
  {
    hide Translate, UserAddress;
  }

  lemma UserThenRemap(r: Ram, s: Ram, t: Ram, ss: seq<Space>, k: nat, virt: nat, f: nat)
    requires SameUser(r, s, ss) && Remapped(s, t, ss, k, virt, Some(Page(f, WithPresent(USER_PAGE)))) && k > 0
    ensures UserRemapped(r, t, ss, k, virt, f)
  {
    hide Translate, Addressable, PageOf, Together, UserAddress;
    forall l: nat, a: nat | UserAddress(ss, l, a)
      ensures Translate(t, ss, l, a) ==
        if l == k && PageOf(a) == PageOf(virt) then Some(Page(f, USER_PAGE)) else Translate(r, ss, l, a)
    {
      LowerHome(ss, l, k, a);
    }
  }

  lemma TakenKept(r: Ram, u: Ram, ss: seq<Space>, f: nat)
    requires TablesOk(r, ss) && Taken(r, u, f)
    ensures Kept(r, u, ss) && SameUser(r, u, ss) && TablesOk(u, ss) && DataFrame(u, ss, f)
  {
    TakenKeepsTables(r, u, ss, f);
    TakenTranslate(r, u, ss, f);
    SameIsUser(r, u, ss);
    hide InUse, NotTable, Translate, TablesOk, SameUser;
  }

  /** `memcpy` into a data frame that was free at the start: nothing older is touched. */
  lemma StoreKept(r0: Ram, r: Ram, ss: seq<Space>, f: nat, content: Frame)
    requires Ok(r, ss) && Kept(r0, r, ss) && !InUse(r0, f) && DataFrame(r, ss, f) && |content| == 512
    ensures var s := PutFrame(r, f, content);
      Ok(s, ss) && Kept(r0, s, ss) && SameUser(r, s, ss) && DataFrame(s, ss, f) && FrameAt(s, f) == content
  {
    var s := PutFrame(r, f, content);
    assert Valid(s) by { hide CountClear, Bit; }
    hide Dom, At, Slots, Separated, TablesOk, Translate;
    OutsideStore(r, s, ss, f);
    SameIsUser(r, s, ss);
    hide InUse, NotTable, SameUser;
  }

  function PutFrame(r: Ram, f: nat, content: Frame): Ram {
    if f < |r.frames| then r.(frames := r.frames[f := content]) else r
  }

  lemma KeptData(r: Ram, s: Ram, ss: seq<Space>, f: nat)
    requires Kept(r, s, ss) && DataFrame(r, ss, f)
    ensures DataFrame(s, ss, f) && FrameAt(s, f) == FrameAt(r, f)
  {
  }

  /**
   Allocates a frame, fills it through the kernel's scratch page and maps it at a user
   address, where user code may read and write it. Data frames and other translations are untouched,
     whether it succeeds or not.
   */
  method MapUserPage(m: Machine, k: nat, va: nat, content: Frame) returns (ok: bool, ghost f: nat)
    requires Ok(m.ram, m.spaces) && Live(m.spaces, 0) && UserAddress(m.spaces, k, va) && |content| == 512
    modifies m`ram
    ensures Ok(m.ram, m.spaces) && Kept(old(m.ram), m.ram, m.spaces)
    ensures !ok ==> SameUser(old(m.ram), m.ram, m.spaces)
    ensures ok ==> UserRemapped(old(m.ram), m.ram, m.spaces, k, va, f) && Walkable(m.ram, m.spaces, k, va)
    ensures ok ==> Mmu(m.ram, m.spaces[k].pml4, va) == Some(Access(f, true, true))
    ensures ok ==> !InUse(old(m.ram), f) && DataFrame(m.ram, m.spaces, f) && FrameAt(m.ram, f) == content
    ensures m.ram.used <= old(m.ram).used + 7 && (!ok ==> FreeCount(m.ram) <= 1)
  {
    hide InUse, Valid, TablesOk, Addressable, Remapped, Kept, SameUser, UserRemapped, Translate, SameTranslations,
      DataFrame, Taken, PutFrame, Exhausted, Released, UserAddress, Mmu, Walkable, Writes, ForUser, WithPresent;
    OpenToUser();
    ghost var r0, ss := m.ram, m.spaces;
    UserFacts(ss, k, va);
    ScratchAddressable(m.spaces);
    var frame := m.Alloc();
    f := frame;
    if frame == 0 {
      NoneFree(r0);
      KeptSelf(r0, ss);
      UserSelf(r0, ss);
      return false, 0;
    }
    ghost var r1 := m.ram;
    WasFree(r0, r1, f);
    TakenCount(r0, r1, f);
    TakenKept(r0, r1, ss, f);
    var mapped := Map(m, 0, SCRATCH, frame, KERNEL_PAGE);
    ghost var r2 := m.ram;
    KeptTrans(r0, r1, r2, ss);
    KeptData(r1, r2, ss, f);
    if !mapped {
      SameIsUser(r1, r2, ss);
      UserTrans(r0, r1, r2, ss);
      DataFacts(r2, ss, f);
      m.Free(frame * 4096);
      assert frame * 4096 / 4096 == frame;
      UsedUp(r2);
      ReleasedOne(r2, m.ram, frame);
      FreedKept(r0, r2, m.ram, ss, f);
      UserTrans(r0, r2, m.ram, ss);
      return false, 0;
    }
    KernelRemapUser(r1, r2, ss, SCRATCH, Some(Page(f, WithPresent(KERNEL_PAGE))));
    UserTrans(r0, r1, r2, ss);
    StoreKept(r0, r2, ss, f, content);
    DataFacts(r2, ss, f);
    SameCount(m.ram, frame, content);
    m.ram := PutFrame(m.ram, Mmu(m.ram, m.spaces[0].pml4, SCRATCH).value.frame, content);
    ghost var r3 := m.ram;
    UserTrans(r0, r2, r3, ss);
    Unmap(m, 0, SCRATCH);
    ghost var r4 := m.ram;
    KernelRemapUser(r3, r4, ss, SCRATCH, None);
    UserTrans(r0, r3, r4, ss);
    KeptTrans(r0, r3, r4, ss);
    KeptData(r3, r4, ss, f);
    ok := Map(m, k, va, frame, USER_PAGE);
    KeptTrans(r0, r4, m.ram, ss);
    KeptData(r4, m.ram, ss, f);
    if ok {
      UserThenRemap(r0, r4, m.ram, ss, k, va, f);
    } else {
      UsedUp(m.ram);
      SameIsUser(r4, m.ram, ss);
      UserTrans(r0, r4, m.ram, ss);
    }
  }

  lemma OpenToUser()
    ensures Writes(USER_PAGE) && ForUser(USER_PAGE) && WithPresent(USER_PAGE) == USER_PAGE
  {
  }

  lemma UsedUp(r: Ram)
    requires Valid(r) && Exhausted(r)
    ensures FreeCount(r) == 0
  {
    NoneFree(r);
  }

  lemma ReleasedOne(r: Ram, s: Ram, f: nat)
    requires Released(r, s, {f})
    ensures s.total == r.total && s.used + 1 == r.used
  {
  }

  lemma SameCount(r: Ram, f: nat, content: Frame)
    ensures PutFrame(r, f, content).used == r.used && PutFrame(r, f, content).total == r.total
  {
  }

  lemma UserSelf(r: Ram, ss: seq<Space>)
    ensures SameUser(r, r, ss)
  {
    hide Translate, Addressable;
  }

  lemma WasFree(r: Ram, u: Ram, f: nat)
    requires Taken(r, u, f)
    ensures !InUse(r, f) && f > 0
  {
  }

  lemma DataFacts(r: Ram, ss: seq<Space>, f: nat)
    requires DataFrame(r, ss, f)
    ensures 0 < f < r.total && InUse(r, f)
  {
  }

  /** Giving back a data frame that was free at the start. */
  lemma FreedKept(r0: Ram, r: Ram, s: Ram, ss: seq<Space>, f: nat)
    requires TablesOk(r0, ss) && Ok(r, ss) && Valid(s) && Kept(r0, r, ss)
    requires !InUse(r0, f) && DataFrame(r, ss, f) && Released(r, s, {f})
    ensures Ok(s, ss) && Kept(r0, s, ss) && SameUser(r, s, ss)
  {
    hide Dom, At, InUse, Slots, Separated, Valid, Translate;
    forall x, i: nat | x in Dom(ss) && x + [i] in Dom(ss) && x != [] && At(r, ss, x) != 0
      ensures SlotOf(s, ss, At(r, ss, x), i) == SlotOf(r, ss, At(r, ss, x), i)
    {
      SameSlot(r, s, ss, At(r, ss, x), i);
    }
    forall x | x in Dom(ss) && x != [] && At(r, ss, x) != 0 ensures OwnFrame(s, At(r, ss, x)) {
      NodeIsOwn(r, ss, x);
      AtIs(r, ss, x);
    }
    SameSlots(r, s, ss);
    forall x, i: nat | x in Dom(ss) && |x| == 4 ensures Pte(s, ss, x, i) == Pte(r, ss, x, i) {
    }
    LeavesTranslate(r, s, ss);
    SameIsUser(r, s, ss);
    hide NotTable, TablesOk, SameUser;
  }

  // ---------------------------------------------------------------- cloning a region

  /** Every page of the space from `lo` up to `hi` that is mapped at all holds data. */
  ghost predicate DataPages(r: Ram, ss: seq<Space>, k: nat, lo: nat, hi: nat) {
    forall q: nat :: lo <= q < hi && Translate(r, ss, k, q * 4096).Some? ==>
      DataFrame(r, ss, Translate(r, ss, k, q * 4096).value.frame)
  }

  /**
   Page `q` of `dst` is a copy, in a frame that was free and open to user code, of page `q` that `src` had at the
   start.
   */
  ghost predicate Copied(r0: Ram, r: Ram, ss: seq<Space>, dst: nat, src: nat, q: nat) {
    match Translate(r0, ss, src, q * 4096)
    case None => Translate(r, ss, dst, q * 4096) == None
    case Some(p) =>
      match Translate(r, ss, dst, q * 4096)
      case None => false
      case Some(c) =>
        && !InUse(r0, c.frame) && DataFrame(r, ss, c.frame) && FrameAt(r, c.frame) == FrameAt(r0, p.frame)
        && c.flags == USER_PAGE && Walkable(r, ss, dst, q * 4096)
  }

  ghost predicate Cloned(r0: Ram, r: Ram, ss: seq<Space>, dst: nat, src: nat, lo: nat, hi: nat) {
    forall q: nat :: lo <= q < hi ==> Copied(r0, r, ss, dst, src, q)
  }

  /** What cloning into `dst` keeps: data frames, and every translation but those of `dst`. */
  ghost predicate Frozen(r0: Ram, r: Ram, ss: seq<Space>, dst: nat) {
    Kept(r0, r, ss) && forall l: nat, a: nat :: l != dst && UserAddress(ss, l, a) ==>
      Translate(r, ss, l, a) == Translate(r0, ss, l, a)
  }

  predicate UserRange(hi: nat) { hi <= 0x8_0000_0000 }

  lemma UserPage(ss: seq<Space>, k: nat, q: nat, hi: nat)
    requires q < hi && UserRange(hi) && k > 0 && Live(ss, k)
    ensures UserAddress(ss, k, q * 4096) && Addressable(ss, k, q * 4096) && PageOf(q * 4096) == q
      && q * 4096 % 4096 == 0
  {
  }

  /** A page cloned earlier stays cloned while another page is. */
  lemma StillCopied(r0: Ram, r: Ram, s: Ram, ss: seq<Space>, dst: nat, src: nat, q: nat)
    requires Copied(r0, r, ss, dst, src, q) && Kept(r, s, ss) && Addressable(ss, dst, q * 4096)
    requires Translate(s, ss, dst, q * 4096) == Translate(r, ss, dst, q * 4096)
    ensures Copied(r0, s, ss, dst, src, q)
  {
    hide Translate, InUse, NotTable, Walkable, Addressable, WideKept;
    if Walkable(r, ss, dst, q * 4096) { StillWalkable(r, s, ss, dst, q * 4096); }
  }

  lemma NewCopy(r0: Ram, r: Ram, s: Ram, ss: seq<Space>, dst: nat, src: nat, q: nat, hi: nat, f: nat)
    requires q < hi && UserRange(hi) && dst > 0 && Live(ss, dst) && src > 0 && Live(ss, src) && dst != src
    requires Frozen(r0, r, ss, dst) && UserRemapped(r, s, ss, dst, q * 4096, f)
    requires Translate(r0, ss, src, q * 4096).Some? && !InUse(r, f) && DataFrame(s, ss, f)
    requires FrameAt(s, f) == FrameAt(r0, Translate(r0, ss, src, q * 4096).value.frame)
      && Walkable(s, ss, dst, q * 4096)
    ensures Copied(r0, s, ss, dst, src, q)
  {
    hide Translate, InUse, NotTable, Addressable, Walkable, WideKept;
    UserPage(ss, dst, q, hi);
    assert InUse(r0, f) ==> InUse(r, f);
  }

  /** Every page of the child so far is absent or a copy of the parent's. */
  ghost predicate Clean(r0: Ram, r: Ram, ss: seq<Space>, dst: nat, src: nat) {
    forall q: nat :: q < 0x8_0000_0000 ==> Translate(r, ss, dst, q * 4096) == None || Copied(r0, r, ss, dst, src, q)
  }

  /** Pages that were copies still are. */
  ghost predicate Progress(r0: Ram, r: Ram, s: Ram, ss: seq<Space>, dst: nat, src: nat) {
    forall q: nat :: q < 0x8_0000_0000 && Copied(r0, r, ss, dst, src, q) ==> Copied(r0, s, ss, dst, src, q)
  }

  lemma MappedStep(r0: Ram, r: Ram, s: Ram, ss: seq<Space>, dst: nat, src: nat, q: nat, f: nat)
    requires q < 0x8_0000_0000 && dst > 0 && Live(ss, dst)
    requires Clean(r0, r, ss, dst, src) && Kept(r, s, ss) && UserRemapped(r, s, ss, dst, q * 4096, f)
    requires Copied(r0, s, ss, dst, src, q)
    ensures Clean(r0, s, ss, dst, src) && Progress(r0, r, s, ss, dst, src)
  {
    hide Translate, Kept, Addressable, Copied, PageOf;
    UserPage(ss, dst, q, 0x8_0000_0000);
    forall p: nat | p < 0x8_0000_0000
      ensures Translate(s, ss, dst, p * 4096) == None || Copied(r0, s, ss, dst, src, p)
      ensures Copied(r0, r, ss, dst, src, p) ==> Copied(r0, s, ss, dst, src, p)
    {
      UserPage(ss, dst, p, 0x8_0000_0000);
      if p != q && Copied(r0, r, ss, dst, src, p) {
        StillCopied(r0, r, s, ss, dst, src, p);
      }
    }
  }

  /** Steps that change no user translation. */
  lemma QuietStep(r0: Ram, r: Ram, s: Ram, ss: seq<Space>, dst: nat, src: nat)
    requires dst > 0 && Live(ss, dst) && Clean(r0, r, ss, dst, src) && Kept(r, s, ss) && SameUser(r, s, ss)
    ensures Clean(r0, s, ss, dst, src) && Progress(r0, r, s, ss, dst, src)
  {
    hide Translate, Kept, Addressable, Copied;
    forall p: nat | p < 0x8_0000_0000
      ensures Translate(s, ss, dst, p * 4096) == None || Copied(r0, s, ss, dst, src, p)
      ensures Copied(r0, r, ss, dst, src, p) ==> Copied(r0, s, ss, dst, src, p)
    {
      UserPage(ss, dst, p, 0x8_0000_0000);
      if Copied(r0, r, ss, dst, src, p) {
        StillCopied(r0, r, s, ss, dst, src, p);
      }
    }
  }

  /** The frame behind page `q` of a space. */
  ghost function PageFrame(r: Ram, ss: seq<Space>, k: nat, q: nat): Option<nat> {
    match Translate(r, ss, k, q * 4096)
    case None => None
    case Some(p) => Some(p.frame)
  }

  /** Different pages lie in different frames. */
  ghost predicate OwnFrames(r: Ram, ss: seq<Space>, k: nat) {
    forall p: nat, q: nat :: p < q < 0x8_0000_0000 && PageFrame(r, ss, k, p).Some? ==>
      PageFrame(r, ss, k, p) != PageFrame(r, ss, k, q)
  }

  /** A frame that was free is behind no page yet. */
  lemma OwnMapped(r0: Ram, r: Ram, s: Ram, ss: seq<Space>, dst: nat, src: nat, q: nat, f: nat)
    requires q < 0x8_0000_0000 && dst > 0 && Live(ss, dst) && OwnFrames(r, ss, dst) && Clean(r0, r, ss, dst, src)
    requires UserRemapped(r, s, ss, dst, q * 4096, f) && !InUse(r, f)
    ensures OwnFrames(s, ss, dst)
  {
    hide Translate, Addressable, PageOf, InUse, NotTable;
    UserPage(ss, dst, q, 0x8_0000_0000);
    forall p: nat | p < 0x8_0000_0000
      ensures PageFrame(s, ss, dst, p) == if p == q then Some(f) else PageFrame(r, ss, dst, p)
      ensures PageFrame(r, ss, dst, p) != Some(f)
    {
      UserPage(ss, dst, p, 0x8_0000_0000);
      assert Translate(r, ss, dst, p * 4096) == None || Copied(r0, r, ss, dst, src, p);
    }
    hide PageFrame;
  }

  lemma OwnQuiet(r: Ram, s: Ram, ss: seq<Space>, k: nat)
    requires k > 0 && Live(ss, k) && OwnFrames(r, ss, k) && SameUser(r, s, ss)
    ensures OwnFrames(s, ss, k)
  {
    hide Translate, Addressable;
    forall p: nat | p < 0x8_0000_0000 ensures PageFrame(s, ss, k, p) == PageFrame(r, ss, k, p) {
      UserPage(ss, k, p, 0x8_0000_0000);
    }
    hide PageFrame;
  }

  lemma ProgressTrans(r0: Ram, r: Ram, s: Ram, t: Ram, ss: seq<Space>, dst: nat, src: nat)
    requires Progress(r0, r, s, ss, dst, src) && Progress(r0, s, t, ss, dst, src)
    ensures Progress(r0, r, t, ss, dst, src)
  {
    hide Copied;
  }

  /** A page the parent does not map is absent from a clean child. */
  lemma AbsentCopied(r0: Ram, r: Ram, ss: seq<Space>, dst: nat, src: nat, q: nat)
    requires q < 0x8_0000_0000 && Clean(r0, r, ss, dst, src) && Translate(r0, ss, src, q * 4096) == None
    ensures Copied(r0, r, ss, dst, src, q)
  {
    hide Translate, DataFrame, InUse;
  }

  lemma FrozenQuiet(r0: Ram, r: Ram, s: Ram, ss: seq<Space>, dst: nat)
    requires Frozen(r0, r, ss, dst) && Kept(r, s, ss) && SameUser(r, s, ss)
    ensures Frozen(r0, s, ss, dst)
  {
  }

  lemma FrozenMap(r0: Ram, r: Ram, s: Ram, ss: seq<Space>, dst: nat, virt: nat, f: nat)
    requires Frozen(r0, r, ss, dst) && Kept(r, s, ss) && UserRemapped(r, s, ss, dst, virt, f)
    ensures Frozen(r0, s, ss, dst)
  {
  }

  /** The state of a fork in progress: everything but the child is frozen, the child is clean, in frames of its own. */
  ghost predicate Forking(r0: Ram, r: Ram, ss: seq<Space>, dst: nat, src: nat) {
    Ok(r, ss) && Frozen(r0, r, ss, dst) && Clean(r0, r, ss, dst, src) && OwnFrames(r, ss, dst)
  }

  lemma ParentPage(r0: Ram, r: Ram, ss: seq<Space>, dst: nat, src: nat, lo: nat, hi: nat, q: nat)
    requires Forking(r0, r, ss, dst, src) && DataPages(r0, ss, src, lo, hi) && lo <= q < hi && UserRange(hi)
    requires src > 0 && Live(ss, src) && src != dst
    ensures Addressable(ss, src, q * 4096) && Translate(r, ss, src, q * 4096) == Translate(r0, ss, src, q * 4096)
    ensures match Translate(r0, ss, src, q * 4096)
            case None => true
            case Some(p) => DataFrame(r, ss, p.frame) && FrameAt(r, p.frame) == FrameAt(r0, p.frame)
  {
  }

  /** Reads the frame behind a physical address through the scratch page. */
  method ReadPage(m: Machine, frame: nat) returns (ok: bool, content: Frame)
    requires Ok(m.ram, m.spaces) && Live(m.spaces, 0) && DataFrame(m.ram, m.spaces, frame)
    modifies m`ram
    ensures Ok(m.ram, m.spaces) && Kept(old(m.ram), m.ram, m.spaces) && SameUser(old(m.ram), m.ram, m.spaces)
    ensures ok ==> content == FrameAt(old(m.ram), frame) && |content| == 512
    ensures m.ram.used <= old(m.ram).used + 3 && (!ok ==> FreeCount(m.ram) == 0)
  {
    hide InUse, Valid, TablesOk, Addressable, Remapped, Kept, SameUser, Translate, SameTranslations, DataFrame,
      Exhausted;
    ghost var r, ss := m.ram, m.spaces;
    ScratchAddressable(m.spaces);
    content := [];
    ok := Map(m, 0, SCRATCH, frame, KERNEL_PAGE);
    if !ok {
      UsedUp(m.ram);
      SameIsUser(r, m.ram, ss);
      return;
    }
    ghost var s := m.ram;
    KernelRemapUser(r, s, ss, SCRATCH, Some(Page(frame, WithPresent(KERNEL_PAGE))));
    KeptData(r, s, ss, frame);
    FrameSize(s, ss, frame);
    content := FrameAt(m.ram, Mmu(m.ram, m.spaces[0].pml4, SCRATCH).value.frame);
    Unmap(m, 0, SCRATCH);
    KernelRemapUser(s, m.ram, ss, SCRATCH, None);
    UserTrans(r, s, m.ram, ss);
    KeptTrans(r, s, m.ram, ss);
  }

  lemma FrameSize(r: Ram, ss: seq<Space>, f: nat)
    requires Valid(r) && DataFrame(r, ss, f)
    ensures |FrameAt(r, f)| == 512
  {
  }

  /** Clones page `q`, if the parent maps it. */
  method ClonePage(m: Machine, dst: nat, src: nat, q: nat, ghost r0: Ram, ghost lo: nat, ghost hi: nat)
    returns (ok: bool)
    requires Forking(r0, m.ram, m.spaces, dst, src) && DataPages(r0, m.spaces, src, lo, hi) && lo <= q < hi
      && UserRange(hi)
    requires Live(m.spaces, 0) && src != dst && src > 0 && dst > 0 && Live(m.spaces, src) && Live(m.spaces, dst)
    modifies m`ram
    ensures Forking(r0, m.ram, m.spaces, dst, src) && Progress(r0, old(m.ram), m.ram, m.spaces, dst, src)
    ensures ok ==> Copied(r0, m.ram, m.spaces, dst, src, q)
    ensures Elsewhere(old(m.ram), m.ram, m.spaces, dst, q, q + 1)
    ensures m.ram.used <= old(m.ram).used + 10 && (!ok ==> FreeCount(m.ram) <= 1)
  {
    hide InUse, Valid, TablesOk, Addressable, Kept, SameUser, Translate, DataFrame, Frozen, Clean, Copied, Progress,
      UserRemapped, DataPages, OwnFrames;
    ghost var r, ss := m.ram, m.spaces;
    ParentPage(r0, r, ss, dst, src, lo, hi, q);
    UserPage(ss, dst, q, hi);
    KeptSelf(r, ss);
    UserSelf(r, ss);
    ElsewhereQuiet(r, r, ss, dst, q, q + 1);
    QuietStep(r0, r, r, ss, dst, src);
    var phys := GetPhysical(m, src, q * 4096);
    if phys.None? {
      AbsentCopied(r0, r, ss, dst, src, q);
      return true;
    }
    var content;
    ok, content := ReadPage(m, phys.value / 4096);
    ghost var s := m.ram;
    FrozenQuiet(r0, r, s, ss, dst);
    QuietStep(r0, r, s, ss, dst, src);
    OwnQuiet(r, s, ss, dst);
    ElsewhereQuiet(r, s, ss, dst, q, q + 1);
    if !ok {
      return;
    }
    ghost var f;
    ok, f := MapUserPage(m, dst, q * 4096, content);
    if ok {
      FrozenMap(r0, s, m.ram, ss, dst, q * 4096, f);
      NewCopy(r0, s, m.ram, ss, dst, src, q, hi, f);
      MappedStep(r0, s, m.ram, ss, dst, src, q, f);
      OwnMapped(r0, s, m.ram, ss, dst, src, q, f);
      ElsewhereMapped(s, m.ram, ss, dst, q, f);
    } else {
      ElsewhereQuiet(s, m.ram, ss, dst, q, q + 1);
      FrozenQuiet(r0, s, m.ram, ss, dst);
      OwnQuiet(s, m.ram, ss, dst);
      QuietStep(r0, s, m.ram, ss, dst, src);
    }
    ElsewhereTrans(r, s, m.ram, ss, dst, q, q + 1, q, q + 1);
    ProgressTrans(r0, r, s, m.ram, ss, dst, src);
  }

  /** Clones every page of a page-aligned region; `buffer` says whether the page buffer could be allocated. */
  method CloneUserRegion(m: Machine, dst: nat, src: nat, lo: nat, hi: nat, buffer: bool, ghost r0: Ram)
    returns (ok: bool)
    requires Forking(r0, m.ram, m.spaces, dst, src) && DataPages(r0, m.spaces, src, lo, hi) && UserRange(hi)
    requires Live(m.spaces, 0) && src != dst && src > 0 && dst > 0 && Live(m.spaces, src) && Live(m.spaces, dst)
    modifies m`ram
    ensures Forking(r0, m.ram, m.spaces, dst, src) && Progress(r0, old(m.ram), m.ram, m.spaces, dst, src)
    ensures ok ==> Cloned(r0, m.ram, m.spaces, dst, src, lo, hi)
    ensures Elsewhere(old(m.ram), m.ram, m.spaces, dst, lo, hi)
    ensures !ok ==> !buffer || FreeCount(m.ram) <= 1
    ensures m.ram.used <= old(m.ram).used + 10 * Extent(lo, hi)
  {
    hide Forking, Copied, DataPages, Progress, Elsewhere;
    ghost var r, ss := m.ram, m.spaces;
    ProgressSelf(r0, r, ss, dst, src);
    ElsewhereSelf(r, ss, dst, lo, hi);
    if !buffer {
      return false;
    }
    var q := lo;
    while q < hi
      invariant lo <= q && (if lo <= hi then q <= hi else q == lo)
      invariant Forking(r0, m.ram, ss, dst, src) && Progress(r0, r, m.ram, ss, dst, src)
      invariant Cloned(r0, m.ram, ss, dst, src, lo, q)
      invariant Elsewhere(r, m.ram, ss, dst, lo, hi) && m.ram.used <= r.used + 10 * (q - lo)
    {
      ghost var s := m.ram;
      ok := ClonePage(m, dst, src, q, r0, lo, hi);
      ElsewhereTrans(r, s, m.ram, ss, dst, lo, hi, q, q + 1);
      ProgressTrans(r0, r, s, m.ram, ss, dst, src);
      if !ok {
        return false;
      }
      ProgressCloned(r0, s, m.ram, ss, dst, src, lo, q);
      q := q + 1;
    }
    return true;
  }

  /** How many pages there are from `lo` up to `hi`. */
  function Extent(lo: nat, hi: nat): nat { if lo <= hi then hi - lo else 0 }

  /** Outside the pages from `lo` up to `hi` the space translates as before. */
  ghost predicate Elsewhere(r: Ram, s: Ram, ss: seq<Space>, k: nat, lo: nat, hi: nat) {
    forall p: nat :: p < 0x8_0000_0000 && !(lo <= p < hi) ==> Absent(s, ss, k, p) == Absent(r, ss, k, p)
  }

  ghost predicate Absent(r: Ram, ss: seq<Space>, k: nat, p: nat) { Translate(r, ss, k, p * 4096) == None }

  lemma ElsewhereSelf(r: Ram, ss: seq<Space>, k: nat, lo: nat, hi: nat)
    ensures Elsewhere(r, r, ss, k, lo, hi)
  {
  }

  lemma ElsewhereQuiet(r: Ram, s: Ram, ss: seq<Space>, k: nat, lo: nat, hi: nat)
    requires k > 0 && Live(ss, k) && SameUser(r, s, ss)
    ensures Elsewhere(r, s, ss, k, lo, hi)
  {
    hide Translate, UserAddress;
    forall p: nat | p < 0x8_0000_0000 ensures Absent(s, ss, k, p) == Absent(r, ss, k, p) {
      UserPage(ss, k, p, 0x8_0000_0000);
    }
  }

  lemma ElsewhereMapped(r: Ram, s: Ram, ss: seq<Space>, k: nat, q: nat, f: nat)
    requires q < 0x8_0000_0000 && k > 0 && Live(ss, k) && UserRemapped(r, s, ss, k, q * 4096, f)
    ensures Elsewhere(r, s, ss, k, q, q + 1)
  {
    hide Translate, UserAddress, PageOf;
    UserPage(ss, k, q, 0x8_0000_0000);
    forall p: nat | p < 0x8_0000_0000 && p != q ensures Absent(s, ss, k, p) == Absent(r, ss, k, p) {
      UserPage(ss, k, p, 0x8_0000_0000);
    }
  }

  lemma ElsewhereTrans(r: Ram, s: Ram, t: Ram, ss: seq<Space>, k: nat, lo: nat, hi: nat, a: nat, b: nat)
    requires Elsewhere(r, s, ss, k, lo, hi) && Elsewhere(s, t, ss, k, a, b) && (a < b ==> lo <= a && b <= hi)
    ensures Elsewhere(r, t, ss, k, lo, hi)
  {
    hide Absent;
  }

  lemma ProgressSelf(r0: Ram, r: Ram, ss: seq<Space>, dst: nat, src: nat)
    ensures Progress(r0, r, r, ss, dst, src)
  {
  }

  lemma ProgressCloned(r0: Ram, r: Ram, s: Ram, ss: seq<Space>, dst: nat, src: nat, lo: nat, hi: nat)
    requires Progress(r0, r, s, ss, dst, src) && Cloned(r0, r, ss, dst, src, lo, hi) && UserRange(hi)
    ensures Cloned(r0, s, ss, dst, src, lo, hi)
  {
    hide Copied;
  }

  // ---------------------------------------------------------------- proc_fork

  /** The regions of a process image, as kept in its control block. */
  datatype Image = Image(codeStart: nat, codeEnd: nat, stackBase: nat, stackTop: nat, heapStart: nat, heapEnd: nat)

  function PageUp(a: nat): nat { (a + 4095) / 4096 }

  /** Page `q` belongs to the code, the stack or the heap. */
  predicate InImage(p: Image, q: nat) {
    || PageOf(p.codeStart) <= q < PageUp(p.codeEnd)
    || PageOf(p.stackBase) <= q < PageOf(p.stackTop)
    || PageOf(p.heapStart) <= q < PageUp(p.heapEnd)
  }

  predicate Aligned(p: Image) {
    && p.codeStart % 4096 == 0 && p.stackBase % 4096 == 0 && p.stackTop % 4096 == 0 && p.heapStart % 4096 == 0
    && p.codeEnd < 0x8000_0000_0000 - 4096 && p.stackTop <= 0x8000_0000_0000 && p.heapEnd < 0x8000_0000_0000 - 4096
  }

  /** Pages of the parent that are mapped hold data, in every region. */
  ghost predicate ImageData(r: Ram, ss: seq<Space>, k: nat, p: Image) {
    && DataPages(r, ss, k, PageOf(p.codeStart), PageUp(p.codeEnd))
    && DataPages(r, ss, k, PageOf(p.stackBase), PageOf(p.stackTop))
    && DataPages(r, ss, k, PageOf(p.heapStart), PageUp(p.heapEnd))
  }

  /**
   Page `q` of the child against the parent's before the fork: mapped exactly when the
   parent's is, with the same content, in a frame that was free and so is none of the parent's, and open to user
   code for reading and writing.
   */
  ghost predicate Inherited(r0: Ram, ss0: seq<Space>, r: Ram, ss: seq<Space>, child: nat, src: nat, q: nat) {
    match Translate(r0, ss0, src, q * 4096)
    case None => Translate(r, ss, child, q * 4096) == None
    case Some(p) =>
      match Translate(r, ss, child, q * 4096)
      case None => false
      case Some(c) =>
        && !InUse(r0, c.frame) && DataFrame(r, ss, c.frame) && FrameAt(r, c.frame) == FrameAt(r0, p.frame)
        && child < |ss| && Mmu(r, ss[child].pml4, q * 4096) == Some(Access(c.frame, true, true))
  }

  /** What `CreateAddressSpace` established between two states. */
  ghost predicate Spawned(r0: Ram, ss0: seq<Space>, r: Ram, ss: seq<Space>) {
    && 0 < |ss0| == |ss| - 1 && (forall l :: 0 <= l < |ss0| ==> ss[l] == ss0[l]) && !InUse(r0, ss[|ss0|].pml4)
    && (forall f: nat :: InUse(r0, f) ==> InUse(r, f) && FrameAt(r, f) == FrameAt(r0, f))
    && (forall l: nat, a: nat :: UserAddress(ss0, l, a) ==> Translate(r, ss, l, a) == Translate(r0, ss0, l, a))
    && Live(ss, |ss0|) && (forall a: nat :: LowerHalf(a) ==> Translate(r, ss, |ss0|, a) == None)
    && (forall f: int :: NotTable(r0, ss0, f) && f != ss[|ss0|].pml4 ==> NotTable(r, ss, f))
    && r.total == r0.total
  }

  lemma SpawnedData(r0: Ram, ss0: seq<Space>, r: Ram, ss: seq<Space>, src: nat, lo: nat, hi: nat)
    requires Spawned(r0, ss0, r, ss) && src > 0 && Live(ss0, src) && DataPages(r0, ss0, src, lo, hi) && UserRange(hi)
    ensures DataPages(r, ss, src, lo, hi)
  {
    hide Translate, InUse, NotTable, UserAddress;
    forall q: nat | lo <= q < hi
      ensures Translate(r, ss, src, q * 4096) == Translate(r0, ss0, src, q * 4096)
    {
      UserPage(ss0, src, q, hi);
    }
  }

  lemma SpawnedForking(r0: Ram, ss0: seq<Space>, r: Ram, ss: seq<Space>, src: nat)
    requires Spawned(r0, ss0, r, ss) && Ok(r, ss)
    ensures Forking(r, r, ss, |ss0|, src)
  {
    hide Translate, InUse, NotTable, Addressable, Copied, Kept, Ok;
    KeptSelf(r, ss);
    forall q: nat | q < 0x8_0000_0000 ensures Translate(r, ss, |ss0|, q * 4096) == None {
      UserPage(ss, |ss0|, q, 0x8_0000_0000);
    }
  }

  lemma CopiedInherited(r0: Ram, ss0: seq<Space>, r1: Ram, r: Ram, ss: seq<Space>, child: nat, src: nat, lo: nat,
                        hi: nat, q: nat)
    requires Spawned(r0, ss0, r1, ss) && Copied(r1, r, ss, child, src, q) && src > 0 && Live(ss0, src)
    requires DataPages(r0, ss0, src, lo, hi) && lo <= q < hi && UserRange(hi)
    requires TablesOk(r, ss) && child > 0 && Live(ss, child)
    ensures Inherited(r0, ss0, r, ss, child, src, q)
  {
    hide Translate, InUse, NotTable, Addressable, UserAddress, Walkable, Mmu, TablesOk;
    UserPage(ss0, src, q, hi);
    UserPage(ss, child, q, hi);
    MmuIs(r, ss, child, q * 4096);
    OpenToUser();
  }

  lemma PagesInRange(p: Image)
    requires Aligned(p)
    ensures UserRange(PageUp(p.codeEnd))
    ensures UserRange(PageOf(p.stackTop))
    ensures UserRange(PageUp(p.heapEnd))
    ensures p.codeStart < PageUp(p.codeEnd) * 4096 <==> PageOf(p.codeStart) < PageUp(p.codeEnd)
    ensures p.stackBase < p.stackTop <==> PageOf(p.stackBase) < PageOf(p.stackTop)
    ensures p.heapStart < PageUp(p.heapEnd) * 4096 <==> PageOf(p.heapStart) < PageUp(p.heapEnd)
  {
  }

  /** Every user space that existed before translates as before, to pages that hold what they held. */
  ghost predicate OthersSame(r0: Ram, ss0: seq<Space>, r: Ram, ss: seq<Space>) {
    && (forall l: nat, a: nat :: UserAddress(ss0, l, a) ==> Translate(r, ss, l, a) == Translate(r0, ss0, l, a))
    && (forall f: nat :: DataFrame(r0, ss0, f) ==> FrameAt(r, f) == FrameAt(r0, f))
  }

  lemma NoForkOthers(r0: Ram, ss: seq<Space>, r: Ram)
    requires SameTranslations(r0, r, ss) && forall f: nat :: InUse(r0, f) ==> FrameAt(r, f) == FrameAt(r0, f)
    ensures OthersSame(r0, ss, r, ss)
  {
    SameIsUser(r0, r, ss);
    hide Translate, InUse, NotTable, UserAddress;
  }

  lemma SpawnedBy(r0: Ram, ss0: seq<Space>, r: Ram, ss: seq<Space>)
    requires 0 < |ss0| == |ss| - 1 && ss[..|ss0|] == ss0 && !InUse(r0, ss[|ss0|].pml4) && r.total == r0.total
    requires forall f: nat :: InUse(r0, f) ==> InUse(r, f) && FrameAt(r, f) == FrameAt(r0, f)
    requires forall l: nat, a: nat :: Addressable(ss0, l, a) ==> Translate(r, ss, l, a) == Translate(r0, ss0, l, a)
    requires Live(ss, |ss0|)
    requires forall a: nat :: Canonical(a) ==>
      Translate(r, ss, |ss0|, a) == if LowerHalf(a) then None else Translate(r, ss, 0, a)
    requires forall f: int :: NotTable(r0, ss0, f) && f != ss[|ss0|].pml4 ==> NotTable(r, ss, f)
    ensures Spawned(r0, ss0, r, ss)
    ensures forall l :: 0 <= l < |ss0| ==> ss[l] == ss0[l]
  {
    hide Translate, InUse, NotTable;
  }

  lemma ForkOthers(r0: Ram, ss0: seq<Space>, r1: Ram, r: Ram, ss: seq<Space>, child: nat, src: nat)
    requires Spawned(r0, ss0, r1, ss) && Forking(r1, r, ss, child, src) && child == |ss0|
    ensures Ok(r, ss) && OthersSame(r0, ss0, r, ss) && OwnFrames(r, ss, child)
  {
    hide Translate, Addressable, InUse, NotTable, Ok, Clean, OwnFrames;
  }

  lemma DestroyedOthers(r0: Ram, ss0: seq<Space>, r: Ram, s: Ram, ss: seq<Space>, child: nat)
    requires OthersSame(r0, ss0, r, ss) && child == |ss0| && |ss| == child + 1 && s.frames == r.frames
    requires forall l: nat, a: nat :: l < |ss| ==>
      Translate(s, Gone(ss, child), l, a) == if l == child then None else Translate(r, ss, l, a)
    ensures OthersSame(r0, ss0, s, Gone(ss, child))
  {
    hide Translate, Addressable, InUse, NotTable;
  }

  lemma AllInherited(r0: Ram, ss0: seq<Space>, r1: Ram, r: Ram, ss: seq<Space>, child: nat, src: nat, p: Image)
    requires Spawned(r0, ss0, r1, ss) && src > 0 && Live(ss0, src) && Aligned(p) && ImageData(r0, ss0, src, p)
    requires ImageCloned(r1, r, ss, child, src, p) && TablesOk(r, ss) && child > 0 && Live(ss, child)
    ensures forall q: nat :: InImage(p, q) ==> Inherited(r0, ss0, r, ss, child, src, q)
  {
    PagesInRange(p);
    hide Spawned, DataPages, Copied, Inherited, UserRange, PageOf, PageUp, Aligned, TablesOk;
    forall q: nat | InImage(p, q) ensures Inherited(r0, ss0, r, ss, child, src, q) {
      if PageOf(p.codeStart) <= q < PageUp(p.codeEnd) {
        CopiedInherited(r0, ss0, r1, r, ss, child, src, PageOf(p.codeStart), PageUp(p.codeEnd), q);
      } else if PageOf(p.stackBase) <= q < PageOf(p.stackTop) {
        CopiedInherited(r0, ss0, r1, r, ss, child, src, PageOf(p.stackBase), PageOf(p.stackTop), q);
      } else {
        CopiedInherited(r0, ss0, r1, r, ss, child, src, PageOf(p.heapStart), PageUp(p.heapEnd), q);
      }
    }
  }

  /** Outside the image the space translates as before. */
  ghost predicate Outside(r: Ram, s: Ram, ss: seq<Space>, k: nat, p: Image) {
    forall q: nat :: q < 0x8_0000_0000 && !InImage(p, q) ==> Absent(s, ss, k, q) == Absent(r, ss, k, q)
  }

  lemma OutsideOf(r1: Ram, r2: Ram, r3: Ram, r: Ram, ss: seq<Space>, child: nat, p: Image)
    requires Elsewhere(r1, r2, ss, child, PageOf(p.codeStart), PageUp(p.codeEnd))
    requires Elsewhere(r2, r3, ss, child, PageOf(p.stackBase), PageOf(p.stackTop))
    requires Elsewhere(r3, r, ss, child, PageOf(p.heapStart), PageUp(p.heapEnd))
    ensures Outside(r1, r, ss, child, p)
  {
    hide PageOf, PageUp, Absent;
  }

  /** Regions that have pages hold copies. */
  ghost predicate ImageCloned(r1: Ram, r: Ram, ss: seq<Space>, child: nat, src: nat, p: Image) {
    && (PageOf(p.codeStart) < PageUp(p.codeEnd) ==>
      Cloned(r1, r, ss, child, src, PageOf(p.codeStart), PageUp(p.codeEnd)))
    && (PageOf(p.stackBase) < PageOf(p.stackTop) ==>
      Cloned(r1, r, ss, child, src, PageOf(p.stackBase), PageOf(p.stackTop)))
    && (PageOf(p.heapStart) < PageUp(p.heapEnd) ==>
      Cloned(r1, r, ss, child, src, PageOf(p.heapStart), PageUp(p.heapEnd)))
  }

  lemma ImageSpawned(r0: Ram, ss0: seq<Space>, r1: Ram, ss: seq<Space>, src: nat, p: Image)
    requires Spawned(r0, ss0, r1, ss) && src > 0 && Live(ss0, src) && Aligned(p) && ImageData(r0, ss0, src, p)
    ensures ImageData(r1, ss, src, p)
  {
    hide Spawned, DataPages, PageOf, PageUp, UserRange;
    PagesInRange(p);
    SpawnedData(r0, ss0, r1, ss, src, PageOf(p.codeStart), PageUp(p.codeEnd));
    SpawnedData(r0, ss0, r1, ss, src, PageOf(p.stackBase), PageOf(p.stackTop));
    SpawnedData(r0, ss0, r1, ss, src, PageOf(p.heapStart), PageUp(p.heapEnd));
  }

  /** The three regions, one after the other, until one fails. */
  method CloneImage(m: Machine, child: nat, src: nat, p: Image, buffers: (bool, bool, bool)) returns (ok: bool)
    requires Forking(m.ram, m.ram, m.spaces, child, src) && Aligned(p) && ImageData(m.ram, m.spaces, src, p)
    requires Live(m.spaces, 0) && src != child && src > 0 && child > 0 && Live(m.spaces, src) && Live(m.spaces, child)
    modifies m`ram
    ensures Forking(old(m.ram), m.ram, m.spaces, child, src) && Outside(old(m.ram), m.ram, m.spaces, child, p)
    ensures ok ==> ImageCloned(old(m.ram), m.ram, m.spaces, child, src, p)
    ensures !ok ==> FreeCount(m.ram) <= 1 || Refused(p, buffers)
    ensures m.ram.used <= old(m.ram).used + 10 * Pages(p)
  {
    hide Elsewhere, Absent, Extent, Outside, DataPages, Forking, Progress, Cloned, PageOf, PageUp, UserRange;
    ghost var r1, ss := m.ram, m.spaces;
    PagesInRange(p);
    ok := true;
    if p.codeStart < PageUp(p.codeEnd) * 4096 {
      ok := CloneUserRegion(m, child, src, PageOf(p.codeStart), PageUp(p.codeEnd), buffers.0, r1);
    }
    ghost var r2 := m.ram;
    if p.codeStart >= PageUp(p.codeEnd) * 4096 { ElsewhereSelf(r1, ss, child, PageOf(p.codeStart), PageUp(p.codeEnd)); }
    if ok && p.stackBase < p.stackTop {
      ok := CloneUserRegion(m, child, src, PageOf(p.stackBase), PageOf(p.stackTop), buffers.1, r1);
    } else {
      ElsewhereSelf(r2, ss, child, PageOf(p.stackBase), PageOf(p.stackTop));
      ProgressSelf(r1, r2, ss, child, src);
    }
    ghost var r3 := m.ram;
    if ok && p.heapStart < PageUp(p.heapEnd) * 4096 {
      ok := CloneUserRegion(m, child, src, PageOf(p.heapStart), PageUp(p.heapEnd), buffers.2, r1);
    } else {
      ElsewhereSelf(r3, ss, child, PageOf(p.heapStart), PageUp(p.heapEnd));
      ProgressSelf(r1, r3, ss, child, src);
    }
    OutsideOf(r1, r2, r3, m.ram, ss, child, p);
    if !ok {
      return;
    }
    if p.codeStart < PageUp(p.codeEnd) * 4096 {
      ProgressTrans(r1, r2, r3, m.ram, ss, child, src);
      ProgressCloned(r1, r2, m.ram, ss, child, src, PageOf(p.codeStart), PageUp(p.codeEnd));
    }
    if p.stackBase < p.stackTop {
      ProgressCloned(r1, r3, m.ram, ss, child, src, PageOf(p.stackBase), PageOf(p.stackTop));
    }
  }

  /**
   The memory part of `proc_fork`: a new space holding a private copy of every mapped page
   of the code, stack and heap. `buffers` says which page buffers could be allocated. It fails
   only when one of them could not, or with at most one page left free at some point, which `low` records.
   */
  method ForkMemory(m: Machine, src: nat, p: Image, buffers: (bool, bool, bool)) returns (child: nat, ghost low: int)
    requires Ok(m.ram, m.spaces) && Live(m.spaces, 0) && src > 0 && Live(m.spaces, src)
    requires Aligned(p) && ImageData(m.ram, m.spaces, src, p)
    modifies m
    ensures Ok(m.ram, m.spaces)
    ensures child != 0 ==> Live(m.spaces, child) && child == |old(m.spaces)|
    ensures child != 0 ==> forall q: nat :: InImage(p, q) ==>
      Inherited(old(m.ram), old(m.spaces), m.ram, m.spaces, child, src, q)
    ensures child != 0 ==> OwnFrames(m.ram, m.spaces, child)
    ensures child != 0 ==> forall q: nat :: q < 0x8_0000_0000 && !InImage(p, q) ==> Absent(m.ram, m.spaces, child, q)
    ensures child == 0 ==> low <= 1 || Refused(p, buffers)
    ensures FreeCount(old(m.ram)) - 2 - 10 * Pages(p) <= low
    ensures !Refused(p, buffers) && FreeCount(old(m.ram)) >= 4 + 10 * Pages(p) ==> child != 0
    ensures OthersSame(old(m.ram), old(m.spaces), m.ram, m.spaces)
  {
    hide Elsewhere, Absent, Extent, OwnFrames, OthersSame, InUse, Valid, TablesOk, Addressable, Translate, DataPages,
      NotTable, Forking, Progress,
      Spawned, Released, Owned, InImage, Inherited, Outside, ImageCloned, ImageData, Pages, Refused;
    ghost var r0, ss0 := m.ram, m.spaces;
    low := FreeCount(m.ram);
    child := CreateAddressSpace(m);
    if child == 0 {
      NoForkOthers(r0, ss0, m.ram);
      return;
    }
    ghost var r1, ss := m.ram, m.spaces;
    SpawnedBy(r0, ss0, r1, ss);
    SpawnedForking(r0, ss0, r1, ss, src);
    ImageSpawned(r0, ss0, r1, ss, src, p);
    var ok := CloneImage(m, child, src, p, buffers);
    ForkOthers(r0, ss0, r1, m.ram, ss, child, src);
    low := FreeCount(m.ram);
    Totals(r1, m.ram, ss, child, src);
    if !ok {
      ghost var r4 := m.ram;
      DestroyAddressSpace(m, child);
      ReleasedFrames(r4, m.ram, Owned(r4, ss, child));
      DestroyedOthers(r0, ss0, r4, m.ram, ss, child);
      child := 0;
      return;
    }
    AllInherited(r0, ss0, r1, m.ram, ss, child, src, p);
    AllAbsent(r0, ss0, r1, m.ram, ss, child, p);
  }

  lemma Totals(r1: Ram, r: Ram, ss: seq<Space>, child: nat, src: nat)
    requires Forking(r1, r, ss, child, src)
    ensures r.total == r1.total
  {
  }

  /** Pages of all three regions, counted region by region. */
  function Pages(p: Image): nat {
    Extent(PageOf(p.codeStart), PageUp(p.codeEnd)) + Extent(PageOf(p.stackBase), PageOf(p.stackTop))
    + Extent(PageOf(p.heapStart), PageUp(p.heapEnd))
  }

  /** The page buffer of a region that has pages could not be allocated. */
  predicate Refused(p: Image, buffers: (bool, bool, bool)) {
    || (!buffers.0 && PageOf(p.codeStart) < PageUp(p.codeEnd))
    || (!buffers.1 && PageOf(p.stackBase) < PageOf(p.stackTop))
    || (!buffers.2 && PageOf(p.heapStart) < PageUp(p.heapEnd))
  }

  lemma AllAbsent(r0: Ram, ss0: seq<Space>, r1: Ram, r: Ram, ss: seq<Space>, child: nat, p: Image)
    requires Spawned(r0, ss0, r1, ss) && child == |ss0| && Outside(r1, r, ss, child, p)
    ensures forall q: nat :: q < 0x8_0000_0000 && !InImage(p, q) ==> Absent(r, ss, child, q)
  {
    hide InImage, Translate, NotTable, InUse;
    forall q: nat | q < 0x8_0000_0000 && !InImage(p, q) ensures Absent(r, ss, child, q) {
      UserPage(ss, child, q, 0x8_0000_0000);
      assert Absent(r1, ss, child, q);
    }
  }
}
