/** The physical frame allocator: one bit per page, and the frames themselves. */
module Pmm {
  import opened Bytes
  import opened Bitmap

  const PAGE_SIZE := 4096

  type Frame = seq<nat>  // 512 words of 64 bits

  /** Physical memory as the allocator sees it. A set bit is a page in use. */
  datatype Ram = Ram(bitmap: seq<byte>, total: nat, used: nat, frames: seq<Frame>)

  predicate InUse(r: Ram, f: nat) { Bit(r.bitmap, f) }

  function ZeroFrame(): (r: Frame)
    ensures |r| == 512 && forall i :: 0 <= i < 512 ==> r[i] == 0
  {
    seq(512, i => 0)
  }

  function FrameAt(r: Ram, f: nat): (c: Frame) { if f < |r.frames| then r.frames[f] else [] }

  /** The counter is the number of set bits, page 0 is never free, and pages are whole. */
  ghost predicate Valid(r: Ram) {
    && r.total <= 8 * |r.bitmap|
    && r.used + CountClear(r.bitmap, r.total) == r.total
    && (r.total > 0 ==> InUse(r, 0))
    && |r.frames| == r.total
    && forall f :: 0 <= f < |r.frames| ==> |r.frames[f]| == 512
  }

  /** `s` is `r` with exactly the free page `f` taken and cleared. */
  ghost predicate Taken(r: Ram, s: Ram, f: nat) {
    && 0 < f < r.total && !InUse(r, f)
    && s.total == r.total && s.used == r.used + 1
    && (forall g: nat :: InUse(s, g) <==> g == f || InUse(r, g))
    && (forall g: nat :: g != f ==> FrameAt(s, g) == FrameAt(r, g))
    && FrameAt(s, f) == ZeroFrame()
  }

  /** `s` is `r` with exactly the pages in `fs` given back. */
  ghost predicate Released(r: Ram, s: Ram, fs: set<nat>) {
    && s.total == r.total && s.used + |fs| == r.used
    && s.frames == r.frames
    && (forall f :: f in fs ==> 0 < f < r.total && InUse(r, f))
    && (forall g: nat :: InUse(s, g) <==> InUse(r, g) && g !in fs)
  }

  /** How many pages are free. */
  function FreeCount(r: Ram): int { r.total - r.used }

  lemma NoneFree(r: Ram)
    requires Valid(r)
    ensures FreeCount(r) >= 0 && (FreeCount(r) == 0 <==> forall f: nat :: f < r.total ==> InUse(r, f))
  {
    hide Bit, CountClear;
    CountClearZero(r.bitmap, r.total);
    assert forall f: nat :: InUse(r, f) == Bit(r.bitmap, f);
  }

  lemma TakenCount(r: Ram, s: Ram, f: nat)
    requires Taken(r, s, f)
    ensures s.used == r.used + 1 && s.total == r.total
  {
  }

  // ---------------------------------------------------------------- one page

  function TakePage(r: Ram, f: nat): Ram
    requires f < |r.frames|
  {
    r.(bitmap := SetBit(r.bitmap, f), used := r.used + 1, frames := r.frames[f := ZeroFrame()])
  }

  function GivePage(r: Ram, f: nat): Ram {
    r.(bitmap := ClearBit(r.bitmap, f), used := if r.used > 0 then r.used - 1 else 0)
  }

  lemma TakePageTaken(r: Ram, f: nat)
    requires Valid(r) && f < r.total && !InUse(r, f)
    ensures Valid(TakePage(r, f)) && Taken(r, TakePage(r, f), f)
  {
    SetBitTest(r.bitmap, f);
    CountClearChange(r.bitmap, SetBit(r.bitmap, f), f, r.total);
    hide SetBit, Bit;
  }

  lemma GivePageReleased(r: Ram, f: nat)
    requires Valid(r) && 0 < f < r.total && InUse(r, f)
    ensures Valid(GivePage(r, f)) && Released(r, GivePage(r, f), {f})
  {
    ClearBitTest(r.bitmap, f);
    CountClearChange(ClearBit(r.bitmap, f), r.bitmap, f, r.total);
    hide ClearBit, Bit;
  }

  // ---------------------------------------------------------------- the memory map

  datatype Kind = Usable | Reserved | AcpiReclaimable | AcpiNvs | BadMemory
                | BootloaderReclaimable | ExecutableAndModules | Framebuffer

  datatype Region = Region(base: nat, length: nat, kind: Kind)

  function Pages(n: nat): nat { n / PAGE_SIZE }

  function PagesUp(n: nat): nat { (n + PAGE_SIZE - 1) / PAGE_SIZE }

  predicate Covers(e: Region, f: nat) { Pages(e.base) <= f < Pages(e.base) + Pages(e.length) }

  predicate CoversUp(e: Region, f: nat) { Pages(e.base) <= f < Pages(e.base) + PagesUp(e.length) }

  predicate Claimed(e: Region) { e.kind == ExecutableAndModules || e.kind == BootloaderReclaimable }

  function Highest(es: seq<Region>): nat {
    if es == [] then 0 else
      var h := Highest(es[..|es| - 1]);
      var top := es[|es| - 1].base + es[|es| - 1].length;
      if top > h then top else h
  }

  /** Usable regions are disjoint, page-aligned and leave page 0 out. */
  ghost predicate GoodMap(es: seq<Region>) {
    && (forall i :: 0 <= i < |es| && es[i].kind == Usable ==>
          es[i].base % PAGE_SIZE == 0 && es[i].length % PAGE_SIZE == 0 && es[i].base > 0)
    && (forall i, j, f: nat :: 0 <= i < j < |es| && es[i].kind == Usable && es[j].kind == Usable ==>
          !(Covers(es[i], f) && Covers(es[j], f)))
  }

  ghost predicate InUsable(es: seq<Region>, n: nat, f: nat) {
    exists i :: 0 <= i < n && i < |es| && es[i].kind == Usable && Covers(es[i], f)
  }

  lemma UsableStep(es: seq<Region>, i: nat)
    requires i < |es|
    ensures forall f: nat :: InUsable(es, i + 1, f) <==>
      InUsable(es, i, f) || (es[i].kind == Usable && Covers(es[i], f))
  {
  }

  lemma ClaimedStep(es: seq<Region>, i: nat)
    requires i < |es|
    ensures forall f: nat :: InClaimed(es, i + 1, f) <==> InClaimed(es, i, f) || (Claimed(es[i]) && CoversUp(es[i], f))
  {
  }

  /** The pages that the bitmap itself occupies, at the start of its region. */
  predicate UnderBitmap(e: Region, total: nat, f: nat) {
    Pages(e.base) <= f < Pages(e.base) + PagesUp((total + 7) / 8)
  }

  ghost predicate InClaimed(es: seq<Region>, n: nat, f: nat) {
    exists i :: 0 <= i < n && i < |es| && Claimed(es[i]) && CoversUp(es[i], f)
  }

  /** Page `f` is marked in use without being cleared. */
  function ClaimPage(r: Ram, f: nat): Ram { r.(bitmap := SetBit(r.bitmap, f), used := r.used + 1) }

  lemma ClaimPageValid(r: Ram, f: nat)
    requires Valid(r) && f < r.total && !InUse(r, f)
    ensures Valid(ClaimPage(r, f)) && forall g: nat :: InUse(ClaimPage(r, f), g) <==> g == f || InUse(r, g)
  {
    SetBitTest(r.bitmap, f);
    CountClearChange(r.bitmap, SetBit(r.bitmap, f), f, r.total);
    hide SetBit, Bit;
  }

  /** All bits set, as `memset(bitmap, 0xFF, bitmap_size)` leaves them. */
  function AllUsed(total: nat, frames: seq<Frame>): Ram {
    Ram(seq((total + 7) / 8, i => 255), total, total, frames)
  }

  lemma {:induction false} OnesBelow(b: nat, k: nat, n: nat)
    requires k < n && b + 1 == Pow2(n)
    ensures TestIn(b, k)
  {
    var h := Pow2(n - 1);
    assert b == 2 * (h - 1) + 1;
    assert b / 2 == h - 1 && b % 2 == 1;
    if k > 0 {
      OnesBelow(h - 1, k - 1, n - 1);
    }
  }

  lemma AllUsedValid(total: nat, frames: seq<Frame>)
    requires |frames| == total && forall f :: 0 <= f < total ==> |frames[f]| == 512
    ensures Valid(AllUsed(total, frames)) && forall f: nat :: f < total ==> InUse(AllUsed(total, frames), f)
  {
    var r := AllUsed(total, frames);
    forall f: nat | f < total ensures Bit(r.bitmap, f) {
      ByteBound();
      OnesBelow(255, f % 8, 8);
    }
    CountClearZero(r.bitmap, total);
  }

  // ---------------------------------------------------------------- the allocator

  /** Pages `[s, s + n)` are all free. */
  ghost predicate FreeRun(r: Ram, s: nat, n: nat) {
    s + n <= r.total && forall g: nat :: s <= g < s + n ==> !InUse(r, g)
  }

  /** `s` is `r` with exactly the free pages `[f, f + n)` taken and cleared. */
  ghost predicate TakenRun(r: Ram, s: Ram, f: nat, n: nat) {
    && FreeRun(r, f, n) && f > 0
    && s.total == r.total && s.used == r.used + n
    && (forall g: nat :: InUse(s, g) <==> f <= g < f + n || InUse(r, g))
    && (forall g: nat :: FrameAt(s, g) == if f <= g < f + n then ZeroFrame() else FrameAt(r, g))
  }

  /**
   An address space: the frames of its top-level table and of its descriptor, and the top-level entries it got
   from the kernel.
   */
  datatype Space = Space(pml4: nat, desc: nat, shared: set<nat>)

  /** Physical memory, and the address spaces built in it; space 0 is the kernel's. */
  class Machine {
    var ram: Ram
    var spaces: seq<Space>

    constructor (r: Ram, ss: seq<Space>)
      ensures ram == r && spaces == ss
    {
      ram, spaces := r, ss;
    }

    /** Marks those pages of a region that exist free. */
    method FreeRegion(base: nat, count: nat)
      requires Valid(ram) && base > 0
      requires forall g: nat :: base <= g < base + count && g < ram.total ==> InUse(ram, g)
      modifies this`ram
      ensures Valid(ram) && ram.total == old(ram).total
      ensures forall g: nat :: g < ram.total ==> (InUse(ram, g) <==> InUse(old(ram), g) && !(base <= g < base + count))
    {
      hide Bit;
      ghost var r := ram;
      for j := 0 to count
        invariant Valid(ram) && ram.total == r.total
        invariant forall g: nat :: g < ram.total ==> (InUse(ram, g) <==> InUse(r, g) && !(base <= g < base + j))
      {
        if base + j < ram.total {
          GivePageReleased(ram, base + j);
          ram := GivePage(ram, base + j);
        }
      }
    }

    /** Marks those pages of a region that exist used, counting only the ones that were free. */
    method ClaimRegion(base: nat, count: nat)
      requires Valid(ram)
      modifies this`ram
      ensures Valid(ram) && ram.total == old(ram).total
      ensures forall g: nat :: g < ram.total ==> (InUse(ram, g) <==> InUse(old(ram), g) || base <= g < base + count)
    {
      hide Bit;
      ghost var r := ram;
      for j := 0 to count
        invariant Valid(ram) && ram.total == r.total
        invariant forall g: nat :: g < ram.total ==> (InUse(ram, g) <==> InUse(r, g) || base <= g < base + j)
      {
        if base + j < ram.total && !InUse(ram, base + j) {
          ClaimPageValid(ram, base + j);
          ram := ClaimPage(ram, base + j);
        }
      }
    }

    /**
     Builds the bitmap from the boot memory map: afterwards a page is free exactly when it
     lies in a usable region, not under the bitmap, and in no kernel or bootloader region.
     */
    method Init(es: seq<Region>, frames: seq<Frame>) returns (at: int)
      requires GoodMap(es) && |frames| == Pages(Highest(es)) && forall f :: 0 <= f < |frames| ==> |frames[f]| == 512
      modifies this`ram
      ensures at == -1 <==> forall i :: 0 <= i < |es| && es[i].kind == Usable ==> es[i].length < (|frames| + 7) / 8
      ensures at != -1 ==> 0 <= at < |es| && es[at].kind == Usable && es[at].length >= (|frames| + 7) / 8
      ensures at != -1 ==> Valid(ram) && ram.total == |frames|
      ensures at != -1 ==> forall f: nat :: f < ram.total ==>
                (InUse(ram, f) <==>
                  !InUsable(es, |es|, f) || UnderBitmap(es[at], ram.total, f) || InClaimed(es, |es|, f))
    {
      hide Bit;
      var total := Pages(Highest(es));
      var bitmapSize := (total + 7) / 8;
      at := -1;
      for i := 0 to |es|
        invariant at == -1
        invariant forall k :: 0 <= k < i && es[k].kind == Usable ==> es[k].length < bitmapSize
      {
        if es[i].kind == Usable && es[i].length >= bitmapSize {
          at := i;
          break;
        }
      }
      if at == -1 {
        return;
      }
      AllUsedValid(total, frames);
      ram := AllUsed(total, frames);
      for i := 0 to |es|
        invariant Valid(ram) && ram.total == total
        invariant forall f: nat :: f < total ==> (InUse(ram, f) <==> !InUsable(es, i, f))
      {
        if es[i].kind == Usable {
          FreeRegion(Pages(es[i].base), Pages(es[i].length));
        }
        UsableStep(es, i);
      }
      ghost var r := ram;
      ClaimRegion(Pages(es[at].base), PagesUp(bitmapSize));
      ghost var s := ram;
      for i := 0 to |es|
        invariant Valid(ram) && ram.total == total
        invariant forall f: nat :: f < total ==> (InUse(ram, f) <==> InUse(s, f) || InClaimed(es, i, f))
      {
        if Claimed(es[i]) {
          ClaimRegion(Pages(es[i].base), PagesUp(es[i].length));
        }
        ClaimedStep(es, i);
      }
    }

    /** Takes the lowest free page; fails, returning the null page 0, exactly when there is none. */
    method Alloc() returns (f: nat)
      requires Valid(ram)
      modifies this`ram
      ensures Valid(ram)
      ensures f == 0 ==> ram == old(ram) && forall g: nat :: g < ram.total ==> InUse(ram, g)
      ensures f != 0 ==> Taken(old(ram), ram, f) && forall g: nat :: g < f ==> InUse(old(ram), g)
    {
      hide Bit;
      for i := 0 to ram.total
        invariant ram == old(ram)
        invariant forall g: nat :: g < i ==> InUse(ram, g)
      {
        if !InUse(ram, i) {
          TakePageTaken(ram, i);
          ram := TakePage(ram, i);
          return i;
        }
      }
      return 0;
    }

    /**
     Takes the lowest run of `count` free pages; fails exactly when no such run exists
     (or none was asked for).
     */
    method AllocPages(count: nat) returns (f: nat)
      requires Valid(ram)
      modifies this`ram
      ensures Valid(ram)
      ensures f == 0 ==> ram == old(ram) && (count == 0 || forall s: nat :: !FreeRun(ram, s, count))
      ensures f != 0 ==> count > 0 && TakenRun(old(ram), ram, f, count) && forall s: nat :: s < f ==>
        !FreeRun(old(ram), s, count)
    {
      hide Bit;
      if count == 0 {
        return 0;
      }
      ghost var r := ram;
      if count == 1 {
        f := Alloc();
        forall s: nat | s < r.total && InUse(r, s) ensures !FreeRun(r, s, 1) {
        }
        return;
      }
      var found, start := 0, 0;
      for i := 0 to ram.total
        invariant ram == r && found < count && found <= i && (found > 0 ==> start == i - found)
        invariant forall g: nat :: i - found <= g < i ==> !InUse(r, g)
        invariant found < i ==> InUse(r, i - found - 1)
        invariant forall s: nat :: s + count <= i ==> !FreeRun(r, s, count)
      {
        if !InUse(ram, i) {
          if found == 0 {
            start := i;
          }
          found := found + 1;
          if found == count {
            TakeRun(start, count);
            return start;
          }
        } else {
          found := 0;
        }
        forall s: nat | s + count == i + 1 ensures !FreeRun(r, s, count) {
          assert InUse(r, i - found) || found == i + 1;
        }
      }
      return 0;
    }

    method TakeRun(start: nat, count: nat)
      requires Valid(ram) && FreeRun(ram, start, count) && count > 0
      modifies this`ram
      ensures Valid(ram) && TakenRun(old(ram), ram, start, count)
    {
      hide Bit;
      ghost var r := ram;
      assert !InUse(r, start);
      for j := 0 to count
        invariant Valid(ram) && TakenRun(r, ram, start, j)
      {
        TakePageTaken(ram, start + j);
        ram := TakePage(ram, start + j);
      }
    }

    /**
     Gives the page at a physical address back; null, out-of-range and already free pages
     are ignored. An address inside page 0 other than null would free page 0.
     */
    method Free(page: nat)
      requires Valid(ram) && (page == 0 || page >= PAGE_SIZE)
      modifies this`ram
      ensures Valid(ram)
      ensures var f := page / PAGE_SIZE;
        if 0 < f < old(ram).total && InUse(old(ram), f) then Released(old(ram), ram, {f}) else ram == old(ram)
    {
      hide Bit;
      if page == 0 {
        return;
      }
      var f := page / PAGE_SIZE;
      if f >= ram.total {
        return;
      }
      if !InUse(ram, f) {
        return;
      }
      GivePageReleased(ram, f);
      ram := GivePage(ram, f);
    }

    /** Gives back those of `count` consecutive pages that exist and are in use. */
    method FreePages(page: nat, count: nat)
      requires Valid(ram) && (page == 0 || page >= PAGE_SIZE)
      modifies this`ram
      ensures Valid(ram)
      ensures page == 0 ==> ram == old(ram)
      ensures page != 0 ==>
                Released(old(ram), ram, UsedIn(old(ram), page / PAGE_SIZE, count))
    {
      hide Bit;
      if page == 0 || count == 0 {
        return;
      }
      var n := page / PAGE_SIZE;
      ghost var r := ram;
      for i := 0 to count
        invariant Valid(ram) && Released(r, ram, UsedIn(r, n, i))
      {
        var f := n + i;
        if f < ram.total && InUse(ram, f) {
          GivePageReleased(ram, f);
          ReleasedMore(r, ram, GivePage(ram, f), UsedIn(r, n, i), f);
          assert UsedIn(r, n, i + 1) == UsedIn(r, n, i) + {f};
          ram := GivePage(ram, f);
        } else {
          assert UsedIn(r, n, i + 1) == UsedIn(r, n, i);
        }
      }
    }
  }

  /** The pages of `[n, n + count)` that exist and are in use. */
  ghost function UsedIn(r: Ram, n: nat, count: nat): set<nat> {
    set f: nat | n <= f < n + count && f < r.total && InUse(r, f)
  }

  lemma ReleasedMore(r: Ram, s: Ram, t: Ram, fs: set<nat>, f: nat)
    requires Released(r, s, fs) && Released(s, t, {f})
    ensures Released(r, t, fs + {f})
  {
  }
}