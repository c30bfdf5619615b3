/**
 Page-table entries bit by bit: what the macros compute, and when the frame that was stored is the frame that
 is read back.
 */
module EntryBits {
  import P = PageTables

  const PAGE_PRESENT: bv64 := 0x1
  const PAGE_USER_WRITE: bv64 := 0x6
  const PAGE_NX: bv64 := 0x8000_0000_0000_0000
  const PAGE_MASK: bv64 := 0xFFFF_FFFF_FFFF_F000

  /** `PTE_CREATE` */
  function Create(addr: bv64, flags: bv64): bv64 { (addr & PAGE_MASK) | flags }

  /** `PTE_GET_ADDR` */
  function GetAddr(entry: bv64): bv64 { entry & PAGE_MASK }

  /** The address survives exactly when the flags set no address bit that it does not have. */
  lemma AddressSurvives(addr: bv64, flags: bv64)
    ensures GetAddr(Create(addr, flags | PAGE_PRESENT)) == addr & PAGE_MASK <==> flags & PAGE_MASK & !addr == 0
  {
  }

  /** The no-execute flag is an address bit here, so it turns up in the address of every frame that memory can have. */
  lemma NoExecuteLeaks(addr: bv64)
    requires addr < PAGE_NX
    ensures GetAddr(Create(addr, PAGE_NX | PAGE_PRESENT)) != addr & PAGE_MASK
  {
  }

  // ---------------------------------------------------------------- entries as numbers

  function Half(x: bv64): (r: bv64)
    ensures x != 0 ==> r < x
  {
    x >> 1
  }

  predicate Odd(x: bv64) { x & 1 == 1 }

  /** The number that bits stand for. */
  function Value(x: bv64): nat
    decreases x
  {
    if x == 0 then 0 else 2 * Value(Half(x)) + if Odd(x) then 1 else 0
  }

  lemma Halves(x: bv64)
    ensures Value(x) == 2 * Value(Half(x)) + if Odd(x) then 1 else 0
  {
  }

  function Join(a: bv64, b: bv64): bv64 { a | b }

  predicate Disjoint(a: bv64, b: bv64) { a & b == 0 }

  /** Bits that do not meet add up. */
  lemma {:induction false} JoinAdds(a: bv64, b: bv64)
    requires Disjoint(a, b)
    ensures Value(Join(a, b)) == Value(a) + Value(b)
    decreases Value(a) + Value(b)
  {
    hide Value, Half, Odd, Join, Disjoint;
    if Value(a) + Value(b) == 0 {
      NoValue(a);
      NoValue(b);
      JoinNone(a, b);
      ValueZero();
    } else {
      Halves(a);
      Halves(b);
      Halves(Join(a, b));
      HalfOfJoin(a, b);
      OddJoin(a, b);
      JoinAdds(Half(a), Half(b));
    }
  }

  lemma {:induction false} NoValue(x: bv64)
    requires Value(x) == 0
    ensures x == 0
    decreases x
  {
    if x != 0 {
      NoValue(Half(x));
      OnlyOne(x);
    }
  }

  lemma OnlyOne(x: bv64)
    requires Half(x) == 0 && x != 0
    ensures Odd(x)
  {
  }

  lemma JoinNone(a: bv64, b: bv64)
    requires a == 0 && b == 0
    ensures Join(a, b) == 0
  {
  }

  lemma HalfOfJoin(a: bv64, b: bv64)
    requires Disjoint(a, b)
    ensures Half(Join(a, b)) == Join(Half(a), Half(b)) && Disjoint(Half(a), Half(b))
  {
    hide Half, Join, Disjoint;
    HalfJoin(a, b);
    HalfDisjoint(a, b);
  }

  lemma HalfJoin(a: bv64, b: bv64)
    ensures Half(Join(a, b)) == Join(Half(a), Half(b))
  {
  }

  lemma HalfDisjoint(a: bv64, b: bv64)
    requires Disjoint(a, b)
    ensures Disjoint(Half(a), Half(b))
  {
  }

  lemma OddJoin(a: bv64, b: bv64)
    requires Disjoint(a, b)
    ensures (Odd(Join(a, b)) <==> Odd(a) || Odd(b)) && !(Odd(a) && Odd(b))
  {
  }

  function Up(x: bv64): bv64 { x << 3 }

  predicate Below(x: bv64, bound: bv64) { x < bound }

  /** Three places up is eight times as much. */
  lemma Eightfold(x: bv64)
    requires Below(x, 0x2000_0000_0000_0000)
    ensures Value(Up(x)) == 8 * Value(x)
  {
    hide Value, Half, Odd, Up, Below;
    ThreeUp(x);
    Halves(Up(x));
    Halves(Half(Up(x)));
    Halves(Half(Half(Up(x))));
  }

  lemma ThreeUp(x: bv64)
    requires Below(x, 0x2000_0000_0000_0000)
    ensures Half(Half(Half(Up(x)))) == x && !Odd(Up(x)) && !Odd(Half(Up(x))) && !Odd(Half(Half(Up(x))))
  {
  }

  function Shifted(x: bv64): bv64 { x << 12 }

  /** A frame number becomes an address. */
  lemma FrameAddress(x: bv64)
    requires Below(x, 0x10_0000_0000_0000)
    ensures Value(Shifted(x)) == 4096 * Value(x)
  {
    hide Value, Up, Below, Shifted;
    TwelveUp(x);
    UpBelow(x);
    Eightfold(x);
    Eightfold(Up(x));
    Eightfold(Up(Up(x)));
    Eightfold(Up(Up(Up(x))));
  }

  lemma TwelveUp(x: bv64)
    ensures Shifted(x) == Up(Up(Up(Up(x))))
  {
  }

  lemma UpBelow(x: bv64)
    requires Below(x, 0x10_0000_0000_0000)
    ensures var top: bv64 := 0x2000_0000_0000_0000;
      Below(x, top) && Below(Up(x), top) && Below(Up(Up(x)), top) && Below(Up(Up(Up(x))), top)
  {
  }

  lemma SmallValue(x: bv64)
    requires Below(x, 4096)
    ensures Value(x) < 4096
  {
    hide Value;
    TwelveDown(x);
    Eighth(x, x >> 3);
    Eighth(x >> 3, x >> 6);
    Eighth(x >> 6, x >> 9);
    Eighth(x >> 9, 0);
    ValueZero();
  }

  lemma ValueZero()
    ensures Value(0) == 0
  {
  }

  lemma TwelveDown(x: bv64)
    requires x < 4096
    ensures x >> 6 == (x >> 3) >> 3 && x >> 9 == (x >> 6) >> 3 && (x >> 9) >> 3 == 0
  {
  }

  lemma Eighth(x: bv64, y: bv64)
    requires y == x >> 3
    ensures Value(x) <= 8 * Value(y) + 7
  {
    hide Value, Half, Odd;
    ThreeDown(x, y);
    Halves(x);
    Halves(Half(x));
    Halves(Half(Half(x)));
  }

  lemma ThreeDown(x: bv64, y: bv64)
    requires y == x >> 3
    ensures Half(Half(Half(x))) == y
  {
  }

  /** `PTE_GET_ADDR(entry)` as a frame number, and the rest of the entry. */
  function FrameBits(e: bv64): bv64 { GetAddr(e) >> 12 }

  function FlagBits(e: bv64): bv64 { e & 0xFFF }

  /** An entry is its frame's address and its flags. */
  lemma Parts(e: bv64)
    ensures Value(e) == 4096 * Value(FrameBits(e)) + Value(FlagBits(e)) && Value(FlagBits(e)) < 4096
  {
    hide Value, FrameBits, FlagBits, Shifted, Join, Disjoint, Below;
    PartsJoin(e);
    PartsApart(e);
    PartsSmall(e);
    JoinAdds(Shifted(FrameBits(e)), FlagBits(e));
    FrameAddress(FrameBits(e));
    SmallValue(FlagBits(e));
  }

  lemma PartsJoin(e: bv64)
    ensures Join(Shifted(FrameBits(e)), FlagBits(e)) == e
  {
    FrameBack(e);
  }

  lemma FrameBack(e: bv64)
    ensures Shifted(FrameBits(e)) == e & PAGE_MASK
  {
  }

  lemma PartsApart(e: bv64)
    ensures Disjoint(Shifted(FrameBits(e)), FlagBits(e))
  {
    FrameBack(e);
  }

  lemma PartsSmall(e: bv64)
    ensures Below(FrameBits(e), 0x10_0000_0000_0000) && Below(FlagBits(e), 4096)
  {
  }

  /** What an entry says of its frame and of its presence is what the number says. */
  lemma EntryReads(e: bv64)
    ensures P.FrameOf(Value(e)) == Value(FrameBits(e)) && (P.Present(Value(e)) <==> e & PAGE_PRESENT != 0)
  {
    hide Value, Half, FrameBits, FlagBits;
    Parts(e);
    Halves(e);
    LowBit(e);
    Quotient(Value(FrameBits(e)), Value(FlagBits(e)));
  }

  lemma LowBit(e: bv64)
    ensures e & PAGE_PRESENT != 0 <==> Odd(e)
  {
  }

  lemma Quotient(q: nat, r: nat)
    requires r < 4096
    ensures (4096 * q + r) / 4096 == q
  {
  }

  /** `PTE_CREATE` of a frame's address and flags is the entry of that frame. */
  lemma CreateIsMakeEntry(frame: bv64, flags: bv64)
    requires Below(frame, 0x10_0000_0000_0000) && Below(flags, 4096)
    ensures Value(flags) < 4096 && Value(Create(Shifted(frame), flags | PAGE_PRESENT)) ==
      P.MakeEntry(Value(frame), Value(flags))
  {
    hide Value, Create, Shifted, Below, Join, Disjoint;
    var f := flags | PAGE_PRESENT;
    CreateParts(frame, flags);
    JoinAdds(Shifted(frame), f);
    FrameAddress(frame);
    SmallValue(flags);
    WithLowBit(flags, f);
  }

  lemma CreateParts(frame: bv64, flags: bv64)
    requires Below(frame, 0x10_0000_0000_0000) && Below(flags, 4096)
    ensures Create(Shifted(frame), flags | PAGE_PRESENT) == Join(Shifted(frame), flags | PAGE_PRESENT)
    ensures Disjoint(Shifted(frame), flags | PAGE_PRESENT)
  {
  }

  lemma WithLowBit(x: bv64, y: bv64)
    requires y == x | PAGE_PRESENT
    ensures Value(y) == Value(x) / 2 * 2 + 1
  {
    hide Value, Half, Odd;
    LowBitSet(x, y);
    Halves(x);
    Halves(y);
  }

  lemma LowBitSet(x: bv64, y: bv64)
    requires y == x | PAGE_PRESENT
    ensures Half(y) == Half(x) && Odd(y)
  {
  }

  /** `entry |= PAGE_USER | PAGE_WRITE` is the widening of the entry. */
  lemma OrIsWiden(e: bv64, w: bv64)
    requires w == e | PAGE_USER_WRITE
    ensures Value(w) == P.Widen(Value(e))
  {
    hide Value, Half, Odd;
    Widening(e, w);
    WideningRest(e, w);
    Halves(e);
    Halves(Half(e));
    Halves(Half(Half(e)));
    Halves(w);
    Halves(Half(w));
    Halves(Half(Half(w)));
    Sixes(Value(Half(Half(Half(e)))), Value(e), Odd(e), Odd(Half(e)), Odd(Half(Half(e))));
  }

  lemma Widening(e: bv64, w: bv64)
    requires w == e | PAGE_USER_WRITE
    ensures (Odd(w) <==> Odd(e)) && Odd(Half(w)) && Odd(Half(Half(w)))
  {
  }

  lemma WideningRest(e: bv64, w: bv64)
    requires w == e | PAGE_USER_WRITE
    ensures Half(Half(Half(w))) == Half(Half(Half(e)))
  {
    hide Half;
    ThreeDown(e, e >> 3);
    ThreeDown(w, w >> 3);
    WideningShift(e, w);
  }

  lemma WideningShift(e: bv64, w: bv64)
    requires w == e | PAGE_USER_WRITE
    ensures w >> 3 == e >> 3
  {
  }

  lemma Sixes(q: nat, v: nat, a: bool, b: bool, c: bool)
    requires v == 8 * q + (if a then 1 else 0) + (if b then 2 else 0) + (if c then 4 else 0)
    ensures P.Widen(v) == 8 * q + 6 + if a then 1 else 0
  {
    assert v / 8 == q && v % 2 == if a then 1 else 0;
  }
}
