/**
 Bitmaps stored in bytes, bit `i` being bit `i % 8` of byte `i / 8`: the representation
 shared by the frame allocator, the ext2 allocators and the formatter.
 */
module Bitmap {
  import opened Bytes

  function Pow2(n: nat): (r: nat)
    ensures r > 0
  {
    if n == 0 then 1 else 2 * Pow2(n - 1)
  }

  /** `b & (1 << k)` is nonzero. */
  predicate TestIn(b: nat, k: nat) {
    if k == 0 then b % 2 == 1 else TestIn(b / 2, k - 1)
  }

  /** `b | (1 << k)`, within `n` bits. */
  function SetIn(b: nat, k: nat, n: nat): (r: nat)
    requires b < Pow2(n) && k < n
    ensures r < Pow2(n)
  {
    if k == 0 then 2 * (b / 2) + 1 else 2 * SetIn(b / 2, k - 1, n - 1) + b % 2
  }

  /** `b & ~(1 << k)`, within `n` bits. */
  function ClearIn(b: nat, k: nat, n: nat): (r: nat)
    requires b < Pow2(n) && k < n
    ensures r < Pow2(n)
  {
    if k == 0 then 2 * (b / 2) else 2 * ClearIn(b / 2, k - 1, n - 1) + b % 2
  }

  lemma Doubled(c: nat, d: nat)
    requires d < 2
    ensures (2 * c + d) / 2 == c && (2 * c + d) % 2 == d
  {
  }

  lemma {:induction false} SetInTest(b: nat, k: nat, n: nat, j: nat)
    requires b < Pow2(n) && k < n
    ensures TestIn(SetIn(b, k, n), j) <==> j == k || TestIn(b, j)
  {
    Doubled(b / 2, 1);
    if k > 0 {
      Doubled(SetIn(b / 2, k - 1, n - 1), b % 2);
      if j > 0 { SetInTest(b / 2, k - 1, n - 1, j - 1); }
    }
  }

  lemma {:induction false} ClearInTest(b: nat, k: nat, n: nat, j: nat)
    requires b < Pow2(n) && k < n
    ensures TestIn(ClearIn(b, k, n), j) <==> j != k && TestIn(b, j)
  {
    Doubled(b / 2, 0);
    if k > 0 {
      Doubled(ClearIn(b / 2, k - 1, n - 1), b % 2);
      if j > 0 { ClearInTest(b / 2, k - 1, n - 1, j - 1); }
    }
  }

  /** Bit `i` is set; bits past the end of the bitmap are not. */
  predicate Bit(bm: seq<byte>, i: nat) {
    i / 8 < |bm| && TestIn(bm[i / 8], i % 8)
  }

  function SetBit(bm: seq<byte>, i: nat): (r: seq<byte>)
    ensures |r| == |bm|
  {
    ByteBound();
    if i / 8 < |bm| then bm[i / 8 := SetIn(bm[i / 8], i % 8, 8)] else bm
  }

  function ClearBit(bm: seq<byte>, i: nat): (r: seq<byte>)
    ensures |r| == |bm|
  {
    ByteBound();
    if i / 8 < |bm| then bm[i / 8 := ClearIn(bm[i / 8], i % 8, 8)] else bm
  }

  lemma ByteBound()
    ensures Pow2(8) == 256
  {
  }

  lemma SetBitTest(bm: seq<byte>, i: nat)
    requires i < 8 * |bm|
    ensures forall j: nat :: Bit(SetBit(bm, i), j) <==> j == i || Bit(bm, j)
  {
    ByteBound();
    forall j: nat ensures Bit(SetBit(bm, i), j) <==> j == i || Bit(bm, j) {
      if j / 8 == i / 8 {
        SetInTest(bm[i / 8], i % 8, 8, j % 8);
      }
    }
  }

  lemma ClearBitTest(bm: seq<byte>, i: nat)
    ensures forall j: nat :: Bit(ClearBit(bm, i), j) <==> j != i && Bit(bm, j)
  {
    ByteBound();
    forall j: nat ensures Bit(ClearBit(bm, i), j) <==> j != i && Bit(bm, j) {
      if j / 8 == i / 8 && i / 8 < |bm| {
        ClearInTest(bm[i / 8], i % 8, 8, j % 8);
      }
    }
  }

  /** How many of the first `n` bits are clear. */
  function CountClear(bm: seq<byte>, n: nat): (r: nat)
    ensures r <= n
  {
    if n == 0 then 0 else CountClear(bm, n - 1) + (if Bit(bm, n - 1) then 0 else 1)
  }

  /** Two bitmaps that differ only at bit `i` have clear counts that differ by one. */
  lemma {:induction false} CountClearChange(bm: seq<byte>, bm': seq<byte>, i: nat, n: nat)
    requires !Bit(bm, i) && Bit(bm', i)
    requires forall j: nat :: j != i ==> Bit(bm', j) == Bit(bm, j)
    ensures CountClear(bm, n) == CountClear(bm', n) + (if i < n then 1 else 0)
  {
    if n > 0 {
      CountClearChange(bm, bm', i, n - 1);
    }
  }

  lemma {:induction false} CountClearZero(bm: seq<byte>, n: nat)
    ensures CountClear(bm, n) == 0 <==> forall j: nat :: j < n ==> Bit(bm, j)
  {
    if n > 0 {
      CountClearZero(bm, n - 1);
    }
  }
}
