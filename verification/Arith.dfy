/** The few facts of nonlinear arithmetic the models rely on. */
module Arith {

  lemma MulMono(a: nat, b: nat, d: nat)
    requires a <= b
    ensures a * d <= b * d
  {
  }

  lemma DivMod(n: nat, d: nat)
    requires d > 0
    ensures n == n / d * d + n % d && n % d < d
  {
  }

  /** Quotient and remainder are the only split of a number. */
  lemma DivModUnique(q: nat, r: nat, d: nat)
    requires r < d
    ensures (q * d + r) / d == q && (q * d + r) % d == r
  {
    var n := q * d + r;
    DivMod(n, d);
    if n / d < q {
      MulMono(n / d + 1, q, d);
    } else if n / d > q {
      MulMono(q + 1, n / d, d);
    }
  }

  lemma DivLess(n: nat, k: nat, d: nat)
    requires d > 0 && n < k * d
    ensures n / d < k
  {
  }

  lemma Regroup(a: nat, b: nat, p: nat)
    ensures (a * p + b) * p == a * (p * p) + b * p
  {
  }

  /** Three digits in base `p` are a number below `p * p * p`, and give it back. */
  lemma ThreeDigits(n: nat, p: nat)
    requires p > 0 && n < p * p * p
    ensures n / (p * p) < p && n / (p * p) == n / p / p
    ensures n == (n / p / p * p + n / p % p) * p + n % p
  {
    var m, c := n / p, n % p;
    var a, b := m / p, m % p;
    DivMod(n, p);
    DivMod(m, p);
    SquareBound(b, c, p);
    Regroup(a, b, p);
    DivModUnique(a, b * p + c, p * p);
    CubeBound(n, p);
  }

  lemma RowBound(m: nat, c: nat, k: nat, p: nat)
    requires m < k && c < p
    ensures m * p + c < k * p
  {
    MulMono(m + 1, k, p);
  }

  /** Three digits in base `p`, put together, are found again. */
  lemma DigitsBack(a: nat, b: nat, c: nat, p: nat)
    requires a < p && b < p && c < p
    ensures var n := (a * p + b) * p + c;
      n < p * p * p && n / (p * p) == a && n / p % p == b && n % p == c
  {
    var m := a * p + b;
    RowBound(a, b, p, p);
    RowBound(m, c, p * p, p);
    DivModUnique(m, c, p);
    DivModUnique(a, b, p);
    ThreeDigits(m * p + c, p);
  }

  lemma SquareBound(b: nat, c: nat, p: nat)
    requires b < p && c < p
    ensures b * p + c < p * p
  {
    MulMono(b + 1, p, p);
  }

  lemma CubeBound(n: nat, p: nat)
    requires p > 0 && n < p * p * p
    ensures p * p > 0 && n / (p * p) < p
  {
  }

  // Division and remainder under names that a proof can hide.

  function Div(n: nat, d: nat): nat
    requires d > 0
  {
    n / d
  }

  function Mod(n: nat, d: nat): (r: nat)
    requires d > 0
    ensures r < d
  {
    n % d
  }

  /** The bytes of one chunk of a block are consecutive positions. */
  lemma InChunk(k: nat, pos: nat, d: nat, n: nat)
    requires d > 0 && Mod(pos, d) + n <= d
    ensures (Div(k, d) == Div(pos, d) && Mod(pos, d) <= Mod(k, d) < Mod(pos, d) + n) <==> pos <= k < pos + n
    ensures pos <= k < pos + n ==> Mod(k, d) - Mod(pos, d) == k - pos
  {
    DivMod(k, d);
    DivMod(pos, d);
    if pos <= k < pos + n {
      DivModUnique(pos / d, pos % d + (k - pos), d);
    }
  }

  /** Records of a size that divides the block size never straddle two blocks. */
  lemma NoStraddle(i: nat, size: nat, d: nat)
    requires size > 0 && d > 0 && d % size == 0
    ensures i * size % d + size <= d
  {
    var m := d / size;
    DivMod(d, size);
    assert m > 0;
    var q, r := i / m, i % m;
    DivMod(i, m);
    MulMono(r + 1, m, size);
    assert (r + 1) * size == r * size + size;
    Scale(q, m, r, size);
    DivModUnique(q, r * size, d);
  }

  lemma Scale(q: nat, m: nat, r: nat, size: nat)
    ensures (q * m + r) * size == q * (m * size) + r * size
  {
  }

  // Multiplication and division by repeated addition, for predicates that the solver has
  // to look into often: they keep nonlinear terms out of its way.

  /** `k * d` */
  function Times(k: nat, d: nat): (r: nat)
  {
    if k == 0 then 0 else Times(k - 1, d) + d
  }

  /** `n / d` */
  function Quot(n: nat, d: nat): (r: nat)
  {
    if n < d || d == 0 then 0 else 1 + Quot(n - d, d)
  }

  /** `n % d` */
  function Rem(n: nat, d: nat): (r: nat)
    ensures d > 0 ==> r < d
  {
    if n < d || d == 0 then n else Rem(n - d, d)
  }

  lemma {:induction false} TimesIsMul(k: nat, d: nat)
    ensures Times(k, d) == k * d
  {
    if k > 0 {
      TimesIsMul(k - 1, d);
      assert k * d == (k - 1) * d + d;
    }
  }

  lemma {:induction false} TimesMono(a: nat, b: nat, d: nat)
    requires a <= b
    ensures Times(a, d) <= Times(b, d)
  {
    if a < b {
      TimesMono(a, b - 1, d);
    }
  }

  lemma {:induction false} QuotRem(n: nat, d: nat)
    requires d > 0
    ensures n == Times(Quot(n, d), d) + Rem(n, d)
    ensures Quot(n, d) == n / d && Rem(n, d) == n % d
  {
    if n >= d {
      QuotRem(n - d, d);
    }
    TimesIsMul(Quot(n, d), d);
    DivModUnique(Quot(n, d), Rem(n, d), d);
  }

  lemma QuotRemUnique(q: nat, r: nat, d: nat)
    requires r < d
    ensures Quot(Times(q, d) + r, d) == q && Rem(Times(q, d) + r, d) == r
  {
    TimesIsMul(q, d);
    QuotRem(Times(q, d) + r, d);
    DivModUnique(q, r, d);
  }

  lemma QuotLess(n: nat, k: nat, d: nat)
    requires d > 0 && n < Times(k, d)
    ensures Quot(n, d) < k
  {
  }
}
