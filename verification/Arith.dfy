/** Products and quotients whose factors are not constants, and powers of two.

    Mul, Div and Mod are `*`, `/` and `%` on naturals. They are spelled by repetition so
    that a proof meets the facts about them only where it asks for them. */
module Arith {

  function Mul(a: nat, b: nat): nat {
    if a == 0 then 0 else b + Mul(a - 1, b)
  }

  function Div(x: nat, d: nat): nat
    requires d > 0
  {
    if x < d then 0 else 1 + Div(x - d, d)
  }

  function Mod(x: nat, d: nat): (r: nat)
    requires d > 0
    ensures r < d
  {
    if x < d then x else Mod(x - d, d)
  }

  lemma {:induction false} MulIsProduct(a: nat, b: nat)
    ensures Mul(a, b) == a * b
  {
    if a > 0 {
      MulIsProduct(a - 1, b);
      assert a * b == (a - 1) * b + b;
    }
  }

  lemma MulComm(a: nat, b: nat)
    ensures Mul(a, b) == Mul(b, a)
  {
    MulIsProduct(a, b);
    MulIsProduct(b, a);
  }

  lemma {:induction false} DivMod(x: nat, d: nat)
    requires d > 0
    ensures x == Mul(Div(x, d), d) + Mod(x, d)
  {
    if x >= d {
      DivMod(x - d, d);
    }
  }

  /** Quotient and remainder are the only pair that recomposes. */
  lemma {:induction false} DivModUnique(x: nat, d: nat, q: nat, r: nat)
    requires d > 0 && r < d && x == Mul(q, d) + r
    ensures Div(x, d) == q && Mod(x, d) == r
    decreases q
  {
    if q > 0 {
      DivModUnique(x - d, d, q - 1, r);
    }
  }

  /** Div and Mod are the language's own operators. */
  lemma DivIsQuotient(x: nat, d: nat)
    requires d > 0
    ensures Div(x, d) == x / d && Mod(x, d) == x % d
  {
    QuotientBounds(x, d);
    MulIsProduct(x / d, d);
    DivModUnique(x, d, x / d, x % d);
  }

  lemma QuotientBounds(x: nat, d: nat)
    requires d > 0
    ensures x == x / d * d + x % d && 0 <= x % d < d && x / d >= 0
  {}

  lemma MulDiv(q: nat, d: nat)
    requires d > 0
    ensures Div(Mul(q, d), d) == q && Mod(Mul(q, d), d) == 0
  {
    DivModUnique(Mul(q, d), d, q, 0);
  }

  lemma {:induction false} MulMono(a: nat, b: nat, d: nat)
    ensures a <= b ==> Mul(a, d) <= Mul(b, d)
  {
    if 0 < a <= b {
      MulMono(a - 1, b - 1, d);
    }
  }

  lemma MulOne(d: nat)
    ensures Mul(1, d) == d
  {
    assert Mul(0, d) == 0;
  }

  lemma MulNext(n: nat, d: nat)
    ensures Mul(n + 1, d) == Mul(n, d) + d
  {}

  /** An element of block x lies before the end of block y when x comes before y. */
  lemma MulBound(x: nat, y: nat, d: nat, r: nat)
    requires r < d
    ensures x < y ==> Mul(x, d) + r < Mul(y, d)
  {
    assert Mul(x + 1, d) == d + Mul(x, d);
    MulMono(x + 1, y, d);
  }

  lemma {:induction false} MulSum(a: nat, b: nat, d: nat)
    ensures Mul(a + b, d) == Mul(a, d) + Mul(b, d)
  {
    if a > 0 {
      MulSum(a - 1, b, d);
    }
  }

  lemma {:induction false} MulAssoc(a: nat, b: nat, c: nat)
    ensures Mul(Mul(a, b), c) == Mul(a, Mul(b, c))
  {
    if a > 0 {
      MulAssoc(a - 1, b, c);
      MulSum(b, Mul(a - 1, b), c);
    }
  }

  /** A multiple of a multiple of k is a multiple of k. */
  lemma {:induction false} MulMultiple(n: nat, d: nat, k: nat)
    requires k > 0 && d % k == 0
    ensures Mul(n, d) % k == 0
  {
    if n > 0 {
      MulMultiple(n - 1, d, k);
      AddMultiples(d, Mul(n - 1, d), k);
    }
  }

  lemma AddMultiples(a: nat, b: nat, k: nat)
    requires k > 0 && a % k == 0 && b % k == 0
    ensures (a + b) % k == 0
  {
    MulIsProduct(a / k + b / k, k);
    DivModUnique(a + b, k, a / k + b / k, 0);
    DivIsQuotient(a + b, k);
  }

  lemma {:induction false} ModLess(x: nat, d: nat)
    requires d > 0
    ensures Mod(x, d) <= x
  {
    if x >= d {
      ModLess(x - d, d);
    }
  }

  lemma {:induction false} DivMono(x: nat, y: nat, d: nat)
    requires d > 0 && x <= y
    ensures Div(x, d) <= Div(y, d)
  {
    if x >= d {
      DivMono(x - d, y - d, d);
    }
  }

  lemma DivLess(x: nat, q: nat, d: nat)
    requires d > 0
    ensures x < Mul(q, d) ==> Div(x, d) < q
  {
    DivMod(x, d);
    MulMono(q, Div(x, d), d);
  }

  function Pow2(n: nat): (p: nat)
    ensures p >= 1
  {
    if n == 0 then 1 else 2 * Pow2(n - 1)
  }

  lemma {:induction false} Pow2Sum(a: nat, b: nat)
    ensures Pow2(a + b) == Mul(Pow2(a), Pow2(b))
  {
    if a == 0 {
      MulOne(Pow2(b));
    } else {
      Pow2Sum(a - 1, b);
      MulSum(Pow2(a - 1), Pow2(a - 1), Pow2(b));
    }
  }

  lemma {:induction false} Pow2Mono(a: nat, b: nat)
    requires a <= b
    ensures Pow2(a) <= Pow2(b)
  {
    if a < b {
      Pow2Mono(a, b - 1);
    }
  }

  lemma Pow2Values()
    ensures Pow2(8) == 256 && Pow2(9) == 512 && Pow2(12) == 4096 && Pow2(13) == 8192
    ensures Pow2(62) == 0x4000_0000_0000_0000
  {
    assert Pow2(4) == 16;
    assert Pow2(8) == 256;
    assert Pow2(12) == 4096;
    Pow2Product(8, 8);
    Pow2Product(16, 16);
    Pow2Product(32, 16);
    Pow2Product(48, 8);
    Pow2Product(56, 4);
    Pow2Product(60, 2);
  }

  lemma Pow2Product(a: nat, b: nat)
    ensures Pow2(a + b) == Pow2(a) * Pow2(b)
  {
    Pow2Sum(a, b);
    MulIsProduct(Pow2(a), Pow2(b));
  }
}
