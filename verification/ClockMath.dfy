// The truncating 32-bit arithmetic of the clock computation against the exact quotient.
module ClockMath {

  const WORD := 0x1_0000_0000

  /** Powers of two used by the prescaler shifts. */
  function Pow2(h: nat): (r: nat)
    ensures r >= 1
  {
    if h == 0 then 1 else 2 * Pow2(h - 1)
  }

  /** `x >> h` on an unsigned word. */
  function ShiftRight(x: nat, h: nat): nat {
    QuotientIsNat(x, Pow2(h));
    x / Pow2(h)
  }

  lemma QuotientIsNat(x: nat, d: nat)
    requires d > 0
    ensures x / d >= 0
  {
  }

  /** `((source / m) * n) / p >> h`, the multiplication wrapping at 32 bits. */
  function Computed(source: nat, m: nat, n: nat, p: nat, h: nat): nat
    requires m > 0 && p > 0
  {
    ShiftRight((source / m) * n % WORD / p, h)
  }

  lemma Assoc(a: nat, b: nat, c: nat)
    ensures (a * b) * c == a * (b * c)
  {
  }

  lemma Distribute(a: nat, b: int, c: int)
    ensures a * (b + c) == a * b + a * c
  {
  }

  lemma Monotone(a: nat, x: int, y: int)
    requires x <= y
    ensures a * x <= a * y
  {
  }

  lemma DivBounds(x: nat, d: nat)
    requires d > 0
    ensures d * (x / d) <= x < d * (x / d) + d
  {
  }

  lemma QuotientIs(x: nat, d: nat, q: nat)
    requires d > 0 && d * q <= x < d * q + d
    ensures x / d == q
  {
    var r := x / d;
    DivBounds(x, d);
    Distribute(d, r, 1);
    Distribute(d, q, 1);
    if r < q {
      Monotone(d, r + 1, q);
    } else if q < r {
      Monotone(d, q + 1, r);
    }
  }

  lemma DivDiv(x: nat, a: nat, b: nat)
    requires a > 0 && b > 0
    ensures a * b > 0 && x / a / b == x / (a * b)
  {
    var y := x / a;
    var q := y / b;
    DivBounds(x, a);
    DivBounds(y, b);
    Assoc(a, b, q);
    Monotone(a, b * q, y);
    Monotone(a, y, b * q + (b - 1));
    Distribute(a, b * q, b - 1);
    Distribute(a, b, -1);
    QuotientIs(x, a * b, q);
  }

  lemma SmallIsNotWrapped(x: nat)
    requires x < WORD
    ensures x % WORD == x
  {
  }

  /** Without wrap-around the computed clock is the truncated quotient of the truncated PLL input. */
  lemma ComputedIsQuotient(source: nat, m: nat, n: nat, p: nat, h: nat)
    requires m > 0 && p > 0
    requires (source / m) * n < WORD
    ensures p * Pow2(h) > 0
    ensures Computed(source, m, n, p, h) == (source / m) * n / (p * Pow2(h))
  {
    SmallIsNotWrapped((source / m) * n);
    DivDiv((source / m) * n, p, Pow2(h));
  }

  /** Multiplying the truncated input by n loses less than n of source*n/m. */
  lemma ProductBounds(source: nat, m: nat, n: nat)
    requires m > 0
    ensures var k := source / m;
            m * (k * n) <= source * n <= m * (k * n) + (m - 1) * n
  {
    var k := source / m;
    DivBounds(source, m);
    Assoc(m, k, n);
    Monotone(n, m * k, source);
    Monotone(n, source, m * k + (m - 1));
    Distribute(n, m * k, m - 1);
  }

  /** Dividing the product by d and taking the quotient m*d times loses less than m*d more. */
  lemma QuotientBounds(x: nat, m: nat, d: nat)
    requires m > 0 && d > 0
    ensures (x / d) * (m * d) <= m * x <= (x / d) * (m * d) + m * (d - 1)
  {
    var c := x / d;
    DivBounds(x, d);
    Assoc(m, d, c);
    Monotone(m, d * c, x);
    Monotone(m, x, d * c + (d - 1));
    Distribute(m, d * c, d - 1);
  }

  /** The computed clock c is never above the exact clock source*n / (m*d), and below it by less than n/d + 1,
      where d = p*2^h. Both sides are multiplied by m*d. */
  lemma ComputedBounds(source: nat, m: nat, n: nat, p: nat, h: nat)
    requires m > 0 && p > 0
    requires (source / m) * n < WORD
    ensures var c, d := Computed(source, m, n, p, h), p * Pow2(h);
            c * (m * d) <= source * n && source * n < c * (m * d) + m * n + m * d
  {
    var x, d := (source / m) * n, p * Pow2(h);
    ComputedIsQuotient(source, m, n, p, h);
    ProductBounds(source, m, n);
    QuotientBounds(x, m, d);
    Distribute(m, d, -1);
    Distribute(n, m, -1);
  }

  /** It is exact when m divides the source and p*2^h divides the product. */
  lemma ComputedExact(source: nat, m: nat, n: nat, p: nat, h: nat)
    requires m > 0 && p > 0
    requires (source / m) * n < WORD
    requires source % m == 0
    requires p * Pow2(h) > 0 && (source / m) * n % (p * Pow2(h)) == 0
    ensures Computed(source, m, n, p, h) * (m * (p * Pow2(h))) == source * n
  {
    var k, d := source / m, p * Pow2(h);
    var x := k * n;
    ComputedIsQuotient(source, m, n, p, h);
    assert source == m * k;
    assert x == d * (x / d);
    Assoc(m, d, x / d);
    Assoc(m, k, n);
  }

  /** The wrapped computation equals the unwrapped one exactly when nothing wraps. */
  lemma WrapAlwaysShows(source: nat, m: nat, n: nat, p: nat, h: nat)
    requires m > 0 && p > 0 && 0 < p * Pow2(h) <= WORD
    ensures Computed(source, m, n, p, h) == (source / m) * n / (p * Pow2(h)) <==> (source / m) * n < WORD
  {
    var x, d := (source / m) * n, p * Pow2(h);
    if x < WORD {
      ComputedIsQuotient(source, m, n, p, h);
    } else {
      DivDiv(x % WORD, p, Pow2(h));
      WrappedIsLess(x, d);
    }
  }

  lemma WrappedIsLess(x: nat, d: nat)
    requires 0 < d <= WORD <= x
    ensures x % WORD / d < x / d
  {
    var y := x % WORD;
    assert y + d <= x;
    DivBounds(y, d);
    DivBounds(x, d);
    if x / d <= y / d {
      Monotone(d, x / d, y / d);
    }
  }

  /** With N at most 432, a PLL input of at most 9942053 Hz never wraps. */
  lemma InputBoundPreventsWrap(source: nat, m: nat, n: nat)
    requires m > 0 && n <= 432 && source / m <= 9942053
    ensures (source / m) * n < WORD
  {
    Monotone(source / m, n, 432);
  }
}
