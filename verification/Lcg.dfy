/** The controller's pseudo-random generator and the Access Addresses drawn from it:
    a linear congruential generator modulo 2^32 whose low k bits have period exactly 2^k. */
module Lcg {
  import opened Wire

  const MODULUS: nat := 0x1_0000_0000
  const MULTIPLIER: nat := 1664525
  const INCREMENT: nat := 1013904223

  /** One draw: 32-bit wrap-around arithmetic. */
  function Next(x: nat): (r: nat)
    ensures r < MODULUS
  {
    (x * MULTIPLIER + INCREMENT) % MODULUS
  }

  /** The n-th value drawn from a seed. */
  function Draw(seed: nat, n: nat): nat {
    if n == 0 then seed else Next(Draw(seed, n - 1))
  }

  function FlipLowBit(c: nat): nat {
    if c % 2 == 0 then c + 1 else c - 1
  }

  /** The Access Address made of a drawn value: bit 31 cleared, bit 22 set, and the lowest
      bit flipped should the result be the advertising address. */
  function AccessAddr(r: nat): nat {
    var c := r % 0x40_0000 + 0x40_0000 + 0x80_0000 * (r / 0x80_0000 % 0x100);
    if c == ADV_ACCESS_ADDR then FlipLowBit(c) else c
  }

  // ------------------------------------------------------------- powers of two

  function Pow2(k: nat): (r: nat)
    ensures r > 0
  {
    if k == 0 then 1 else 2 * Pow2(k - 1)
  }

  /** 2^k divides n. */
  predicate Halves(k: nat, n: int) {
    k == 0 || (n % 2 == 0 && Halves(k - 1, n / 2))
  }

  lemma MulBounds(d: nat, q: int)
    ensures q >= 1 ==> d * q >= d
    ensures q <= -1 ==> d * q <= 0 - d
  {
    if q >= 1 {
      assert d * (q - 1) >= 0;
    } else if q <= -1 {
      assert d * (-q - 1) >= 0;
    }
  }

  /** Quotient and remainder are what they look like. */
  lemma QuotRem(n: int, d: nat, q: int, r: nat)
    requires d > 0 && n == d * q + r && r < d
    ensures n / d == q && n % d == r
  {
    var e := n / d - q;
    assert n == d * (n / d) + n % d;
    assert d * e == d * (n / d) - d * q;
    MulBounds(d, e);
  }

  lemma HalfMod(n: int, d: nat)
    requires d > 0
    ensures n % (2 * d) == 0 <==> n % 2 == 0 && n / 2 % d == 0
  {
    var q, r := n / 2 / d, n / 2 % d;
    assert n / 2 == d * q + r;
    TwiceTimes(d, q);
    QuotRem(n, 2 * d, q, 2 * r + n % 2);
  }

  /** The recursive form of divisibility is the usual one. */
  lemma {:induction false} HalvesIsMod(k: nat, n: int)
    ensures Halves(k, n) <==> n % Pow2(k) == 0
  {
    if k > 0 {
      HalvesIsMod(k - 1, n / 2);
      HalfMod(n, Pow2(k - 1));
    }
  }

  lemma {:induction false} HalvesSum(k: nat, a: int, b: int)
    requires Halves(k, a)
    ensures Halves(k, a + b) <==> Halves(k, b)
  {
    if k > 0 {
      assert (a + b) / 2 == a / 2 + b / 2;
      HalvesSum(k - 1, a / 2, b / 2);
    }
  }

  lemma {:induction false} HalvesFewer(j: nat, k: nat, n: int)
    requires j <= k && Halves(k, n)
    ensures Halves(j, n)
  {
    if j > 0 {
      HalvesFewer(j - 1, k - 1, n / 2);
    }
  }

  lemma HalvesDouble(k: nat, n: int)
    ensures Halves(k + 1, 2 * n) <==> Halves(k, n)
  {
  }

  lemma TwiceTimes(a: int, q: int)
    ensures (2 * a) * q == 2 * (a * q)
  {
  }

  lemma {:induction false} HalvesMultiple(k: nat, q: int, n: int)
    requires n == Pow2(k) * q
    ensures Halves(k, n)
  {
    if k > 0 {
      var m := Pow2(k - 1) * q;
      TwiceTimes(Pow2(k - 1), q);
      HalvesMultiple(k - 1, q, m);
      HalvesDouble(k - 1, m);
    }
  }

  lemma OddTimes(a: int, o: int)
    requires o % 2 == 1
    ensures (a * o) % 2 == a % 2
  {
    var q := o / 2;
    assert o == 2 * q + 1;
    assert a * o == 2 * (a * q) + a;
  }

  /** An odd factor does not change divisibility by a power of two. */
  lemma {:induction false} OddCofactor(k: nat, a: int, o: int)
    requires o % 2 == 1
    ensures Halves(k, a * o) <==> Halves(k, a)
  {
    if k > 0 {
      OddTimes(a, o);
      if a % 2 == 0 {
        var b := a / 2;
        TwiceTimes(b, o);
        OddCofactor(k - 1, b, o);
        HalvesDouble(k - 1, b);
        HalvesDouble(k - 1, b * o);
      }
    }
  }

  // ---------------------------------------------------- the generator unreduced

  function Power(n: nat): nat {
    if n == 0 then 1 else MULTIPLIER * Power(n - 1)
  }

  /** 1 + a + a^2 + ... , n terms. */
  function Geometric(n: nat): nat {
    if n == 0 then 0 else MULTIPLIER * Geometric(n - 1) + 1
  }

  lemma {:induction false} PowerAdd(m: nat, n: nat)
    ensures Power(m + n) == Power(m) * Power(n)
  {
    if m > 0 {
      PowerAdd(m - 1, n);
      assert Power(m + n) == MULTIPLIER * (Power(m - 1) * Power(n));
    }
  }

  lemma Remainder4(x: nat, p: nat)
    ensures (4 * x + p) % 4 == p % 4
  {
  }

  lemma Remainder2(x: nat, g: nat, m: nat)
    requires g % 2 == m % 2
    ensures (2 * x + g + 1) % 2 == (m + 1) % 2
  {
  }

  lemma OneMod4(p: nat)
    requires p % 4 == 1
    ensures MULTIPLIER * p % 4 == 1
  {
    var x := 416131 * p;
    assert MULTIPLIER * p == 4 * x + p;
    Remainder4(x, p);
  }

  /** The multiplier is 1 modulo 4, and so are its powers. */
  lemma {:induction false} PowerMod4(n: nat)
    ensures Power(n) % 4 == 1
  {
    if n > 0 {
      PowerMod4(n - 1);
      OneMod4(Power(n - 1));
    }
  }

  lemma Distribute(c: nat, p: nat, g: nat, h: nat)
    ensures c * (p * g + h) == (c * p) * g + c * h
  {
    assert c * (p * g) == (c * p) * g;
  }

  lemma {:induction false} GeometricAdd(m: nat, n: nat)
    ensures Geometric(m + n) == Power(m) * Geometric(n) + Geometric(m)
  {
    if m > 0 {
      GeometricAdd(m - 1, n);
      Distribute(MULTIPLIER, Power(m - 1), Geometric(n), Geometric(m - 1));
      assert Geometric(m + n) == MULTIPLIER * Geometric(m - 1 + n) + 1;
    }
  }

  lemma OddStep(g: nat, m: nat)
    requires g % 2 == m % 2
    ensures (MULTIPLIER * g + 1) % 2 == (m + 1) % 2
  {
    var x := 832262 * g;
    assert MULTIPLIER * g + 1 == 2 * x + g + 1;
    Remainder2(x, g, m);
  }

  lemma {:induction false} GeometricParity(n: nat)
    ensures Geometric(n) % 2 == n % 2
  {
    if n > 0 {
      GeometricParity(n - 1);
      OddStep(Geometric(n - 1), n - 1);
    }
  }

  lemma GeometricDouble(j: nat)
    ensures Geometric(2 * j) == Geometric(j) * (Power(j) + 1)
  {
    GeometricAdd(j, j);
    assert Geometric(j) * (Power(j) + 1) == Power(j) * Geometric(j) + Geometric(j);
  }

  lemma HalfIsOdd(p: nat) returns (o: nat)
    requires p % 4 == 1
    ensures p + 1 == 2 * o && o % 2 == 1
  {
    o := (p + 1) / 2;
  }

  lemma GeometricFactor(j: nat) returns (o: nat)
    ensures o % 2 == 1 && Geometric(2 * j) == 2 * (Geometric(j) * o)
  {
    GeometricDouble(j);
    PowerMod4(j);
    o := HalfIsOdd(Power(j));
    TwiceTimes(o, Geometric(j));
  }

  /** The sum of n powers of the multiplier has exactly as many factors of two as n. */
  lemma {:induction false} GeometricHalves(k: nat, n: nat)
    ensures Halves(k, Geometric(n)) <==> Halves(k, n)
  {
    if k > 0 {
      GeometricParity(n);
      if n % 2 == 0 {
        var j := n / 2;
        var o := GeometricFactor(j);
        GeometricHalves(k - 1, j);
        OddCofactor(k - 1, Geometric(j), o);
        HalvesDouble(k - 1, Geometric(j) * o);
        HalvesDouble(k - 1, j);
      }
    }
  }

  // -------------------------------------------------------------------- draws

  /** How far n draws move a state, up to multiples of the modulus. */
  function Stride(x: nat, n: nat): nat {
    Geometric(n) * ((MULTIPLIER - 1) * x + INCREMENT)
  }

  /** Up to a multiple of the modulus, the n-th draw is the state plus the stride. */
  lemma {:induction false} DrawIsStride(x: nat, n: nat) returns (q: int)
    ensures Draw(x, n) == x + Stride(x, n) + MODULUS * q
  {
    if n == 0 {
      q := 0;
    } else {
      var p := DrawIsStride(x, n - 1);
      var u := (MULTIPLIER - 1) * x + INCREMENT;
      var y, g := Draw(x, n - 1), Geometric(n - 1);
      var w := (y * MULTIPLIER + INCREMENT) / MODULUS;
      assert Draw(x, n) == y * MULTIPLIER + INCREMENT - MODULUS * w;
      StrideStep(x, g, u);
      q := MULTIPLIER * p - w;
    }
  }

  lemma StrideStep(x: nat, g: nat, u: nat)
    requires u == (MULTIPLIER - 1) * x + INCREMENT
    ensures (x + g * u) * MULTIPLIER + INCREMENT - x == (MULTIPLIER * g + 1) * u
  {
    assert (x + g * u) * MULTIPLIER == x * MULTIPLIER + MULTIPLIER * (g * u);
    assert (MULTIPLIER * g + 1) * u == MULTIPLIER * (g * u) + u;
  }

  lemma {:induction false} Pow2Add(j: nat, k: nat)
    ensures Pow2(j + k) == Pow2(j) * Pow2(k)
  {
    if j > 0 {
      Pow2Add(j - 1, k);
      assert Pow2(j + k) == 2 * (Pow2(j - 1) * Pow2(k));
    }
  }

  lemma Pow2Of32()
    ensures Pow2(32) == MODULUS && Pow2(22) == 0x40_0000
  {
    assert Pow2(8) == 256;
    Pow2Add(8, 8);
    Pow2Add(16, 16);
    assert Pow2(6) == 64;
    Pow2Add(16, 6);
  }

  lemma SameRemainder(d: nat, a: int, b: int)
    requires d > 0
    ensures a % d == b % d <==> (a - b) % d == 0
  {
    var p, q := a / d, b / d;
    assert a == d * p + a % d && b == d * q + b % d;
    if a % d == b % d {
      assert a - b == d * (p - q);
      QuotRem(a - b, d, p - q, 0);
    }
    if (a - b) % d == 0 {
      var r := (a - b) / d;
      assert a - b == d * r;
      assert a == d * (q + r) + b % d by {
        assert d * (q + r) == d * q + d * r;
      }
      QuotRem(a, d, q + r, b % d);
    }
  }

  lemma {:induction false} DrawAdd(x: nat, m: nat, n: nat)
    ensures Draw(x, m + n) == Draw(Draw(x, m), n)
  {
    if n > 0 {
      DrawAdd(x, m, n - 1);
    }
  }

  /** Full period modulo every power of two up to the modulus: the low k bits of two draws
      agree if and only if the draws are a multiple of 2^k apart. */
  lemma FullPeriod(seed: nat, i: nat, n: nat, k: nat)
    requires k <= 32
    ensures Draw(seed, i) % Pow2(k) == Draw(seed, i + n) % Pow2(k) <==> n % Pow2(k) == 0
  {
    DrawAdd(seed, i, n);
    StrideHalves(Draw(seed, i), n, k);
    RemainderIff(k, Draw(seed, i + n), Draw(seed, i));
    HalvesIsMod(k, n);
  }

  lemma RemainderIff(k: nat, a: int, b: int)
    ensures a % Pow2(k) == b % Pow2(k) <==> Halves(k, a - b)
  {
    SameRemainder(Pow2(k), a, b);
    HalvesIsMod(k, a - b);
  }

  lemma OddFactor(x: nat)
    ensures ((MULTIPLIER - 1) * x + INCREMENT) % 2 == 1
  {
    assert (MULTIPLIER - 1) * x == 2 * (832262 * x);
  }

  /** 2^k divides the distance that n draws cover exactly if it divides n. */
  lemma StrideHalves(x: nat, n: nat, k: nat)
    requires k <= 32
    ensures Halves(k, Draw(x, n) - x) <==> Halves(k, n)
  {
    OddFactor(x);
    OddCofactor(k, Geometric(n), (MULTIPLIER - 1) * x + INCREMENT);
    GeometricHalves(k, n);
    DrawHalves(x, n, k);
  }

  lemma DrawHalves(x: nat, n: nat, k: nat)
    requires k <= 32
    ensures Halves(k, Draw(x, n) - x) <==> Halves(k, Stride(x, n))
  {
    var q := DrawIsStride(x, n);
    var s, m := Stride(x, n), MODULUS * q;
    Pow2Of32();
    HalvesMultiple(32, q, m);
    HalvesFewer(k, 32, m);
    HalvesSum(k, m, s);
    assert Draw(x, n) - x == m + s;
  }

  // --------------------------------------------------------- Access Addresses

  /** An Access Address is never 0 and never the advertising address, fits 31 bits, has bit
      22 set, and keeps all other bits of the draw. */
  lemma AccessAddrShape(r: nat)
    ensures !Reserved(AccessAddr(r)) && AccessAddr(r) < 0x8000_0000
    ensures AccessAddr(r) % 0x40_0000 == r % 0x40_0000
    ensures AccessAddr(r) / 0x40_0000 % 2 == 1 && AccessAddr(r) / 0x80_0000 == r / 0x80_0000 % 0x100
  {
    var lo, hi := r % 0x40_0000, r / 0x80_0000 % 0x100;
    assert AccessAddr(r) == lo + 0x40_0000 * (1 + 2 * hi);
    Fields(lo, hi);
  }

  lemma Fields(lo: nat, hi: nat)
    requires lo < 0x40_0000 && hi < 0x100
    ensures var c := lo + 0x40_0000 * (1 + 2 * hi);
      c % 0x40_0000 == lo && c / 0x40_0000 == 1 + 2 * hi && c / 0x80_0000 == hi
  {
    var c := lo + 0x40_0000 * (1 + 2 * hi);
    QuotRem(c, 0x40_0000, 1 + 2 * hi, lo);
    QuotRem(c, 0x80_0000, hi, lo + 0x40_0000);
  }

  /** Two Access Addresses of one controller coincide only if they were made of draws a
      multiple of 2^22 apart; in particular never within 2^22 - 1 draws. */
  lemma AccessAddrsDistinct(seed: nat, i: nat, n: nat)
    requires AccessAddr(Draw(seed, i)) == AccessAddr(Draw(seed, i + n))
    ensures n % 0x40_0000 == 0
  {
    Pow2Of32();
    FullPeriod(seed, i, n, 22);
    AccessAddrShape(Draw(seed, i));
    AccessAddrShape(Draw(seed, i + n));
  }

  // ----------------------------------------------------------- two generators

  /** Reducing modulo 2^32 does not change the low k bits of a difference. */
  lemma ReducedDifference(k: nat, a: nat, b: nat)
    requires k <= 32
    ensures Halves(k, a % MODULUS - b % MODULUS) <==> Halves(k, a - b)
  {
    var q := b / MODULUS - a / MODULUS;
    var m := MODULUS * q;
    Pow2Of32();
    HalvesMultiple(32, q, m);
    HalvesFewer(k, 32, m);
    HalvesSum(k, m, a - b);
    assert a % MODULUS - b % MODULUS == m + (a - b);
  }

  lemma NextTogether(k: nat, x: nat, y: nat)
    requires k <= 32
    ensures Halves(k, Next(x) - Next(y)) <==> Halves(k, x - y)
  {
    var a, b := x * MULTIPLIER + INCREMENT, y * MULTIPLIER + INCREMENT;
    ReducedDifference(k, a, b);
    assert a - b == (x - y) * MULTIPLIER;
    OddCofactor(k, x - y, MULTIPLIER);
  }

  lemma {:induction false} DrawsHalve(k: nat, x: nat, y: nat, n: nat)
    requires k <= 32
    ensures Halves(k, Draw(x, n) - Draw(y, n)) <==> Halves(k, x - y)
  {
    if n > 0 {
      DrawsHalve(k, x, y, n - 1);
      NextTogether(k, Draw(x, n - 1), Draw(y, n - 1));
    }
  }

  /** Two generators that have drawn equally often agree in their low k bits if and only if
      their seeds do. */
  lemma DrawsAgreeIff(x: nat, y: nat, n: nat, k: nat)
    requires k <= 32
    ensures Draw(x, n) % Pow2(k) == Draw(y, n) % Pow2(k) <==> x % Pow2(k) == y % Pow2(k)
  {
    DrawsHalve(k, x, y, n);
    RemainderIff(k, Draw(x, n), Draw(y, n));
    RemainderIff(k, x, y);
  }
}
