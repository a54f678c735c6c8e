/**
 * Just enough IEEE 754 double arithmetic for the one product whose rounding
 * reaches a decision: Math.floor(pot * 0.35) in the bot's calling price.
 * A double carries 53 significant bits, and a product is the exact product
 * rounded to the nearest double, ties to the even significand. Whole
 * numbers here are values scaled by 2^54, so no exponent limit is reached.
 */
module Doubles {

  /** 2 to the power e. */
  function Pow2(e: nat): (r: nat)
    ensures r >= 1
  {
    if e == 0 then 1 else 2 * Pow2(e - 1)
  }

  lemma {:induction false} Pow2Add(a: nat, b: nat)
    ensures Pow2(a + b) == Pow2(a) * Pow2(b)
  {
    if a > 0 {
      Pow2Add(a - 1, b);
      assert Pow2(a + b) == 2 * Pow2(a - 1 + b);
      assert 2 * (Pow2(a - 1) * Pow2(b)) == (2 * Pow2(a - 1)) * Pow2(b);
    }
  }

  lemma Pow2Mono(a: nat, b: nat)
    requires a <= b
    ensures Pow2(a) <= Pow2(b)
  {
    Pow2Add(a, b - a);
    assert Pow2(a) * Pow2(b - a) >= Pow2(a) * 1;
  }

  /** The powers of two that bound a double's significand. */
  lemma Pow2Literals()
    ensures Pow2(52) == 0x10_0000_0000_0000
    ensures Pow2(53) == 0x20_0000_0000_0000
    ensures Pow2(54) == 0x40_0000_0000_0000
  {
    Pow2Add(26, 26);
    Pow2Add(13, 13);
    assert Pow2(13) == 0x2000;
  }

  /** The exponent of x: the e with 2^e <= x < 2^(e+1). */
  function Log2(x: nat): (e: nat)
    requires x >= 1
    ensures Pow2(e) <= x < 2 * Pow2(e)
  {
    if x == 1 then 0 else 1 + Log2(x / 2)
  }

  lemma {:induction false} Log2Unique(x: nat, e: nat)
    requires Pow2(e) <= x < 2 * Pow2(e)
    ensures Log2(x) == e
  {
    if e > 0 {
      Log2Unique(x / 2, e - 1);
    }
  }

  lemma {:induction false} Log2AtLeast(x: nat, e: nat)
    requires x >= Pow2(e)
    ensures Log2(x) >= e
  {
    if e > 0 {
      Log2AtLeast(x / 2, e - 1);
    }
  }

  lemma {:induction false} Log2Below(x: nat, e: nat)
    requires 1 <= x < Pow2(e)
    ensures Log2(x) < e
  {
    if x > 1 {
      Log2Below(x / 2, e - 1);
    }
  }

  /** No power of two is a multiple of 7: their remainders cycle through 1, 2 and 4. */
  lemma {:induction false} Pow2NotSeven(e: nat)
    ensures Pow2(e) % 7 == 1 || Pow2(e) % 7 == 2 || Pow2(e) % 7 == 4
  {
    if e > 0 {
      Pow2NotSeven(e - 1);
    }
  }

  function Dist(a: int, b: int): nat
  {
    if a >= b then a - b else b - a
  }

  /**
   * The unit in the last place of the doubles near q, for q of at least 53
   * significant bits: 2^(e - 52), e the exponent of q.
   */
  function Ulp(q: nat): (u: nat)
    requires q >= 0x20_0000_0000_0000
    ensures 0x10_0000_0000_0000 * u <= q < 0x20_0000_0000_0000 * u
  {
    Pow2Literals();
    Log2AtLeast(q, 53);
    Pow2Shift52(Log2(q) - 52);
    Pow2(Log2(q) - 52)
  }

  lemma {:induction false} Pow2Shift52(n: nat)
    ensures Pow2(n + 52) == 0x10_0000_0000_0000 * Pow2(n)
  {
    if n == 0 {
      Pow2Literals();
    } else {
      Pow2Shift52(n - 1);
      assert Pow2(n + 52) == 2 * Pow2(n - 1 + 52);
    }
  }

  /**
   * The double nearest q, for a whole number q: q itself when it has at most
   * 53 significant bits; otherwise the nearer multiple of the unit in the
   * last place, the one with the even multiplier on a tie. The rounding
   * error is at most 2^-53 of q.
   */
  function RoundToDouble(q: nat): (r: nat)
    ensures 0x20_0000_0000_0000 * Dist(r, q) <= q
  {
    if q < 0x20_0000_0000_0000 then q
    else
      var u := Ulp(q);
      var rem := q % u;
      if 2 * rem < u || (2 * rem == u && (q / u) % 2 == 0) then q - rem else q - rem + u
  }

  /**
   * 0.35 as a double is 6305039478318694 / 2^54, a little below 0.35
   * (five times the numerator is 7 · 2^52 − 2). Math.floor(p * 0.35) is the
   * exact product rounded to a double, then floored.
   */
  function FloorTimes035(p: nat): nat
  {
    RoundToDouble(p * 6305039478318694) / 0x40_0000_0000_0000
  }

  /**
   * The pots whose product rounds below a whole number: 7p/20 is a whole
   * number x with 1.75 · 2^e < x < 2^(e+1), e the exponent of x. There the
   * stored 0.35's shortfall, (p / 10) · 2^-52, exceeds half a unit in the
   * last place of x.
   */
  predicate RoundsBelow(p: nat)
  {
    p > 0 && p % 20 == 0 && 4 * (7 * p / 20) > 7 * Pow2(Log2(7 * p / 20))
  }

  /** A nonzero multiple of u is at least u away from zero. */
  lemma {:induction false} MulAwayFromZero(u: int, c: int)
    requires u >= 0
    ensures c >= 1 ==> u * c >= u
    ensures c <= -1 ==> u * c <= -u
    decreases if c >= 0 then c else -c
  {
    if c > 1 {
      MulAwayFromZero(u, c - 1);
      assert u * c == u * (c - 1) + u;
    } else if c < -1 {
      MulAwayFromZero(u, c + 1);
      assert u * c == u * (c + 1) - u;
    }
  }

  /** The whole quotient and remainder of q by u, given them. */
  lemma DivModOf(q: int, u: nat, a: int, b: int)
    requires u > 0 && 0 <= b < u && q == u * a + b
    ensures q / u == a && q % u == b
  {
    var d := q / u;
    MulAwayFromZero(u, d - a);
    assert u * (d - a) == u * d - u * a;
  }

  /** 20 is coprime to 7: if 20 divides 7p it divides p. */
  lemma SevenTimesMod20(p: nat)
    ensures (7 * p) % 20 == 0 ==> p % 20 == 0
  {
    if (7 * p) % 20 == 0 {
      assert p == 20 * (3 * ((7 * p) / 20) - p);
    }
  }

  /**
   * Math.floor(p * 0.35) is 35p/100, except on the pots RoundsBelow names,
   * where it is one less (for pots below 2^40).
   */
  lemma FloorTimes035Exact(p: nat)
    requires p < 0x100_0000_0000
    ensures FloorTimes035(p) == 35 * p / 100 - (if RoundsBelow(p) then 1 else 0)
  {
    var q := p * 6305039478318694;
    var x := 7 * p / 20;
    assert 35 * p / 100 == x;
    assert 20 * q == 7 * p * 0x40_0000_0000_0000 - 8 * p;
    var r := RoundToDouble(q);
    if p % 20 != 0 {
      // the product is at least 1/20 away from a whole number, and the rounding moves it by less
      SevenTimesMod20(p);
      var f := 7 * p - 20 * x;
      assert 1 <= f < 20;
      assert Dist(r, q) < 0x100_0000_0000;
      assert x * 0x40_0000_0000_0000 <= r < (x + 1) * 0x40_0000_0000_0000;
    } else if p > 0 {
      RoundsBelowCase(p);
    }
  }

  /**
   * Rounding q = u·m − d, for u the unit in the last place of q, m even and
   * 0 < d < u: down to u·(m − 1) when d is over half a unit, else up to u·m
   * (on a tie u·m has the even multiplier).
   */
  lemma RoundNear(q: nat, u: nat, m: int, d: int)
    requires q >= 0x20_0000_0000_0000 && u == Ulp(q)
    requires m % 2 == 0 && 0 < d < u && q == u * m - d
    ensures RoundToDouble(q) == if 2 * d > u then u * m - u else u * m
  {
    assert u * (m - 1) == u * m - u;
    DivModOf(q, u, m - 1, u - d);
    OddBefore(m);
    var rem := q % u;
    assert rem == u - d;
    assert q - rem == u * m - u;
  }

  lemma OddBefore(m: int)
    requires m % 2 == 0
    ensures (m - 1) % 2 == 1
  {
  }

  lemma Regroup(x: int, u: int, w: int)
    ensures u * (x * w) == x * (u * w)
  {
  }

  lemma EvenTimes(x: int, h: int)
    ensures (x * (2 * h)) % 2 == 0
  {
    assert x * (2 * h) == 2 * (x * h);
  }

  /**
   * For x = 7k, the product x · 2^54 − 8k has exponent e + 54, e the exponent
   * of x, so its unit in the last place is 4 · 2^e, and 8k is less than that.
   */
  lemma MultipleOf20Ulp(k: nat)
    requires 0 < k < 0x100_0000_0000
    ensures 7 * k * 0x40_0000_0000_0000 - 8 * k >= 0x20_0000_0000_0000
    ensures Ulp(7 * k * 0x40_0000_0000_0000 - 8 * k) == 4 * Pow2(Log2(7 * k))
    ensures 8 * k < 4 * Pow2(Log2(7 * k)) && Log2(7 * k) < 52
  {
    var x := 7 * k;
    var e := Log2(x);
    SevenNotPow2(k, e);
    Pow2Literals();
    Log2Below(x, 52);
    ProductExponent(k, e);
  }

  /** 7k is never a power of two, so it lies strictly above 2^e, e its exponent. */
  lemma SevenNotPow2(k: nat, e: nat)
    requires Pow2(e) <= 7 * k
    ensures Pow2(e) < 7 * k
  {
    Pow2NotSeven(e);
    NotSevenTimes(Pow2(e), k);
  }

  lemma NotSevenTimes(a: nat, k: nat)
    requires a % 7 != 0
    ensures a != 7 * k
  {
    assert (7 * k) % 7 == 0;
  }

  lemma ProductExponent(k: nat, e: nat)
    requires k < 0x100_0000_0000 && Pow2(e) < 7 * k < 2 * Pow2(e)
    ensures Log2(7 * k * 0x40_0000_0000_0000 - 8 * k) == e + 54
    ensures Ulp(7 * k * 0x40_0000_0000_0000 - 8 * k) == 4 * Pow2(e)
  {
    var q := 7 * k * 0x40_0000_0000_0000 - 8 * k;
    var pe := Pow2(e);
    assert Pow2(e + 1) == 2 * pe;
    assert Pow2(e + 2) == 4 * pe;
    Pow2Shift52(e + 2);
    Pow2Literals();
    Log2Unique(q, e + 54);
  }

  /** x · 2^54 is an even number of units of 4 · 2^e, for e < 52. */
  lemma WholeUnits(x: nat, e: nat)
    requires e < 52
    ensures x * 0x40_0000_0000_0000 == Pow2(e + 2) * (x * Pow2(52 - e))
    ensures (x * Pow2(52 - e)) % 2 == 0
  {
    Pow2Literals();
    Pow2Add(e + 2, 52 - e);
    Regroup(x, Pow2(e + 2), Pow2(52 - e));
    EvenTimes(x, Pow2(51 - e));
  }

  /** The pots that are multiples of 20: the product lies just below x · 2^54, within one unit in the last place. */
  lemma RoundsBelowCase(p: nat)
    requires 0 < p < 0x100_0000_0000 && p % 20 == 0
    ensures FloorTimes035(p) == 7 * p / 20 - (if RoundsBelow(p) then 1 else 0)
  {
    var k := p / 20;
    var x := 7 * k;
    assert 7 * p / 20 == x;
    var q := p * 6305039478318694;
    assert q == x * 0x40_0000_0000_0000 - 8 * k;
    MultipleOf20Ulp(k);
    var e := Log2(x);
    WholeUnits(x, e);
    var u := 4 * Pow2(e);
    assert u == Pow2(e + 2);
    RoundNear(q, u, x * Pow2(52 - e), 8 * k);
  }

  /** 180 is the first pot where the floor falls short of 35p/100 (63). */
  lemma FloorTimes035At180()
    ensures FloorTimes035(180) == 62
  {
    assert Pow2(5) == 32;
    Log2Unique(63, 5);
    FloorTimes035Exact(180);
  }

  /** 340 is the next: 118 where 35p/100 is 119. */
  lemma FloorTimes035At340()
    ensures FloorTimes035(340) == 118
  {
    assert Pow2(6) == 64;
    Log2Unique(119, 6);
    FloorTimes035Exact(340);
  }

  /** 200 is a multiple of 20 whose product rounds up to 70 exactly. */
  lemma FloorTimes035At200()
    ensures FloorTimes035(200) == 70
  {
    assert Pow2(6) == 64;
    Log2Unique(70, 6);
    FloorTimes035Exact(200);
  }

  /** 181 is not a multiple of 20, and its product is 63.35 to within far less than 0.35. */
  lemma FloorTimes035At181()
    ensures FloorTimes035(181) == 63
  {
    FloorTimes035Exact(181);
  }
}
