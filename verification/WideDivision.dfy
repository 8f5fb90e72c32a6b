/** Restoring division of unsigned 128-bit integers, and the remainder computed from it. */
module WideDivision {
  import opened Arithmetic

  /** The modulus of 128-bit arithmetic. */
  const WIDE: nat := 0x1_0000_0000_0000_0000_0000_0000_0000_0000

  lemma Sixteen()
    ensures Pow2(4) == 16
  {
  }

  lemma WideIsPow2()
    ensures Pow2(128) == WIDE
  {
    hide Pow2;
    Sixteen();
    Pow2Add(4, 4);
    Pow2Add(8, 8);
    Pow2Add(16, 16);
    Pow2Add(32, 32);
    Pow2Add(64, 64);
    assert Pow2(8) == 0x100;
    assert Pow2(16) == 0x1_0000 && Pow2(32) == 0x1_0000_0000 && Pow2(64) == 0x1_0000_0000_0000_0000;
  }

  /** One more bit of a: halving the divisor doubles the quotient and appends the bit. */
  lemma NextBit(a: nat, p: nat)
    requires p >= 1
    ensures a / p == 2 * (a / (2 * p)) + a / p % 2
  {
    var h, m := a / (2 * p), a % (2 * p);
    assert a == h * (2 * p) + m;
    if m < p {
      QuotientUnique(a, p, 2 * h, m);
    } else {
      QuotientUnique(a, p, 2 * h + 1, m - p);
    }
  }

  /** After the bits of a above p: they divide as high and r, and q holds high in its upper bits. */
  ghost predicate Progress(a: nat, b: nat, p: nat, q: nat, high: nat, r: nat) {
    p >= 1 && q == high * p && a / p == high * b + r && r < b && q + p <= WIDE
  }

  /**
   The quotient, by 128 shift-and-subtract steps in 128-bit registers. The shift
   of the remainder never loses its top bit, because the remainder never exceeds
   the leading part of a, even for divisors above 2^127. Setting bit i of the
   quotient is an addition: all its bits up to i are still clear.
   */
  method UDivTi3(a: nat, b: nat) returns (q: nat)
    requires a < WIDE && b < WIDE
    ensures b == 0 ==> q == 0
    ensures b > 0 ==> q == a / b
  {
    hide Progress;
    if b == 0 {
      return 0;
    }
    q := 0;
    var r: nat := 0;
    var i := 127;
    ghost var high: nat, p: nat := 0, WIDE;
    WideIsPow2();
    Start(a, b);
    while i >= 0
      invariant -1 <= i <= 127 && p == Pow2(i + 1) && Progress(a, b, p, q, high, r)
    {
      var half := Pow2(i);
      OneStep(a, b, p, half, q, high, r);
      r := r * 2 % WIDE + a / half % 2;
      if r >= b {
        r := r - b;
        q := q + half;
        high := 2 * high + 1;
      } else {
        high := 2 * high;
      }
      p := half;
      i := i - 1;
    }
    Finish(a, b, q, high, r);
  }

  lemma Start(a: nat, b: nat)
    requires a < WIDE && b > 0
    ensures Progress(a, b, WIDE, 0, 0, 0)
  {
    QuotientUnique(a, WIDE, 0, a);
  }

  lemma Finish(a: nat, b: nat, q: nat, high: nat, r: nat)
    requires b > 0 && Progress(a, b, 1, q, high, r)
    ensures q == a / b
  {
    assert a / 1 == a && q == high;
    QuotientUnique(a, b, q, r);
  }

  lemma OneStep(a: nat, b: nat, p: nat, half: nat, q: nat, high: nat, r: nat)
    requires a < WIDE && half >= 1 && p == 2 * half && Progress(a, b, p, q, high, r)
    ensures r * 2 % WIDE == r * 2
    ensures var r' := r * 2 + a / half % 2;
      if r' >= b then Progress(a, b, half, q + half, 2 * high + 1, r' - b) else Progress(a, b, half, q, 2 * high, r')
  {
    ShiftFits(a, p, high, b, r);
    NextBit(a, half);
    assert (2 * high) * half == high * p && (2 * high + 1) * half == high * p + half;
    assert (2 * high) * b == 2 * (high * b) && (2 * high + 1) * b == 2 * (high * b) + b;
  }

  /** The remainder is at most the bits of a consumed so far, so doubling it stays in range. */
  lemma ShiftFits(a: nat, p: nat, high: nat, b: nat, r: nat)
    requires a < WIDE && p >= 2 && a / p == high * b + r
    ensures r * 2 < WIDE && r * 2 % WIDE == r * 2
  {
    var q := a / p;
    Below(0, high, b);
    Below(2, p, q);
    DivMod(a, p);
  }

  /** The remainder, in wrapping arithmetic; a itself when the divisor is zero. */
  method UModTi3(a: nat, b: nat) returns (r: nat)
    requires a < WIDE && b < WIDE
    ensures r == if b == 0 then a else a % b
  {
    var q := UDivTi3(a, b);
    r := (a - q * b % WIDE) % WIDE;
    if b > 0 {
      assert q * b <= a && a == q * b + a % b;
    }
  }
}
