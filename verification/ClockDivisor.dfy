/**
 The audio bit clock: a divisor with twelve fractional bits, computed in 32-bit
 arithmetic and packed into one register.
 */
module ClockDivisor {
  import opened Arithmetic

  const MOD: nat := 0x1_0000_0000
  const PLLD: nat := 750000000
  const BASE: nat := PLLD / (32 * 2)
  const PASSWD: nat := 0x5A000000

  const CTL: nat := 0x101098
  const DIV: nat := 0x10109C

  function Wrap(n: nat): nat { n % MOD }

  /** Bitwise or. */
  function Or(a: nat, b: nat): (n: nat)
    decreases a + b
  {
    if a == 0 then b
    else if b == 0 then a
    else (if a % 2 == 1 || b % 2 == 1 then 1 else 0) + 2 * Or(a / 2, b / 2)
  }

  /** The divisor that the clock should have: 4096 * BASE / rate, rounded half up. */
  function Nearest(rate: nat): nat
    requires rate > 0
  {
    (2 * 4096 * BASE + rate) / (2 * rate)
  }

  /** The intermediate product and sum stay within 32 bits. */
  predicate Fits(rate: nat)
    requires rate > 0
  {
    BASE % rate * 4096 + rate / 2 < MOD
  }

  /** The divisor that 32-bit arithmetic arrives at. */
  function Computed(rate: nat): nat
    requires rate > 0
  {
    var whole: nat, rem: nat, half: nat := BASE / rate, BASE % rate, rate / 2;
    var sum := Wrap(rem * 4096 + half);
    var fraction: nat := sum / rate;
    4096 * whole + fraction
  }

  /** The numbers above: 11718750 times 64 bits a second, and the two registers; the fraction alone is spoilt by wrapping. */
  lemma Sizes(rate: nat)
    requires rate > 0
    ensures BASE == 11718750 && MOD == 4294967296 && CTL == 0x101098 && DIV == 0x10109C && PASSWD == 0x5A000000
    ensures Computed(rate) == 4096 * (11718750 / rate) + (11718750 % rate * 4096 + rate / 2) % 4294967296 / rate
    ensures Fits(rate) <==> 11718750 % rate * 4096 + rate / 2 < 4294967296
  {
  }

  method Divide(rate: nat) returns (divi: nat, divf: nat)
    requires 0 < rate < MOD
    ensures divf < 4096
    ensures 4096 * divi + divf == Nearest(rate) <==> Fits(rate)
    ensures divi == BASE / rate || (divi == BASE / rate + 1 && divf == 0)
    ensures 4096 * divi + divf == Computed(rate)
  {
    hide Nearest, Wrap;
    divi := BASE / rate;
    var rem := BASE % rate;
    divf := Wrap(Wrap(rem * 4096) + rate / 2) / rate;
    ghost var exact := rem * 4096 + rate / 2;
    WrapTwice(rem * 4096, rate / 2);
    WrapShrinks(exact);
    FractionBound(rem, rate);
    QuotientGrows(Wrap(exact), exact, rate);
    NearestSplits(rate);
    if exact >= MOD {
      WrapLoses(exact, rate);
    }
    if divf > 4095 {
      divi, divf := divi + 1, 0;
    }
  }

  lemma WrapTwice(a: nat, b: nat)
    ensures Wrap(Wrap(a) + b) == Wrap(a + b)
  {
  }

  lemma WrapShrinks(n: nat)
    ensures Wrap(n) <= n && (n < MOD <==> Wrap(n) == n)
  {
  }

  /** The fraction never exceeds 4096, which is the carry. */
  lemma FractionBound(rem: nat, rate: nat)
    requires rem < rate
    ensures (rem * 4096 + rate / 2) / rate <= 4096
  {
    var t := rem * 4096 + rate / 2;
    DivMod(t, rate);
    if t / rate > 4096 {
      Below(4097, t / rate, rate);
    }
  }

  lemma QuotientGrows(n: nat, m: nat, d: nat)
    requires n <= m && d > 0
    ensures n / d <= m / d
  {
    var a, b := n / d, m / d;
    DivMod(n, d);
    DivMod(m, d);
    if a > b { Below(b + 1, a, d); }
  }

  /** Nearest is the integer quotient and the rounded fraction together. */
  lemma NearestSplits(rate: nat)
    requires rate > 0
    ensures Nearest(rate) == 4096 * (BASE / rate) + (BASE % rate * 4096 + rate / 2) / rate
  {
    RoundingSplits(BASE, rate);
  }

  lemma RoundingSplits(base: nat, rate: nat)
    requires rate > 0
    ensures (2 * 4096 * base + rate) / (2 * rate) == 4096 * (base / rate) + (base % rate * 4096 + rate / 2) / rate
  {
    var i, rem := base / rate, base % rate;
    var t := rem * 4096 + rate / 2;
    var f := t / rate;
    DivMod(base, rate);
    DivMod(t, rate);
    Spread(i, f, rate);
    var n := 2 * 4096 * base + rate;
    var r := n - (4096 * i + f) * (2 * rate);
    assert r == 2 * (t - f * rate) + rate % 2;
    QuotientUnique(n, 2 * rate, 4096 * i + f, r);
  }

  lemma Spread(i: nat, f: nat, rate: nat)
    ensures (4096 * i + f) * (2 * rate) == 2 * (4096 * (i * rate) + f * rate)
  {
  }

  /** A wrapped numerator gives a smaller quotient. */
  lemma WrapLoses(n: nat, rate: nat)
    requires n >= MOD && 0 < rate < MOD
    ensures Wrap(n) / rate < n / rate
  {
    var w := Wrap(n);
    assert w + rate <= n;
    var a, b := w / rate, n / rate;
    assert w == a * rate + w % rate && n == b * rate + n % rate;
    if b <= a {
      Below(b, a, rate);
    }
  }

  /** Rates up to 1065340 never wrap; the next one does. */
  lemma FitsBelow(rate: nat)
    requires 0 < rate <= 1065340
    ensures Fits(rate) && !Fits(1065341)
  {
    if rate > 1048448 {
      QuotientUnique(BASE, rate, 11, BASE - 11 * rate);
    }
  }

  /** The divisor is off by at most half a unit. */
  lemma ErrorAtMostHalf(rate: nat)
    requires rate > 0
    ensures -(rate as int) <= 2 * (Nearest(rate) * rate - 4096 * BASE) <= rate
  {
    var n := 2 * 4096 * BASE + rate;
    var q := n / (2 * rate);
    assert n == q * (2 * rate) + n % (2 * rate);
    assert q * (2 * rate) == 2 * (q * rate);
  }

  /** A faster rate never gets a larger divisor. */
  lemma NearestFalls(slow: nat, fast: nat)
    requires 0 < slow <= fast
    ensures Nearest(fast) <= Nearest(slow)
  {
    var n := 2 * 4096 * BASE;
    var a, b := Nearest(slow), Nearest(fast);
    if b > a {
      assert n + slow < a * (2 * slow) + 2 * slow;
      assert b * (2 * fast) <= n + fast;
      Scale(b, slow, fast);
      Below(a + 1, b, 2 * slow);
    }
  }

  lemma Scale(b: nat, slow: nat, fast: nat)
    requires b >= 1 && slow <= fast
    ensures b * (2 * slow) - slow <= b * (2 * fast) - fast
  {
    var d := fast - slow;
    assert b * (2 * fast) == b * (2 * slow) + 2 * (b * d);
    assert b * d >= d by { Below(1, b, d); }
  }

  // ---- The register.

  lemma {:induction false} OrDisjoint(a: nat, b: nat, k: nat)
    requires a % Pow2(k) == 0 && b < Pow2(k)
    ensures Or(a, b) == a + b
    decreases k
  {
    if k > 0 && a > 0 && b > 0 {
      var p := Pow2(k - 1);
      var q := a / Pow2(k);
      assert a == q * Pow2(k);
      assert q * (2 * p) == 2 * (q * p);
      assert a % 2 == 0 && a / 2 == q * p;
      MultipleMod(q, p);
      OrDisjoint(a / 2, b / 2, k - 1);
    }
  }

  lemma MultipleMod(q: nat, p: nat)
    requires p > 0
    ensures q * p % p == 0
  {
    QuotientUnique(q * p, p, q, 0);
  }

  lemma Powers()
    ensures Pow2(4) == 0x10 && Pow2(9) == 0x200 && Pow2(12) == 0x1000 && Pow2(24) == 0x1000000
  {
    assert Pow2(8) == 256;
    assert Pow2(16) == 65536;
    assert Pow2(20) == 1048576;
  }

  function Word(divi: nat, divf: nat): nat { Or(Or(PASSWD, Wrap(divi * 4096)), divf) }

  /** What the hardware sees in the divisor register. */
  function IntegerField(word: nat): nat { word / 4096 % 4096 }
  function FractionField(word: nat): nat { word % 4096 }
  function PasswordField(word: nat): nat { word / 0x1000000 }

  /** The register holds password and divisor unspoilt exactly when the integer part has twelve bits. */
  lemma WordHolds(divi: nat, divf: nat)
    requires divf < 4096
    ensures
      && PasswordField(Word(divi, divf)) == 0x5A
      && IntegerField(Word(divi, divf)) == divi && FractionField(Word(divi, divf)) == divf
      <==> divi < 4096
  {
    hide Or, Pow2;
    Powers();
    if divi < 4096 {
      OrDisjoint(PASSWD, divi * 4096, 24);
      OrDisjoint(PASSWD + divi * 4096, divf, 12);
    }
  }

  /** The integer part has twelve bits exactly from 2862 samples a second on. */
  lemma IntegerPartFits(rate: nat)
    requires rate > 0
    ensures Nearest(rate) < 0x1000000 <==> rate >= 2862
  {
    if rate >= 2862 {
      NearestFalls(2862, rate);
    } else {
      NearestFalls(rate, 2861);
    }
  }

  /** Stop, program the divisor, start: the writes in order. */
  method SetSampleRate(rate: nat) returns (writes: seq<(nat, nat)>)
    requires 0 < rate < MOD
    ensures |writes| == 3
    ensures writes[0] == (CTL, PASSWD + 0x20)
    ensures writes[1].0 == DIV && writes[2].0 == CTL
    ensures var d := Computed(rate);
      && writes[1].1 == Word(d / 4096, d % 4096)
      && writes[2].1 == PASSWD + 0x16 + if d % 4096 > 0 then 0x200 else 0
    ensures Programmed(writes[1].1, rate) <==> 2862 <= rate && Fits(rate)
    ensures 2862 <= rate ==>
      writes[2].1 == PASSWD + 0x16 + if FractionField(writes[1].1) > 0 then 0x200 else 0
  {
    var divi, divf := Divide(rate);
    IntegerPartFits(rate);
    ControlWords();
    WordHolds(divi, divf);
    if rate >= 2862 { QuotientSmall(rate); }
    DigitsOf(divi, divf);
    hide Or, Nearest, Wrap, Computed;
    var mash := if divf > 0 then 0x200 else 0;
    writes := [(CTL, Or(PASSWD, 0x20)), (DIV, Word(divi, divf)), (CTL, Or(Or(Or(PASSWD, 6), mash), 0x10))];
  }

  lemma DigitsOf(divi: nat, divf: nat)
    requires divf < 4096
    ensures (4096 * divi + divf) / 4096 == divi && (4096 * divi + divf) % 4096 == divf
  {
    QuotientUnique(4096 * divi + divf, 4096, divi, divf);
  }

  /** The register word is the bitwise or of its parts. */
  lemma WordIs(divi: nat, divf: nat)
    ensures Word(divi, divf) == Or(Or(0x5A000000, divi * 4096 % 4294967296), divf)
  {
    hide Or;
  }

  /** The register carries the password and the divisor nearest to the rate. */
  predicate Programmed(word: nat, rate: nat)
    requires rate > 0
  {
    PasswordField(word) == 0x5A && 4096 * IntegerField(word) + FractionField(word) == Nearest(rate)
  }

  lemma QuotientSmall(rate: nat)
    requires rate >= 2862
    ensures BASE / rate <= 4094
  {
    if BASE / rate >= 4095 {
      DivMod(BASE, rate);
      Below(4095, BASE / rate, rate);
    }
  }

  lemma ControlWords()
    ensures Or(PASSWD, 0x20) == PASSWD + 0x20
    ensures Or(Or(Or(PASSWD, 6), 0x200), 0x10) == PASSWD + 0x216
    ensures Or(Or(Or(PASSWD, 6), 0), 0x10) == PASSWD + 0x16
  {
    hide Or, Pow2;
    Powers();
    OrDisjoint(PASSWD, 0x20, 24);
    OrDisjoint(PASSWD, 6, 24);
    OrZero(PASSWD + 6);
    OrMiddle();
  }

  lemma OrZero(a: nat)
    ensures Or(a, 0) == a
  {
  }

  /** Bit k of the disjunction is set exactly when it is set in either number. */
  lemma {:induction false} OrBits(a: nat, b: nat, k: nat)
    ensures Or(a, b) / Pow2(k) % 2 == 1 <==> a / Pow2(k) % 2 == 1 || b / Pow2(k) % 2 == 1
    decreases k
  {
    if k > 0 {
      OrBits(a / 2, b / 2, k - 1);
      Halve(a, k);
      Halve(b, k);
      Halve(Or(a, b), k);
      OrHalf(a, b);
    }
  }

  lemma Halve(n: nat, k: nat)
    requires k > 0
    ensures n / Pow2(k) == n / 2 / Pow2(k - 1)
  {
    var p := Pow2(k - 1);
    DivMod(n, 2);
    DivMod(n / 2, p);
    var q, r := n / 2 / p, n / 2 % p;
    assert n == q * (2 * p) + (2 * r + n % 2);
    QuotientUnique(n, 2 * p, q, 2 * r + n % 2);
  }

  lemma OrHalf(a: nat, b: nat)
    ensures Or(a, b) / 2 == Or(a / 2, b / 2)
  {
  }

  /** Setting a bit that is clear. */
  lemma {:induction false} OrBit(h: nat, l: nat, k: nat)
    requires h % 2 == 0 && l < Pow2(k)
    ensures Or(h * Pow2(k) + l, Pow2(k)) == h * Pow2(k) + l + Pow2(k)
    decreases k
  {
    var a := h * Pow2(k) + l;
    if k == 0 {
      assert h > 0 ==> Or(h / 2, 0) == h / 2;
    } else {
      var p := Pow2(k - 1);
      assert h * (2 * p) == 2 * (h * p);
      assert a / 2 == h * p + l / 2 && a % 2 == l % 2;
      OrBit(h, l / 2, k - 1);
    }
  }

  /** Bits 4 and 9 over the source number in bits 0 to 2. */
  lemma OrMiddle()
    ensures Or(PASSWD + 6, 0x200) == PASSWD + 0x206
    ensures Or(PASSWD + 0x206, 0x10) == PASSWD + 0x216 && Or(PASSWD + 6, 0x10) == PASSWD + 0x16
  {
    hide Or, Pow2;
    Powers();
    OrBit(PASSWD / 0x200, 6, 9);
    OrBit((PASSWD + 0x200) / 0x10, 6, 4);
    OrBit(PASSWD / 0x10, 6, 4);
  }

  /** For every rate from 2862 to 1065340 the register gets the nearest divisor. */
  lemma SupportedRates(rate: nat)
    requires 2862 <= rate <= 1065340
    ensures Fits(rate) && Nearest(rate) < 0x1000000
  {
    FitsBelow(rate);
    IntegerPartFits(rate);
  }
}
