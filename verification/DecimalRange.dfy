/** Which numbers the reference accepts, which the guard accepts, and where the two ranges part. */
module DecimalRange {
  import opened Protocol
  import opened Decimal
  import opened DecimalText

  lemma {:induction false} Pow10Grows(e: int, f: int)
    requires e <= f
    ensures Pow10(e) <= Pow10(f)
    decreases f - e
  {
    if e < f {
      Pow10Step(f - 1);
      Pow10Grows(e, f - 1);
    }
  }

  lemma ScaledGrows(a: nat, b: nat, e: int)
    requires a <= b
    ensures Scaled(a, e) <= Scaled(b, e)
  {
    assert (b as real - a as real) * Pow10(e) >= 0.0;
  }

  /** The leading digit bounds the value from below. */
  lemma AtLeastAdjusted(n: Normal)
    requires Digits(n.digits) && n.digits != "" && n.digits[0] != '0'
    ensures Pow10(n.exponent + |n.digits| - 1) <= Scaled(NatOf(n.digits), n.exponent)
  {
    var k := |n.digits| - 1;
    NatOfAtLeast(n.digits);
    ScaledGrows(1 * Ten(k), NatOf(n.digits), n.exponent);
    ScaledShift(1, k, n.exponent);
    assert Scaled(1, n.exponent + k) == Pow10(n.exponent + k);
  }

  lemma {:induction false} TenAdds(m: nat, n: nat)
    ensures Ten(m + n) == Ten(m) * Ten(n)
    decreases n
  {
    if n > 0 {
      TenAdds(m, n - 1);
      TimesTen(Ten(m), n - 1);
    }
  }

  lemma Grows(a: int, b: int, k: nat)
    requires a <= b
    ensures a * k <= b * k
  {
    assert (b - a) * k >= 0;
  }

  lemma Divides(n: nat, unit: nat)
    requires unit >= 1
    ensures n == Over(n, unit) * unit + n % unit && 0 <= n % unit < unit
  {
  }

  lemma Quotient(n: nat, unit: nat, low: nat, high: nat)
    requires unit >= 1 && low * unit <= n < high * unit
    ensures low <= Over(n, unit) < high
  {
    hide Over;
    var q := Over(n, unit);
    Divides(n, unit);
    assert (q + 1) * unit == q * unit + unit;
    if q < low { Grows(q + 1, low, unit); }
    if q >= high { Grows(high, q, unit); }
  }

  lemma InUnits(n: nat, unit: nat, e: int, k: nat)
    requires unit == Ten(k)
    ensures Scaled(n, e) == (Over(n, unit) as real + (n % unit) as real / unit as real) * Pow10(e + k)
  {
    hide Over, Pow10, Ten;
    var q, r := Over(n, unit), n % unit;
    Divides(n, unit);
    TenPow(k, e);
    Cast(q, unit, r);
    Regroup(q as real, r as real, unit as real, Pow10(e));
  }

  lemma Cast(q: nat, unit: nat, r: nat)
    ensures (q * unit + r) as real == q as real * unit as real + r as real
  {
  }

  lemma Regroup(q: real, r: real, u: real, p: real)
    requires u > 0.0
    ensures (q * u + r) * p == (q + r / u) * (u * p)
  {
    assert r / u * u == r;
    assert (q + r / u) * u == q * u + r;
  }

  /** A number in units of its twenty-eighth digit. */
  lemma KeptAndCut(n: Normal)
    requires Digits(n.digits) && n.digits != "" && n.digits[0] != '0'
    ensures Ten(27) <= Kept(n) < Ten(28) && 0.0 <= Cut(n) < 1.0
    ensures Scaled(NatOf(n.digits), n.exponent) ==
              (Kept(n) as real + Cut(n)) * Pow10(n.exponent + |n.digits| - PRECISION)
  {
    hide NatOf, Ten, Pow10, Times, Over, Scaled;
    NatOfAtLeast(n.digits);
    NatOfBelow(n.digits);
    var count := |n.digits|;
    if count <= PRECISION {
      KeptWhole(NatOf(n.digits), count, n.exponent);
    } else {
      KeptPart(NatOf(n.digits), count, n.exponent);
    }
  }

  lemma KeptWhole(n: nat, count: nat, e: int)
    requires 1 <= count <= PRECISION && Ten(count - 1) <= n < Ten(count)
    ensures Ten(27) <= Times(n, Ten(PRECISION - count)) < Ten(28)
    ensures Scaled(n, e) == (Times(n, Ten(PRECISION - count)) as real + 0.0) * Pow10(e + count - PRECISION)
  {
    hide Ten, Pow10;
    var k := PRECISION - count;
    TenAdds(count - 1, k);
    TenAdds(count, k);
    Grows(Ten(count - 1), n, Ten(k));
    Grows(n + 1, Ten(count), Ten(k));
    assert (n + 1) * Ten(k) == n * Ten(k) + Ten(k);
    ScaledShift(n, k, e - k);
  }

  lemma KeptPart(n: nat, count: nat, e: int)
    requires count > PRECISION && Ten(count - 1) <= n < Ten(count)
    ensures var unit := Ten(count - PRECISION);
            && Ten(27) <= Over(n, unit) < Ten(28) && 0.0 <= (n % unit) as real / unit as real < 1.0
            && Scaled(n, e) ==
               (Over(n, unit) as real + (n % unit) as real / unit as real) * Pow10(e + count - PRECISION)
  {
    hide Ten, Pow10, Scaled, Over;
    var k := count - PRECISION;
    TenAdds(27, k);
    TenAdds(28, k);
    Quotient(n, Ten(k), Ten(27), Ten(28));
    Divides(n, Ten(k));
    Proper((n % Ten(k)) as real, Ten(k) as real);
    InUnits(n, Ten(k), e, k);
  }

  lemma Proper(r: real, u: real)
    requires 0.0 <= r < u
    ensures 0.0 <= r / u < 1.0
  {
  }

  ghost function Prod(x: real, p: real): real { x * p }

  lemma Larger(x: real, y: real, p: real, s: real)
    requires 0.0 <= y <= x && 0.0 <= s <= p
    ensures Prod(y, s) <= Prod(x, p)
  {
    assert (x - y) * p >= 0.0 && y * (p - s) >= 0.0;
  }

  lemma TenPow(k: nat, e: int)
    ensures Ten(k) as real * Pow10(e) == Pow10(e + k)
  {
    ScaledShift(1, k, e);
  }

  lemma EvenTen(k: nat)
    requires k > 0
    ensures Ten(k) % 2 == 0
  {
    assert Ten(k) == 2 * (5 * Ten(k - 1));
  }

  /** The largest number the reference accepts: half a unit above 1e308, where a tie goes down. */
  ghost function Top(): real { Pow10(308) + 5.0 * Pow10(280) }

  /** The smallest: half a unit below 1e-308, where a tie goes up. */
  ghost function Bottom(): real { Pow10(-308) - 5.0 * Pow10(-337) }

  lemma Compared(x: real, y: real, p: real)
    requires p > 0.0
    ensures Prod(x, p) > Prod(y, p) <==> x > y
  {
    if x > y { assert (x - y) * p > 0.0; } else { assert (y - x) * p >= 0.0; }
  }

  lemma RoundsPastEven(kept: nat, cut: real, even: nat)
    requires even % 2 == 0 && even <= kept && 0.0 <= cut < 1.0
    ensures RoundOff(kept, cut) as real > even as real <==> kept as real + cut > even as real + 0.5
  {
  }

  lemma RoundsShort(kept: nat, cut: real, even: nat)
    requires even % 2 == 0 && kept < even && 0.0 <= cut < 1.0
    ensures even as real > RoundOff(kept, cut) as real <==> even as real - 0.5 > kept as real + cut
    ensures RoundOff(kept, cut) <= even
  {
    if kept == even - 1 { assert kept % 2 == 1; }
  }

  lemma AtLeastKept(kept: nat, cut: real)
    ensures RoundOff(kept, cut) >= kept
  {
  }

  lemma RoundsOverTop(kept: nat, cut: real, a: int)
    requires Ten(27) <= kept < Ten(28) && 0.0 <= cut < 1.0
    ensures Prod(RoundOff(kept, cut) as real, Pow10(a)) > Pow10(308) <==> Prod(kept as real + cut, Pow10(a)) > Top()
  {
    hide Pow10, Ten, RoundOff, Top, Prod;
    var rounded, exact := RoundOff(kept, cut) as real, kept as real + cut;
    EvenTen(27);
    EvenTen(28);
    RoundsShort(kept, cut, Ten(28));
    RoundsPastEven(kept, cut, Ten(27));
    AtLeastKept(kept, cut);
    TopUnits();
    if a > 281 {
      Pow10Grows(282, a);
      Larger(rounded, Ten(27) as real, Pow10(a), Pow10(282));
      Larger(exact, Ten(27) as real, Pow10(a), Pow10(282));
    } else if a < 281 {
      Pow10Grows(a, 280);
      Larger(Ten(28) as real, rounded, Pow10(280), Pow10(a));
      Larger(Ten(28) as real, exact, Pow10(280), Pow10(a));
    } else {
      Compared(rounded, Ten(27) as real, Pow10(281));
      Compared(exact, Ten(27) as real + 0.5, Pow10(281));
    }
  }

  lemma TopUnits()
    ensures Prod(Ten(27) as real, Pow10(281)) == Pow10(308) && Prod(Ten(28) as real, Pow10(280)) == Pow10(308)
    ensures Prod(Ten(27) as real + 0.5, Pow10(281)) == Top()
    ensures Prod(Ten(27) as real, Pow10(282)) > Top() > Pow10(308)
  {
    hide Pow10, Ten;
    TenPow(27, 281);
    TenPow(28, 280);
    TenPow(27, 282);
    Pow10Step(280);
    Pow10Step(308);
    Pow10Grows(281, 308);
    Halved(Ten(27) as real, Pow10(281));
  }

  lemma Halved(x: real, p: real)
    ensures (x + 0.5) * p == x * p + p / 2.0 && (x - 0.5) * p == x * p - p / 2.0
  {
  }

  lemma RoundsUnderBottom(kept: nat, cut: real, a: int)
    requires Ten(27) <= kept < Ten(28) && 0.0 <= cut < 1.0
    ensures Prod(RoundOff(kept, cut) as real, Pow10(a)) < Pow10(-308) <==> Prod(kept as real + cut, Pow10(a)) < Bottom()
  {
    hide Pow10, Ten, RoundOff, Bottom, Prod;
    var rounded, exact := RoundOff(kept, cut) as real, kept as real + cut;
    EvenTen(28);
    RoundsShort(kept, cut, Ten(28));
    AtLeastKept(kept, cut);
    BottomUnits();
    if a > -336 {
      Pow10Grows(-335, a);
      Larger(rounded, Ten(27) as real, Pow10(a), Pow10(-335));
      Larger(exact, Ten(27) as real, Pow10(a), Pow10(-335));
    } else if a < -336 {
      Pow10Grows(a, -337);
      Larger(Ten(28) as real, rounded, Pow10(-337), Pow10(a));
      Larger(Ten(28) as real, exact, Pow10(-337), Pow10(a));
    } else {
      Compared(Ten(28) as real, rounded, Pow10(-336));
      Compared(Ten(28) as real - 0.5, exact, Pow10(-336));
    }
  }

  lemma BottomUnits()
    ensures Prod(Ten(27) as real, Pow10(-335)) == Pow10(-308) && Prod(Ten(28) as real, Pow10(-336)) == Pow10(-308)
    ensures Prod(Ten(28) as real - 0.5, Pow10(-336)) == Bottom()
    ensures Prod(Ten(28) as real, Pow10(-337)) < Bottom() < Pow10(-308)
  {
    hide Pow10, Ten;
    TenPow(27, -335);
    TenPow(28, -336);
    TenPow(28, -337);
    Pow10Step(-337);
    Pow10Step(-309);
    Pow10Grows(-337, -309);
    Halved(Ten(28) as real, Pow10(-336));
  }

  /** The size of a token's number. */
  ghost function Size(t: Token): real
    requires WellFormed(t)
  {
    Scaled(NatOf(Coefficient(t)), Scale(t))
  }

  /** The reference accepts exactly zero and the numbers of few enough digits between its two ends. */
  lemma ReferenceRange(t: Token)
    requires WellFormed(t)
    ensures var n := NormalOf(t);
            Rendered(t).Ok? <==>
            n.digits == "" || (|n.digits| <= 128 && -435 <= n.exponent <= 308 && Bottom() <= Size(t) <= Top())
  {
    hide Fixed, Stripped, NatOf, Scaled, TrimLeft, TrimRight, Pow10, Kept, Cut, Top, Bottom, RoundOff;
    var raw, n := TrimLeft(Coefficient(t)), NormalOf(t);
    if raw != "" {
      NonzeroTrims(raw);
      NormalHasValue(t);
      RangeOfMagnitude(n);
    }
  }

  lemma RangeOfMagnitude(n: Normal)
    requires Digits(n.digits) && n.digits != "" && n.digits[0] != '0'
    ensures Magnitude(n) > Pow10(308) <==> Scaled(NatOf(n.digits), n.exponent) > Top()
    ensures Magnitude(n) < Pow10(-308) <==> Scaled(NatOf(n.digits), n.exponent) < Bottom()
  {
    hide NatOf, Pow10, Kept, Cut, Top, Bottom, RoundOff, Ten;
    KeptAndCut(n);
    RoundsOverTop(Kept(n), Cut(n), n.exponent + |n.digits| - PRECISION);
    RoundsUnderBottom(Kept(n), Cut(n), n.exponent + |n.digits| - PRECISION);
  }

  /** The guard accepts exactly zero and the numbers of few enough digits from 1e-308 to below
      1e309, spelled with an exponent of at most 100000. */
  lemma GuardRange(t: Token)
    requires WellFormed(t)
    ensures var n := NormalOf(t);
            Normalize(t).Ok? <==>
            && -100000 <= ExponentOf(t) <= 100000
            && (n.digits == "" || (&& |n.digits| <= 128 && -435 <= n.exponent <= 308
                                   && Pow10(-308) <= Size(t) < Pow10(309)))
  {
    hide Plain, NatOf, Scaled, TrimLeft, TrimRight, Pow10, Spelling;
    NormalHasValue(t);
    var n := NormalOf(t);
    if n.digits != "" {
      AtLeastAdjusted(n);
      BelowAdjusted(n);
      var adjusted := n.exponent + |n.digits| - 1;
      if adjusted >= -308 { Pow10Grows(-308, adjusted); } else { Pow10Grows(adjusted + 1, -308); }
      if adjusted > 308 { Pow10Grows(309, adjusted); } else { Pow10Grows(adjusted + 1, 309); }
    }
  }

  /** Of the numbers the guard accepts, the reference refuses exactly those more than half a unit
      above 1e308. */
  lemma OnlyTheTopDiffers(t: Token)
    requires WellFormed(t) && Normalize(t).Ok?
    ensures Rendered(t).Ok? <==> Size(t) <= Top()
  {
    hide Plain, NatOf, Scaled, TrimLeft, TrimRight, Pow10, Rendered, Top, Bottom, Ten, Spelling, Prod;
    ReferenceRange(t);
    NormalHasValue(t);
    var n := NormalOf(t);
    BottomUnits();
    if n.digits == "" {
      EmptyIsZero();
      ScaledSign(0, n.exponent);
      TopUnits();
    } else {
      AtLeastAdjusted(n);
      Pow10Grows(-308, n.exponent + |n.digits| - 1);
    }
  }

  /** Of the numbers the reference accepts, the guard refuses exactly those below 1e-308 and those
      spelled with an exponent of more than 100000. */
  lemma OnlyTheBottomDiffers(t: Token)
    requires WellFormed(t) && Rendered(t).Ok?
    ensures Normalize(t).Ok? <==>
            -100000 <= ExponentOf(t) <= 100000 && (NormalOf(t).digits == "" || Pow10(-308) <= Size(t))
  {
    hide Plain, NatOf, Scaled, TrimLeft, TrimRight, Pow10, Rendered, Bottom, Spelling;
    ReferenceRange(t);
    NormalHasValue(t);
    var n := NormalOf(t);
    if n.digits != "" {
      AtLeastAdjusted(n);
      BelowAdjusted(n);
      TopUnits();
      var adjusted := n.exponent + |n.digits| - 1;
      if adjusted >= -308 { Pow10Grows(-308, adjusted); } else { Pow10Grows(adjusted + 1, -308); }
      if adjusted > 308 { Pow10Grows(309, adjusted); TopIsBelow(); }
    }
  }

  lemma TopIsBelow()
    ensures Top() < Pow10(309)
  {
    hide Pow10;
    Pow10Step(308);
    Pow10Grows(280, 308);
  }

  /** The number of digits bounds the value from above. */
  lemma BelowAdjusted(n: Normal)
    requires Digits(n.digits)
    ensures Scaled(NatOf(n.digits), n.exponent) < Pow10(n.exponent + |n.digits|)
  {
    hide NatOf, Pow10, Ten;
    NatOfBelow(n.digits);
    TenPow(|n.digits|, n.exponent);
    Compared(Ten(|n.digits|) as real, NatOf(n.digits) as real, Pow10(n.exponent));
  }

  // ----- At the ends -----

  function Scientific(whole: string, fraction: string, sign: Sign, exponent: string): Token {
    Token(false, whole, fraction, Some(Exponent(false, sign, exponent)))
  }

  lemma ExponentsRead()
    ensures Digits("308") && NatOf("308") == 308 && Digits("309") && NatOf("309") == 309
  {
    assert "308"[..2] == "30" && "30"[..1] == "3" && "309"[..2] == "30" && "3"[..0] == "";
    assert NatOf("3") == 3 && NatOf("30") == 30;
  }

  /** Digits that neither start nor end with a zero are their own normal form. */
  lemma AlreadyNormal(t: Token)
    requires WellFormed(t) && Coefficient(t)[0] != '0' && Coefficient(t)[|Coefficient(t)| - 1] != '0'
    ensures NormalOf(t) == Normal(Coefficient(t), Scale(t))
  {
  }

  lemma OneMoreDigit(s: string, d: char)
    requires Digits(s) && IsDigit(d)
    ensures Digits(s + [d]) && NatOf(s + [d]) == NatOf(s) * 10 + Digit(d)
  {
    assert (s + [d])[..|s|] == s;
  }

  lemma OneAndZeros()
    ensures Digits("1" + Zeros(27)) && NatOf("1" + Zeros(27)) == Ten(27)
  {
    hide Ten, Zeros;
    assert "1"[..0] == "";
    TrailingZeros("1", 27);
  }

  lemma AtTheTop(n: nat)
    requires n == Ten(28) + 5
    ensures Scaled(n, 280) == Top()
  {
    hide Ten, Pow10;
    TenPow(28, 280);
    Distributes(Ten(28), 5, Pow10(280));
  }

  lemma TopDigits(c: string)
    requires c == "1" + Zeros(27) + "5"
    ensures Digits(c) && NatOf(c) == Ten(28) + 5
  {
    hide NatOf, Ten, Zeros;
    OneAndZeros();
    OneMoreDigit("1" + Zeros(27), '5');
    TenTimes(27);
  }

  /** Exactly half a unit above 1e308, both accept. */
  lemma AcceptedAtTheTop()
    ensures var t := Scientific("1", Zeros(27) + "5", Bare, "308");
            WellFormed(t) && Size(t) == Top() > Pow10(308) && Normalize(t).Ok? && Rendered(t).Ok?
  {
    hide NatOf, Ten, Scaled, Top, Pow10, Prod, Rendered, Spelling, TrimLeft, TrimRight;
    var t := Scientific("1", Zeros(27) + "5", Bare, "308");
    ExponentsRead();
    assert Coefficient(t) == "1" + Zeros(27) + "5";
    TopDigits(Coefficient(t));
    AlreadyNormal(t);
    AtTheTop(NatOf(Coefficient(t)));
    TopUnits();
    OnlyTheTopDiffers(t);
  }

  lemma AboveTheTop(n: nat)
    requires n == Ten(29) + 51
    ensures Scaled(n, 279) > Top()
  {
    hide Ten, Pow10;
    TenPow(29, 279);
    Distributes(Ten(29), 51, Pow10(279));
    Pow10Step(279);
  }

  lemma AboveDigits(c: string)
    requires c == "1" + Zeros(27) + "5" + "1"
    ensures Digits(c) && NatOf(c) == Ten(29) + 51
  {
    hide NatOf, Ten, Zeros;
    OneAndZeros();
    OneMoreDigit("1" + Zeros(27), '5');
    OneMoreDigit("1" + Zeros(27) + "5", '1');
    TenTimes(27);
    TenTimes(28);
  }

  /** A tenth of that half unit further up the reference refuses, and the guard does not. */
  lemma RefusedAboveTheTop()
    ensures var t := Scientific("1", Zeros(27) + "51", Bare, "308");
            WellFormed(t) && Normalize(t).Ok? && Rendered(t).Err?
  {
    hide NatOf, Ten, Scaled, Top, Rendered, Spelling, TrimLeft, TrimRight;
    var t := Scientific("1", Zeros(27) + "51", Bare, "308");
    ExponentsRead();
    assert Coefficient(t) == "1" + Zeros(27) + "5" + "1";
    AboveDigits(Coefficient(t));
    AlreadyNormal(t);
    AboveTheTop(NatOf(Coefficient(t)));
    OnlyTheTopDiffers(t);
  }

  function Nines(k: nat): string { seq(k, _ => '9') }

  lemma {:induction false} AllNines(k: nat)
    ensures Digits(Nines(k)) && NatOf(Nines(k)) == Ten(k) - 1
  {
    if k > 0 {
      AllNines(k - 1);
      OneMoreDigit(Nines(k - 1), '9');
      assert Nines(k - 1) + "9" == Nines(k);
    }
  }

  lemma AtTheBottom(n: nat)
    requires n == Ten(29) - 5
    ensures Scaled(n, -337) == Bottom()
  {
    hide Ten, Pow10;
    TenPow(29, -337);
    Deducts(Ten(29), 5, Pow10(-337));
  }

  lemma BottomDigits(c: string)
    requires c == Nines(28) + "5"
    ensures Digits(c) && NatOf(c) == Ten(29) - 5
  {
    hide NatOf, Ten, Nines;
    AllNines(28);
    OneMoreDigit(Nines(28), '5');
    TenTimes(28);
  }

  /** Exactly half a unit below 1e-308 the reference accepts, and the guard does not. */
  lemma AcceptedAtTheBottom()
    ensures var t := Scientific("9", Nines(27) + "5", Minus, "309");
            WellFormed(t) && Size(t) == Bottom() < Pow10(-308) && Normalize(t).Err? && Rendered(t).Ok?
  {
    hide NatOf, Ten, Scaled, Top, Bottom, Pow10, Rendered, Normalize, TrimLeft, TrimRight;
    var t := Scientific("9", Nines(27) + "5", Minus, "309");
    ExponentsRead();
    assert Coefficient(t) == Nines(28) + "5";
    BottomDigits(Coefficient(t));
    AlreadyNormal(t);
    AtTheBottom(NatOf(Coefficient(t)));
    BottomUnits();
    TopUnits();
    Pow10Grows(-308, 308);
    ReferenceRange(t);
    GuardRange(t);
  }

  lemma TenTimes(k: nat)
    ensures Ten(k) * 10 == Ten(k + 1)
  {
  }

  lemma Distributes(a: nat, b: nat, p: real)
    ensures (a + b) as real * p == a as real * p + b as real * p
  {
  }

  lemma Deducts(a: nat, b: nat, p: real)
    requires b <= a
    ensures (a - b) as real * p == a as real * p - b as real * p
  {
  }
}
