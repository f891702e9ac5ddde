/** The reference's rendering of a decimal, and its agreement with the guard's. */
module DecimalText {
  import opened Decimal

  /** The precision of the decimal arithmetic context, which is taken to be the default one. */
  const PRECISION: nat := 28

  /** The loop that pops trailing zeros. */
  method PopZeros(raw: string, scale: int) returns (digits: string, exponent: int)
    requires raw != "" && raw[0] != '0'
    ensures digits == TrimRight(raw) && exponent == scale + |raw| - |digits| && digits != ""
  {
    digits, exponent := raw, scale;
    while |digits| > 1 && digits[|digits| - 1] == '0'
      invariant 1 <= |digits| <= |raw| && digits == raw[..|digits|]
      invariant TrimRight(raw) == TrimRight(digits) && exponent == scale + |raw| - |digits|
    {
      digits, exponent := digits[..|digits| - 1], exponent + 1;
    }
  }

  /** Fixed-point text of `raw` times ten to the `scale`. */
  function Fixed(raw: string, scale: int): string
    requires raw != ""
  {
    var point := |raw| + scale;
    if scale >= 0 then raw + Zeros(scale)
    else if point > 0 then raw[..point] + "." + raw[point..]
    else "0." + Zeros(-point) + raw
  }

  /** Without trailing zeros of a fraction, nor a point left bare. */
  function Stripped(text: string): string {
    if '.' !in text then text
    else
      var s := TrimRight(text);
      if s != "" && s[|s| - 1] == '.' then s[..|s| - 1] else s
  }

  function Times(n: nat, k: nat): nat { n * k }

  function Over(n: nat, unit: nat): nat
    requires unit >= 1
  {
    n / unit
  }

  /** The digits kept by the context, and the part cut off in units of the last one kept. */
  ghost function Kept(n: Normal): (q: nat)
    requires Digits(n.digits)
  {
    if |n.digits| <= PRECISION then Times(NatOf(n.digits), Ten(PRECISION - |n.digits|))
    else Over(NatOf(n.digits), Ten(|n.digits| - PRECISION))
  }

  ghost function Cut(n: Normal): (rest: real)
    requires Digits(n.digits)
  {
    if |n.digits| <= PRECISION then 0.0
    else (NatOf(n.digits) % Ten(|n.digits| - PRECISION)) as real / Ten(|n.digits| - PRECISION) as real
  }

  /** Half to even. */
  ghost predicate RoundsUp(kept: nat, cut: real) { cut > 0.5 || (cut == 0.5 && kept % 2 == 1) }

  ghost function RoundOff(kept: nat, cut: real): nat { if RoundsUp(kept, cut) then kept + 1 else kept }

  /** `abs` of a decimal rounds to the context's precision. */
  ghost function Magnitude(n: Normal): real
    requires Digits(n.digits)
  {
    Scaled(RoundOff(Kept(n), Cut(n)), n.exponent + |n.digits| - PRECISION)
  }

  /** `_decimal_text` of a finite decimal, read from a token. */
  ghost function Rendered(t: Token): (r: Result)
    requires WellFormed(t)
  {
    var raw, n := TrimLeft(Coefficient(t)), NormalOf(t);
    if raw == "" then Ok("0")
    else if |n.digits| > 128 then Err(TooPrecise)
    else if n.exponent < -435 || n.exponent > 308 then Err(OutOfRange)
    else if Magnitude(n) > Pow10(308) || Magnitude(n) < Pow10(-308) then Err(OutOfRange)
    else Ok((if t.negative then "-" else "") + Stripped(Fixed(raw, Scale(t))))
  }

  // ----- Stripping fixed-point text -----

  lemma {:induction false} TrimStops(s: string, k: nat)
    requires s != "" && s[|s| - 1] != '0'
    ensures TrimRight(s + Zeros(k)) == s
    decreases k
  {
    if k == 0 {
      assert s + Zeros(0) == s;
    } else {
      TrimStops(s, k - 1);
      var long := s + Zeros(k);
      assert long[..|long| - 1] == s + Zeros(k - 1) && long[|long| - 1] == '0';
    }
  }

  lemma NoPoint(s: string)
    requires Digits(s)
    ensures '.' !in s
  {
  }

  lemma FractionStripped(before: string, fraction: string, k: nat)
    requires fraction != "" && IsDigit(fraction[|fraction| - 1]) && fraction[|fraction| - 1] != '0'
    ensures Stripped(before + "." + (fraction + Zeros(k))) == before + "." + fraction
  {
    hide TrimRight;
    var kept := before + "." + fraction;
    var zeros := Zeros(k);
    assert before + "." + (fraction + zeros) == kept + zeros;
    assert (kept + zeros)[|before|] == '.';
    assert kept[|kept| - 1] == fraction[|fraction| - 1];
    TrimStops(kept, k);
  }

  lemma PointStripped(before: string, k: nat)
    ensures Stripped(before + "." + Zeros(k)) == before
  {
    var kept := before + ".";
    assert before + "." + Zeros(k) == kept + Zeros(k);
    assert (kept + Zeros(k))[|before|] == '.';
    TrimStops(kept, k);
    assert kept[..|kept| - 1] == before;
  }

  function PlainText(n: Normal): string
    requires Digits(n.digits) && n.digits != ""
  {
    Spelling(Plain(false, n))
  }

  lemma ZerosAdd(a: nat, b: nat)
    ensures Zeros(a) + Zeros(b) == Zeros(a + b)
  {
  }

  /** Stripping the fixed-point text of a padded coefficient gives the plain text of its normal form. */
  lemma FixedIsPlain(d: string, k: nat, scale: int)
    requires Digits(d) && d != "" && d[|d| - 1] != '0'
    ensures Stripped(Fixed(d + Zeros(k), scale)) == PlainText(Normal(d, scale + k))
  {
    if scale >= 0 { WholeIsPlain(d, k, scale); }
    else if scale + k >= 0 { RoundIsPlain(d, k, scale); }
    else if |d| + scale + k > 0 { MixedIsPlain(d, k, scale); }
    else { SmallIsPlain(d, k, scale); }
  }

  lemma WholeIsPlain(d: string, k: nat, scale: int)
    requires Digits(d) && d != "" && scale >= 0
    ensures Stripped(Fixed(d + Zeros(k), scale)) == PlainText(Normal(d, scale + k))
  {
    ZerosAdd(k, scale);
    assert d + Zeros(k) + Zeros(scale) == d + Zeros(k + scale);
    assert Digits(d + Zeros(k + scale));
    NoPoint(d + Zeros(k + scale));
    assert PlainText(Normal(d, scale + k)) == d + Zeros(k + scale);
  }

  lemma RoundIsPlain(d: string, k: nat, scale: int)
    requires Digits(d) && d != "" && scale < 0 <= scale + k
    ensures Stripped(Fixed(d + Zeros(k), scale)) == PlainText(Normal(d, scale + k))
  {
    hide Stripped, Zeros;
    var point, e := |d| + k + scale, scale + k;
    var whole := d + Zeros(e);
    ZerosAdd(e, -scale);
    SplitAt(whole, Zeros(-scale), d + Zeros(k));
    PointStripped(whole, -scale);
    SpellingInParts(Plain(false, Normal(d, e)));
    assert PlainText(Normal(d, e)) == whole;
  }

  /** A text is cut where its first part ends. */
  lemma SplitAt(a: string, b: string, whole: string)
    requires a + b == whole
    ensures whole[..|a|] == a && whole[|a|..] == b
  {
  }

  lemma MixedIsPlain(d: string, k: nat, scale: int)
    requires Digits(d) && d != "" && d[|d| - 1] != '0' && scale + k < 0 < |d| + scale + k
    ensures Stripped(Fixed(d + Zeros(k), scale)) == PlainText(Normal(d, scale + k))
  {
    hide Stripped, Zeros;
    var zeros, point := Zeros(k), |d| + k + scale;
    var whole, fraction := d[..point], d[point..];
    assert d == whole + fraction;
    assert whole + (fraction + zeros) == d + zeros;
    SplitAt(whole, fraction + zeros, d + zeros);
    assert fraction[|fraction| - 1] == d[|d| - 1];
    FractionStripped(whole, fraction, k);
    SpellingInParts(Plain(false, Normal(d, scale + k)));
    PlainWithFraction(Plain(false, Normal(d, scale + k)));
  }

  lemma PlainWithFraction(t: Token)
    requires !t.negative && t.exponent.None? && t.fraction != ""
    ensures Spelling(t) == t.whole + "." + t.fraction
  {
  }

  lemma SmallIsPlain(d: string, k: nat, scale: int)
    requires Digits(d) && d != "" && d[|d| - 1] != '0' && |d| + scale + k <= 0
    ensures Stripped(Fixed(d + Zeros(k), scale)) == PlainText(Normal(d, scale + k))
  {
    hide Stripped, Zeros;
    var zeros, point := Zeros(k), |d| + k + scale;
    var lead := Zeros(-point);
    var fraction := lead + d;
    assert "0." + lead + (d + zeros) == "0" + "." + (fraction + zeros);
    assert fraction[|fraction| - 1] == d[|d| - 1];
    FractionStripped("0", fraction, k);
    PlainWithFraction(Plain(false, Normal(d, scale + k)));
  }

  /** Whatever the reference renders is the plain spelling of the normal form. */
  lemma RenderedIsPlain(t: Token)
    requires WellFormed(t) && Rendered(t).Ok?
    ensures Rendered(t) == Ok(Spelling(Normalized(t)))
  {
    hide Fixed, Stripped, Plain, NatOf, Scaled, TrimLeft, TrimRight, Magnitude;
    var raw := TrimLeft(Coefficient(t));
    var d := TrimRight(raw);
    if raw != "" {
      TrimRightZeros(raw);
      NonzeroTrims(raw);
      FixedIsPlain(d, |raw| - |d|, Scale(t));
      SignedPlain(t.negative, NormalOf(t));
    }
  }

  /** Where both accept, guard and reference write the same text. */
  lemma TextsAgree(t: Token)
    requires WellFormed(t) && Normalize(t).Ok? && Rendered(t).Ok?
    ensures Normalize(t) == Rendered(t)
  {
    hide Rendered, Plain, RangeError, Spelling, NormalOf;
    RenderedIsPlain(t);
  }

  lemma NonzeroTrims(raw: string)
    requires Digits(raw) && raw != "" && raw[0] != '0'
    ensures TrimRight(raw) != ""
  {
    hide TrimRight;
  }

  lemma SignedPlain(negative: bool, n: Normal)
    requires Digits(n.digits) && n.digits != ""
    ensures Spelling(Plain(negative, n)) == (if negative then "-" else "") + PlainText(n)
  {
    hide Spelling, Middle, Zeros;
    SpellingInParts(Plain(negative, n));
    SpellingInParts(Plain(false, n));
    var body := Plain(false, n).whole + Middle(Plain(false, n));
    assert "" + body == body;
    SignOnly(negative, n);
  }

  lemma SignOnly(negative: bool, n: Normal)
    requires Digits(n.digits) && n.digits != ""
    ensures Plain(negative, n) == Plain(false, n).(negative := negative)
    ensures Middle(Plain(negative, n)) == Middle(Plain(false, n))
  {
  }
}
