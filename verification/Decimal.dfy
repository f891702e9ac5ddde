/** JSON numbers: the token grammar of section 6 of RFC 8259, the exact value of a token, and the
    two normalizers, the guard's on text and the reference's on decimals. */
module Decimal {
  import opened Protocol

  // ----- Digit strings -----

  predicate IsDigit(ch: char) { '0' <= ch <= '9' }

  predicate Digits(s: string) { forall i :: 0 <= i < |s| ==> IsDigit(s[i]) }

  function Digit(ch: char): (d: nat)
    requires IsDigit(ch)
    ensures d <= 9
  {
    ch as int - '0' as int
  }

  function NatOf(s: string): nat
    requires Digits(s)
  {
    if s == "" then 0 else NatOf(s[..|s| - 1]) * 10 + Digit(s[|s| - 1])
  }

  function Ten(k: nat): (n: nat)
    ensures n >= 1
  {
    if k == 0 then 1 else 10 * Ten(k - 1)
  }

  function Zeros(k: nat): (s: string)
    ensures Digits(s) && |s| == k
  {
    seq(k, _ => '0')
  }

  function TrimLeft(s: string): (r: string)
    ensures |r| <= |s| && r == s[|s| - |r|..] && (r == "" || r[0] != '0')
    ensures forall i :: 0 <= i < |s| - |r| ==> s[i] == '0'
  {
    if s != "" && s[0] == '0' then TrimLeft(s[1..]) else s
  }

  function TrimRight(s: string): (r: string)
    ensures |r| <= |s| && r == s[..|r|] && (r == "" || r[|r| - 1] != '0')
    ensures forall i :: |r| <= i < |s| ==> s[i] == '0'
  {
    if s != "" && s[|s| - 1] == '0' then TrimRight(s[..|s| - 1]) else s
  }

  lemma {:induction false} NatOfConcat(a: string, b: string)
    requires Digits(a) && Digits(b)
    ensures Digits(a + b) && NatOf(a + b) == NatOf(a) * Ten(|b|) + NatOf(b)
    decreases |b|
  {
    if b == "" {
      assert a + b == a;
    } else {
      var n := |b| - 1;
      NatOfConcat(a, b[..n]);
      assert (a + b)[..|a + b| - 1] == a + b[..n];
      assert (NatOf(a) * Ten(n)) * 10 == NatOf(a) * Ten(n + 1) by { TimesTen(NatOf(a), n); }
    }
  }

  lemma TimesTen(x: nat, n: nat)
    ensures (x * Ten(n)) * 10 == x * Ten(n + 1)
  {
    assert x * (10 * Ten(n)) == (x * Ten(n)) * 10;
  }

  lemma {:induction false} NatOfZeros(k: nat)
    ensures NatOf(Zeros(k)) == 0
  {
    if k > 0 {
      NatOfZeros(k - 1);
      assert Zeros(k)[..k - 1] == Zeros(k - 1);
    }
  }

  lemma LeadingZeros(k: nat, s: string)
    requires Digits(s)
    ensures Digits(Zeros(k) + s) && NatOf(Zeros(k) + s) == NatOf(s)
  {
    NatOfZeros(k);
    NatOfConcat(Zeros(k), s);
  }

  lemma TrailingZeros(s: string, k: nat)
    requires Digits(s)
    ensures Digits(s + Zeros(k)) && NatOf(s + Zeros(k)) == NatOf(s) * Ten(k)
  {
    NatOfZeros(k);
    NatOfConcat(s, Zeros(k));
  }

  lemma TrimLeftZeros(s: string)
    ensures s == Zeros(|s| - |TrimLeft(s)|) + TrimLeft(s)
  {
    var k := |s| - |TrimLeft(s)|;
    assert s == s[..k] + s[k..] && s[..k] == Zeros(k);
  }

  lemma TrimRightZeros(s: string)
    ensures s == TrimRight(s) + Zeros(|s| - |TrimRight(s)|)
  {
    var k := |TrimRight(s)|;
    assert s == s[..k] + s[k..] && s[k..] == Zeros(|s| - k);
  }

  lemma {:induction false} NatOfBelow(s: string)
    requires Digits(s)
    ensures NatOf(s) < Ten(|s|)
  {
    if s != "" { NatOfBelow(s[..|s| - 1]); }
  }

  lemma {:induction false} NatOfAtLeast(s: string)
    requires Digits(s) && s != "" && s[0] != '0'
    ensures Ten(|s| - 1) <= NatOf(s)
    decreases |s|
  {
    if |s| > 1 { NatOfAtLeast(s[..|s| - 1]); }
  }

  lemma {:induction false} TenGrows(m: nat, n: nat)
    requires m <= n
    ensures Ten(m) <= Ten(n)
  {
    if m < n { TenGrows(m, n - 1); }
  }

  lemma {:induction false} SameLengthSameText(a: string, b: string)
    requires Digits(a) && Digits(b) && |a| == |b| && NatOf(a) == NatOf(b)
    ensures a == b
    decreases |a|
  {
    if a != "" {
      SameLengthSameText(a[..|a| - 1], b[..|b| - 1]);
      assert a == a[..|a| - 1] + [a[|a| - 1]] && b == b[..|b| - 1] + [b[|b| - 1]];
    }
  }

  /** Without leading zeros a number has one spelling. */
  lemma SameNumberSameText(a: string, b: string)
    requires Digits(a) && Digits(b) && a != "" && b != "" && a[0] != '0' && b[0] != '0' && NatOf(a) == NatOf(b)
    ensures a == b
  {
    ShorterIsSmaller(a, b);
    ShorterIsSmaller(b, a);
    SameLengthSameText(a, b);
  }

  lemma ShorterIsSmaller(a: string, b: string)
    requires Digits(a) && Digits(b) && b != "" && b[0] != '0'
    ensures |a| < |b| ==> NatOf(a) < NatOf(b)
  {
    NatOfBelow(a);
    NatOfAtLeast(b);
    if |a| < |b| { TenGrows(|a|, |b| - 1); }
  }

  // ----- Tokens -----

  datatype Sign = Plus | Minus | Bare

  datatype Exponent = Exponent(upper: bool, sign: Sign, digits: string)

  /** A token of the grammar `-?(0|[1-9][0-9]*)(\.[0-9]+)?([eE][+-]?[0-9]+)?`. */
  datatype Token = Token(negative: bool, whole: string, fraction: string, exponent: Option<Exponent>)

  predicate WellFormed(t: Token) {
    && Digits(t.whole) && t.whole != "" && (t.whole[0] == '0' ==> t.whole == "0")
    && Digits(t.fraction)
    && (t.exponent.Some? ==> Digits(t.exponent.value.digits) && t.exponent.value.digits != "")
  }

  function SignText(s: Sign): string { match s case Plus => "+" case Minus => "-" case Bare => "" }

  function ExponentText(e: Exponent): string { (if e.upper then "E" else "e") + SignText(e.sign) + e.digits }

  /** The text of a token; an empty fraction has no point. */
  function Spelling(t: Token): string {
    (if t.negative then "-" else "") + t.whole
    + (if t.fraction == "" then "" else "." + t.fraction)
    + (if t.exponent.Some? then ExponentText(t.exponent.value) else "")
  }

  // ----- The number a token names -----

  ghost function Pow10(e: int): (p: real)
    ensures p > 0.0
    decreases if e >= 0 then e else -e
  {
    if e == 0 then 1.0 else if e > 0 then 10.0 * Pow10(e - 1) else Pow10(e + 1) / 10.0
  }

  ghost function Scaled(n: nat, e: int): real { n as real * Pow10(e) }

  function Coefficient(t: Token): string { t.whole + t.fraction }

  function ExponentOf(t: Token): int
    requires WellFormed(t)
  {
    if t.exponent.None? then 0
    else
      var n: int := NatOf(t.exponent.value.digits);
      if t.exponent.value.sign.Minus? then -n else n
  }

  function Scale(t: Token): int
    requires WellFormed(t)
  {
    ExponentOf(t) - |t.fraction|
  }

  ghost function Value(t: Token): real
    requires WellFormed(t)
  {
    var magnitude := Scaled(NatOf(Coefficient(t)), Scale(t));
    if t.negative then -magnitude else magnitude
  }

  lemma Pow10Step(e: int)
    ensures Pow10(e + 1) == 10.0 * Pow10(e)
  {
  }

  lemma {:induction false} ScaledShift(n: nat, k: nat, e: int)
    ensures Scaled(n * Ten(k), e) == Scaled(n, e + k)
    decreases k
  {
    if k > 0 {
      TimesTen(n, k - 1);
      ScaledTimesTen(n * Ten(k - 1), e);
      ScaledShift(n, k - 1, e + 1);
    }
  }

  lemma ScaledTimesTen(n: nat, e: int)
    ensures Scaled(n * 10, e) == Scaled(n, e + 1)
  {
    Pow10Step(e);
    assert (n * 10) as real == n as real * 10.0;
    Reassociate(n as real, Pow10(e));
  }

  lemma Reassociate(x: real, p: real)
    ensures (x * 10.0) * p == x * (10.0 * p)
  {
  }

  lemma ScaledCancel(a: nat, b: nat, e: int)
    requires Scaled(a, e) == Scaled(b, e)
    ensures a == b
  {
    Cancel(a as real, b as real, Pow10(e));
  }

  lemma Cancel(x: real, y: real, p: real)
    requires p > 0.0 && x * p == y * p
    ensures x == y
  {
    assert (x - y) * p == 0.0;
  }

  // ----- The normal form -----

  datatype Error = InvalidNumber | OutOfRange | TooPrecise
  datatype Result = Ok(text: string) | Err(error: Error)

  /** Significant digits, neither starting nor ending with a zero, and the power of ten they are
      multiplied by; no digits stand for zero. */
  datatype Normal = Normal(digits: string, exponent: int)

  function NormalOf(t: Token): (n: Normal)
    requires WellFormed(t)
    ensures Digits(n.digits)
  {
    var s := TrimLeft(Coefficient(t));
    var d := TrimRight(s);
    Normal(d, Scale(t) + |s| - |d|)
  }

  /** The token, without exponent, that spells a normal form. */
  function Plain(negative: bool, n: Normal): (t: Token)
    requires Digits(n.digits) && n.digits != ""
  {
    var point := |n.digits| + n.exponent;
    if n.exponent >= 0 then Token(negative, n.digits + Zeros(n.exponent), "", None)
    else if point > 0 then Token(negative, n.digits[..point], n.digits[point..], None)
    else Token(negative, "0", Zeros(-point) + n.digits, None)
  }

  const ZERO: Token := Token(false, "0", "", None)

  function RangeError(n: Normal): Option<Error> {
    var adjusted := n.exponent + |n.digits| - 1;
    if |n.digits| > 128 then Some(TooPrecise)
    else if n.exponent < -435 || n.exponent > 308 || adjusted < -308 || adjusted > 308 then Some(OutOfRange)
    else None
  }

  /** `normalizeNumber` on a token. */
  function Normalize(t: Token): (r: Result)
    requires WellFormed(t)
  {
    var n := NormalOf(t);
    if !(-100000 <= ExponentOf(t) <= 100000) then Err(OutOfRange)
    else if n.digits == "" then Ok(Spelling(ZERO))
    else if RangeError(n).Some? then Err(RangeError(n).value)
    else Ok(Spelling(Plain(t.negative, n)))
  }

  /** Trimming takes out exactly the powers of ten. */
  lemma TrimmedCoefficient(c: string)
    requires Digits(c)
    ensures var s := TrimLeft(c); var d := TrimRight(s);
            && Digits(s) && Digits(d) && NatOf(c) == NatOf(d) * Ten(|s| - |d|)
            && (d != "" ==> d[0] != '0' && NatOf(d) % 10 != 0 && NatOf(d) > 0)
  {
    hide NatOf, Ten, TrimLeft, TrimRight;
    var s := TrimLeft(c);
    var d := TrimRight(s);
    TrimLeftValue(c);
    TrimRightValue(s);
    if d != "" { LastDigit(d); }
  }

  lemma TrimLeftValue(c: string)
    requires Digits(c)
    ensures Digits(TrimLeft(c)) && NatOf(c) == NatOf(TrimLeft(c))
  {
    hide NatOf, TrimLeft, Zeros;
    TrimLeftZeros(c);
    LeadingZeros(|c| - |TrimLeft(c)|, TrimLeft(c));
  }

  lemma TrimRightValue(s: string)
    requires Digits(s)
    ensures Digits(TrimRight(s)) && NatOf(s) == NatOf(TrimRight(s)) * Ten(|s| - |TrimRight(s)|)
  {
    hide NatOf, TrimRight, Zeros, Ten;
    TrimRightZeros(s);
    TrailingZeros(TrimRight(s), |s| - |TrimRight(s)|);
  }

  lemma LastDigit(d: string)
    requires Digits(d) && d != "" && d[|d| - 1] != '0'
    ensures NatOf(d) % 10 != 0 && NatOf(d) > 0
  {
    RemainderOfTen(NatOf(d[..|d| - 1]), Digit(d[|d| - 1]));
  }

  lemma RemainderOfTen(q: nat, r: nat)
    requires r <= 9
    ensures (q * 10 + r) % 10 == r
  {
  }

  lemma NormalHasValue(t: Token)
    requires WellFormed(t)
    ensures var n := NormalOf(t);
            && Scaled(NatOf(Coefficient(t)), Scale(t)) == Scaled(NatOf(n.digits), n.exponent)
            && (n.digits != "" ==> n.digits[0] != '0' && NatOf(n.digits) % 10 != 0 && NatOf(n.digits) > 0)
  {
    hide Scaled, NatOf, TrimLeft, TrimRight, Ten;
    var s := TrimLeft(Coefficient(t));
    var d := TrimRight(s);
    TrimmedCoefficient(Coefficient(t));
    ScaledShift(NatOf(d), |s| - |d|, Scale(t));
  }

  /** The digits of the plain spelling are those of the normal form, and so is the value. */
  lemma PlainHasValue(negative: bool, n: Normal)
    requires Digits(n.digits) && n.digits != "" && n.digits[0] != '0'
    ensures WellFormed(Plain(negative, n)) && Plain(negative, n).negative == negative
    ensures Plain(negative, n).exponent.None?
    ensures Scaled(NatOf(Coefficient(Plain(negative, n))), Scale(Plain(negative, n))) ==
              Scaled(NatOf(n.digits), n.exponent)
  {
    hide NatOf, Scaled, Ten, Zeros;
    var point := |n.digits| + n.exponent;
    PlainIsWellFormed(negative, n);
    if n.exponent >= 0 {
      TrailingZeros(n.digits, n.exponent);
      ScaledShift(NatOf(n.digits), n.exponent, 0);
    } else if point <= 0 {
      LeadingZeros(1 - point, n.digits);
    }
  }

  lemma PlainIsWellFormed(negative: bool, n: Normal)
    requires Digits(n.digits) && n.digits != "" && n.digits[0] != '0'
    ensures var t, point := Plain(negative, n), |n.digits| + n.exponent;
            && WellFormed(t) && t.negative == negative && t.exponent.None?
            && Coefficient(t) == (if n.exponent >= 0 then n.digits + Zeros(n.exponent)
                                  else if point > 0 then n.digits else Zeros(1 - point) + n.digits)
            && Scale(t) == if n.exponent >= 0 then 0 else n.exponent
  {
    hide NatOf;
    var t, point := Plain(negative, n), |n.digits| + n.exponent;
    if n.exponent >= 0 {
      assert Coefficient(t) == n.digits + Zeros(n.exponent);
    } else if point > 0 {
      assert Coefficient(t) == n.digits;
    } else {
      assert Coefficient(t) == Zeros(1 - point) + n.digits;
    }
  }

  /** Not divisible by ten, a coefficient and its exponent are determined by the value. */
  lemma NormalIsUnique(a: nat, e: int, b: nat, f: int)
    requires Scaled(a, e) == Scaled(b, f) && a % 10 != 0 && b % 10 != 0
    ensures a == b && e == f
  {
    if e <= f { UniqueFrom(a, e, b, f); } else { UniqueFrom(b, f, a, e); }
  }

  lemma UniqueFrom(a: nat, e: int, b: nat, f: int)
    requires Scaled(a, e) == Scaled(b, f) && a % 10 != 0 && b % 10 != 0 && e <= f
    ensures a == b && e == f
  {
    hide Scaled, Ten;
    ScaledShift(b, f - e, e);
    ScaledCancel(a, b * Ten(f - e), e);
    TenDivides(b, f - e);
  }

  lemma TenDivides(n: nat, k: nat)
    ensures if k == 0 then n * Ten(k) == n else (n * Ten(k)) % 10 == 0
  {
    if k > 0 {
      TimesTen(n, k - 1);
      RemainderOfTen(n * Ten(k - 1), 0);
    }
  }

  /** Tokens of equal value have the same normal form and, unless zero, the same sign. */
  lemma EqualValuesNormalize(t: Token, u: Token)
    requires WellFormed(t) && WellFormed(u) && Value(t) == Value(u)
    ensures NormalOf(t).digits == "" <==> NormalOf(u).digits == ""
    ensures NormalOf(t).digits != "" ==> NormalOf(t) == NormalOf(u) && t.negative == u.negative
  {
    hide Scaled, TrimLeft, TrimRight, Coefficient, Scale, NatOf;
    NormalHasValue(t);
    NormalHasValue(u);
    EmptyIsZero();
    var n, m := NormalOf(t), NormalOf(u);
    ScaledSign(NatOf(n.digits), n.exponent);
    ScaledSign(NatOf(m.digits), m.exponent);
    if n.digits != "" && m.digits != "" {
      NormalIsUnique(NatOf(n.digits), n.exponent, NatOf(m.digits), m.exponent);
      SameNumberSameText(n.digits, m.digits);
    }
  }

  lemma ScaledSign(n: nat, e: int)
    ensures Scaled(n, e) >= 0.0 && (Scaled(n, e) == 0.0 <==> n == 0)
  {
    if n > 0 { Positive(n as real, Pow10(e)); }
  }

  lemma Positive(x: real, p: real)
    requires x > 0.0 && p > 0.0
    ensures x * p > 0.0
  {
  }

  // ----- Main results -----

  /** The token a successful normalization spells. */
  function Normalized(t: Token): Token
    requires WellFormed(t)
  {
    if NormalOf(t).digits == "" then ZERO else Plain(t.negative, NormalOf(t))
  }

  /** Normalization preserves the exact value. */
  lemma NormalizePreservesValue(t: Token)
    requires WellFormed(t) && Normalize(t).Ok?
    ensures WellFormed(Normalized(t)) && Normalize(t) == Ok(Spelling(Normalized(t))) && Value(Normalized(t)) == Value(t)
  {
    hide Scaled, TrimLeft, TrimRight, NatOf, Plain, RangeError;
    NormalHasValue(t);
    EmptyIsZero();
    if NormalOf(t).digits != "" {
      PlainHasValue(t.negative, NormalOf(t));
    } else {
      ScaledSign(0, NormalOf(t).exponent);
      ScaledSign(0, 0);
    }
  }

  lemma EmptyIsZero()
    ensures NatOf("") == 0 && NatOf("0") == 0
    ensures Coefficient(ZERO) == "0" && Scale(ZERO) == 0
  {
  }

  /** Equal values that are accepted have one text. */
  lemma EqualValuesOneText(t: Token, u: Token)
    requires WellFormed(t) && WellFormed(u) && Value(t) == Value(u) && Normalize(t).Ok? && Normalize(u).Ok?
    ensures Normalize(t) == Normalize(u)
  {
    hide Value, NormalOf, Plain, RangeError, Spelling;
    EqualValuesNormalize(t, u);
  }

  /** The text is its own normal form. */
  lemma NormalizeIsFixed(t: Token)
    requires WellFormed(t) && Normalize(t).Ok?
    ensures WellFormed(Normalized(t)) && Normalize(Normalized(t)) == Ok(Spelling(Normalized(t)))
  {
    hide Value, NormalOf, Plain, RangeError, Spelling;
    NormalizePreservesValue(t);
    EqualValuesNormalize(t, Normalized(t));
    if NormalOf(t).digits != "" {
      NormalHasValue(t);
      PlainHasValue(t.negative, NormalOf(t));
    }
  }

  // ----- Text -----

  /** How many digits a text starts with. */
  function DigitRun(s: string): (n: nat)
    ensures n <= |s| && Digits(s[..n]) && (n < |s| ==> !IsDigit(s[n]))
  {
    if s == "" || !IsDigit(s[0]) then 0 else 1 + DigitRun(s[1..])
  }

  datatype Split = Split(text: string, rest: string)

  /** The fraction, empty without a point, and what follows it. */
  function ParseFraction(s: string): (r: Option<Split>) {
    if s == "" || s[0] != '.' then Some(Split("", s))
    else
      var n := DigitRun(s[1..]);
      if n == 0 then None else Some(Split(s[1..][..n], s[1..][n..]))
  }

  /** The exponent that is all of the rest of a token, if there is any rest. */
  function ParseExponent(s: string): (r: Option<Option<Exponent>>) {
    if s == "" then Some(None)
    else if s[0] != 'e' && s[0] != 'E' then None
    else
      var sign := if |s| > 1 && s[1] == '+' then Plus else if |s| > 1 && s[1] == '-' then Minus else Bare;
      var digits := if sign.Bare? then s[1..] else s[2..];
      if digits == "" || !Digits(digits) then None else Some(Some(Exponent(s[0] == 'E', sign, digits)))
  }

  /** The number grammar as a recogniser. */
  function ParseToken(raw: string): (r: Option<Token>) {
    if raw != "" && raw[0] == '-' then ParseUnsigned(true, raw[1..]) else ParseUnsigned(false, raw)
  }

  function ParseUnsigned(negative: bool, body: string): (r: Option<Token>) {
    var n := DigitRun(body);
    if n == 0 || (body[0] == '0' && n > 1) then None
    else
      var fraction := ParseFraction(body[n..]);
      if fraction.None? then None
      else
        var exponent := ParseExponent(fraction.value.rest);
        if exponent.None? then None else Some(Token(negative, body[..n], fraction.value.text, exponent.value))
  }

  lemma {:induction false} DigitRunStops(d: string, rest: string)
    requires Digits(d) && (rest == "" || !IsDigit(rest[0]))
    ensures DigitRun(d + rest) == |d|
    decreases |d|
  {
    if d == "" {
      assert d + rest == rest;
    } else {
      DigitRunStops(d[1..], rest);
      assert (d + rest)[1..] == d[1..] + rest;
    }
  }

  lemma ExponentRoundTrip(e: Exponent)
    requires Digits(e.digits) && e.digits != ""
    ensures ParseExponent(ExponentText(e)) == Some(Some(e))
  {
    var s := ExponentText(e);
    if e.sign.Bare? { assert s[1..] == e.digits; } else { assert s[2..] == e.digits; }
  }

  lemma FractionRoundTrip(fraction: string, rest: string)
    requires Digits(fraction) && (rest == "" || (!IsDigit(rest[0]) && rest[0] != '.'))
    ensures ParseFraction((if fraction == "" then "" else "." + fraction) + rest) == Some(Split(fraction, rest))
  {
    if fraction == "" {
      assert "" + rest == rest;
    } else {
      var s := "." + fraction + rest;
      assert s[1..] == fraction + rest;
      DigitRunStops(fraction, rest);
    }
  }

  function Tail(t: Token): string { if t.exponent.Some? then ExponentText(t.exponent.value) else "" }

  function Middle(t: Token): string { (if t.fraction == "" then "" else "." + t.fraction) + Tail(t) }

  lemma TailRoundTrip(t: Token)
    requires WellFormed(t)
    ensures ParseExponent(Tail(t)) == Some(t.exponent)
    ensures ParseFraction(Middle(t)) == Some(Split(t.fraction, Tail(t)))
    ensures Middle(t) == "" || !IsDigit(Middle(t)[0])
  {
    if t.exponent.Some? { ExponentRoundTrip(t.exponent.value); }
    FractionRoundTrip(t.fraction, Tail(t));
  }

  lemma UnsignedRoundTrip(t: Token)
    requires WellFormed(t)
    ensures ParseUnsigned(t.negative, t.whole + Middle(t)) == Some(t)
  {
    hide ParseFraction, ParseExponent, Middle, DigitRun;
    TailRoundTrip(t);
    var body := t.whole + Middle(t);
    DigitRunStops(t.whole, Middle(t));
    assert body[|t.whole|..] == Middle(t) && body[..|t.whole|] == t.whole;
  }

  /** Reading a token back gives the token: the grammar is unambiguous. */
  lemma TokenRoundTrip(t: Token)
    requires WellFormed(t)
    ensures ParseToken(Spelling(t)) == Some(t)
  {
    hide ParseUnsigned, Middle, Spelling;
    var body := t.whole + Middle(t);
    SpellingInParts(t);
    UnsignedRoundTrip(t);
    assert body[0] == t.whole[0];
    if t.negative { assert ("-" + body)[1..] == body; } else { assert "" + body == body; }
  }

  lemma FractionIsRead(s: string)
    requires ParseFraction(s).Some?
    ensures var r := ParseFraction(s).value;
            Digits(r.text) && s == (if r.text == "" then "" else "." + r.text) + r.rest
  {
    if s != "" && s[0] == '.' {
      var n := DigitRun(s[1..]);
      assert s == "." + s[1..] && s[1..] == s[1..][..n] + s[1..][n..];
    }
  }

  lemma ExponentIsRead(s: string)
    requires ParseExponent(s).Some?
    ensures var r := ParseExponent(s).value;
            && s == (if r.Some? then ExponentText(r.value) else "")
            && (r.Some? ==> Digits(r.value.digits) && r.value.digits != "")
  {
    if s != "" {
      var e := ParseExponent(s).value.value;
      var letter := [s[0]];
      assert ExponentText(e) == letter + SignText(e.sign) + e.digits;
      if e.sign.Bare? { BareExponent(s); } else { SignedExponent(s, SignText(e.sign)); }
    }
  }

  lemma BareExponent(s: string)
    requires s != ""
    ensures [s[0]] + "" + s[1..] == s
  {
  }

  lemma SignedExponent(s: string, sign: string)
    requires |s| > 1 && sign == [s[1]]
    ensures [s[0]] + sign + s[2..] == s
  {
  }

  /** Whatever is read is well formed and spells the text it was read from. */
  lemma ReadIsSpelled(raw: string)
    requires ParseToken(raw).Some?
    ensures WellFormed(ParseToken(raw).value) && Spelling(ParseToken(raw).value) == raw
  {
    hide ParseUnsigned, Spelling, Middle;
    var negative := raw != "" && raw[0] == '-';
    var body := if negative then raw[1..] else raw;
    UnsignedIsSpelled(negative, body);
    SpellingInParts(ParseToken(raw).value);
    if negative { assert raw == "-" + body; } else { assert raw == "" + body; }
  }

  lemma UnsignedIsSpelled(negative: bool, body: string)
    requires ParseUnsigned(negative, body).Some?
    ensures var t := ParseUnsigned(negative, body).value;
            WellFormed(t) && t.negative == negative && t.whole + Middle(t) == body
  {
    hide ParseFraction, ParseExponent, ExponentText, DigitRun;
    var t := ParseUnsigned(negative, body).value;
    var n := DigitRun(body);
    FractionIsRead(body[n..]);
    ExponentIsRead(ParseFraction(body[n..]).value.rest);
    assert Middle(t) == body[n..];
    assert body[..n] + body[n..] == body;
  }

  lemma SpellingInParts(t: Token)
    ensures Spelling(t) == (if t.negative then "-" else "") + (t.whole + Middle(t))
  {
  }

  /** `normalizeNumber`. */
  function NormalizeNumber(raw: string): (r: Result) {
    var t := ParseToken(raw);
    if t.None? then Err(InvalidNumber) else ReadIsSpelled(raw); Normalize(t.value)
  }

  /** The guard's number text: accepted only from well formed tokens, exact, and its own normal form. */
  lemma NumberTextIsNormal(raw: string)
    requires NormalizeNumber(raw).Ok?
    ensures var text := NormalizeNumber(raw).text;
            && ParseToken(raw).Some? && WellFormed(ParseToken(raw).value)
            && ParseToken(text).Some? && WellFormed(ParseToken(text).value)
            && Value(ParseToken(text).value) == Value(ParseToken(raw).value)
            && NormalizeNumber(text) == Ok(text)
  {
    hide Normalize, Normalized, ParseToken, Value;
    ReadIsSpelled(raw);
    var t := ParseToken(raw).value;
    NormalizePreservesValue(t);
    NormalizeIsFixed(t);
    TokenRoundTrip(Normalized(t));
  }
}
