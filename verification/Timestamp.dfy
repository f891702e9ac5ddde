/** Exact timestamps: seconds and a decimal fraction of any length, compared digit by digit by
    the reference and as zero-padded strings by the guard. */
module Timestamp {

  predicate IsDigit(ch: char) { '0' <= ch <= '9' }

  predicate Digits(s: string) { forall i :: 0 <= i < |s| ==> IsDigit(s[i]) }

  datatype Stamp = Stamp(seconds: int, fraction: string)

  predicate Valid(t: Stamp) { Digits(t.fraction) }

  // ----- The instant a timestamp names -----

  function Digit(ch: char): int
    requires IsDigit(ch)
  {
    ch as int - '0' as int
  }

  /** The number `0.fraction`. */
  ghost function Fraction(s: string): (r: real)
    requires Digits(s)
    ensures 0.0 <= r < 1.0
  {
    if s == "" then 0.0 else (Digit(s[0]) as real + Fraction(s[1..])) / 10.0
  }

  ghost function Instant(t: Stamp): real
    requires Valid(t)
  {
    t.seconds as real + Fraction(t.fraction)
  }

  function Sign(x: int, y: int): int { if x < y then -1 else if x > y then 1 else 0 }

  ghost function Compare(x: real, y: real): int { if x < y then -1 else if x > y then 1 else 0 }

  // ----- The reference: digit by digit, a missing digit counting as zero -----

  function At(s: string, i: nat): char { if i < |s| then s[i] else '0' }

  function DigitOrder(left: string, right: string, i: nat): (order: int)
    decreases |left| + |right| - i
  {
    if i >= |left| && i >= |right| then 0
    else if At(left, i) != At(right, i) then (if At(left, i) < At(right, i) then -1 else 1)
    else DigitOrder(left, right, i + 1)
  }

  function Order(left: Stamp, right: Stamp): int {
    if left.seconds != right.seconds then Sign(left.seconds, right.seconds)
    else DigitOrder(left.fraction, right.fraction, 0)
  }

  method TimestampOrder(left: Stamp, right: Stamp) returns (order: int)
    requires Valid(left) && Valid(right)
    ensures order == Compare(Instant(left), Instant(right))
  {
    if left.seconds != right.seconds {
      order := if left.seconds < right.seconds then -1 else 1;
    } else {
      var width := if |left.fraction| > |right.fraction| then |left.fraction| else |right.fraction|;
      order := 0;
      var i := 0;
      while i < width
        invariant 0 <= i <= width && order == 0
        invariant DigitOrder(left.fraction, right.fraction, 0) == DigitOrder(left.fraction, right.fraction, i)
      {
        var l, r := At(left.fraction, i), At(right.fraction, i);
        if l != r {
          order := if l < r then -1 else 1;
          break;
        }
        i := i + 1;
      }
    }
    OrderIsExact(left, right);
  }

  /** What is left of a fraction after `i` digits. */
  function From(s: string, i: nat): string { if i < |s| then s[i..] else "" }

  lemma FromStep(s: string, i: nat)
    requires Digits(s)
    ensures Digits(From(s, i)) && Digits(From(s, i + 1)) && IsDigit(At(s, i))
    ensures Fraction(From(s, i)) == (Digit(At(s, i)) as real + Fraction(From(s, i + 1))) / 10.0
  {
    if i + 1 < |s| { assert s[i..][1..] == s[i + 1..]; }
  }

  lemma {:induction false} DigitsOrderFractions(left: string, right: string, i: nat)
    requires Digits(left) && Digits(right)
    ensures Digits(From(left, i)) && Digits(From(right, i))
    ensures DigitOrder(left, right, i) == Compare(Fraction(From(left, i)), Fraction(From(right, i)))
    decreases |left| + |right| - i
  {
    if i < |left| || i < |right| {
      FromStep(left, i);
      FromStep(right, i);
      DigitsOrderFractions(left, right, i + 1);
    }
  }

  /** The digit-by-digit comparison is the order of the instants, for fractions of any length. */
  lemma OrderIsExact(left: Stamp, right: Stamp)
    requires Valid(left) && Valid(right)
    ensures Order(left, right) == Compare(Instant(left), Instant(right))
  {
    DigitsOrderFractions(left.fraction, right.fraction, 0);
    assert From(left.fraction, 0) == left.fraction && From(right.fraction, 0) == right.fraction;
    if left.seconds < right.seconds { assert left.seconds as real + 1.0 <= right.seconds as real; }
    if left.seconds > right.seconds { assert right.seconds as real + 1.0 <= left.seconds as real; }
  }

  // ----- The guard: trim, pad, compare as strings -----

  function TrimZeros(s: string): string {
    if s != "" && s[|s| - 1] == '0' then TrimZeros(s[..|s| - 1]) else s
  }

  function Zeros(n: nat): string { seq(n, _ => '0') }

  function Lexicographic(a: string, b: string): int {
    if a == "" || b == "" then Sign(|a|, |b|)
    else if a[0] != b[0] then (if a[0] < b[0] then -1 else 1)
    else Lexicographic(a[1..], b[1..])
  }

  /** A timestamp as the guard keeps it after parsing. */
  function Trimmed(t: Stamp): Stamp { t.(fraction := TrimZeros(t.fraction)) }

  function CompareTimestamp(left: Stamp, right: Stamp): (order: int) {
    if left.seconds < right.seconds then -1
    else if left.seconds > right.seconds then 1
    else
      var width := if |right.fraction| > |left.fraction| then |right.fraction| else |left.fraction|;
      Lexicographic(left.fraction + Zeros(width - |left.fraction|), right.fraction + Zeros(width - |right.fraction|))
  }

  lemma {:induction false} PaddingIsFree(s: string, n: nat)
    requires Digits(s)
    ensures Digits(s + Zeros(n)) && Fraction(s + Zeros(n)) == Fraction(s)
    decreases |s|, n
  {
    if s != "" {
      PaddingIsFree(s[1..], n);
      assert (s + Zeros(n))[1..] == s[1..] + Zeros(n);
    } else if n > 0 {
      PaddingIsFree("", n - 1);
      assert "" + Zeros(n) == Zeros(n) && "" + Zeros(n - 1) == Zeros(n - 1);
      assert Zeros(n)[1..] == Zeros(n - 1);
    } else {
      assert s + Zeros(0) == s;
    }
  }

  lemma {:induction false} TrimmingIsFree(s: string)
    requires Digits(s)
    ensures Digits(TrimZeros(s)) && Fraction(TrimZeros(s)) == Fraction(s)
  {
    if s != "" && s[|s| - 1] == '0' {
      TrimmingIsFree(s[..|s| - 1]);
      PaddingIsFree(s[..|s| - 1], 1);
      assert s[..|s| - 1] + Zeros(1) == s;
    }
  }

  lemma {:induction false} StringsOrderFractions(a: string, b: string)
    requires Digits(a) && Digits(b) && |a| == |b|
    ensures Lexicographic(a, b) == Compare(Fraction(a), Fraction(b))
    decreases |a|
  {
    if a != "" { StringsOrderFractions(a[1..], b[1..]); }
  }

  /** The padded string comparison is the order of the instants too. */
  lemma PaddedOrderIsExact(left: Stamp, right: Stamp)
    requires Valid(left) && Valid(right)
    ensures CompareTimestamp(left, right) == Compare(Instant(left), Instant(right))
  {
    var width := if |right.fraction| > |left.fraction| then |right.fraction| else |left.fraction|;
    PaddingIsFree(left.fraction, width - |left.fraction|);
    PaddingIsFree(right.fraction, width - |right.fraction|);
    StringsOrderFractions(left.fraction + Zeros(width - |left.fraction|),
                          right.fraction + Zeros(width - |right.fraction|));
    if left.seconds < right.seconds { assert left.seconds as real + 1.0 <= right.seconds as real; }
    if left.seconds > right.seconds { assert right.seconds as real + 1.0 <= left.seconds as real; }
  }

  /** Guard and reference order the same spellings the same way. */
  lemma ComparisonsAgree(left: Stamp, right: Stamp)
    requires Valid(left) && Valid(right)
    ensures CompareTimestamp(Trimmed(left), Trimmed(right)) == Order(left, right)
  {
    TrimmingIsFree(left.fraction);
    TrimmingIsFree(right.fraction);
    PaddedOrderIsExact(Trimmed(left), Trimmed(right));
    OrderIsExact(left, right);
  }

  // ----- Whole nanoseconds -----

  const NANO_DIGITS: nat := 9
  const NANOS: int := 1_000_000_000

  function Ten(n: nat): int { if n == 0 then 1 else 10 * Ten(n - 1) }

  /** The number spelled by `n` digits from `i` on. */
  function Leading(s: string, i: nat, n: nat): int
    requires Digits(s)
    decreases n
  {
    if n == 0 then 0 else Digit(At(s, i)) * Ten(n - 1) + Leading(s, i + 1, n - 1)
  }

  /** The instant the guard's clock type keeps: digits past the ninth are dropped. */
  function Nanoseconds(t: Stamp): int
    requires Valid(t)
  {
    t.seconds * NANOS + Leading(t.fraction, 0, NANO_DIGITS)
  }

  lemma {:induction false} LeadingDigits(s: string, i: nat, n: nat)
    requires Digits(s)
    ensures Digits(From(s, i)) && Digits(From(s, i + n))
    ensures Fraction(From(s, i)) * Ten(n) as real == Leading(s, i, n) as real + Fraction(From(s, i + n))
    decreases n
  {
    hide Fraction, From;
    FromStep(s, i);
    if n > 0 {
      LeadingDigits(s, i + 1, n - 1);
      TimesTen(Digit(At(s, i)), Fraction(From(s, i + 1)), Ten(n - 1));
    }
  }

  lemma TimesTen(d: int, rest: real, ten: int)
    ensures (d as real + rest) / 10.0 * (10 * ten) as real == (d * ten) as real + rest * ten as real
  {
  }

  lemma NineDigits(t: Stamp)
    requires Valid(t)
    ensures Digits(From(t.fraction, NANO_DIGITS))
    ensures Instant(t) * NANOS as real == Nanoseconds(t) as real + Fraction(From(t.fraction, NANO_DIGITS))
  {
    LeadingDigits(t.fraction, 0, NANO_DIGITS);
    assert From(t.fraction, 0) == t.fraction;
    assert Ten(5) == 100_000 && Ten(9) == NANOS;
  }

  /** Dropping digits past the ninth keeps the order of two timestamps exactly if they name the
      same instant or different nanoseconds. */
  lemma NanosecondsAgree(left: Stamp, right: Stamp)
    requires Valid(left) && Valid(right)
    ensures Sign(Nanoseconds(left), Nanoseconds(right)) == Order(left, right) <==>
            Instant(left) == Instant(right) || Nanoseconds(left) != Nanoseconds(right)
  {
    hide Instant, Nanoseconds, Order, Fraction;
    OrderIsExact(left, right);
    NineDigits(left);
    NineDigits(right);
    var x, y := Nanoseconds(left), Nanoseconds(right);
    assert x < y ==> x as real + 1.0 <= y as real;
    assert x > y ==> y as real + 1.0 <= x as real;
  }

  /** So it never matters for timestamps of at most nine digits, */
  lemma NineDigitsAreEnough(left: Stamp, right: Stamp)
    requires Valid(left) && Valid(right) && |left.fraction| <= NANO_DIGITS && |right.fraction| <= NANO_DIGITS
    ensures Sign(Nanoseconds(left), Nanoseconds(right)) == Order(left, right)
  {
    hide Instant, Nanoseconds, Order;
    NineDigits(left);
    NineDigits(right);
    NanosecondsAgree(left, right);
  }

  /** and does for a tenth. */
  lemma TenDigitsDiffer(seconds: int)
    ensures var left, right := Stamp(seconds, ""), Stamp(seconds, "0000000001");
            Valid(left) && Valid(right) && Order(left, right) == -1 && Nanoseconds(left) == Nanoseconds(right)
  {
    var left, right := Stamp(seconds, ""), Stamp(seconds, "0000000001");
    AllZero("", 0, NANO_DIGITS);
    AllZero("0000000001", 0, NANO_DIGITS);
    SkipZeros("", "0000000001", 0, NANO_DIGITS);
  }

  lemma {:induction false} AllZero(s: string, i: nat, n: nat)
    requires Digits(s) && forall k :: i <= k < i + n ==> At(s, k) == '0'
    ensures Leading(s, i, n) == 0
    decreases n
  {
    if n > 0 {
      assert At(s, i) == '0';
      AllZero(s, i + 1, n - 1);
    }
  }

  lemma {:induction false} SkipZeros(left: string, right: string, i: nat, n: nat)
    requires i + n <= |right| && forall k :: i <= k < i + n ==> At(left, k) == At(right, k)
    ensures DigitOrder(left, right, i) == DigitOrder(left, right, i + n)
    decreases n
  {
    if n > 0 {
      assert At(left, i) == At(right, i);
      SkipZeros(left, right, i + 1, n - 1);
    }
  }
}
