/** UTF-8, section 3 of RFC 3629, and the order of keys: the guard sorts object keys by their
    bytes, the reference by their code points. */
module Utf8 {

  /** Unicode scalar values. */
  predicate IsScalar(c: int) { 0 <= c < 0xD800 || 0xE000 <= c <= 0x10FFFF }

  type Scalar = c: int | IsScalar(c)

  function Continuation(c: nat): int { 0x80 + c % 64 }

  function Encode(c: Scalar): (bytes: seq<int>)
    ensures 1 <= |bytes| <= 4
  {
    if c < 0x80 then [c]
    else if c < 0x800 then [0xC0 + c / 64, Continuation(c)]
    else if c < 0x10000 then [0xE0 + c / 4096, Continuation(c / 64), Continuation(c)]
    else [0xF0 + c / 262144, Continuation(c / 4096), Continuation(c / 64), Continuation(c)]
  }

  function EncodeAll(s: seq<Scalar>): (bytes: seq<int>) {
    if s == [] then [] else Encode(s[0]) + EncodeAll(s[1..])
  }

  /** Lexicographic order of number sequences: -1, 0 or 1. */
  function Lex(a: seq<int>, b: seq<int>): int {
    if a == [] then (if b == [] then 0 else -1)
    else if b == [] then 1
    else if a[0] < b[0] then -1
    else if a[0] > b[0] then 1
    else Lex(a[1..], b[1..])
  }

  /** `a` and `b` agree before position `k` and `a` is smaller there. */
  predicate SmallerAt(a: seq<int>, b: seq<int>, k: nat) {
    k < |a| && k < |b| && a[..k] == b[..k] && a[k] < b[k]
  }

  lemma {:induction false} SmallerDecides(a: seq<int>, b: seq<int>, x: seq<int>, y: seq<int>, k: nat)
    requires SmallerAt(a, b, k)
    ensures Lex(a + x, b + y) == -1 && Lex(b + y, a + x) == 1
    decreases k
  {
    if k > 0 {
      assert a[0] == a[..k][0] == b[..k][0] == b[0];
      assert a[1..][..k - 1] == a[..k][1..] && b[1..][..k - 1] == b[..k][1..];
      SmallerDecides(a[1..], b[1..], x, y, k - 1);
      assert (a + x)[1..] == a[1..] + x && (b + y)[1..] == b[1..] + y;
    }
  }

  lemma {:induction false} PrefixCancels(p: seq<int>, a: seq<int>, b: seq<int>)
    ensures Lex(p + a, p + b) == Lex(a, b)
    decreases |p|
  {
    if p == [] {
      assert p + a == a && p + b == b;
    } else {
      PrefixCancels(p[1..], a, b);
      assert (p + a)[1..] == p[1..] + a && (p + b)[1..] == p[1..] + b;
    }
  }

  lemma Quotients(c: nat)
    ensures c / 64 / 64 == c / 4096 && c / 4096 / 64 == c / 262144
  {
  }

  lemma LowDigit(a: nat, b: nat)
    requires a < b && a / 64 == b / 64
    ensures Continuation(a) < Continuation(b)
  {
  }

  lemma Monotone(a: int, b: int)
    requires a < b
    ensures a / 64 <= b / 64 && a / 4096 <= b / 4096 && a / 262144 <= b / 262144
  {
  }

  lemma LeadsDiffer(a: Scalar, b: Scalar)
    requires a < b && Encode(a)[0] != Encode(b)[0]
    ensures SmallerAt(Encode(a), Encode(b), 0)
  {
    Monotone(a, b);
  }

  /** Encodings with the same lead byte have the same length. */
  lemma SameLead(a: Scalar, b: Scalar)
    requires a < b && Encode(a)[0] == Encode(b)[0]
    ensures 0x80 <= a && (a < 0x800 <==> b < 0x800) && (a < 0x10000 <==> b < 0x10000)
  {
  }

  lemma TwoBytes(a: Scalar, b: Scalar)
    requires 0x80 <= a < b < 0x800 && a / 64 == b / 64
    ensures SmallerAt(Encode(a), Encode(b), 1)
  {
    LowDigit(a, b);
    assert Encode(a)[..1] == [0xC0 + a / 64] == Encode(b)[..1];
  }

  lemma ThreeBytes(a: Scalar, b: Scalar)
    requires 0x800 <= a < b < 0x10000 && a / 4096 == b / 4096
    ensures SmallerAt(Encode(a), Encode(b), if a / 64 == b / 64 then 2 else 1)
  {
    hide Continuation;
    Quotients(a);
    Quotients(b);
    Monotone(a, b);
    var lead := 0xE0 + a / 4096;
    if a / 64 == b / 64 {
      LowDigit(a, b);
      assert Encode(a)[..2] == [lead, Continuation(a / 64)] == Encode(b)[..2];
    } else {
      LowDigit(a / 64, b / 64);
      assert Encode(a)[..1] == [lead] == Encode(b)[..1];
    }
  }

  lemma FourBytes(a: Scalar, b: Scalar)
    requires 0x10000 <= a < b && a / 262144 == b / 262144
    ensures SmallerAt(Encode(a), Encode(b), if a / 64 == b / 64 then 3 else if a / 4096 == b / 4096 then 2 else 1)
  {
    hide Continuation;
    Quotients(a);
    Quotients(b);
    Monotone(a, b);
    var lead := 0xF0 + a / 262144;
    if a / 64 == b / 64 {
      LowDigit(a, b);
      assert Encode(a)[..3] == [lead, Continuation(a / 4096), Continuation(a / 64)] == Encode(b)[..3];
    } else if a / 4096 == b / 4096 {
      LowDigit(a / 64, b / 64);
      assert Encode(a)[..2] == [lead, Continuation(a / 4096)] == Encode(b)[..2];
    } else {
      LowDigit(a / 4096, b / 4096);
      assert Encode(a)[..1] == [lead] == Encode(b)[..1];
    }
  }

  /** The code point order decides at the first difference. */
  lemma ScalarsDiffer(a: Scalar, b: Scalar) returns (k: nat)
    requires a < b
    ensures SmallerAt(Encode(a), Encode(b), k)
  {
    if Encode(a)[0] != Encode(b)[0] {
      LeadsDiffer(a, b);
      k := 0;
    } else {
      SameLead(a, b);
      if a < 0x800 {
        TwoBytes(a, b);
        k := 1;
      } else if a < 0x10000 {
        ThreeBytes(a, b);
        k := if a / 64 == b / 64 then 2 else 1;
      } else {
        FourBytes(a, b);
        k := if a / 64 == b / 64 then 3 else if a / 4096 == b / 4096 then 2 else 1;
      }
    }
  }

  /** Comparing UTF-8 bytes is comparing code points, for all strings: section 1 of RFC 3629. */
  lemma {:induction false} ByteOrderIsCodePointOrder(s: seq<Scalar>, t: seq<Scalar>)
    ensures Lex(EncodeAll(s), EncodeAll(t)) == Lex(s, t)
    decreases |s|
  {
    if s != [] && t != [] {
      if s[0] == t[0] {
        PrefixCancels(Encode(s[0]), EncodeAll(s[1..]), EncodeAll(t[1..]));
        ByteOrderIsCodePointOrder(s[1..], t[1..]);
      } else if s[0] < t[0] {
        var k := ScalarsDiffer(s[0], t[0]);
        SmallerDecides(Encode(s[0]), Encode(t[0]), EncodeAll(s[1..]), EncodeAll(t[1..]), k);
      } else {
        var k := ScalarsDiffer(t[0], s[0]);
        SmallerDecides(Encode(t[0]), Encode(s[0]), EncodeAll(t[1..]), EncodeAll(s[1..]), k);
      }
    }
  }

  /** The order is total and strict, so a key order is unique. */
  lemma {:induction false} LexIsStrict(a: seq<int>, b: seq<int>)
    ensures Lex(a, b) == 0 <==> a == b
    ensures Lex(a, b) == -Lex(b, a)
    decreases |a|
  {
    if a != [] && b != [] {
      LexIsStrict(a[1..], b[1..]);
      assert a == [a[0]] + a[1..] && b == [b[0]] + b[1..];
    }
  }

  lemma {:induction false} LexIsTransitive(a: seq<int>, b: seq<int>, c: seq<int>)
    requires Lex(a, b) < 0 && Lex(b, c) < 0
    ensures Lex(a, c) < 0
    decreases |a|
  {
    if a != [] && a[0] == b[0] && b[0] == c[0] { LexIsTransitive(a[1..], b[1..], c[1..]); }
  }

  // ----- Reading it back -----

  predicate IsContinuation(b: int) { 0x80 <= b <= 0xBF }

  /** How many bytes a character has whose first byte is this; 0 if no character starts with it. */
  function LengthOf(first: int): nat {
    if 0 <= first < 0x80 then 1
    else if 0xC2 <= first <= 0xDF then 2
    else if 0xE0 <= first <= 0xEF then 3
    else if 0xF0 <= first <= 0xF4 then 4
    else 0
  }

  /** The table of well-formed sequences in section 4 of RFC 3629: no longer form than needed, no
      surrogates, nothing above U+10FFFF. */
  predicate WellFormed(bytes: seq<int>) {
    && bytes != [] && LengthOf(bytes[0]) == |bytes|
    && (forall i :: 1 <= i < |bytes| ==> IsContinuation(bytes[i]))
    && (bytes[0] == 0xE0 ==> bytes[1] >= 0xA0)
    && (bytes[0] == 0xED ==> bytes[1] <= 0x9F)
    && (bytes[0] == 0xF0 ==> bytes[1] >= 0x90)
    && (bytes[0] == 0xF4 ==> bytes[1] <= 0x8F)
  }

  /** The character a well-formed sequence stands for. */
  function Character(bytes: seq<int>): int
    requires WellFormed(bytes)
  {
    if |bytes| == 1 then bytes[0]
    else if |bytes| == 2 then (bytes[0] - 0xC0) * 64 + (bytes[1] - 0x80)
    else if |bytes| == 3 then (bytes[0] - 0xE0) * 4096 + (bytes[1] - 0x80) * 64 + (bytes[2] - 0x80)
    else (bytes[0] - 0xF0) * 262144 + (bytes[1] - 0x80) * 4096 + (bytes[2] - 0x80) * 64 + (bytes[3] - 0x80)
  }

  lemma LastDigit(c: nat)
    ensures c == c / 64 * 64 + c % 64 && 0 <= c % 64 < 64
  {
  }

  lemma ReadsTwo(c: nat)
    requires 0x80 <= c < 0x800
    ensures WellFormed([0xC0 + c / 64, Continuation(c)]) && Character([0xC0 + c / 64, Continuation(c)]) == c
  {
    LastDigit(c);
  }

  lemma ReadsThree(c: nat)
    requires 0x800 <= c < 0x10000 && IsScalar(c)
    ensures var bytes := [0xE0 + c / 4096, Continuation(c / 64), Continuation(c)];
            WellFormed(bytes) && Character(bytes) == c
  {
    LastDigit(c);
    LastDigit(c / 64);
    Quotients(c);
  }

  lemma ReadsFour(c: nat)
    requires 0x10000 <= c <= 0x10FFFF
    ensures var bytes := [0xF0 + c / 262144, Continuation(c / 4096), Continuation(c / 64), Continuation(c)];
            WellFormed(bytes) && Character(bytes) == c
  {
    LastDigit(c);
    LastDigit(c / 64);
    LastDigit(c / 4096);
    Quotients(c);
  }

  /** Encoding gives the well-formed sequence that stands for the character. */
  lemma EncodeIsWellFormed(c: Scalar)
    ensures WellFormed(Encode(c)) && Character(Encode(c)) == c
  {
    assert IsScalar(c);
    if 0x80 <= c < 0x800 { ReadsTwo(c); }
    else if 0x800 <= c < 0x10000 { ReadsThree(c); }
    else if 0x10000 <= c { ReadsFour(c); }
  }

  /** And there is only one. */
  lemma EncodeIsTheOnly(bytes: seq<int>)
    requires WellFormed(bytes)
    ensures IsScalar(Character(bytes)) && Encode(Character(bytes)) == bytes
  {
    var c := Character(bytes);
    if |bytes| == 2 {
      TwoDigits(bytes[0] - 0xC0, bytes[1] - 0x80);
    } else if |bytes| == 3 {
      ThreeDigits(bytes[0] - 0xE0, bytes[1] - 0x80, bytes[2] - 0x80);
    } else if |bytes| == 4 {
      FourDigits(bytes[0] - 0xF0, bytes[1] - 0x80, bytes[2] - 0x80, bytes[3] - 0x80);
    }
  }

  lemma TwoDigits(a: nat, b: nat)
    requires b < 64
    ensures (a * 64 + b) / 64 == a && (a * 64 + b) % 64 == b
  {
  }

  lemma ThreeDigits(a: nat, b: nat, d: nat)
    requires b < 64 && d < 64
    ensures var c := a * 4096 + b * 64 + d; c / 4096 == a && c / 64 % 64 == b && c % 64 == d
  {
    var c := a * 4096 + b * 64 + d;
    TwoDigits(a * 64 + b, d);
    TwoDigits(a, b);
    Quotients(c);
  }

  lemma FourDigits(a: nat, b: nat, d: nat, e: nat)
    requires b < 64 && d < 64 && e < 64
    ensures var c := a * 262144 + b * 4096 + d * 64 + e;
            c / 262144 == a && c / 4096 % 64 == b && c / 64 % 64 == d && c % 64 == e
  {
    var c := a * 262144 + b * 4096 + d * 64 + e;
    TwoDigits(a * 4096 + b * 64 + d, e);
    ThreeDigits(a, b, d);
    Quotients(c);
    Quotients(c / 64);
  }
}
