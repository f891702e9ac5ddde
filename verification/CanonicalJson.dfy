/** Canonical JSON text: how values are written, and a parser that shows the text determines the
    value.  Numbers are kept as their normal text, strings as sequences of scalar values. */
module CanonicalJson {
  import opened Protocol
  import D = Decimal

  datatype Json =
    | Null | Bool(b: bool) | Num(text: string) | Str(s: string)
    | Arr(items: seq<Json>) | Obj(members: seq<Member>)

  datatype Member = Member(key: string, value: Json)

  predicate DistinctKeys(ms: seq<Member>) {
    forall i, j :: 0 <= i < j < |ms| ==> ms[i].key != ms[j].key
  }

  /** A decoded value: numbers in normal form, no key twice. */
  predicate Valid(v: Json) {
    match v
    case Num(text) => D.NormalizeNumber(text) == D.Ok(text)
    case Arr(items) => forall i :: 0 <= i < |items| ==> Valid(items[i])
    case Obj(members) => DistinctKeys(members) && forall i :: 0 <= i < |members| ==> Valid(members[i].value)
    case Null => true case Bool(_) => true case Str(_) => true
  }

  // ----- Writing -----

  function Hex(n: nat): char
    requires n < 16
  {
    if n < 10 then '0' + n as char else 'a' + (n - 10) as char
  }

  /** `quoteJSONString` on one character, section 7 of RFC 8259. */
  function Escape(c: char): (s: string) {
    if c == '\"' then "\\\""
    else if c == '\\' then "\\\\"
    else if c == 8 as char then "\\b"
    else if c == 12 as char then "\\f"
    else if c == '\n' then "\\n"
    else if c == '\r' then "\\r"
    else if c == '\t' then "\\t"
    else if c < 0x20 as char then ['\\', 'u', '0', '0', Hex(c as int / 16), Hex(c as int % 16)]
    else [c]
  }

  function EscapeAll(s: string): string {
    if s == "" then "" else Escape(s[0]) + EscapeAll(s[1..])
  }

  function Quote(s: string): string { "\"" + EscapeAll(s) + "\"" }

  /** A value written out, its members in the order given. */
  function Text(v: Json): string {
    match v
    case Null => "null"
    case Bool(b) => if b then "true" else "false"
    case Num(text) => text
    case Str(s) => Quote(s)
    case Arr(items) => "[" + ItemsText(items) + "]"
    case Obj(members) => "{" + MembersText(members) + "}"
  }

  function ItemsText(items: seq<Json>): string {
    if items == [] then ""
    else Text(items[0]) + (if |items| == 1 then "" else "," + ItemsText(items[1..]))
  }

  function MemberText(m: Member): string { Quote(m.key) + ":" + Text(m.value) }

  function MembersText(ms: seq<Member>): string {
    if ms == [] then ""
    else Quote(ms[0].key) + ":" + Text(ms[0].value) + (if |ms| == 1 then "" else "," + MembersText(ms[1..]))
  }

  // ----- Reading -----

  datatype Read<+T> = Read(value: T, rest: string)

  function HexValue(c: char): Option<nat> {
    if '0' <= c <= '9' then Some(c as int - '0' as int)
    else if 'a' <= c <= 'f' then Some(c as int - 'a' as int + 10)
    else None
  }

  /** The character after a backslash and what follows. */
  function ReadEscape(s: string): (r: Option<Read<char>>)
    ensures r.Some? ==> |r.value.rest| < |s|
  {
    if s == "" then None
    else if s[0] == '\"' then Some(Read('\"', s[1..]))
    else if s[0] == '\\' then Some(Read('\\', s[1..]))
    else if s[0] == 'b' then Some(Read(8 as char, s[1..]))
    else if s[0] == 'f' then Some(Read(12 as char, s[1..]))
    else if s[0] == 'n' then Some(Read('\n', s[1..]))
    else if s[0] == 'r' then Some(Read('\r', s[1..]))
    else if s[0] == 't' then Some(Read('\t', s[1..]))
    else if |s| >= 5 && s[..3] == "u00" && HexValue(s[3]).Some? && HexValue(s[4]).Some? then
      Some(Read((HexValue(s[3]).value * 16 + HexValue(s[4]).value) as char, s[5..]))
    else None
  }

  /** The rest of a string, after its opening quote; control characters have to be escaped. */
  function ReadString(s: string): (r: Option<Read<string>>)
    ensures r.Some? ==> |r.value.rest| < |s|
    decreases |s|
  {
    if s == "" then None
    else if s[0] == '\"' then Some(Read("", s[1..]))
    else if s[0] == '\\' then
      var c := ReadEscape(s[1..]);
      if c.None? then None
      else
        var more := ReadString(c.value.rest);
        if more.None? then None else Some(Read([c.value.value] + more.value.value, more.value.rest))
    else if s[0] < 0x20 as char then None
    else
      var more := ReadString(s[1..]);
      if more.None? then None else Some(Read([s[0]] + more.value.value, more.value.rest))
  }

  predicate NumberChar(c: char) { D.IsDigit(c) || c in ['-', '+', '.', 'e', 'E'] }

  function NumberRun(s: string): (n: nat)
    ensures n <= |s|
  {
    if s == "" || !NumberChar(s[0]) then 0 else 1 + NumberRun(s[1..])
  }

  predicate StartsWith(s: string, prefix: string) { |prefix| <= |s| && s[..|prefix|] == prefix }

  function ReadNumber(s: string): (r: Option<Read<Json>>)
    ensures r.Some? ==> |r.value.rest| < |s|
  {
    var n := NumberRun(s);
    if n == 0 || D.ParseToken(s[..n]).None? then None else Some(Read(Num(s[..n]), s[n..]))
  }

  function ReadValue(s: string): (r: Option<Read<Json>>)
    ensures r.Some? ==> |r.value.rest| < |s|
    decreases |s|, 0
  {
    if s == "" then None
    else if StartsWith(s, "null") then Some(Read(Null, s[4..]))
    else if StartsWith(s, "true") then Some(Read(Bool(true), s[4..]))
    else if StartsWith(s, "false") then Some(Read(Bool(false), s[5..]))
    else if s[0] == '\"' then
      var r := ReadString(s[1..]);
      if r.None? then None else Some(Read(Str(r.value.value), r.value.rest))
    else if StartsWith(s, "[]") then Some(Read(Arr([]), s[2..]))
    else if s[0] == '[' then
      var r := ReadItems(s[1..]);
      if r.None? then None else Some(Read(Arr(r.value.value), r.value.rest))
    else if StartsWith(s, "{}") then Some(Read(Obj([]), s[2..]))
    else if s[0] == '{' then
      var r := ReadMembers(s[1..]);
      if r.None? then None else Some(Read(Obj(r.value.value), r.value.rest))
    else ReadNumber(s)
  }

  /** One or more items and the closing bracket. */
  function ReadItems(s: string): (r: Option<Read<seq<Json>>>)
    ensures r.Some? ==> |r.value.rest| < |s|
    decreases |s|, 1
  {
    var first := ReadValue(s);
    if first.None? || first.value.rest == "" then None
    else if first.value.rest[0] == ']' then Some(Read([first.value.value], first.value.rest[1..]))
    else if first.value.rest[0] != ',' then None
    else
      var more := ReadItems(first.value.rest[1..]);
      if more.None? then None else Some(Read([first.value.value] + more.value.value, more.value.rest))
  }

  function ReadMember(s: string): (r: Option<Read<Member>>)
    ensures r.Some? ==> |r.value.rest| < |s|
    decreases |s|, 1
  {
    if s == "" || s[0] != '\"' then None
    else
      var key := ReadString(s[1..]);
      if key.None? || key.value.rest == "" || key.value.rest[0] != ':' then None
      else
        var value := ReadValue(key.value.rest[1..]);
        if value.None? then None else Some(Read(Member(key.value.value, value.value.value), value.value.rest))
  }

  function ReadMembers(s: string): (r: Option<Read<seq<Member>>>)
    ensures r.Some? ==> |r.value.rest| < |s|
    decreases |s|, 2
  {
    var first := ReadMember(s);
    if first.None? || first.value.rest == "" then None
    else if first.value.rest[0] == '}' then Some(Read([first.value.value], first.value.rest[1..]))
    else if first.value.rest[0] != ',' then None
    else
      var more := ReadMembers(first.value.rest[1..]);
      if more.None? then None else Some(Read([first.value.value] + more.value.value, more.value.rest))
  }

  /** A whole document: one value and nothing after it. */
  function Parse(s: string): (r: Option<Json>) {
    var v := ReadValue(s);
    if v.Some? && v.value.rest == "" then Some(v.value.value) else None
  }

  // ----- The text determines the value -----

  lemma Assoc(a: string, b: string, c: string)
    ensures a + b + c == a + (b + c)
  {
  }

  lemma Prepended(c: char, s: string)
    ensures ([c] + s)[0] == c && ([c] + s)[1..] == s
  {
  }

  lemma HexRoundTrip(n: nat)
    requires n < 16
    ensures HexValue(Hex(n)) == Some(n)
  {
  }

  lemma EscapeRoundTrip(c: char, rest: string)
    ensures Escape(c) != []
    ensures if Escape(c)[0] == '\\' then ReadEscape(Escape(c)[1..] + rest) == Some(Read(c, rest))
            else Escape(c) == [c] && c != '\"' && c >= 0x20 as char
  {
    var e := Escape(c);
    if e[0] == '\\' {
      var s := e[1..] + rest;
      if |e| == 2 {
        assert s == [e[1]] + rest;
        assert s[1..] == rest;
      } else {
        HexRoundTrip(c as int / 16);
        HexRoundTrip(c as int % 16);
        assert s[..3] == "u00" && s[3] == e[4] && s[4] == e[5] && s[5..] == rest;
      }
    }
  }

  /** One escaped character is read back in front of whatever follows. */
  lemma CharacterRoundTrip(c: char, tail: string)
    requires ReadString(tail).Some?
    ensures ReadString(Escape(c) + tail) == Some(Read([c] + ReadString(tail).value.value, ReadString(tail).value.rest))
  {
    hide Escape, ReadEscape;
    EscapeRoundTrip(c, tail);
    var e := Escape(c);
    var whole := e + tail;
    assert whole[0] == e[0] && whole[1..] == e[1..] + tail;
    if e[0] != '\\' { assert e[1..] + tail == tail; }
  }

  lemma {:induction false} StringRoundTrip(s: string, rest: string)
    ensures ReadString(EscapeAll(s) + ("\"" + rest)) == Some(Read(s, rest))
    decreases |s|
  {
    hide Escape, ReadString;
    var end := "\"" + rest;
    if s == "" {
      EndOfString(rest);
      assert EscapeAll(s) + end == end;
    } else {
      StringRoundTrip(s[1..], rest);
      CharacterRoundTrip(s[0], EscapeAll(s[1..]) + end);
      Assoc(Escape(s[0]), EscapeAll(s[1..]), end);
      assert s == [s[0]] + s[1..];
    }
  }

  lemma EndOfString(rest: string)
    ensures ReadString("\"" + rest) == Some(Read("", rest))
  {
    Prepended('\"', rest);
  }

  predicate Stops(rest: string) { rest == "" || rest[0] in [',', ']', '}'] }

  lemma {:induction false} NumberRunStops(n: string, rest: string)
    requires (forall i :: 0 <= i < |n| ==> NumberChar(n[i])) && Stops(rest)
    ensures NumberRun(n + rest) == |n|
    decreases |n|
  {
    if n == "" {
      assert n + rest == rest;
    } else {
      NumberRunStops(n[1..], rest);
      assert (n + rest)[1..] == n[1..] + rest;
    }
  }

  /** A token uses no other characters. */
  lemma TokenCharacters(t: D.Token)
    requires D.WellFormed(t)
    ensures D.Spelling(t) != "" && forall i :: 0 <= i < |D.Spelling(t)| ==> NumberChar(D.Spelling(t)[i])
  {
    TailCharacters(t);
    D.SpellingInParts(t);
  }

  lemma TailCharacters(t: D.Token)
    requires D.WellFormed(t)
    ensures forall i :: 0 <= i < |D.Middle(t)| ==> NumberChar(D.Middle(t)[i])
  {
    if t.exponent.Some? { ExponentCharacters(t.exponent.value); }
  }

  lemma ExponentCharacters(e: D.Exponent)
    requires D.Digits(e.digits)
    ensures forall i :: 0 <= i < |D.ExponentText(e)| ==> NumberChar(D.ExponentText(e)[i])
  {
  }

  lemma NumberRoundTrip(text: string, rest: string)
    requires D.NormalizeNumber(text) == D.Ok(text) && Stops(rest)
    ensures text != "" && NumberChar(text[0])
    ensures ReadNumber(text + rest) == Some(Read(Num(text), rest))
  {
    hide D.ParseToken, D.Normalize;
    D.ReadIsSpelled(text);
    TokenCharacters(D.ParseToken(text).value);
    NumberRunStops(text, rest);
    assert (text + rest)[..|text|] == text && (text + rest)[|text|..] == rest;
  }

  /** The character a value's text starts with says which kind of value it is. */
  lemma FirstCharacter(v: Json)
    requires Valid(v)
    ensures Text(v) != ""
    ensures match v
            case Null => Text(v)[0] == 'n'
            case Bool(b) => Text(v)[0] == if b then 't' else 'f'
            case Num(_) => NumberChar(Text(v)[0])
            case Str(_) => Text(v)[0] == '\"'
            case Arr(_) => Text(v)[0] == '['
            case Obj(_) => Text(v)[0] == '{'
  {
    hide D.NormalizeNumber, EscapeAll, ItemsText, MembersText;
    if v.Num? { NumberRoundTrip(v.text, ""); }
  }

  lemma StartsAlike(s: string, prefix: string)
    requires prefix != "" && StartsWith(s, prefix)
    ensures s != "" && s[0] == prefix[0]
  {
  }

  /** No literal is the start of anything else. */
  lemma NoLiteral(s: string)
    requires s != "" && s[0] != 'n' && s[0] != 't' && s[0] != 'f'
    ensures !StartsWith(s, "null") && !StartsWith(s, "true") && !StartsWith(s, "false")
  {
    if StartsWith(s, "null") { StartsAlike(s, "null"); }
    if StartsWith(s, "true") { StartsAlike(s, "true"); }
    if StartsWith(s, "false") { StartsAlike(s, "false"); }
  }

  lemma Literal(text: string, rest: string)
    ensures StartsWith(text + rest, text) && (text + rest)[|text|..] == rest
  {
  }

  lemma FirstOf(text: string, rest: string)
    requires text != ""
    ensures text + rest != "" && (text + rest)[0] == text[0]
  {
  }

  lemma QuoteRoundTrip(s: string, rest: string)
    ensures Quote(s) + rest != "" && (Quote(s) + rest)[0] == '\"'
    ensures ReadString((Quote(s) + rest)[1..]) == Some(Read(s, rest))
  {
    hide ReadString, EscapeAll;
    StringRoundTrip(s, rest);
    var inner := EscapeAll(s) + ("\"" + rest);
    Assoc("\"" + EscapeAll(s), "\"", rest);
    Assoc("\"", EscapeAll(s), "\"" + rest);
    Prepended('\"', inner);
  }

  /** Reading what was written gives back the value and what followed it. */
  lemma {:induction false} ValueRoundTrip(v: Json, rest: string)
    requires Valid(v) && Stops(rest)
    ensures ReadValue(Text(v) + rest) == Some(Read(v, rest))
    decreases v, 1
  {
    hide ReadValue, Text, Stops;
    match v
    case Null => ReadsLiteral(v, rest);
    case Bool(b) => ReadsLiteral(v, rest);
    case Num(text) => ReadsNumber(v, rest);
    case Str(s) => ReadsString(v, rest);
    case Arr(items) =>
      if items != [] { ItemsRoundTrip(items, rest); }
      ReadsArray(v, rest);
    case Obj(members) =>
      if members != [] { MembersRoundTrip(members, rest); }
      ReadsObject(v, rest);
  }

  lemma ReadsLiteral(v: Json, rest: string)
    requires v.Null? || v.Bool?
    ensures ReadValue(Text(v) + rest) == Some(Read(v, rest))
  {
    var s := Text(v) + rest;
    Literal(Text(v), rest);
    StartsAlike(s, Text(v));
    if StartsWith(s, "null") { StartsAlike(s, "null"); }
    if StartsWith(s, "true") { StartsAlike(s, "true"); }
  }

  lemma ReadsNumber(v: Json, rest: string)
    requires Valid(v) && v.Num? && Stops(rest)
    ensures ReadValue(Text(v) + rest) == Some(Read(v, rest))
  {
    hide D.NormalizeNumber, ReadNumber;
    FirstCharacter(v);
    FirstOf(v.text, rest);
    NoLiteral(v.text + rest);
    NumberRoundTrip(v.text, rest);
  }

  lemma ReadsString(v: Json, rest: string)
    requires v.Str?
    ensures ReadValue(Text(v) + rest) == Some(Read(v, rest))
  {
    hide Quote, ReadString;
    QuoteRoundTrip(v.s, rest);
    NoLiteral(Quote(v.s) + rest);
  }

  lemma ReadsArray(v: Json, rest: string)
    requires Valid(v) && v.Arr?
    requires v.items != [] ==> ReadItems(ItemsText(v.items) + ("]" + rest)) == Some(Read(v.items, rest))
    ensures ReadValue(Text(v) + rest) == Some(Read(v, rest))
  {
    hide ReadItems, ItemsText;
    var body := ItemsText(v.items);
    Enclosed('[', body, "]", rest);
    NoLiteral(Text(v) + rest);
    if v.items == [] {
      EmptyItems();
      Literal("[]", rest);
      assert "[" + "" + "]" == "[]";
    } else {
      ItemsStart(v.items, "]" + rest);
      NotEmpty('[', body + ("]" + rest), ']');
    }
  }

  lemma ReadsObject(v: Json, rest: string)
    requires Valid(v) && v.Obj?
    requires v.members != [] ==> ReadMembers(MembersText(v.members) + ("}" + rest)) == Some(Read(v.members, rest))
    ensures ReadValue(Text(v) + rest) == Some(Read(v, rest))
  {
    hide ReadMembers, MembersText;
    var body := MembersText(v.members);
    Enclosed('{', body, "}", rest);
    NoLiteral(Text(v) + rest);
    if v.members == [] {
      EmptyItems();
      Literal("{}", rest);
      assert "{" + "" + "}" == "{}";
    } else {
      MembersStart(v.members, "}" + rest);
      NotEmpty('{', body + ("}" + rest), '}');
    }
  }

  /** What follows the opening bracket. */
  lemma Enclosed(open: char, body: string, close: string, rest: string)
    ensures [open] + body + close + rest == [open] + (body + (close + rest))
    ensures ([open] + body + close + rest)[0] == open && ([open] + body + close + rest)[1..] == body + (close + rest)
  {
    Assoc([open] + body, close, rest);
    Assoc([open], body, close + rest);
    Prepended(open, body + (close + rest));
  }

  lemma NotEmpty(open: char, body: string, close: char)
    requires body != ""
    ensures StartsWith([open] + body, [open, close]) ==> body[0] == close
  {
    var s := [open] + body;
    if StartsWith(s, [open, close]) { assert s[..2][1] == s[1]; }
  }

  lemma EmptyItems()
    ensures ItemsText([]) == "" && MembersText([]) == ""
  {
  }

  lemma NotAnEnd(v: Json)
    requires Valid(v)
    ensures Text(v) != "" && Text(v)[0] != ']'
  {
    hide Text;
    FirstCharacter(v);
  }

  lemma ItemsStart(items: seq<Json>, rest: string)
    requires items != [] && Valid(items[0])
    ensures ItemsText(items) + rest != "" && (ItemsText(items) + rest)[0] != ']'
  {
    hide Text, ItemsText, Valid;
    NotAnEnd(items[0]);
    ItemsStep(items);
    FirstOf(Text(items[0]), if |items| == 1 then "" else "," + ItemsText(items[1..]));
    FirstOf(ItemsText(items), rest);
  }

  lemma MembersStart(ms: seq<Member>, rest: string)
    requires ms != []
    ensures MembersText(ms) + rest != "" && (MembersText(ms) + rest)[0] == '\"'
  {
    hide Text, MembersText, Quote;
    MembersStep(ms);
    QuoteRoundTrip(ms[0].key, ":" + Text(ms[0].value));
    Assoc(Quote(ms[0].key), ":", Text(ms[0].value));
    FirstOf(MemberText(ms[0]), if |ms| == 1 then "" else "," + MembersText(ms[1..]));
    FirstOf(MembersText(ms), rest);
  }

  lemma {:induction false} ItemsRoundTrip(items: seq<Json>, rest: string)
    requires items != [] && forall i :: 0 <= i < |items| ==> Valid(items[i])
    ensures ReadItems(ItemsText(items) + ("]" + rest)) == Some(Read(items, rest))
    decreases items, 0
  {
    hide ReadValue, Text, ItemsText;
    var end := "]" + rest;
    var more := if |items| == 1 then "" else "," + ItemsText(items[1..]);
    ItemsStep(items);
    Assoc(Text(items[0]), more, end);
    Following(more, end);
    ValueRoundTrip(items[0], more + end);
    if |items| == 1 {
      Prepended(']', rest);
      assert items == [items[0]];
    } else {
      Assoc(",", ItemsText(items[1..]), end);
      Prepended(',', ItemsText(items[1..]) + end);
      ItemsRoundTrip(items[1..], rest);
      assert items == [items[0]] + items[1..];
    }
  }

  lemma ItemsStep(items: seq<Json>)
    requires items != []
    ensures ItemsText(items) == Text(items[0]) + if |items| == 1 then "" else "," + ItemsText(items[1..])
  {
  }

  lemma MembersStep(ms: seq<Member>)
    requires ms != []
    ensures MembersText(ms) == MemberText(ms[0]) + if |ms| == 1 then "" else "," + MembersText(ms[1..])
  {
  }

  /** Whatever follows a value inside brackets ends it. */
  lemma Following(more: string, end: string)
    requires (more == "" || more[0] == ',') && end != "" && end[0] in [']', '}']
    ensures Stops(more + end) && (more == "" ==> more + end == end)
  {
  }

  lemma MemberRoundTrip(m: Member, after: string)
    requires Valid(m.value) && ReadValue(Text(m.value) + after) == Some(Read(m.value, after))
    ensures ReadMember(MemberText(m) + after) == Some(Read(m, after))
  {
    hide ReadValue, Text, Quote, ReadString;
    var tail := ":" + (Text(m.value) + after);
    Assoc(Quote(m.key) + ":", Text(m.value), after);
    Assoc(Quote(m.key), ":", Text(m.value) + after);
    QuoteRoundTrip(m.key, tail);
    Prepended(':', Text(m.value) + after);
  }

  lemma {:induction false} MembersRoundTrip(ms: seq<Member>, rest: string)
    requires ms != [] && forall i :: 0 <= i < |ms| ==> Valid(ms[i].value)
    ensures ReadMembers(MembersText(ms) + ("}" + rest)) == Some(Read(ms, rest))
    decreases ms, 0
  {
    hide ReadValue, Text, Quote, ReadMember, MembersText, MemberText;
    var end := "}" + rest;
    var more := if |ms| == 1 then "" else "," + MembersText(ms[1..]);
    MembersStep(ms);
    Assoc(MemberText(ms[0]), more, end);
    Following(more, end);
    ValueRoundTrip(ms[0].value, more + end);
    MemberRoundTrip(ms[0], more + end);
    if |ms| == 1 {
      Prepended('}', rest);
      assert ms == [ms[0]];
    } else {
      Assoc(",", MembersText(ms[1..]), end);
      Prepended(',', MembersText(ms[1..]) + end);
      MembersRoundTrip(ms[1..], rest);
      assert ms == [ms[0]] + ms[1..];
    }
  }

  /** Parsing inverts writing on every value. */
  lemma ParseInvertsText(v: Json)
    requires Valid(v)
    ensures Parse(Text(v)) == Some(v)
  {
    ValueRoundTrip(v, "");
    assert Text(v) + "" == Text(v);
  }
}
