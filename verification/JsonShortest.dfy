/** Of all the ways a string can be escaped the canonical one is the shortest. */
module JsonShortest {
  import opened Protocol
  import opened CanonicalJson

  /** `text` stands for the character `c` between quotes. */
  predicate Spells(text: string, c: char) {
    if text == "" then false
    else if text[0] == '\\' then ReadEscape(text[1..]) == Some(Read(c, ""))
    else text == [c] && c != '\"' && c >= 0x20 as char
  }

  lemma HexIsUnique(ch: char)
    requires HexValue(ch).Some?
    ensures HexValue(ch).value < 16 && Hex(HexValue(ch).value) == ch
  {
  }

  /** Nothing shorter than its escape spells a character, and nothing else as short. */
  lemma EscapeIsShortest(text: string, c: char)
    requires Spells(text, c)
    ensures |Escape(c)| < |text| || text == Escape(c)
  {
    if text[0] == '\\' {
      var s := text[1..];
      assert text == ['\\'] + s;
      if |s| >= 5 && s[..3] == "u00" && HexValue(s[3]).Some? && HexValue(s[4]).Some? {
        HexIsUnique(s[3]);
        HexIsUnique(s[4]);
        assert s[0] == 'u';
        assert |s| == 5 && s == s[..3] + [s[3], s[4]];
        var high, low := HexValue(s[3]).value, HexValue(s[4]).value;
        assert (high * 16 + low) / 16 == high && (high * 16 + low) % 16 == low;
      } else {
        assert |s| == 1 && text == ['\\', s[0]];
      }
    }
  }

  /** What an escape reads does not depend on what follows it. */
  lemma EscapeIsLocal(s: string, piece: string, rest: string)
    requires s == piece + rest && ReadEscape(s).Some? && ReadEscape(s).value.rest == rest
    ensures ReadEscape(piece) == Some(Read(ReadEscape(s).value.value, ""))
  {
    assert |piece| == 1 || |piece| == 5;
    assert s[0] == piece[0];
    if |piece| == 1 {
      assert piece[1..] == "";
    } else {
      assert s[..3] == piece[..3] && s[3] == piece[3] && s[4] == piece[4] && piece[5..] == "";
    }
  }

  lemma {:induction false} EscapesFit(s: string, w: string)
    requires ReadString(s).Some? && ReadString(s).value == Read(w, "")
    ensures s != "" && s[|s| - 1] == '\"'
    ensures |EscapeAll(w)| < |s| - 1 || s == EscapeAll(w) + "\""
    decreases |s|, 1
  {
    hide Escape, ReadEscape;
    if s[0] == '\"' {
      assert s == "\"" && s == EscapeAll("") + "\"";
    } else if s[0] == '\\' {
      var rest := ReadEscape(s[1..]).value.rest;
      EscapeTakes(s[1..]);
      var piece := s[..|s| - |rest|];
      assert s == piece + rest && s[1..] == piece[1..] + rest && piece[0] == '\\';
      EscapeIsLocal(s[1..], piece[1..], rest);
      OnePiece(s, piece, rest, w);
    } else {
      assert s == [s[0]] + s[1..];
      OnePiece(s, [s[0]], s[1..], w);
    }
  }

  lemma EscapeTakes(s: string)
    requires ReadEscape(s).Some?
    ensures var rest := ReadEscape(s).value.rest; |rest| < |s| && s[|s| - |rest|..] == rest
  {
  }

  lemma OnePiece(s: string, piece: string, rest: string, w: string)
    requires s == piece + rest && piece != "" && w != "" && Spells(piece, w[0])
    requires ReadString(rest).Some? && ReadString(rest).value == Read(w[1..], "")
    ensures s != "" && s[|s| - 1] == '\"'
    ensures |EscapeAll(w)| < |s| - 1 || s == EscapeAll(w) + "\""
    decreases |s|, 0
  {
    hide Escape, ReadString;
    EscapesFit(rest, w[1..]);
    EscapeIsShortest(piece, w[0]);
    Assoc(Escape(w[0]), EscapeAll(w[1..]), "\"");
    assert s[|s| - 1] == rest[|rest| - 1];
  }

  /** The quoted form is the shortest text of a string, and the only one of its length. */
  lemma QuoteIsShortest(text: string, w: string)
    requires text != "" && text[0] == '\"' && ReadString(text[1..]) == Some(Read(w, ""))
    ensures |Quote(w)| < |text| || text == Quote(w)
  {
    EscapesFit(text[1..], w);
    if text[1..] == EscapeAll(w) + "\"" {
      assert text == "\"" + text[1..];
      Assoc("\"", EscapeAll(w), "\"");
    }
  }
}
