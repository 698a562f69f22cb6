/**
  Repairing almost-JSON model output: raw control characters inside string literals are escaped.
  String literals are those of section 7 of RFC 8259.
 */
module JsonRepair {
  import opened Text

  // ----- readers -----

  /** What a reader makes of a text: characters outside strings, string contents, or a dead end. */
  datatype Item = Outside(c: char) | Open | Content(c: char) | CodeUnit(digits: string) | Shut | Malformed

  predicate Fixable(c: char)
  {
    c == '\n' || c == '\r' || c == '\t'
  }

  predicate HexDigit(c: char)
  {
    '0' <= c <= '9' || 'a' <= c <= 'f' || 'A' <= c <= 'F'
  }

  predicate StartsWithHex(s: string, n: nat)
  {
    n <= |s| && forall i :: 0 <= i < n ==> HexDigit(s[i])
  }

  /** The character a two-character escape stands for. */
  function Unescape(c: char): Option<char>
  {
    if c == '"' || c == '\\' || c == '/' then Some(c)
    else if c == 'b' then Some('\U{0008}')
    else if c == 'f' then Some('\U{000C}')
    else if c == 'n' then Some('\n')
    else if c == 'r' then Some('\r')
    else if c == 't' then Some('\t')
    else None
  }

  /** A strict reader refuses every control character in a string; a tolerant one takes the fixable ones. */
  function Read(tolerant: bool, s: string, inString: bool): seq<Item>
    decreases |s|
  {
    if s == "" then if inString then [Malformed] else []
    else if s[0] == '"' then [if inString then Shut else Open] + Read(tolerant, s[1..], !inString)
    else if !inString then [Outside(s[0])] + Read(tolerant, s[1..], false)
    else if s[0] == '\\' then
      if |s| > 1 && Unescape(s[1]).Some? then [Content(Unescape(s[1]).value)] + Read(tolerant, s[2..], true)
      else if |s| > 1 && s[1] == 'u' && StartsWithHex(s[2..], 4) then [CodeUnit(s[2..6])] + Read(tolerant, s[6..], true)
      else [Malformed]
    else if s[0] < ' ' && !(tolerant && Fixable(s[0])) then [Malformed]
    else [Content(s[0])] + Read(tolerant, s[1..], true)
  }

  // ----- the repair -----

  function Fix(c: char): string
    requires Fixable(c)
  {
    if c == '\n' then "\\n" else if c == '\r' then "\\r" else "\\t"
  }

  function Escape(s: string, inString: bool, escaped: bool): string
  {
    if s == "" then ""
    else if escaped then [s[0]] + Escape(s[1..], inString, false)
    else if s[0] == '\\' && inString then [s[0]] + Escape(s[1..], inString, true)
    else if s[0] == '"' then [s[0]] + Escape(s[1..], !inString, false)
    else if inString && Fixable(s[0]) then Fix(s[0]) + Escape(s[1..], inString, false)
    else [s[0]] + Escape(s[1..], inString, false)
  }

  lemma EscapePair(c: char, rest: string)
    ensures Escape(['\\', c] + rest, true, false) == ['\\', c] + Escape(rest, true, false)
  {
    var s := ['\\', c] + rest;
    assert s[1..] == [c] + rest;
    assert ([c] + rest)[1..] == rest;
    assert Escape(s, true, false) == ['\\'] + Escape([c] + rest, true, true);
    assert Escape([c] + rest, true, true) == [c] + Escape(rest, true, false);
  }

  /** Repairing what is already repaired changes nothing. */
  lemma {:induction false} EscapeIdempotent(s: string, inString: bool, escaped: bool)
    requires escaped ==> inString
    ensures Escape(Escape(s, inString, escaped), inString, escaped) == Escape(s, inString, escaped)
  {
    if s != "" {
      var c, rest := s[0], s[1..];
      if !escaped && c != '\\' && c != '"' && inString && Fixable(c) {
        EscapeIdempotent(rest, inString, false);
        EscapePair(Fix(c)[1], Escape(rest, inString, false));
        assert Fix(c) == ['\\', Fix(c)[1]];
      } else {
        var escaped' := !escaped && c == '\\' && inString;
        var inString' := if !escaped && c == '"' then !inString else inString;
        EscapeIdempotent(rest, inString', escaped');
        var out := [c] + Escape(rest, inString', escaped');
        assert out[1..] == Escape(rest, inString', escaped');
      }
    }
  }

  lemma HexCons(c: char, rest: string, n: nat)
    requires n > 0
    ensures StartsWithHex([c] + rest, n) <==> HexDigit(c) && StartsWithHex(rest, n - 1)
  {
    var s := [c] + rest;
    if StartsWithHex(s, n) {
      assert HexDigit(s[0]);
      forall i | 0 <= i < n - 1 ensures HexDigit(rest[i])
      {
        assert rest[i] == s[i + 1];
      }
    } else if HexDigit(c) && n <= |s| {
      var i :| 0 <= i < n && !HexDigit(s[i]);
      assert s[i] == rest[i - 1];
    }
  }

  /** A hex digit passes through; any other character becomes text that does not begin with one. */
  lemma EscapeHex(s: string)
    requires |s| > 0
    ensures HexDigit(s[0]) ==> Escape(s, true, false) == [s[0]] + Escape(s[1..], true, false)
    ensures !HexDigit(s[0]) ==> |Escape(s, true, false)| > 0 && !HexDigit(Escape(s, true, false)[0])
  {
  }

  /** Hex digits pass through; anything else cannot turn into one. */
  lemma {:induction false} HexSurvives(s: string, n: nat)
    ensures StartsWithHex(Escape(s, true, false), n) <==> StartsWithHex(s, n)
    ensures StartsWithHex(s, n) ==>
      && n <= |s| && n <= |Escape(s, true, false)|
      && Escape(s, true, false)[..n] == s[..n] && Escape(s, true, false)[n..] == Escape(s[n..], true, false)
  {
    var e := Escape(s, true, false);
    if n == 0 {
      assert s[0..] == s && e[0..] == e;
    } else if |s| > 0 {
      EscapeHex(s);
      hide Escape, HexDigit;
      assert s == [s[0]] + s[1..] && e == [e[0]] + e[1..];
      HexCons(s[0], s[1..], n);
      HexCons(e[0], e[1..], n);
      HexFits(s, n);
      HexFits(e, n);
      hide StartsWithHex;
      HexSurvives(s[1..], n - 1);
      if StartsWithHex(s, n) {
        assert e[1..] == Escape(s[1..], true, false);
        assert s[1..][n - 1..] == s[n..] && e[1..][n - 1..] == e[n..];
        assert s[..n] == [s[0]] + s[1..][..n - 1] && e[..n] == [e[0]] + e[1..][..n - 1];
      }
    }
  }

  /** What a reader makes of a backslash, the next character and the rest. */
  function ReadEscape(tolerant: bool, c: char, rest: string): seq<Item>
  {
    if Unescape(c).Some? then [Content(Unescape(c).value)] + Read(tolerant, rest, true)
    else if c == 'u' && StartsWithHex(rest, 4) then [CodeUnit(rest[..4])] + Read(tolerant, rest[4..], true)
    else [Malformed]
  }

  lemma ReadPair(tolerant: bool, c: char, rest: string)
    ensures Read(tolerant, ['\\', c] + rest, true) == ReadEscape(tolerant, c, rest)
  {
    var s := ['\\', c] + rest;
    assert s[2..] == rest;
    if c == 'u' && StartsWithHex(rest, 4) {
      assert s[2..6] == rest[..4] && s[6..] == rest[4..];
    }
  }

  /** The escapes of section 7 of RFC 8259, as a reader takes them. */
  lemma EscapesRead(tolerant: bool, c: char, decoded: char, hex: string, rest: string)
    requires (c, decoded) in {('"', '"'), ('\\', '\\'), ('/', '/'), ('b', '\U{0008}'), ('f', '\U{000C}'),
                              ('n', '\n'), ('r', '\r'), ('t', '\t')}
    requires |hex| == 4 && forall i :: 0 <= i < 4 ==> hex[i] in "0123456789abcdefABCDEF"
    ensures Read(tolerant, ['\\', c] + rest, true) == [Content(decoded)] + Read(tolerant, rest, true)
    ensures Read(tolerant, ['\\', 'u'] + (hex + rest), true) == [CodeUnit(hex)] + Read(tolerant, rest, true)
  {
    hide Read;
    ReadPair(tolerant, c, rest);
    forall i | 0 <= i < 4 ensures HexDigit((hex + rest)[i])
    {
      assert (hex + rest)[i] == hex[i];
      Hexadecimal(hex[i]);
    }
    assert (hex + rest)[..4] == hex && (hex + rest)[4..] == rest;
    ReadPair(tolerant, 'u', hex + rest);
  }

  lemma Hexadecimal(c: char)
    requires c in "0123456789abcdefABCDEF"
    ensures HexDigit(c)
  {
  }

  lemma ReadCons(tolerant: bool, c: char, rest: string, inString: bool)
    requires inString ==> c != '\\'
    ensures Read(tolerant, [c] + rest, inString) ==
      if c == '"' then [if inString then Shut else Open] + Read(tolerant, rest, !inString)
      else if !inString then [Outside(c)] + Read(tolerant, rest, false)
      else if c < ' ' && !(tolerant && Fixable(c)) then [Malformed]
      else [Content(c)] + Read(tolerant, rest, true)
  {
    assert ([c] + rest)[1..] == rest;
  }

  lemma FixIsEscape(c: char)
    requires Fixable(c)
    ensures Fix(c) == ['\\', Fix(c)[1]] && Unescape(Fix(c)[1]) == Some(c)
  {
  }

  lemma LoneBackslash(tolerant: bool, s: string)
    requires s == "\\"
    ensures Read(tolerant, Escape(s, true, false), true) == Read(true, s, true)
  {
    assert s[1..] == "" && Escape(s, true, false) == "\\";
  }

  /** The repaired text means, to any reader, what the original meant to the tolerant one: the same
      characters outside strings and the same string contents. */
  lemma {:induction false} RepairPreservesMeaning(tolerant: bool, s: string, inString: bool)
    ensures Read(tolerant, Escape(s, inString, false), inString) == Read(true, s, inString)
    decreases |s|, 1
  {
    if |s| > 0 {
      hide Read, Escape, Fix, Unescape, ReadEscape;
      var c, rest := s[0], s[1..];
      assert s == [c] + rest;
      if inString && c == '\\' {
        if |s| == 1 {
          LoneBackslash(tolerant, s);
        } else {
          assert s == [c, s[1]] + s[2..];
          RepairedPair(tolerant, s[1], s[2..]);
        }
      } else if inString && Fixable(c) {
        EscapeCons(s, true, false);
        FixIsEscape(c);
        ReadPair(tolerant, Fix(c)[1], Escape(rest, true, false));
        ReadCons(true, c, rest, true);
        RepairPreservesMeaning(tolerant, rest, true);
        EscapeRead(tolerant, Fix(c)[1], Escape(rest, true, false));
      } else {
        var inString' := if c == '"' then !inString else inString;
        EscapeCons(s, inString, false);
        ReadCons(tolerant, c, Escape(rest, inString', false), inString);
        ReadCons(true, c, rest, inString);
        RepairPreservesMeaning(tolerant, rest, inString');
      }
    }
  }

  /** Line breaks and tabs written raw into a string literal are read back as themselves after the repair. */
  lemma RawTextRead(text: string, after: string)
    requires forall i :: 0 <= i < |text| ==>
      text[i] != '"' && text[i] != '\\' && (text[i] >= ' ' || text[i] in {'\n', '\r', '\t'})
    ensures Read(false, Escape("\"" + (text + ("\"" + after)), false, false), false) ==
      [Open] + (Contents(text) + ([Shut] + Read(true, after, false)))
  {
    hide Escape, Read;
    var body := text + ("\"" + after);
    RepairPreservesMeaning(false, "\"" + body, false);
    ReadCons(true, '"', body, false);
    TolerantText(text, after);
  }

  lemma {:induction false} TolerantText(text: string, after: string)
    requires forall i :: 0 <= i < |text| ==>
      text[i] != '"' && text[i] != '\\' && (text[i] >= ' ' || text[i] in {'\n', '\r', '\t'})
    ensures Read(true, text + ("\"" + after), true) == Contents(text) + ([Shut] + Read(true, after, false))
  {
    hide Read;
    var tail := "\"" + after;
    if |text| == 0 {
      assert text + tail == tail && Contents(text) == [];
      ReadCons(true, '"', after, true);
    } else {
      TolerantText(text[1..], after);
      assert text + tail == [text[0]] + (text[1..] + tail);
      ReadCons(true, text[0], text[1..] + tail, true);
      assert Contents(text) == [Content(text[0])] + Contents(text[1..]);
    }
  }

  lemma EscapeRead(tolerant: bool, c: char, rest: string)
    requires Unescape(c).Some?
    ensures ReadEscape(tolerant, c, rest) == [Content(Unescape(c).value)] + Read(tolerant, rest, true)
  {
  }

  /** An escape reads the same before and after the repair of what follows it. */
  lemma {:induction false} RepairedPair(tolerant: bool, c: char, rest: string)
    ensures Read(tolerant, Escape(['\\', c] + rest, true, false), true) == Read(true, ['\\', c] + rest, true)
    decreases |rest| + 1, 0
  {
    hide Read, Escape, Fix, Unescape, StartsWithHex;
    EscapePair(c, rest);
    var e := Escape(rest, true, false);
    ReadPair(tolerant, c, e);
    ReadPair(true, c, rest);
    RepairPreservesMeaning(tolerant, rest, true);
    if c == 'u' {
      HexSurvives(rest, 4);
      if StartsWithHex(rest, 4) {
        HexFits(rest, 4);
        RepairPreservesMeaning(tolerant, rest[4..], true);
      }
    }
  }

  lemma HexFits(s: string, n: nat)
    ensures StartsWithHex(s, n) ==> n <= |s|
  {
  }

  lemma EscapeCons(s: string, inString: bool, escaped: bool)
    requires |s| > 0 && (escaped ==> inString)
    ensures var c := s[0];
      Escape(s, inString, escaped) ==
        (if !escaped && inString && Fixable(c) then Fix(c) else [c]) +
        Escape(s[1..], if !escaped && c == '"' then !inString else inString, !escaped && inString && c == '\\')
  {
  }

  /** The loop. An unchanged text is returned as it is. */
  method EscapeControlCharsInsideJsonStrings(text: string) returns (r: string)
    ensures r == Escape(text, false, false)
  {
    var chars, inString, escaped, changed := "", false, false, false;
    assert "" + Escape(text, false, false) == Escape(text, false, false) && text[0..] == text;
    for i := 0 to |text|
      invariant chars + Escape(text[i..], inString, escaped) == Escape(text, false, false)
      invariant !changed ==> chars == text[..i]
      invariant escaped ==> inString
    {
      hide Escape, Fix;
      var c := text[i];
      assert text[i..][1..] == text[i + 1..] && text[..i + 1] == text[..i] + [c];
      EscapeCons(text[i..], inString, escaped);
      ghost var before := chars;
      ghost var one := if !escaped && inString && Fixable(c) then Fix(c) else [c];
      if escaped {
        chars, escaped := chars + [c], false;
      } else if c == '\\' && inString {
        chars, escaped := chars + [c], true;
      } else if c == '"' {
        chars, inString := chars + [c], !inString;
      } else if inString && Fixable(c) {
        chars, changed := chars + Fix(c), true;
      } else {
        chars := chars + [c];
      }
      Assoc(before, one, Escape(text[i + 1..], inString, escaped));
    }
    assert text[|text|..] == "" && chars + "" == chars && text[..|text|] == text;
    r := if changed then chars else text;
  }

  // ----- the fallback decoder -----

  /** Replace the five two-character escapes, leftmost first. */
  function Decode(s: string): string
    decreases |s|
  {
    if s == "" then ""
    else if |s| > 1 && s[0] == '\\' && Escapable(s[1]) then [DecodeOne(s[1])] + Decode(s[2..])
    else [s[0]] + Decode(s[1..])
  }

  /** Text in front of an escape, and without one itself, is left alone; the escape becomes its character. */
  lemma {:induction false} DecodeAround(a: string, c: char, decoded: char, b: string)
    requires forall i :: 0 <= i < |a| && a[i] == '\\' ==> i + 1 < |a| && a[i + 1] !in {'n', 'r', 't', '"', '\\'}
    requires (c, decoded) in {('n', '\n'), ('r', '\r'), ('t', '\t'), ('"', '"'), ('\\', '\\')}
    ensures Decode(a + (['\\', c] + b)) == a + ([decoded] + Decode(b))
  {
    var tail := ['\\', c] + b;
    if |a| == 0 {
      assert a + tail == tail && tail[2..] == b;
    } else {
      var s := a + tail;
      assert s == [a[0]] + (a[1..] + tail) && s[1] == if |a| > 1 then a[1] else '\\';
      DecodeAround(a[1..], c, decoded, b);
      hide Decode;
      DecodePlain(a[0], a[1..] + tail);
      assert a == [a[0]] + a[1..];
    }
  }

  lemma DecodePlain(c: char, rest: string)
    requires c == '\\' ==> |rest| > 0 && !Escapable(rest[0])
    ensures Decode([c] + rest) == [c] + Decode(rest)
  {
    assert ([c] + rest)[1..] == rest;
  }

  /** Text without any of the five escapes stays as it is, backslashes included. */
  lemma {:induction false} DecodeLeaves(s: string)
    requires forall i :: 0 <= i < |s| - 1 && s[i] == '\\' ==> s[i + 1] !in {'n', 'r', 't', '"', '\\'}
    ensures Decode(s) == s
  {
    if |s| > 0 {
      DecodeLeaves(s[1..]);
      assert s == [s[0]] + s[1..];
    }
  }

  predicate Escapable(c: char)
  {
    c == 'n' || c == 'r' || c == 't' || c == '"' || c == '\\'
  }

  function DecodeOne(c: char): char
    requires Escapable(c)
  {
    if c == 'n' then '\n' else if c == 'r' then '\r' else if c == 't' then '\t' else c
  }

  /** Write a string with the five escapes. */
  function Encode(s: string): string
  {
    if s == "" then "" else EncodeOne(s[0]) + Encode(s[1..])
  }

  function EncodeOne(c: char): string
  {
    if Fixable(c) then Fix(c) else if c == '"' || c == '\\' then ['\\', c] else [c]
  }

  /** Decoding undoes encoding, for every string. */
  lemma {:induction false} DecodeEncode(s: string)
    ensures Decode(Encode(s)) == s
  {
    if s != "" {
      DecodeEncode(s[1..]);
      var e, one := Encode(s), EncodeOne(s[0]);
      if |one| == 2 {
        assert e[2..] == Encode(s[1..]);
      } else {
        assert e[1..] == Encode(s[1..]) && e[0] == s[0];
      }
    }
  }

  /** No raw quote or fixable control character, and every backslash begins one of the five escapes. */
  predicate Canonical(s: string)
    decreases |s|
  {
    s == "" ||
    (if s[0] == '\\' then |s| > 1 && Escapable(s[1]) && Canonical(s[2..])
     else s[0] != '"' && !Fixable(s[0]) && Canonical(s[1..]))
  }

  /** Encoding undoes decoding exactly on text the encoder could have written. */
  lemma {:induction false} EncodeDecode(s: string)
    ensures Encode(Decode(s)) == s <==> Canonical(s)
    ensures |Encode(Decode(s))| >= |s|
    decreases |s|
  {
    if s != "" {
      var d := Decode(s);
      if |s| > 1 && s[0] == '\\' && Escapable(s[1]) {
        EncodeDecode(s[2..]);
        assert d[1..] == Decode(s[2..]);
        assert EncodeOne(d[0]) == s[..2];
        var e := Encode(d);
        assert e == s[..2] + Encode(Decode(s[2..]));
        assert e[2..] == Encode(Decode(s[2..])) && s == s[..2] + s[2..];
      } else {
        EncodeDecode(s[1..]);
        assert d[1..] == Decode(s[1..]) && d[0] == s[0];
        var e := Encode(d);
        assert e == EncodeOne(s[0]) + Encode(Decode(s[1..]));
        if |EncodeOne(s[0])| == 1 {
          assert e[1..] == Encode(Decode(s[1..]));
        } else {
          assert |e| > |s|;
        }
      }
    }
  }

  predicate Printable(s: string)
  {
    forall i :: 0 <= i < |s| ==> s[i] >= ' ' || Fixable(s[i])
  }

  function Contents(s: string): (r: seq<Item>)
    ensures |r| == |s|
  {
    seq(|s|, i requires 0 <= i < |s| => Content(s[i]))
  }

  /** A strict reader reads an encoded string, up to its closing quote, as the string itself. */
  lemma {:induction false} StrictReaderReadsEncoding(s: string, after: string)
    requires Printable(s)
    ensures Read(false, Encode(s) + "\"" + after, true) == Contents(s) + [Shut] + Read(false, after, false)
  {
    var tail := "\"" + after;
    if |s| == 0 {
      assert Encode(s) + "\"" + after == tail && tail[1..] == after;
      assert Contents(s) + [Shut] == [Shut];
    } else {
      var rest := Encode(s[1..]) + "\"" + after;
      assert Encode(s) + "\"" + after == EncodeOne(s[0]) + rest;
      hide Read, Encode, EncodeOne, Fixable;
      assert Printable(s[1..]);
      StrictReaderReadsEncoding(s[1..], after);
      ReadsOne(s[0], rest);
      assert Contents(s) == [Content(s[0])] + Contents(s[1..]);
      Assoc([Content(s[0])], Contents(s[1..]), [Shut]);
      Assoc([Content(s[0])], Contents(s[1..]) + [Shut], Read(false, after, false));
    }
  }

  lemma ReadsOne(c: char, rest: string)
    requires c >= ' ' || Fixable(c)
    ensures Read(false, EncodeOne(c) + rest, true) == [Content(c)] + Read(false, rest, true)
  {
    var one := EncodeOne(c);
    var t := one + rest;
    if |one| == 2 {
      assert t[2..] == rest && t[0] == '\\' && t[1] == one[1];
    } else {
      assert t[1..] == rest && t[0] == c;
    }
  }
}
