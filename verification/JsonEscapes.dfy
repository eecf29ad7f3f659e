/** What the escapes in a string stand for, after section 7 of RFC 8259 and section 3 of
    RFC 3629, and that the reader of control/Src/config_json.c takes them for that. */
module JsonEscapes {
  import opened Words
  import opened JsonGrammar
  import opened JsonReader
  import JsonAccepts
  import JsonNumber

  // ---- UTF-8 -----------------------------------------------------------------------------------

  /** A byte that continues a character. */
  predicate Continues(c: char) { 0x80 <= c as int <= 0xBF }

  /** The character at the front of a text and the number of its bytes: the lead byte gives the
      length, and no character may be written longer than it need be. */
  function ReadUtf8(s: string): Option<(nat, nat)>
  {
    if s == "" then None
    else if s[0] as int <= 0x7F then Some((s[0] as int, 1))
    else if 0xC0 <= s[0] as int <= 0xDF && |s| >= 2 && Continues(s[1]) then
      AtLeast(0x80, 64 * (s[0] as int - 0xC0) + (s[1] as int - 0x80), 2)
    else if 0xE0 <= s[0] as int <= 0xEF && |s| >= 3 && Continues(s[1]) && Continues(s[2]) then
      AtLeast(0x800, 4096 * (s[0] as int - 0xE0) + 64 * (s[1] as int - 0x80) + (s[2] as int - 0x80), 3)
    else None
  }

  function AtLeast(low: nat, cp: nat, length: nat): Option<(nat, nat)> { if cp < low then None else Some((cp, length)) }

  /** The bytes of a code point are the one text that reads as it. */
  lemma Utf8Exact(cp: nat, s: string)
    requires cp < 0x1_0000
    ensures s == Utf8(cp) <==> ReadUtf8(s) == Some((cp, |s|))
  {
    Utf8First(cp, "");
    assert Utf8(cp) + "" == Utf8(cp);
    if ReadUtf8(s) == Some((cp, |s|)) {
      hide Utf8;
      BytesAre(cp, s);
      Utf8Length(cp);
    }
  }

  lemma Utf8First(cp: nat, rest: string)
    requires cp < 0x1_0000
    ensures ReadUtf8(Utf8(cp) + rest) == Some((cp, |Utf8(cp)|))
  {}

  lemma Utf8Length(cp: nat)
    requires cp < 0x1_0000
    ensures |Utf8(cp)| == if cp < 0x80 then 1 else if cp < 0x800 then 2 else 3
  {}

  lemma BytesAre(cp: nat, s: string)
    requires cp < 0x1_0000 && ReadUtf8(s) == Some((cp, |s|))
    ensures |s| == (if cp < 0x80 then 1 else if cp < 0x800 then 2 else 3) && s == Utf8(cp)
  {
    if |s| == 1 {
      assert s == [cp as char];
    } else if |s| == 2 {
      SixBits(0, s[0] as int - 0xC0, s[1] as int - 0x80);
      assert s == [(0xC0 + cp / 64) as char, (0x80 + cp % 64) as char];
    } else {
      SixBits(s[0] as int - 0xE0, s[1] as int - 0x80, s[2] as int - 0x80);
      assert s == [(0xE0 + cp / 4096) as char, (0x80 + cp / 64 % 64) as char, (0x80 + cp % 64) as char];
    }
  }

  lemma SixBits(a: nat, b: nat, c: nat)
    requires b < 64 && c < 64
    ensures var x := 4096 * a + 64 * b + c; x / 4096 == a && x / 64 == 64 * a + b && x / 64 % 64 == b && x % 64 == c
  {}

  // ---- hex digits --------------------------------------------------------------------------------

  const LOWER := "0123456789abcdef"
  const UPPER := "0123456789ABCDEF"

  predicate IsDigitOf(c: char, d: nat)
    requires d < 16
  {
    c == LOWER[d] || c == UPPER[d]
  }

  /** Four hexadecimal digits, in either case, most significant first. */
  predicate Spells(h: string, cp: nat)
    requires cp < 0x1_0000
  {
    && |h| == 4 && IsDigitOf(h[0], cp / 4096) && IsDigitOf(h[1], cp / 256 % 16)
    && IsDigitOf(h[2], cp / 16 % 16) && IsDigitOf(h[3], cp % 16)
  }

  lemma DigitsExact(c: char, d: nat)
    requires d < 16
    ensures IsDigitOf(c, d) <==> IsHex(c) && HexVal(c) == d
  {}

  lemma SpellsExact(h: string, cp: nat)
    requires |h| == 4 && cp < 0x1_0000
    ensures Spells(h, cp) <==> Hex4(h, 0) && CodePoint(h, 0) == cp
  {
    hide HexVal, IsHex, IsDigitOf;
    DigitsExact(h[0], cp / 4096);
    DigitsExact(h[1], cp / 256 % 16);
    DigitsExact(h[2], cp / 16 % 16);
    DigitsExact(h[3], cp % 16);
    if Hex4(h, 0) { FourDigits(HexVal(h[0]), HexVal(h[1]), HexVal(h[2]), HexVal(h[3]), cp); }
  }

  lemma FourDigits(a: nat, b: nat, c: nat, d: nat, cp: nat)
    requires a < 16 && b < 16 && c < 16 && d < 16
    ensures ((a * 16 + b) * 16 + c) * 16 + d == cp <==> a == cp / 4096 && b == cp / 256 % 16 && c == cp / 16 % 16 && d == cp % 16
  {
    var (x, y) := (cp / 16, cp / 256);
    assert cp == 16 * x + cp % 16 && x == 16 * y + x % 16 && y == 16 * (cp / 4096) + y % 16;
  }

  // ---- escapes -------------------------------------------------------------------------------------

  /** The escapes of one letter. */
  const SHORT: map<char, char> :=
    map['\"' := '\"', '\\' := '\\', '/' := '/', 'b' := 8 as char, 'f' := 12 as char, 'n' := 10 as char, 'r' := 13 as char,
        't' := 9 as char]

  lemma ShortEscape(e: char, rest: string)
    requires LegalBody(rest)
    ensures IsEscape(e) <==> e in SHORT
    ensures e in SHORT ==> LegalBody(['\\', e] + rest) && Unescape(['\\', e] + rest) == [SHORT[e]] + Unescape(rest)
  {
    var b := ['\\', e] + rest;
    assert b[2..] == rest;
  }

  lemma UnicodeEscape(h: string, cp: nat, rest: string)
    requires cp < 0x1_0000 && Spells(h, cp) && LegalBody(rest)
    ensures LegalBody("\\u" + h + rest) && Unescape("\\u" + h + rest) == Utf8(cp) + Unescape(rest)
  {
    hide Utf8, HexVal, IsDigitOf;
    var b := "\\u" + h + rest;
    SpellsExact(h, cp);
    assert b[6..] == rest && b[2..6] == h;
    SameHex(b, h);
  }

  lemma SameHex(b: string, h: string)
    requires |b| >= 6 && b[2..6] == h && Hex4(h, 0)
    ensures Hex4(b, 2) && CodePoint(b, 2) == CodePoint(h, 0)
  {
    assert b[2] == h[0] && b[3] == h[1] && b[4] == h[2] && b[5] == h[3];
  }

  lemma PlainChar(c: char, rest: string)
    requires IsPlain(c) && LegalBody(rest)
    ensures LegalBody([c] + rest) && Unescape([c] + rest) == [c] + Unescape(rest)
  {
    assert ([c] + rest)[1..] == rest;
  }

  lemma {:induction false} UnescapeAppend(a: string, b: string)
    requires LegalBody(a) && LegalBody(b)
    ensures LegalBody(a + b) && Unescape(a + b) == Unescape(a) + Unescape(b)
    decreases |a|
  {
    if a == "" {
      assert a + b == b;
    } else {
      hide Utf8, CodePoint, Decoded;
      var n := if a[0] != '\\' then 1 else if IsEscape(a[1]) then 2 else 6;
      assert (a + b)[n..] == a[n..] + b;
      UnescapeAppend(a[n..], b);
    }
  }

  /** Any character of ASCII may be spelled by its number. */
  lemma AsciiSpelled(a: string, c: char, h: string, b: string)
    requires LegalBody(a) && LegalBody(b) && IsPlain(c) && c as int < 0x80 && Spells(h, c as int)
    ensures LegalBody(a + [c] + b) && LegalBody(a + "\\u" + h + b)
    ensures Unescape(a + [c] + b) == Unescape(a + "\\u" + h + b) == Unescape(a) + [c] + Unescape(b)
  {
    hide LegalBody, Unescape, Spells;
    PlainChar(c, b);
    UnicodeEscape(h, c as int, b);
    UnescapeAppend(a, [c] + b);
    UnescapeAppend(a, "\\u" + h + b);
    assert a + ([c] + b) == a + [c] + b && a + ("\\u" + h + b) == a + "\\u" + h + b;
    Utf8First(c as int, "");
    assert Utf8(c as int) == [c];
  }

  lemma QuotedParses(b: string)
    requires LegalBody(b)
    ensures var s := "\"" + b + "\""; Ws(s, 0) == 0 && ParseBody(s, 1) == Ok(b, |s|)
  {
    var s := "\"" + b + "\"";
    assert s[1..1 + |b|] == b;
    JsonAccepts.BodyComplete(s, 1, b);
  }

  /** A reader gets the same string from both spellings, whatever its buffer. */
  method BothSpellings(a: string, c: char, h: string, b: string, cap: int) returns (x: string, y: string)
    requires LegalBody(a) && LegalBody(b) && IsPlain(c) && c as int < 0x80 && Spells(h, c as int)
    ensures x == y == Held(Unescape(a) + [c] + Unescape(b), cap)
  {
    hide LegalBody, Unescape, Spells, ParseBody, Held, Overlong;
    AsciiSpelled(a, c, h, b);
    QuotedParses(a + [c] + b);
    QuotedParses(a + "\\u" + h + b);
    var plain := new Cursor("\"" + (a + [c] + b) + "\"");
    var spelled := new Cursor("\"" + (a + "\\u" + h + b) + "\"");
    var ok, truncated;
    ok, x, truncated := plain.Str(cap);
    ok, y, truncated := spelled.Str(cap);
  }

  // ---- characters by their codes ---------------------------------------------------------------------

  /** White space, digits, hexadecimal digits and what may stand unescaped in a string, after sections 2,
      6 and 7 of RFC 8259; bytes from 0x80 on pass. */
  lemma CharacterClasses(c: char)
    ensures IsWs(c) <==> c as int in {0x20, 0x09, 0x0A, 0x0D}
    ensures JsonNumber.IsDigit(c) <==> 0x30 <= c as int <= 0x39
    ensures IsHex(c) <==> 0x30 <= c as int <= 0x39 || 0x41 <= c as int <= 0x46 || 0x61 <= c as int <= 0x66
    ensures IsPlain(c) <==> 0x20 <= c as int && c as int != 0x22 && c as int != 0x5C
  {}
}
