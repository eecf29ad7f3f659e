/** Value trees: the text the streaming writer gives them, and the tree a walk with the
    reader gives back. */
module JsonTree {
  import opened Words
  import opened JsonNumber
  import opened JsonGrammar
  import opened JsonReader
  import JsonAccepts

  /** A value tree with numbers of type N; the keys of array elements are not used. */
  datatype Tree<N> = TObj(fields: Fields<N>) | TArr(fields: Fields<N>) | TStr(s: string) | TNum(n: N) | TWord(word: string)
  datatype Fields<N> = NoFields | Field(key: string, value: Tree<N>, rest: Fields<N>)

  // ---- the text of a tree ------------------------------------------------------------------------

  function HexDigit(v: nat): (c: char)
    requires v < 16
    ensures IsHex(c) && HexVal(c) == v
  {
    if v < 10 then '0' + v as char else 'a' + (v - 10) as char
  }

  /** What one byte of a string becomes on the wire. */
  function EscapeChar(c: char): (e: string)
  {
    match c
    case '\"' => "\\\""
    case '\\' => "\\\\"
    case '\n' => "\\n"
    case '\r' => "\\r"
    case '\t' => "\\t"
    case _ =>
      if c == 8 as char then "\\b"
      else if c == 12 as char then "\\f"
      else if c < ' ' then ['\\', 'u', '0', '0', HexDigit(c as nat / 16), HexDigit(c as nat % 16)]
      else [c]
  }

  function Escape(s: string): string { if s == "" then "" else EscapeChar(s[0]) + Escape(s[1..]) }

  /** The derivation of the text the writer gives a tree: no white space at all. */
  function Written(t: Tree<string>): Value
  {
    match t
    case TObj(f) => Obj(WrittenItems(f, true))
    case TArr(f) => Arr(WrittenItems(f, false))
    case TStr(s) => Str(Escape(s))
    case TNum(text) => Num(text)
    case TWord(w) => Word(w)
  }

  function WrittenItems(f: Fields<string>, named: bool): Items
  {
    match f
    case NoFields => End("")
    case Field(key, value, rest) =>
      Item("", "", if named then Label(Escape(key), "", "") else NoLabel, Written(value), WrittenItems(rest, named))
  }

  function Printed(t: Tree<string>): string { Text(Written(t)) }

  // ---- the tree of a derivation ------------------------------------------------------------------

  /** What a walk over a legal derivation sees. */
  ghost function Meaning(v: Value, depth: nat): Tree<Scanned>
    requires LegalValue(v, depth)
  {
    match v
    case Obj(items) => TObj(ItemsMeaning(items, true, true, depth + 1))
    case Arr(items) => TArr(ItemsMeaning(items, true, false, depth + 1))
    case Str(body) => TStr(Unescape(body))
    case Num(text) => TNum(Scan(text))
    case Word(w) => TWord(w)
  }

  ghost function ItemsMeaning(items: Items, first: bool, named: bool, depth: nat): Fields<Scanned>
    requires LegalItems(items, first, named, depth)
  {
    match items
    case End(_) => NoFields
    case Item(_, _, name, value, rest) =>
      Field(if named then Unescape(name.body) else "", Meaning(value, depth), ItemsMeaning(rest, false, named, depth))
  }

  // ---- trees the wire can carry ------------------------------------------------------------------

  /** A C string of bytes: no terminator inside. */
  predicate IsCString(s: string) { forall i :: 0 <= i < |s| ==> 0 < s[i] as int < 256 }

  /** A C string ends at its first NUL. */
  function CString(s: string): string
  {
    if s == "" || s[0] == 0 as char then "" else [s[0]] + CString(s[1..])
  }

  lemma {:induction false} CleanCString(s: string)
    requires IsCString(s)
    ensures CString(s) == s
  {
    if s != "" {
      CleanCString(s[1..]);
      assert s == [s[0]] + s[1..];
    }
  }

  ghost predicate Storable(t: Tree<string>, depth: nat)
  {
    match t
    case TObj(f) => depth < DEPTH_MAX && StorableFields(f, true, depth + 1)
    case TArr(f) => depth < DEPTH_MAX && StorableFields(f, false, depth + 1)
    case TStr(s) => IsCString(s)
    case TNum(text) => IsNumber(text) && |text| <= NUM_CHARS_MAX
    case TWord(w) => IsWord(w)
  }

  ghost predicate StorableFields(f: Fields<string>, named: bool, depth: nat)
  {
    f.Field? ==>
      && (if named then IsCString(f.key) else f.key == "")
      && Storable(f.value, depth) && StorableFields(f.rest, named, depth)
  }

  /** The same tree with its numbers read. */
  function Scans(t: Tree<string>): Tree<Scanned>
  {
    match t
    case TObj(f) => TObj(FieldScans(f))
    case TArr(f) => TArr(FieldScans(f))
    case TStr(s) => TStr(s)
    case TNum(text) => TNum(Scan(text))
    case TWord(w) => TWord(w)
  }

  function FieldScans(f: Fields<string>): Fields<Scanned>
  {
    if f.NoFields? then NoFields else Field(f.key, Scans(f.value), FieldScans(f.rest))
  }

  // ---- strings survive -----------------------------------------------------------------------------

  lemma EscapeOne(c: char, rest: string)
    requires 0 < c as int < 256 && LegalBody(rest)
    ensures LegalBody(EscapeChar(c) + rest) && Unescape(EscapeChar(c) + rest) == [c] + Unescape(rest)
  {
    hide HexVal, HexDigit;
    var b := EscapeChar(c) + rest;
    var n := |EscapeChar(c)|;
    assert b[n..] == rest;
    if n == 6 {
      assert CodePoint(b, 2) == c as nat by { assert HexVal('0') == 0 by { HexZero(); } }
      assert Utf8(c as nat) == [c];
    }
  }

  lemma HexZero()
    ensures HexVal('0') == 0
  {}

  lemma {:induction false} EscapeRoundTrip(s: string)
    requires IsCString(s)
    ensures LegalBody(Escape(s)) && Unescape(Escape(s)) == s
  {
    if s != "" {
      EscapeRoundTrip(s[1..]);
      EscapeOne(s[0], Escape(s[1..]));
      assert s == [s[0]] + s[1..];
    } else {
      EmptyBody();
    }
  }

  /** Nothing is escaped that need not be: quotes, backslashes and control characters are, the five
      of these that have a short form by that. */
  lemma EscapesAreShort(c: char)
    ensures IsPlain(c) ==> EscapeChar(c) == [c]
    ensures !IsPlain(c) ==>
              && EscapeChar(c)[0] == '\\'
              && |EscapeChar(c)| == if c == '\"' || c == '\\' || 8 <= c as int <= 10 || 12 <= c as int <= 13 then 2 else 6
  {}

  // ---- trees survive ---------------------------------------------------------------------------------

  lemma {:induction false} WrittenMeans(t: Tree<string>, depth: nat)
    requires Storable(t, depth)
    ensures LegalValue(Written(t), depth) && Meaning(Written(t), depth) == Scans(t)
    decreases t
  {
    hide Escape, Unescape, LegalBody, IsNumber, Scan, IsCString;
    match t
    case TObj(f) => FieldsMean(f, true, true, depth + 1);
    case TArr(f) => FieldsMean(f, true, false, depth + 1);
    case TStr(s) => EscapeRoundTrip(s);
    case TNum(_) =>
    case TWord(_) =>
  }

  lemma {:induction false} FieldsMean(f: Fields<string>, first: bool, named: bool, depth: nat)
    requires StorableFields(f, named, depth)
    ensures LegalItems(WrittenItems(f, named), first, named, depth)
    ensures ItemsMeaning(WrittenItems(f, named), first, named, depth) == FieldScans(f)
    decreases f
  {
    hide Escape, Unescape, LegalBody, LegalValue, Written, Meaning, Storable, IsCString;
    if f.Field? {
      if named { EscapeRoundTrip(f.key); }
      WrittenMeans(f.value, depth);
      FieldsMean(f.rest, false, named, depth);
    }
  }

  /** What the writer prints, the validator accepts, and its derivation carries the tree. */
  lemma PrintedIsValid(t: Tree<string>)
    requires Storable(t, 0)
    ensures Validate(Printed(t)) == Ok(Document("", Written(t), ""), |Printed(t)|)
    ensures LegalValue(Written(t), 0) && Meaning(Written(t), 0) == Scans(t)
  {
    hide Written, LegalValue, Text, Meaning, Validate;
    WrittenMeans(t, 0);
    var d := Document("", Written(t), "");
    assert DocumentText(d) == Printed(t);
    JsonAccepts.DocumentComplete(Printed(t), d);
  }

  // ---- walking with the reader ---------------------------------------------------------------------

  lemma {:induction false} UnescapeShrinks(b: string)
    requires LegalBody(b)
    ensures |Unescape(b)| <= |b|
    decreases |b|
  {
    hide CodePoint, Decoded;
    if b != "" {
      var n := if b[0] != '\\' then 1 else if IsEscape(b[1]) then 2 else 6;
      UnescapeUnit(b, n);
      UnescapeShrinks(b[n..]);
    }
  }

  lemma HeldWhole(b: string, cap: int)
    requires LegalBody(b) && |b| < cap
    ensures Held(Unescape(b), cap) == Unescape(b)
  {
    UnescapeShrinks(b);
  }

  /** The value at a position, none if the text is malformed there. */
  ghost function ValueAt(s: string, i: nat, depth: nat): Option<Tree<Scanned>>
    requires i <= |s|
  {
    var r := ParseValue(s, i, depth);
    if r.Ok? && LegalValue(r.value, depth) then Some(Meaning(r.value, depth)) else None
  }

  /** The members that are left of an object, or the elements of an array. */
  ghost function MembersAt(s: string, i: nat, first: bool, named: bool, depth: nat): Option<Fields<Scanned>>
    requires i <= |s|
  {
    var r := ParseItems(s, i, first, named, depth);
    if r.Ok? && LegalItems(r.value, first, named, depth) then Some(ItemsMeaning(r.value, first, named, depth)) else None
  }

  lemma SameAfterWs(s: string, i: nat, depth: nat)
    requires i <= |s|
    ensures ValueAt(s, Ws(s, i), depth) == ValueAt(s, i, depth)
  {
    JsonAccepts.LeadingWs(s, i, depth);
  }

  /** Every value the parser accepts means something. */
  lemma AcceptedMeans(s: string, i: nat, depth: nat)
    requires i <= |s|
    ensures ValueAt(s, i, depth).Some? <==> ParseValue(s, i, depth).Ok?
  {
    JsonAccepts.ValueSound(s, i, depth);
  }

  ghost function After(s: string, i: nat, named: bool, depth: nat): Option<Fields<Scanned>>
    requires i <= |s|
  {
    var r := ParseValue(s, i, depth);
    if r.Ok? then MembersAt(s, r.next, false, named, depth) else None
  }

  ghost function Joined(key: string, v: Option<Tree<Scanned>>, rest: Option<Fields<Scanned>>): Option<Fields<Scanned>>
  {
    if v.None? || rest.None? then None else Some(Field(key, v.value, rest.value))
  }

  /** The member that starts with its name at a position, and those after it. */
  ghost function FromName(s: string, i: nat, named: bool, depth: nat): Option<Fields<Scanned>>
    requires i < |s|
  {
    var l := ParseLabel(s, i, named);
    if l.Err? || (named && !LegalBody(l.value.body)) then None
    else Joined(if named then Unescape(l.value.body) else "", ValueAt(s, l.next, depth), After(s, l.next, named, depth))
  }

  /** The members of an object, or the elements of an array, from the next one on. */
  lemma MembersMove(s: string, i: nat, first: bool, named: bool, depth: nat)
    requires i <= |s|
    ensures MembersAt(s, i, first, named, depth) ==
            match StepIn(s, i, first, Close(named))
            case Broken(_) => None
            case Closed(_) => Some(NoFields)
            case NextAt(start, _, _) => FromName(s, start, named, depth)
  {
    hide StepIn, ParseLabel, ParseValue, LegalValue, Meaning, Unescape, LegalBody;
    var step := StepIn(s, i, first, Close(named));
    if step.NextAt? {
      var l := ParseLabel(s, step.start, named);
      if l.Ok? {
        JsonAccepts.LabelSound(s, step.start, named);
        AcceptedMeans(s, l.next, depth);
        var v := ParseValue(s, l.next, depth);
        if v.Ok? && ParseItems(s, v.next, false, named, depth).Ok? { JsonAccepts.ItemsSound(s, v.next, false, named, depth); }
      }
    }
    if ParseItems(s, i, first, named, depth).Ok? { JsonAccepts.ItemsSound(s, i, first, named, depth); }
  }

  ghost predicate MeansValue(s: string, i: nat, depth: nat, t: Tree<Scanned>)
  {
    i <= |s| && ValueAt(s, i, depth) == Some(t)
  }

  ghost predicate MeansFields(s: string, i: nat, first: bool, named: bool, depth: nat, f: Fields<Scanned>)
  {
    i <= |s| && MembersAt(s, i, first, named, depth) == Some(f)
  }

  /** Walking what the writer printed gives back the tree that was written. */
  lemma WalkGivesBack(t: Tree<string>, seen: Tree<Scanned>)
    requires Storable(t, 0)
    ensures MeansValue(Printed(t), 0, 0, seen) <==> seen == Scans(t)
  {
    hide Written, Text, LegalValue, Meaning, ParseValue;
    PrintedIsValid(t);
  }

  /** Walk one value with the public calls of the reader and rebuild its tree. */
  method WalkValue(j: Cursor) returns (ok: bool, t: Tree<Scanned>)
    requires j.Valid() && j.err.Fine?
    modifies j
    ensures j.Valid() && j.Followed(ok)
    ensures ok ==> MeansValue(j.s, old(j.pos), old(j.depth), t)
    decreases |j.s| - j.pos, 0
  {
    hide ParseItems, ParseBody, ParseNum, ParseWord, LegalBody, Scan, Unescape, MeansValue, MeansFields;
    t := TWord("");
    var k := j.Peek();
    if k.KObj? || k.KArr? {
      ok := j.ContainerBegin(if k.KObj? then '{' else '[');
      if !ok { return; }
      var f;
      ok, f := WalkFields(j, k.KObj?);
      t := if k.KObj? then TObj(f) else TArr(f);
      if ok { ContainerMeans(j.s, old(j.pos), old(j.depth), f); }
    } else {
      JsonAccepts.LeadingWs(j.s, old(j.pos), j.depth);
      ok, t := WalkLeaf(j, k);
      if ok { LeadingMeans(j.s, old(j.pos), j.depth, t); }
    }
  }

  lemma LeadingMeans(s: string, i: nat, depth: nat, t: Tree<Scanned>)
    requires i <= |s| && MeansValue(s, Ws(s, i), depth, t)
    ensures MeansValue(s, i, depth, t)
  {
    JsonAccepts.LeadingWs(s, i, depth);
  }

  /** A string, number, boolean or null under the cursor. */
  method WalkLeaf(j: Cursor, k: Kind) returns (ok: bool, t: Tree<Scanned>)
    requires j.Valid() && j.err.Fine? && Ws(j.s, j.pos) == j.pos && !k.KObj? && !k.KArr?
    requires if j.pos < |j.s| then k == KindOf(j.s[j.pos]) else k == KNone
    modifies j
    ensures j.Valid() && j.Followed(ok)
    ensures ok ==> MeansValue(j.s, old(j.pos), old(j.depth), t)
  {
    hide ParseItems, ParseBody, ParseNum, ParseWord, LegalBody, Scan, Unescape, MeansValue, MeansFields;
    t := TWord("");
    var p := j.pos;
    if k.KStr? {
      var out, tr;
      ok, out, tr := j.Str(|j.s| + 1);
      t := TStr(out);
      if ok {
        HeldWhole(ParseBody(j.s, p + 1).value, |j.s| + 1);
        StringMeans(j.s, p, j.depth);
      }
    } else if k.KNum? {
      var neg, mag;
      ok, neg, mag := j.Number();
      if ok {
        t := TNum(JsonNumber.Number(j.pos - p, neg, mag));
        NumberMeans(j.s, p, j.depth);
      }
    } else if k.KBool? {
      var b;
      ok, b := j.Boolean();
      t := TWord(if b then "true" else "false");
      if ok { WordMeans(j.s, p, j.depth); }
    } else if k.KNull? {
      ok := j.NullValue();
      t := TWord("null");
      if ok { WordMeans(j.s, p, j.depth); }
    } else {
      ok := j.Fail(if p >= |j.s| then Truncated else Syntax);
    }
  }

  method WalkFields(j: Cursor, named: bool) returns (ok: bool, f: Fields<Scanned>)
    requires j.Valid() && j.err.Fine? && j.depth > 0
    modifies j
    ensures j.Valid() && j.FollowedItems(named, ok)
    ensures ok ==> MeansFields(j.s, old(j.pos), old(j.depth) - 1 !in old(j.seen), named, old(j.depth), f)
    decreases |j.s| - j.pos, 1
  {
    hide StepIn, ParseLabel, ParseValue, ParseItems, LegalBody, Unescape, Held, Overlong, MeansValue, MeansFields,
      ItemsOut, RestOut;
    f := NoFields;
    ghost var first := j.depth - 1 !in j.seen;
    ItemsMove(j.s, j.pos, first, named, j.depth);
    var more, key, tr := false, "", false;
    if named { more, key, tr := j.ObjKey(|j.s| + 1); } else { more := j.ArrNext(); }
    if !more {
      ok := j.err.Fine?;
      if ok { NoFieldsMean(j.s, old(j.pos), first, named, old(j.depth)); }
      return;
    }
    if !named { Unnamed(j.s, j.pos); }
    RestWs(j.s, j.pos, named, j.depth);
    RestMove(j.s, j.pos, named, j.depth);
    JsonAccepts.LeadingWs(j.s, j.pos, j.depth);
    ghost var at := j.pos;
    var v, rest;
    ok, v := WalkValue(j);
    if !ok { return; }
    ghost var after := j.pos;
    ok, rest := WalkFields(j, named);
    f := Field(key, v, rest);
    if ok { FieldMeans(j.s, old(j.pos), first, named, old(j.depth), at, key, v, rest); }
  }

  lemma ContainerMeans(s: string, i: nat, depth: nat, f: Fields<Scanned>)
    requires i <= |s| && ParseValue(s, i, depth).Ok? && (s[Ws(s, i)] == '{' || s[Ws(s, i)] == '[')
    requires MeansFields(s, Ws(s, i) + 1, true, s[Ws(s, i)] == '{', depth + 1, f)
    ensures MeansValue(s, i, depth, if s[Ws(s, i)] == '{' then TObj(f) else TArr(f))
  {
    hide ParseItems, LegalItems;
    JsonAccepts.ValueSound(s, i, depth);
  }

  lemma StringMeans(s: string, i: nat, depth: nat)
    requires i <= |s| && ParseValue(s, i, depth).Ok? && s[Ws(s, i)] == '\"'
    ensures LegalBody(ParseBody(s, Ws(s, i) + 1).value)
    ensures MeansValue(s, i, depth, TStr(Unescape(ParseBody(s, Ws(s, i) + 1).value)))
  {
    hide ParseBody, LegalBody, ParseItems;
    JsonAccepts.ValueSound(s, i, depth);
  }

  lemma NumberMeans(s: string, i: nat, depth: nat)
    requires i <= |s| && ParseValue(s, i, depth).Ok? && (s[Ws(s, i)] == '-' || IsDigit(s[Ws(s, i)]))
    ensures var r := ParseValue(s, i, depth);
            r.value.Num? && |r.value.text| == r.next - Ws(s, i) && MeansValue(s, i, depth, TNum(Scan(r.value.text)))
  {
    hide ParseItems, Scan;
    JsonAccepts.ValueSound(s, i, depth);
  }

  lemma WordMeans(s: string, i: nat, depth: nat)
    requires i <= |s| && ParseValue(s, i, depth).Ok? && s[Ws(s, i)] in "tfn"
    ensures var c := s[Ws(s, i)];
            MeansValue(s, i, depth, TWord(if c == 't' then "true" else if c == 'f' then "false" else "null"))
  {
    hide ParseItems;
    JsonAccepts.ValueSound(s, i, depth);
  }

  lemma NoFieldsMean(s: string, i: nat, first: bool, named: bool, depth: nat)
    requires i <= |s| && StepIn(s, i, first, Close(named)).Closed?
    ensures MeansFields(s, i, first, named, depth, NoFields)
  {
    JsonAccepts.ItemsSound(s, i, first, named, depth);
  }

  lemma FieldMeans(s: string, i: nat, first: bool, named: bool, depth: nat, at: nat, key: string,
                   v: Tree<Scanned>, rest: Fields<Scanned>)
    requires i <= |s| && at <= |s| && StepIn(s, i, first, Close(named)).NextAt?
    requires var start := StepIn(s, i, first, Close(named)).start;
             && ParseLabel(s, start, named).Ok? && Ws(s, at) == ParseLabel(s, start, named).next
             && if !named then key == ""
                else
                  var body := ParseLabel(s, start, named).value.body;
                  LegalBody(body) && key == Held(Unescape(body), |s| + 1)
    requires MeansValue(s, at, depth, v) && MeansFields(s, ParseValue(s, at, depth).next, false, named, depth, rest)
    ensures MeansFields(s, i, first, named, depth, Field(key, v, rest))
  {
    hide StepIn, ParseLabel, ParseValue, ParseItems, Unescape, LegalBody, Held, ValueAt, MembersAt;
    var start := StepIn(s, i, first, Close(named)).start;
    MembersMove(s, i, first, named, depth);
    SameAfterWs(s, at, depth);
    JsonAccepts.LeadingWs(s, at, depth);
    AcceptedMeans(s, at, depth);
    if named {
      JsonAccepts.LabelSound(s, start, named);
      LabelFits(s, start);
      HeldWhole(ParseLabel(s, start, named).value.body, |s| + 1);
    } else {
      assert ParseLabel(s, start, named) == Ok(NoLabel, start) by { Unnamed(s, start); }
    }
  }

  lemma Unnamed(s: string, i: nat)
    requires i < |s| && !IsWs(s[i])
    ensures ParseLabel(s, i, false) == Ok(NoLabel, i) && Ws(s, i) == i
  {}

  lemma LabelFits(s: string, i: nat)
    requires i < |s| && ParseLabel(s, i, true).Ok?
    ensures |ParseLabel(s, i, true).value.body| <= |s|
  {
    hide ParseBody;
  }
}
