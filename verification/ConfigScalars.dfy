/** The single values of a config document as control/Src/config_doc.c reads them from the text,
    proved to be what the values mean. */
module ConfigScalars {
  import opened Words
  import opened JsonNumber
  import opened JsonGrammar
  import opened JsonReader
  import opened JsonTree
  import opened ConfigCodec
  import opened DocMembers
  import opened ConfigDoc
  import JsonAccepts

  // ---- the text under the cursor -----------------------------------------------------------------

  ghost function Here(j: Cursor): Option<Tree<Scanned>>
    requires j.Valid()
    reads j
  {
    ValueAt(j.s, j.pos, j.depth)
  }

  /** The reader has moved over the value it stood at and the effect is the one asked for;
      a malformed value is refused. */
  twostate predicate Mapped<A>(j: Cursor, new o: Effect<A>, new due: Option<Effect<A>>)
    reads j
  {
    match due
    case None => o.Refused?
    case Some(e) => o == e && (e.Took? ==> j.Followed(true))
  }

  /** The kind of a value shows at its first character. */
  ghost predicate OfKind(t: Tree<Scanned>, k: Kind)
  {
    match k
    case KNone => false
    case KObj => t.TObj?
    case KArr => t.TArr?
    case KStr => t.TStr?
    case KNum => t.TNum?
    case KBool => t == TWord("true") || t == TWord("false")
    case KNull => t == TWord("null")
  }

  lemma KindTells(s: string, i: nat, depth: nat)
    requires i <= |s| && ValueAt(s, i, depth).Some?
    ensures Ws(s, i) < |s| && OfKind(ValueAt(s, i, depth).value, KindOf(s[Ws(s, i)]))
  {
    hide ParseItems, ParseBody, ParseNum, LegalBody, Scan, Unescape, LegalItems, ItemsMeaning, IsNumber;
    NumbersAre(s, Ws(s, i));
  }

  lemma NumbersAre(s: string, i: nat)
    requires i <= |s|
    ensures ParseNum(s, i).Ok? ==> ParseNum(s, i).value.Num?
  {
    hide Scan;
  }

  // ---- single values -----------------------------------------------------------------------------

  function Given<T>(o: Option<T>, name: string): Effect<T>
  {
    if o.None? then Refused(WrongType(name)) else Took(o.value, 0)
  }

  /** rd_num and rd_f32: a number, or null for NaN. */
  method ReadFloat(j: Cursor, w: Wire, name: string) returns (o: Effect<u32>)
    requires j.Valid() && j.err.Fine?
    modifies j
    ensures j.Valid()
    ensures var v := old(Here(j)); Mapped(j, o, if v.None? then None else Some(Given(ReadF32(w, v.value), name)))
  {
    hide ParseItems, ParseBody, ParseNum, ParseWord, LegalBody, Scan, Unescape, LegalValue, Meaning;
    var k := j.Peek();
    Settle(j.s, old(j.pos), j.depth);
    ghost var p := j.pos;
    o := Refused(WrongType(name));
    if k.KNull? {
      var ok := j.NullValue();
      if ok { WordMeans(j.s, p, j.depth); }
      o := if ok then Took(NAN_BITS, 0) else Refused(WrongJson);
    } else if k.KNum? {
      var ok, neg, mag := j.Number();
      if ok { NumberMeans(j.s, p, j.depth); }
      o := if ok then Took(w.narrow(neg, mag), 0) else Refused(WrongJson);
    }
  }

  /** What peeking at a value tells. */
  lemma Settle(s: string, i: nat, depth: nat)
    requires i <= |s|
    ensures var p := Ws(s, i);
            && Ws(s, p) == p && ValueAt(s, p, depth) == ValueAt(s, i, depth) && ParseValue(s, p, depth) == ParseValue(s, i, depth)
            && (ValueAt(s, i, depth).Some? <==> ParseValue(s, i, depth).Ok?)
            && (ValueAt(s, i, depth).Some? ==> p < |s| && OfKind(ValueAt(s, i, depth).value, KindOf(s[p])))
  {
    hide ParseValue, OfKind;
    JsonAccepts.LeadingWs(s, i, depth);
    SameAfterWs(s, i, depth);
    AcceptedMeans(s, i, depth);
    if ValueAt(s, i, depth).Some? { KindTells(s, i, depth); }
  }

  /** rd_int */
  method ReadInteger(j: Cursor, name: string, lo: int, hi: int) returns (o: Effect<int>)
    requires j.Valid() && j.err.Fine?
    modifies j
    ensures j.Valid()
    ensures var v := old(Here(j)); Mapped(j, o, if v.None? then None else Some(Given(ReadInt(v.value, lo, hi), name)))
    ensures o.Took? ==> lo <= o.a <= hi
  {
    hide ParseItems, ParseBody, ParseNum, ParseWord, LegalBody, Scan, Unescape, LegalValue, Meaning, Whole;
    var k := j.Peek();
    Settle(j.s, old(j.pos), j.depth);
    ghost var p := j.pos;
    o := Refused(WrongType(name));
    if k.KNull? {
      var ok := j.NullValue();
      if ok { WordMeans(j.s, p, j.depth); }
    } else if k.KNum? {
      var ok, neg, mag := j.Number();
      if ok { NumberMeans(j.s, p, j.depth); }
      o := if ok then Given(InBounds(Whole(neg, mag), lo, hi), name) else Refused(WrongJson);
    }
  }

  method ReadByte(j: Cursor, name: string) returns (o: Effect<u8>)
    requires j.Valid() && j.err.Fine?
    modifies j
    ensures j.Valid()
    ensures var v := old(Here(j)); Mapped(j, o, if v.None? then None else Some(Given(ReadU8(v.value), name)))
  {
    hide Here, ReadInt;
    var x := ReadInteger(j, name, 0, 255);
    o := if x.Refused? then Refused(x.error) else Took(x.a, 0);
  }

  method ReadShort(j: Cursor, name: string) returns (o: Effect<u16>)
    requires j.Valid() && j.err.Fine?
    modifies j
    ensures j.Valid()
    ensures var v := old(Here(j)); Mapped(j, o, if v.None? then None else Some(Given(ReadU16(v.value), name)))
  {
    hide Here, ReadInt;
    var x := ReadInteger(j, name, 0, 65535);
    o := if x.Refused? then Refused(x.error) else Took(x.a, 0);
  }

  /** rd_i8: null is -1. */
  method ReadSigned(j: Cursor, name: string) returns (o: Effect<u8>)
    requires j.Valid() && j.err.Fine?
    modifies j
    ensures j.Valid()
    ensures var v := old(Here(j)); Mapped(j, o, if v.None? then None else Some(Given(ReadI8(v.value), name)))
  {
    hide ParseItems, ParseBody, ParseNum, ParseWord, LegalBody, Scan, Unescape, LegalValue, Meaning, ReadInt;
    var k := j.Peek();
    Settle(j.s, old(j.pos), j.depth);
    if k.KNull? {
      ghost var p := j.pos;
      var ok := j.NullValue();
      if ok { WordMeans(j.s, p, j.depth); }
      o := if ok then Took(255, 0) else Refused(WrongJson);
    } else {
      var x := ReadInteger(j, name, -128, 127);
      o := if x.Refused? then Refused(x.error) else Took(x.a % 256, 0);
    }
  }

  method ReadFlag(j: Cursor, name: string) returns (o: Effect<bool>)
    requires j.Valid() && j.err.Fine?
    modifies j
    ensures j.Valid()
    ensures var v := old(Here(j)); Mapped(j, o, if v.None? then None else Some(Given(ReadBool(v.value), name)))
  {
    hide ParseItems, ParseBody, ParseNum, ParseWord, LegalBody, Scan, Unescape, LegalValue, Meaning;
    var k := j.Peek();
    Settle(j.s, old(j.pos), j.depth);
    if !k.KBool? { return Refused(WrongType(name)); }
    ghost var p := j.pos;
    var ok, b := j.Boolean();
    if ok { WordMeans(j.s, p, j.depth); }
    o := if ok then Took(b, 0) else Refused(WrongJson);
  }

  /** A string read into the buffer of the mapper, and whether it was cut. */
  method ReadText(j: Cursor, name: string) returns (o: Effect<(string, bool)>)
    requires j.Valid() && j.err.Fine?
    modifies j
    ensures j.Valid()
    ensures var v := old(Here(j));
            Mapped(j, o, if v.None? then None
                         else if v.value.TStr? then Some(Took((Held(v.value.s, KEY_MAX), Overlong(v.value.s, KEY_MAX)), 0))
                         else Some(Refused(WrongType(name))))
  {
    hide ParseItems, ParseBody, ParseNum, ParseWord, LegalBody, Scan, Unescape, LegalValue, Meaning, Held, Overlong;
    var k := j.Peek();
    Settle(j.s, old(j.pos), j.depth);
    if !k.KStr? { return Refused(WrongType(name)); }
    ghost var p := j.pos;
    var ok, s, cut := j.Str(KEY_MAX);
    if ok { StringMeans(j.s, p, j.depth); }
    o := if ok then Took((s, cut), 0) else Refused(WrongJson);
  }

  method ReadEnum(j: Cursor, name: string) returns (o: Effect<string>)
    requires j.Valid() && j.err.Fine?
    modifies j
    ensures j.Valid()
    ensures var v := old(Here(j));
            Mapped(j, o, if v.None? then None
                         else Some(Given(if v.value.TStr? then Some(Spelled(v.value.s)) else None, name)))
  {
    hide Here, CString;
    var x := ReadText(j, name);
    o := if x.Refused? then Refused(x.error) else Took(CString(x.a.0), 0);
  }

  lemma NoNameNoReference()
    ensures RefOf("").None?
  {}

  /** rd_vref */
  method ReadReference(j: Cursor, w: Wire, name: string, literal: u32) returns (o: Effect<(u8, u32)>)
    requires j.Valid() && j.err.Fine?
    modifies j
    ensures j.Valid()
    ensures var v := old(Here(j)); Mapped(j, o, if v.None? then None else Some(Given(ReadVref(w, v.value, literal), name)))
  {
    hide ParseItems, ParseBody, ParseNum, ParseWord, LegalBody, Scan, Unescape, LegalValue, Meaning, RefOf, CString, ParseValue;
    var k := j.Peek();
    Settle(j.s, old(j.pos), j.depth);
    if k.KStr? {
      var x := ReadText(j, name);
      if x.Refused? { return Refused(x.error); }
      NoNameNoReference();
      var r := if x.a.1 then None else RefOf(CString(x.a.0));
      o := if r.None? then Refused(WrongType(name)) else Took((r.value, literal), 0);
    } else if k.KNum? || k.KNull? {
      var x := ReadFloat(j, w, name);
      o := if x.Refused? then Refused(x.error) else Took((0, x.a), 0);
    } else {
      o := Refused(WrongType(name));
    }
  }
}
