/** The cfg-set message of control/Src/config_msg.c: the object around the config document,
    as the line handler reads it. */
module ConfigSet {
  import opened Words
  import opened JsonNumber
  import opened JsonGrammar
  import opened JsonReader
  import opened JsonTree
  import opened ConfigCodec
  import opened DocMembers
  import opened ConfigDoc
  import opened ConfigScalars
  import opened ConfigMapper

  /** The copy the documents are laid over, and whether there was one. */
  datatype Envelope = Envelope(c: Config, have: bool)

  datatype EnvelopeKey = DocumentKey | TypeKey | NoEnvelope

  function EnvelopeKeyOf(name: string): EnvelopeKey
  {
    if name == "cfg" then DocumentKey else if name == "t" then TypeKey else NoEnvelope
  }

  function EnvelopeMember(w: Wire, a: Envelope, name: string, v: Tree<Scanned>): Effect<Envelope>
  {
    match EnvelopeKeyOf(name)
    case DocumentKey =>
      if v.TObj? then Nested(Parsed(w, a.c, v), (x: Applied) => Envelope(x.c, true)) else Refused(WrongMessage)
    case TypeKey => Took(a, 0)
    case NoEnvelope => Ignored(a)
  }

  function EnvelopeStep(w: Wire): Laying<Envelope> { (a, key, v) => EnvelopeMember(w, a, NameOf(key), v) }

  /** What a cfg-set message makes of the running config. */
  function Asked(w: Wire, live: Config, message: Tree<Scanned>): Effect<Config>
  {
    if !message.TObj? then Refused(WrongJson)
    else
      match Overlay(EnvelopeStep(w), Envelope(live, false), message.fields)
      case Refused(e) => Refused(e)
      case Took(a, n) => if a.have then Took(a.c, n) else Refused(WrongMessage)
  }

  /** find_type: the first member called t, if it is a string that fits. */
  function TypeIn(message: Tree<Scanned>): Option<string> { if message.TObj? then TypeAmong(message.fields) else None }

  function TypeAmong(f: Fields<Scanned>): Option<string>
  {
    if f.NoFields? then None
    else if NameOf(f.key) != "t" then TypeAmong(f.rest)
    else if f.value.TStr? && |f.value.s| < KEY_MAX then Some(CString(f.value.s))
    else None
  }

  // ---- the loop over the message -------------------------------------------------------------------

  /** The document itself must be an object. */
  method DocumentValue(j: Cursor, w: Wire, c: Config) returns (o: Effect<Applied>)
    requires j.Valid() && j.err.Fine?
    modifies j
    ensures j.Valid()
    ensures var v := old(Here(j));
            Mapped(j, o, if v.None? then None else Some(if v.value.TObj? then Parsed(w, c, v.value) else Refused(WrongMessage)))
  {
    hide ParseItems, ParseBody, ParseNum, ParseWord, LegalBody, Scan, Unescape, LegalValue, Meaning, Parsed, ParseValue;
    var k := j.Peek();
    Settle(j.s, old(j.pos), j.depth);
    if !k.KObj? { return Refused(WrongMessage); }
    o := ApplyDocument(j, w, c);
  }

  method EnvelopeValue(j: Cursor, w: Wire, a: Envelope, key: string) returns (o: Effect<Envelope>)
    requires j.Valid() && j.err.Fine?
    modifies j
    ensures j.Valid() && Mapped(j, o, MemberDue(EnvelopeStep(w), a, key, old(Here(j))))
  {
    hide Here, Parsed, Overlay, NameOf, EnvelopeKeyOf;
    var name := NameOf(key);
    match EnvelopeKeyOf(name)
    case DocumentKey =>
      var x := DocumentValue(j, w, a.c);
      o := if x.Refused? then Refused(x.error) else Took(Envelope(x.a.c, true), x.unknown);
    case TypeKey => o := SkipValue(j, a, 0);
    case NoEnvelope => o := SkipValue(j, a, 1);
  }

  lemma EnvelopeLong(key: string)
    requires |key| >= KEY_MAX
    ensures EnvelopeKeyOf(NameOf(key)).NoEnvelope?
  {}

  lemma EnvelopeIgnoresLong(w: Wire)
    ensures IgnoresLong(EnvelopeStep(w))
  {
    hide EnvelopeKeyOf, NameOf;
    forall a, k, v | |k| >= KEY_MAX ensures EnvelopeStep(w)(a, k, v) == Took(a, 1) { EnvelopeLong(k); }
  }

  method EnvelopeMembers(j: Cursor, w: Wire, a: Envelope) returns (o: Effect<Envelope>)
    requires j.Valid() && j.err.Fine?
    modifies j
    ensures j.Valid() && Mapped(j, o, ObjectDue(EnvelopeStep(w), a, old(Here(j))))
  {
    hide EnvelopeStep, IgnoresLong, Overlay, ParseValue, ParseItems, RestOut, ItemsOut, Owes, ValueAt, MembersAt, After, Joined;
    EnvelopeIgnoresLong(w);
    var ok;
    ghost var g;
    ok, g := OpenContainer(j, true, EnvelopeStep(w), a);
    if !ok { return Refused(WrongJson); }
    var b := a;
    var more, key;
    var n: nat;
    more, key, n := NextKey(j, g, b, 0);
    while more
      invariant Going(j, g, more, b, key, n)
      decreases more, |j.s| - j.pos
    {
      MemberDone(g, j.s, j.pos, j.depth, b, key, n);
      var x := EnvelopeValue(j, w, b, key);
      if x.Refused? { return x; }
      b := x.a;
      more, key, n := NextKey(j, g, b, n + x.unknown);
    }
    o := if j.err.Broke? then Refused(WrongJson) else Took(b, n);
  }

  /** do_cfg_set up to the validator, over a line that holds one message. */
  method Ask(j: Cursor, w: Wire, live: Config) returns (o: Effect<Config>)
    requires j.Valid() && j.err.Fine?
    modifies j
    ensures j.Valid()
    ensures var v := old(Here(j)); Mapped(j, o, if v.None? then None else Some(Asked(w, live, v.value)))
  {
    hide Overlay, EnvelopeStep, Here;
    var x := EnvelopeMembers(j, w, Envelope(live, false));
    o := if x.Refused? then Refused(x.error) else if x.a.have then Took(x.a.c, x.unknown) else Refused(WrongMessage);
  }

  // ---- what a message says ---------------------------------------------------------------------------

  function Count(f: Fields<Scanned>): nat { if f.NoFields? then 0 else 1 + Count(f.rest) }

  function Nth(f: Fields<Scanned>, i: nat): (m: Fields<Scanned>)
    requires i < Count(f)
    ensures m.Field?
  {
    if i == 0 then f else Nth(f.rest, i - 1)
  }

  /** Member `i` is the first one called t, and a string that fits its buffer. */
  predicate FirstType(f: Fields<Scanned>, i: nat, x: string)
  {
    && i < Count(f) && NameOf(Nth(f, i).key) == "t" && (forall j :: 0 <= j < i ==> NameOf(Nth(f, j).key) != "t")
    && Nth(f, i).value.TStr? && |Nth(f, i).value.s| < 48 && x == CString(Nth(f, i).value.s)
  }

  /** The type of a message is what its first member called t says. */
  lemma {:induction false} TypeIsFirst(f: Fields<Scanned>, x: string)
    ensures TypeAmong(f) == Some(x) <==> exists i: nat :: FirstType(f, i, x)
  {
    hide NameOf, CString;
    if f.Field? {
      if NameOf(f.key) == "t" {
        if TypeAmong(f) == Some(x) { assert FirstType(f, 0, x); }
        assert Nth(f, 0) == f;
        forall i: nat | FirstType(f, i, x) ensures i == 0 {}
      } else {
        TypeIsFirst(f.rest, x);
        forall i: nat | FirstType(f.rest, i, x) ensures FirstType(f, i + 1, x) {
          forall j | 0 <= j < i + 1 ensures NameOf(Nth(f, j).key) != "t" {}
        }
        forall i: nat | FirstType(f, i, x) ensures i > 0 && FirstType(f.rest, i - 1, x) {
          forall j | 0 <= j < i - 1 ensures NameOf(Nth(f.rest, j).key) != "t" { assert Nth(f, j + 1) == Nth(f.rest, j); }
        }
      }
    }
  }

  /** One member is called cfg, and this is its value. */
  predicate OneDocument(f: Fields<Scanned>, v: Tree<Scanned>)
  {
    f.Field? && if NameOf(f.key) == "cfg" then f.value == v && !Mentions(f.rest, "cfg") else OneDocument(f.rest, v)
  }

  /** The members that are neither the document nor the type. */
  function Others(f: Fields<Scanned>): nat
  {
    if f.NoFields? then 0 else (if NameOf(f.key) == "cfg" || NameOf(f.key) == "t" then 0 else 1) + Others(f.rest)
  }

  lemma {:induction false} NoDocumentLaid(w: Wire, a: Envelope, f: Fields<Scanned>)
    requires !Mentions(f, "cfg")
    ensures Overlay(EnvelopeStep(w), a, f) == Took(a, Others(f))
    decreases f
  {
    hide NameOf, Parsed;
    if f.Field? { NoDocumentLaid(w, a, f.rest); }
  }

  lemma {:induction false} DocumentLaid(w: Wire, a: Envelope, f: Fields<Scanned>, v: Tree<Scanned>)
    requires OneDocument(f, v) && v.TObj?
    ensures Overlay(EnvelopeStep(w), a, f) ==
            match Parsed(w, a.c, v)
            case Refused(e) => Refused(e)
            case Took(x, n) => Took(Envelope(x.c, true), n + Others(f))
    decreases f
  {
    hide NameOf, Parsed;
    if NameOf(f.key) == "cfg" {
      var p := Parsed(w, a.c, v);
      if p.Took? { NoDocumentLaid(w, Envelope(p.a.c, true), f.rest); }
    } else {
      DocumentLaid(w, a, f.rest, v);
    }
  }

  lemma {:induction false} NoObjectRefused(w: Wire, a: Envelope, f: Fields<Scanned>, v: Tree<Scanned>)
    requires OneDocument(f, v) && !v.TObj?
    ensures Overlay(EnvelopeStep(w), a, f) == Refused(WrongMessage)
    decreases f
  {
    hide NameOf, Parsed;
    if NameOf(f.key) != "cfg" { NoObjectRefused(w, a, f.rest, v); }
  }

  /** A message asks for what its one document makes of the running config, wherever it stands among the
      other members, which are counted and not looked at; without one, or if it is no object, it is refused. */
  lemma AskedLaw(w: Wire, live: Config, f: Fields<Scanned>, v: Tree<Scanned>)
    ensures !Mentions(f, "cfg") ==> Asked(w, live, TObj(f)) == Refused(WrongMessage)
    ensures OneDocument(f, v) && v.TObj? ==>
              Asked(w, live, TObj(f)) ==
              match Parsed(w, live, v)
              case Refused(e) => Refused(e)
              case Took(x, n) => Took(x.c, n + Others(f))
    ensures OneDocument(f, v) && !v.TObj? ==> Asked(w, live, TObj(f)) == Refused(WrongMessage)
  {
    hide Overlay, Parsed, Mentions, OneDocument;
    if OneDocument(f, v) && !v.TObj? { NoObjectRefused(w, Envelope(live, false), f, v); }
    if !Mentions(f, "cfg") { NoDocumentLaid(w, Envelope(live, false), f); }
    if OneDocument(f, v) && v.TObj? { DocumentLaid(w, Envelope(live, false), f, v); }
  }
}
