/** The config document as text on the wire: writing it, reading it back, and the cfg-set
    message of control/Src/config_msg.c that carries it. */
module ConfigWire {
  import opened Words
  import opened JsonNumber
  import opened JsonTree
  import opened ConfigCodec
  import opened DocMembers
  import opened ConfigDoc
  import opened ConfigScalars
  import ConfigDocRound
  import JsonGrammar
  import JsonFormat
  import JsonWriter
  import ConfigSet
  import ConfigMsg

  // ---- the document can be carried ----------------------------------------------------------------

  /** Every token a float is written as is a number of at most 40 characters. */
  ghost predicate TextFits(w: Wire)
  {
    forall b: u32 :: w.text(b).Some? ==>
      JsonGrammar.IsNumber(w.text(b).value) && |w.text(b).value| <= JsonGrammar.NUM_CHARS_MAX
  }

  lemma FloatStorable(w: Wire, bits: u32, depth: nat)
    requires TextFits(w)
    ensures Storable(FloatTree(w, bits), depth)
  {}

  lemma IntStorable(x: int, depth: nat)
    requires -0x8000 <= x <= 0xFFFF
    ensures Storable(IntTree(x), depth)
  {
    hide Scan, JsonFormat.IntegerText;
    JsonFormat.IntegerReads(x);
  }

  /** All the tokens a document is made of. */
  lemma LeavesStorable(w: Wire, depth: nat)
    requires TextFits(w)
    ensures forall b: u32 :: Storable(FloatTree(w, b), depth)
    ensures forall x: u16 :: Storable(IntTree(x), depth)
    ensures forall b: u8 :: Storable(IntTree(b), depth) && Storable(SignedTree(b), depth)
    ensures Storable(BoolTree(true), depth) && Storable(BoolTree(false), depth)
  {
    hide IntTree, FloatTree;
    forall b: u32 ensures Storable(FloatTree(w, b), depth) { FloatStorable(w, b, depth); }
    forall x: u16 ensures Storable(IntTree(x), depth) { IntStorable(x, depth); }
    forall b: u8 ensures Storable(IntTree(b), depth) && Storable(SignedTree(b), depth) {
      IntStorable(b, depth);
      if b != 255 { IntStorable(if b < 128 then b else b - 256, depth); }
    }
  }

  lemma RefStorable(w: Wire, ref: u8, literal: u32, depth: nat)
    requires TextFits(w)
    ensures Storable(VrefTree(w, ref, literal), depth)
  {
    hide IsCString, NameOf;
    ConfigDocRound.PrimNames();
    FloatStorable(w, literal, depth);
  }

  lemma WordsStorable(depth: nat)
    ensures Storable(TStr("none"), depth) && Storable(TStr("adc_a"), depth) && Storable(TStr("adc_b"), depth)
    ensures Storable(TStr("hold"), depth) && Storable(TStr("zero"), depth)
  {
    assert IsCString("none") by {}
    assert IsCString("adc_a") by {}
    assert IsCString("adc_b") by {}
    assert IsCString("hold") by {}
    assert IsCString("zero") by {}
  }

  lemma ObjectStorable(f: Fields<string>, depth: nat)
    requires depth < JsonGrammar.DEPTH_MAX && StorableFields(f, true, depth + 1)
    ensures Storable(TObj(f), depth)
  {}

  lemma PrimStorable(w: Wire, p: Primitives, depth: nat)
    requires TextFits(w)
    ensures StorableFields(PrimFields(w, p), true, depth)
  {
    hide IsCString, NameOf, Storable, FloatTree, IntTree, SignedTree, BoolTree, VrefTree;
    ConfigDocRound.PrimNames();
    LeavesStorable(w, depth);
    var f := PrimFields(w, p);
    var f1 := f.rest;
    var f2 := f1.rest;
    var f3 := f2.rest;
    var f4 := f3.rest;
    assert StorableFields(f4, true, depth);
    assert StorableFields(f3, true, depth);
    assert StorableFields(f2, true, depth);
    assert StorableFields(f1, true, depth);
  }

  lemma FieldStorable(w: Wire, g: Globals, depth: nat)
    requires TextFits(w)
    ensures StorableFields(FieldFields(w, g), true, depth)
  {
    hide IsCString, NameOf, Storable, FloatTree, IntTree, SignedTree, BoolTree, VrefTree;
    ConfigDocRound.FieldNames();
    LeavesStorable(w, depth);
    var f := FieldFields(w, g);
    var f1 := f.rest;
    var f2 := f1.rest;
    assert StorableFields(f2, true, depth);
    assert StorableFields(f1, true, depth);
  }

  lemma LimitsStorable(w: Wire, c: Config, depth: nat)
    requires TextFits(w) && depth < JsonGrammar.DEPTH_MAX
    ensures StorableFields(LimitsFields(w, c), true, depth)
  {
    hide IsCString, NameOf, Storable, FloatTree, IntTree, SignedTree, BoolTree, VrefTree, FieldFields;
    ConfigDocRound.LimitsNames();
    LeavesStorable(w, depth);
    FieldStorable(w, c.globals, depth + 1);
    ObjectStorable(FieldFields(w, c.globals), depth);
    var f := LimitsFields(w, c);
    var f1 := f.rest;
    var f2 := f1.rest;
    var f3 := f2.rest;
    assert StorableFields(f3, true, depth);
    assert StorableFields(f2, true, depth);
    assert StorableFields(f1, true, depth);
  }

  lemma LimpStorable(w: Wire, g: Globals, depth: nat)
    requires TextFits(w)
    ensures StorableFields(GlobalFields3(w, g), true, depth)
  {
    hide IsCString, NameOf, Storable, FloatTree, IntTree, SignedTree, BoolTree, VrefTree;
    ConfigDocRound.LimpNames();
    LeavesStorable(w, depth);
    WordsStorable(depth);
    var f := GlobalFields3(w, g);
    var f1 := f.rest;
    var f2 := f1.rest;
    var f3 := f2.rest;
    assert StorableFields(f3, true, depth);
    assert StorableFields(f2, true, depth);
    assert StorableFields(f1, true, depth);
  }

  lemma SkipStorable(w: Wire, g: Globals, depth: nat)
    requires TextFits(w)
    ensures StorableFields(GlobalFields2(w, g), true, depth)
  {
    hide IsCString, NameOf, Storable, FloatTree, IntTree, SignedTree, BoolTree, VrefTree, GlobalFields3;
    ConfigDocRound.SkipNames();
    LeavesStorable(w, depth);
    LimpStorable(w, g, depth);
    var f := GlobalFields2(w, g);
    var f1 := f.rest;
    var f2 := f1.rest;
    var f3 := f2.rest;
    assert StorableFields(f3, true, depth);
    assert StorableFields(f2, true, depth);
    assert StorableFields(f1, true, depth);
  }

  lemma GlobalStorable(w: Wire, g: Globals, depth: nat)
    requires TextFits(w)
    ensures StorableFields(GlobalFields(w, g), true, depth)
  {
    hide IsCString, NameOf, Storable, FloatTree, IntTree, SignedTree, BoolTree, VrefTree, GlobalFields2;
    ConfigDocRound.PowerNames();
    ConfigDocRound.TimeNames();
    LeavesStorable(w, depth);
    SkipStorable(w, g, depth);
    var f := GlobalFields(w, g);
    var f1 := f.rest;
    var f2 := f1.rest;
    var f3 := f2.rest;
    var f4 := f3.rest;
    var f5 := f4.rest;
    var f6 := f5.rest;
    var f7 := f6.rest;
    var f8 := f7.rest;
    var f9 := f8.rest;
    assert StorableFields(f9, true, depth);
    assert StorableFields(f8, true, depth);
    assert StorableFields(f7, true, depth);
    assert StorableFields(f6, true, depth);
    assert StorableFields(f5, true, depth);
    assert StorableFields(f4, true, depth);
    assert StorableFields(f3, true, depth);
    assert StorableFields(f2, true, depth);
    assert StorableFields(f1, true, depth);
  }

  lemma RestStorable(w: Wire, p: Profile, depth: nat)
    requires TextFits(w)
    ensures StorableFields(RestFields(w, p), true, depth)
  {
    hide IsCString, NameOf, Storable, FloatTree, IntTree, SignedTree, BoolTree, VrefTree;
    ConfigDocRound.RestNames();
    LeavesStorable(w, depth);
    WordsStorable(depth);
    RefStorable(w, p.restRef, p.restV, depth);
    var f := RestFields(w, p);
    var f1 := f.rest;
    var f2 := f1.rest;
    assert StorableFields(f2, true, depth);
    assert StorableFields(f1, true, depth);
  }

  lemma RevertStorable(w: Wire, p: Profile, depth: nat)
    requires TextFits(w)
    ensures StorableFields(RevertFields(w, p), true, depth)
  {
    hide IsCString, NameOf, Storable, FloatTree, IntTree, SignedTree, BoolTree, VrefTree;
    ConfigDocRound.RevertNames();
    LeavesStorable(w, depth);
    var f := RevertFields(w, p);
    var f1 := f.rest;
    var f2 := f1.rest;
    var f3 := f2.rest;
    assert StorableFields(f3, true, depth);
    assert StorableFields(f2, true, depth);
    assert StorableFields(f1, true, depth);
  }

  lemma FloatTitles()
    ensures IsCString("Bulk, Float Norm")
    ensures IsCString("Bulk, Float Low (Solar Priority)")
  {
    assert IsCString("Bulk, Float Norm") by {}
    assert IsCString("Bulk, Float Low (Solar Priority)") by {}
  }

  lemma BulkTitles()
    ensures IsCString("Bulk, Solar Finish")
    ensures IsCString("Bulk Conservative, Float Low")
  {
    assert IsCString("Bulk, Solar Finish") by {}
    assert IsCString("Bulk Conservative, Float Low") by {}
  }

  lemma OtherTitles()
    ensures IsCString("Bulk, Off")
    ensures IsCString("Limp Home")
    ensures IsCString("Fast Charge")
    ensures IsCString("")
  {
    assert IsCString("Bulk, Off") by {}
    assert IsCString("Limp Home") by {}
    assert IsCString("Fast Charge") by {}
    assert IsCString("") by {}
  }

  lemma TitlesStorable(id: u8, depth: nat)
    ensures Storable(TStr(DisplayName(id)), depth)
  {
    hide IsCString;
    FloatTitles();
    BulkTitles();
    OtherTitles();
  }

  lemma BlockStorable(w: Wire, p: Profile, depth: nat)
    requires TextFits(w) && depth < JsonGrammar.DEPTH_MAX
    ensures StorableFields(BlockFields(w, p), true, depth)
  {
    hide IsCString, NameOf, Storable, FloatTree, IntTree, SignedTree, BoolTree, VrefTree, RestFields, RevertFields;
    ConfigDocRound.ProfileNames();
    LeavesStorable(w, depth);
    RestStorable(w, p, depth + 1);
    RevertStorable(w, p, depth + 1);
    ObjectStorable(RestFields(w, p), depth);
    ObjectStorable(RevertFields(w, p), depth);
    var f := BlockFields(w, p);
    var f1 := f.rest;
    assert StorableFields(f1, true, depth);
  }

  lemma ProfileStorable(w: Wire, p: Profile, depth: nat)
    requires TextFits(w) && depth < JsonGrammar.DEPTH_MAX
    ensures StorableFields(ProfileFields(w, p), true, depth)
  {
    hide IsCString, NameOf, Storable, FloatTree, IntTree, SignedTree, BoolTree, VrefTree, BlockFields, DisplayName;
    ConfigDocRound.ProfileNames();
    LeavesStorable(w, depth);
    BlockStorable(w, p, depth);
    TitlesStorable(p.id, depth);
    RefStorable(w, p.cvRef, p.cvTargetV, depth);
    var f := ProfileFields(w, p);
    var f1 := f.rest;
    var f2 := f1.rest;
    var f3 := f2.rest;
    var f4 := f3.rest;
    assert StorableFields(f4, true, depth);
    assert StorableFields(f3, true, depth);
    assert StorableFields(f2, true, depth);
    assert StorableFields(f1, true, depth);
  }

  lemma {:induction false} TableStorable(w: Wire, t: ProfileTable, i: nat, depth: nat)
    requires TextFits(w) && i <= PROFILES && depth + 1 < JsonGrammar.DEPTH_MAX
    ensures StorableFields(TableFields(w, t, i), false, depth)
    decreases PROFILES - i
  {
    if i < PROFILES {
      hide ProfileFields;
      ProfileStorable(w, t[i], depth + 1);
      ObjectStorable(ProfileFields(w, t[i]), depth);
      TableStorable(w, t, i + 1, depth);
    }
  }

  lemma ArrayStorable(f: Fields<string>, depth: nat)
    requires depth < JsonGrammar.DEPTH_MAX && StorableFields(f, false, depth + 1)
    ensures Storable(TArr(f), depth)
  {}

  lemma BodyStorable(w: Wire, c: Config, depth: nat)
    requires TextFits(w) && depth + 2 < JsonGrammar.DEPTH_MAX
    ensures StorableFields(BodyFields(w, c), true, depth)
  {
    hide IsCString, NameOf, Storable, FloatTree, IntTree, SignedTree, BoolTree, VrefTree, PrimFields, LimitsFields,
      GlobalFields, TableFields;
    ConfigDocRound.TopNames();
    LeavesStorable(w, depth);
    PrimStorable(w, c.prim, depth + 1);
    LimitsStorable(w, c, depth + 1);
    GlobalStorable(w, c.globals, depth + 1);
    TableStorable(w, c.profiles, 0, depth + 1);
    ObjectStorable(PrimFields(w, c.prim), depth);
    ObjectStorable(LimitsFields(w, c), depth);
    ObjectStorable(GlobalFields(w, c.globals), depth);
    ArrayStorable(TableFields(w, c.profiles, 0), depth);
    var f := BodyFields(w, c);
    var f1 := f.rest;
    var f2 := f1.rest;
    var f3 := f2.rest;
    var f4 := f3.rest;
    assert StorableFields(f4, true, depth);
    assert StorableFields(f3, true, depth);
    assert StorableFields(f2, true, depth);
    assert StorableFields(f1, true, depth);
  }

  /** The document of any config can be carried, up to three containers deep. */
  lemma DocStorable(w: Wire, c: Config, fw: Option<string>, depth: nat)
    requires TextFits(w) && depth + 3 < JsonGrammar.DEPTH_MAX && (fw.Some? ==> IsCString(fw.value))
    ensures Storable(DocTree(w, c, fw), depth)
  {
    hide IsCString, NameOf, IntTree, BodyFields;
    ConfigDocRound.TopNames();
    BodyStorable(w, c, depth + 1);
    IntStorable(SCHEMA, depth + 1);
    ObjectStorable(DocTree(w, c, fw).fields, depth);
  }

  // ---- there and back ------------------------------------------------------------------------------

  lemma {:induction false} StorableIsClean(t: Tree<string>, depth: nat)
    requires Storable(t, depth)
    ensures JsonWriter.Clean(t) && (depth <= JsonGrammar.DEPTH_MAX ==> JsonWriter.Height(t) + depth <= JsonGrammar.DEPTH_MAX)
    decreases t
  {
    hide IsCString;
    match t
    case TObj(f) => StorableAreClean(f, true, depth + 1);
    case TArr(f) => StorableAreClean(f, false, depth + 1);
    case TStr(_) =>
    case TNum(_) =>
    case TWord(_) =>
  }

  lemma {:induction false} StorableAreClean(f: Fields<string>, named: bool, depth: nat)
    requires StorableFields(f, named, depth)
    ensures JsonWriter.CleanFields(f, named)
    ensures depth <= JsonGrammar.DEPTH_MAX ==> JsonWriter.FieldsHeight(f) + depth <= JsonGrammar.DEPTH_MAX
    decreases f
  {
    hide IsCString;
    if f.Field? {
      StorableIsClean(f.value, depth);
      StorableAreClean(f.rest, named, depth);
    }
  }

  /** cfg_doc_emit: the document of the config reaches the writer as it stands. */
  method Emit(out: JsonWriter.Writer, w: Wire, c: Config, fw: Option<string>)
    requires out.Valid() && TextFits(w) && (fw.Some? ==> IsCString(fw.value))
    requires out.depth + JsonGrammar.DEPTH_MAX <= JsonWriter.DEPTH_BITS
    modifies out, out.buf
    ensures out.Valid() && out.full == old(out.full) + old(out.SepText()) + Printed(DocTree(w, c, fw))
    ensures !out.pending && out.depth == old(out.depth)
  {
    hide DocTree, Printed, JsonWriter.Clean, JsonWriter.Height, Storable;
    DocStorable(w, c, fw, 0);
    StorableIsClean(DocTree(w, c, fw), 0);
    JsonWriter.EmitValue(out, DocTree(w, c, fw));
  }

  /** The text of a tree, read where it starts. */
  lemma ReadsAsWritten(t: Tree<string>)
    requires Storable(t, 0)
    ensures ConfigMsg.WellFormed(Printed(t)) && ValueAt(Printed(t), 0, 0) == Some(Scans(t))
  {
    hide Written, JsonGrammar.Text, JsonGrammar.LegalValue, Meaning, JsonGrammar.ParseValue;
    PrintedIsValid(t);
  }

  /** On the wire: the text of a config is well-formed, and laying it over any base gives back
      the very same config exactly when it is faithful. */
  lemma WireRoundTrip(w: Wire, base: Config, c: Config, fw: Option<string>)
    requires TextFits(w) && (fw.Some? ==> IsCString(fw.value))
    ensures var text := Printed(DocTree(w, c, fw));
            && ConfigMsg.WellFormed(text) && ValueAt(text, 0, 0).Some?
            && (Parsed(w, base, ValueAt(text, 0, 0).value) == Took(Applied(c, SCHEMA), 0) <==> ConfigDocRound.Faithful(w, base, c))
  {
    hide DocTree, Printed, Parsed, ConfigDocRound.Faithful, Storable, ConfigMsg.WellFormed, ValueAt;
    DocStorable(w, c, fw, 0);
    ReadsAsWritten(DocTree(w, c, fw));
    ConfigDocRound.RoundTrip(w, base, c, fw);
  }

  // ---- through the line handler --------------------------------------------------------------------

  function Code(e: DocError): string
  {
    match e
    case WrongJson => "CFG_ERR_JSON"
    case WrongType(_) => "CFG_ERR_TYPE"
    case WrongSchema => "CFG_ERR_SCHEMA"
    case WrongMessage => "CFG_ERR_MSG"
  }

  ghost function TypeOfLine(line: string): Option<string>
  {
    var m := ValueAt(line, 0, 0);
    if m.None? then None else ConfigSet.TypeIn(m.value)
  }

  ghost function AskedByLine(w: Wire, line: string, live: Config): ConfigMsg.Parsed
  {
    var m := ValueAt(line, 0, 0);
    var o := if m.None? then Refused(WrongJson) else ConfigSet.Asked(w, live, m.value);
    if o.Refused? then ConfigMsg.NoDocument(Code(o.error)) else ConfigMsg.Document(o.a)
  }

  /** The line handler with this document mapper. */
  ghost function Mapping(w: Wire, valid: Config -> bool, save: nat -> Option<u32>, telem: bool): ConfigMsg.Host
  {
    ConfigMsg.Host(line => TypeOfLine(line), (line, live) => AskedByLine(w, line, live), valid, save, telem)
  }

  function SetMessage(w: Wire, c: Config, fw: Option<string>): Tree<string>
  {
    TObj(Field("t", TStr("cfg-set"), Field("cfg", DocTree(w, c, fw), NoFields)))
  }

  lemma {:induction false} LastIsClose(items: JsonGrammar.Items, first: bool, close: char)
    ensures var t := JsonGrammar.ItemsText(items, first, close); |t| > 0 && t[|t| - 1] == close
    decreases items
  {
    hide JsonGrammar.Text, JsonGrammar.LabelText;
    if items.Item? { LastIsClose(items.rest, false, close); }
  }

  lemma ObjectsAreTrim(f: Fields<string>)
    ensures ConfigMsg.Trimmed(Printed(TObj(f))) == Printed(TObj(f)) != ""
  {
    hide WrittenItems, JsonGrammar.ItemsText;
    LastIsClose(WrittenItems(f, true), true, '}');
  }

  lemma MessageNames()
    ensures ConfigDocRound.OwnText("t") && ConfigDocRound.OwnText("cfg")
    ensures CString("cfg-set") == "cfg-set" && IsCString("cfg-set")
  {
    hide NameOf, CString, Spelled;
    assert ConfigDocRound.OwnText("t") by { ConfigDocRound.OwnName("t"); }
    assert ConfigDocRound.OwnText("cfg") by { ConfigDocRound.OwnName("cfg"); }
    assert CString("cfg-set") == "cfg-set" && IsCString("cfg-set") by { CleanCString("cfg-set"); }
  }

  lemma SetIsStorable(w: Wire, c: Config, fw: Option<string>)
    requires TextFits(w) && (fw.Some? ==> IsCString(fw.value))
    ensures Storable(SetMessage(w, c, fw), 0)
  {
    hide IsCString, NameOf, CString, DocTree;
    MessageNames();
    DocStorable(w, c, fw, 1);
    var f := SetMessage(w, c, fw).fields;
    assert StorableFields(f.rest, true, 1);
    ObjectStorable(f, 0);
  }

  /** What the message asks for is the config in it. */
  lemma SetAsks(w: Wire, live: Config, c: Config, fw: Option<string>)
    requires ConfigDocRound.Faithful(w, live, c)
    ensures var m := Scans(SetMessage(w, c, fw));
            ConfigSet.TypeIn(m) == Some("cfg-set") && ConfigSet.Asked(w, live, m) == Took(c, 0)
  {
    hide IsCString, NameOf, CString, DocTree, Parsed, ConfigDocRound.Faithful, Overlay;
    MessageNames();
    ConfigDocRound.RoundTrip(w, live, c, fw);
    var f := SetMessage(w, c, fw).fields;
    var step := ConfigSet.EnvelopeStep(w);
    assert Scans(f.value) == TStr("cfg-set");
    ConfigDocRound.NextMember(step, ConfigSet.Envelope(live, false), f, ConfigSet.Envelope(live, false));
    assert Scans(f.rest.value).TObj? by { DocIsObject(w, c, fw); }
    ConfigDocRound.NextMember(step, ConfigSet.Envelope(live, false), f.rest, ConfigSet.Envelope(c, true));
    assert FieldScans(f.rest.rest) == NoFields;
    ConfigDocRound.NothingLeft(step, ConfigSet.Envelope(c, true));
  }

  lemma DocIsObject(w: Wire, c: Config, fw: Option<string>)
    ensures Scans(DocTree(w, c, fw)).TObj?
  {}

  /** Sending back the document of a config that is faithful over the running one: if the
      validator accepts that config and the save succeeds, it is exactly what runs from then
      on; if not, nothing changes but the count of attempts. */
  lemma SetInstalls(w: Wire, valid: Config -> bool, save: nat -> Option<u32>, telem: bool,
                    n: ConfigMsg.Node, c: Config, fw: Option<string>)
    requires TextFits(w) && (fw.Some? ==> IsCString(fw.value)) && ConfigDocRound.Faithful(w, n.live, c)
    ensures ConfigMsg.Handle(Mapping(w, valid, save, telem), n, Printed(SetMessage(w, c, fw))) ==
            if !valid(c) then (n, [ConfigMsg.Refused("validator")])
            else
              match save(n.attempts)
              case None => (n.(attempts := n.attempts + 1), [ConfigMsg.Refused("CFG_ERR_STORE")])
              case Some(g) => (ConfigMsg.Node(c, n.attempts + 1, n.stored + [c]), [ConfigMsg.Stored(g)])
  {
    hide Printed, ConfigDocRound.Faithful, Storable, ConfigMsg.WellFormed, ValueAt, ConfigMsg.Trimmed, Scans, ConfigSet.TypeIn,
      ConfigSet.Asked, DocTree, Parsed;
    var m := SetMessage(w, c, fw);
    SetIsStorable(w, c, fw);
    ReadsAsWritten(m);
    SetAsks(w, n.live, c, fw);
    ObjectsAreTrim(m.fields);
  }

  /** A config message that is well-formed but cannot be applied changes nothing, and the reply names what
      is wrong: the text of a value, its type for its key, the schema, or the message itself. */
  lemma SetRefused(w: Wire, valid: Config -> bool, save: nat -> Option<u32>, telem: bool, n: ConfigMsg.Node, text: string,
                   m: Tree<Scanned>)
    requires var line := ConfigMsg.Trimmed(text); line != "" && ConfigMsg.WellFormed(line) && ValueAt(line, 0, 0) == Some(m)
    requires ConfigSet.TypeIn(m) == Some("cfg-set") && ConfigSet.Asked(w, n.live, m).Refused?
    ensures var e := ConfigSet.Asked(w, n.live, m).error;
            ConfigMsg.Handle(Mapping(w, valid, save, telem), n, text) ==
            (n, [ConfigMsg.Refused(if e.WrongType? then "CFG_ERR_TYPE" else if e.WrongSchema? then "CFG_ERR_SCHEMA"
                                   else if e.WrongMessage? then "CFG_ERR_MSG" else "CFG_ERR_JSON")])
  {
    hide ConfigMsg.Trimmed, ConfigMsg.WellFormed, ValueAt, ConfigSet.TypeIn, ConfigSet.Asked;
  }
}
