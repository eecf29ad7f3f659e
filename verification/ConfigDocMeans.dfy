/** What an accepted document does to the voltages that depend on each other, told from the
    document and the config alone: the last statement of a member counts, a reference follows
    its primitive, and limp_vcell follows a v_limp that was stated without it. */
module ConfigDocMeans {
  import opened Words
  import opened JsonNumber
  import opened JsonTree
  import opened ConfigCodec
  import opened DocMembers
  import opened ConfigDoc
  import ConfigDocRound
  import opened JsonFormat
  import opened ConfigFloats

  // ---- what a document states --------------------------------------------------------------------

  /** The value of the last member of this name. */
  function LastIn(f: Fields<Scanned>, name: string): Option<Tree<Scanned>>
  {
    if f.NoFields? then None
    else
      var later := LastIn(f.rest, name);
      if later.Some? then later else if NameOf(f.key) == name then Some(f.value) else None
  }

  /** The value of the last member of this name in any block of that one. */
  function Stated(f: Fields<Scanned>, block: string, name: string): Option<Tree<Scanned>>
  {
    if f.NoFields? then None
    else
      var later := Stated(f.rest, block, name);
      if later.Some? then later
      else if NameOf(f.key) == block && f.value.TObj? then LastIn(f.value.fields, name) else None
  }

  /** A number, or the NaN that null stands for. */
  function Float(w: Wire, v: Tree<Scanned>): u32 { if v.TNum? then Narrowed(w, v.n) else NAN_BITS }

  function FloatOr(w: Wire, o: Option<Tree<Scanned>>, was: u32): u32 { if o.Some? then Float(w, o.value) else was }

  // ---- laying members ------------------------------------------------------------------------------

  /** A part of the state that only the members of one name set, whatever was there before. */
  ghost predicate SetBy<A(!new), V(!new)>(step: Laying<A>, get: A -> V, name: string, read: Tree<Scanned> -> V)
  {
    forall a, key, v :: step(a, key, v).Took? ==> get(step(a, key, v).a) == if NameOf(key) == name then read(v) else get(a)
  }

  lemma {:induction false} LastCounts<A(!new), V(!new)>(
      step: Laying<A>, get: A -> V, name: string, read: Tree<Scanned> -> V, a: A, f: Fields<Scanned>)
    requires SetBy(step, get, name, read) && Overlay(step, a, f).Took?
    ensures var o := LastIn(f, name); get(Overlay(step, a, f).a) == if o.Some? then read(o.value) else get(a)
    decreases f
  {
    if f.Field? {
      var b := step(a, f.key, f.value);
      assert b.Took? && get(b.a) == if NameOf(f.key) == name then read(f.value) else get(a);
      LastCounts(step, get, name, read, b.a, f.rest);
    }
  }

  /** The same one level down. */
  ghost predicate SetInBlock<V(!new)>(w: Wire, get: Draft -> V, block: string, name: string, read: Tree<Scanned> -> V)
  {
    forall d, key, v :: TopMember(w, d, key, v).Took? ==>
      get(TopMember(w, d, key, v).a) ==
      if key == block && v.TObj? && LastIn(v.fields, name).Some? then read(LastIn(v.fields, name).value) else get(d)
  }

  lemma {:induction false} LastStatedCounts<V(!new)>(
      w: Wire, get: Draft -> V, block: string, name: string, read: Tree<Scanned> -> V, d: Draft, f: Fields<Scanned>)
    requires SetInBlock(w, get, block, name, read) && Overlay(TopStep(w), d, f).Took?
    ensures var o := Stated(f, block, name); get(Overlay(TopStep(w), d, f).a) == if o.Some? then read(o.value) else get(d)
    decreases f
  {
    if f.Field? {
      hide TopMember;
      var b := TopMember(w, d, NameOf(f.key), f.value);
      assert TopStep(w)(d, f.key, f.value) == b;
      LastStatedCounts(w, get, block, name, read, b.a, f.rest);
    }
  }

  // ---- primitives and limp_vcell -------------------------------------------------------------------

  const VOLTAGES: set<string> := {"v_bulk", "v_bulk_cons", "v_float", "v_float_cons", "v_limp"}

  function Voltage(p: Primitives, name: string): u32
    requires name in VOLTAGES
  {
    if name == "v_bulk" then p.vBulk
    else if name == "v_bulk_cons" then p.vBulkCons
    else if name == "v_float" then p.vFloat
    else if name == "v_float_cons" then p.vFloatCons
    else p.vLimp
  }

  lemma PrimsAreSet(w: Wire, name: string)
    requires name in VOLTAGES
    ensures SetBy(PrimStep(w), (a: PrimPart) => Voltage(a.p, name), name, v => Float(w, v))
  {
    hide NameOf, Narrowed;
  }

  lemma PrimsInBlock(w: Wire, name: string)
    requires name in VOLTAGES
    ensures SetInBlock(w, (d: Draft) => Voltage(d.c.prim, name), "primitives", name, v => Float(w, v))
  {
    var get := (a: PrimPart) => Voltage(a.p, name);
    PrimsAreSet(w, name);
    forall d: Draft, key, v | TopMember(w, d, key, v).Took?
      ensures Voltage(TopMember(w, d, key, v).a.c.prim, name) ==
              if key == "primitives" && v.TObj? && LastIn(v.fields, name).Some? then Float(w, LastIn(v.fields, name).value)
              else Voltage(d.c.prim, name)
    {
      hide Overlay, LastIn, Voltage;
      if key == "primitives" { LastCounts(PrimStep(w), get, name, x => Float(w, x), PrimsOf(d), v.fields); }
    }
  }

  lemma LimpIsSeen(w: Wire)
    ensures SetBy(PrimStep(w), (a: PrimPart) => a.saw, "v_limp", v => true)
  {
    hide NameOf, ReadF32;
  }

  lemma LimpIsSeenInBlock(w: Wire)
    ensures SetInBlock(w, (d: Draft) => d.sawVLimp, "primitives", "v_limp", v => true)
  {
    LimpIsSeen(w);
    forall d: Draft, key, v | TopMember(w, d, key, v).Took?
      ensures TopMember(w, d, key, v).a.sawVLimp ==
              if key == "primitives" && v.TObj? && LastIn(v.fields, "v_limp").Some? then true else d.sawVLimp
    {
      hide Overlay, LastIn;
      if key == "primitives" { LastCounts(PrimStep(w), (a: PrimPart) => a.saw, "v_limp", x => true, PrimsOf(d), v.fields); }
    }
  }

  lemma LimpCellKey(name: string)
    ensures GlobalKeyOf(name) == LimpV <==> name == "limp_vcell"
  {}

  lemma LimpCellStep(w: Wire, a: GlobalPart, name: string, v: Tree<Scanned>)
    requires GlobalMember(w, a, name, v).Took?
    ensures var b := GlobalMember(w, a, name, v).a;
            && b.g.limpV == (if name == "limp_vcell" then Float(w, v) else a.g.limpV)
            && (b.saw <==> name == "limp_vcell" || a.saw)
  {
    hide Narrowed, ReadU8, ReadU16, ReadI8, ReadSource, ReadBool, GlobalKeyOf;
    LimpCellKey(name);
  }

  lemma LimpCellIsSet(w: Wire)
    ensures SetBy(GlobalStep(w), (a: GlobalPart) => a.g.limpV, "limp_vcell", v => Float(w, v))
    ensures SetBy(GlobalStep(w), (a: GlobalPart) => a.saw, "limp_vcell", v => true)
  {
    hide GlobalMember, Float;
    forall a, key, v | GlobalStep(w)(a, key, v).Took?
      ensures var b := GlobalStep(w)(a, key, v).a;
              && b.g.limpV == (if NameOf(key) == "limp_vcell" then Float(w, v) else a.g.limpV)
              && (b.saw <==> NameOf(key) == "limp_vcell" || a.saw)
    {
      LimpCellStep(w, a, NameOf(key), v);
    }
  }

  lemma LimpCellInBlock(w: Wire)
    ensures SetInBlock(w, (d: Draft) => d.c.globals.limpV, "global", "limp_vcell", v => Float(w, v))
    ensures SetInBlock(w, (d: Draft) => d.sawLimpVcell, "global", "limp_vcell", v => true)
  {
    LimpCellIsSet(w);
    forall d: Draft, key, v | TopMember(w, d, key, v).Took?
      ensures var e := TopMember(w, d, key, v).a;
              if key == "global" && v.TObj? && LastIn(v.fields, "limp_vcell").Some? then
                e.c.globals.limpV == Float(w, LastIn(v.fields, "limp_vcell").value) && e.sawLimpVcell
              else e.c.globals.limpV == d.c.globals.limpV && e.sawLimpVcell == d.sawLimpVcell
    {
      hide Overlay, LastIn;
      if key == "global" {
        LastCounts(GlobalStep(w), (a: GlobalPart) => a.g.limpV, "limp_vcell", x => Float(w, x), GlobalOf(d), v.fields);
        LastCounts(GlobalStep(w), (a: GlobalPart) => a.saw, "limp_vcell", x => true, GlobalOf(d), v.fields);
      }
    }
  }

  function Start(base: Config): Draft { Draft(base, false, false, -1) }

  /** The config as the members leave it, before the references are followed. */
  function Laid(w: Wire, base: Config, doc: Tree<Scanned>): Draft
    requires Parsed(w, base, doc).Took?
  {
    Overlay(TopStep(w), Start(base), doc.fields).a
  }

  function Got(w: Wire, base: Config, doc: Tree<Scanned>): Config
    requires Parsed(w, base, doc).Took?
  {
    Parsed(w, base, doc).a.c
  }

  /** A primitive is what the document says last, or as it was. */
  lemma PrimitivesAreStated(w: Wire, base: Config, doc: Tree<Scanned>, name: string)
    requires Parsed(w, base, doc).Took? && name in VOLTAGES
    ensures Voltage(Got(w, base, doc).prim, name) == FloatOr(w, Stated(doc.fields, "primitives", name), Voltage(base.prim, name))
  {
    hide Voltage, Overlay, Stated;
    PrimsInBlock(w, name);
    LastStatedCounts(w, (d: Draft) => Voltage(d.c.prim, name), "primitives", name, v => Float(w, v), Start(base), doc.fields);
  }

  /** limp_vcell follows a v_limp that the document moves without stating limp_vcell; otherwise it
      is what the document says last, or as it was. */
  lemma LimpFollows(w: Wire, base: Config, doc: Tree<Scanned>)
    requires Parsed(w, base, doc).Took?
    ensures var (c, cell) := (Got(w, base, doc), Stated(doc.fields, "global", "limp_vcell"));
            c.globals.limpV == if Stated(doc.fields, "primitives", "v_limp").Some? && cell.None? then c.prim.vLimp
                               else FloatOr(w, cell, base.globals.limpV)
  {
    hide Overlay, Stated;
    LimpIsSeenInBlock(w);
    LimpCellInBlock(w);
    var d := Start(base);
    LastStatedCounts(w, (d: Draft) => d.sawVLimp, "primitives", "v_limp", v => true, d, doc.fields);
    LastStatedCounts(w, (d: Draft) => d.c.globals.limpV, "global", "limp_vcell", v => Float(w, v), d, doc.fields);
    LastStatedCounts(w, (d: Draft) => d.sawLimpVcell, "global", "limp_vcell", v => true, d, doc.fields);
  }

  // ---- voltages that name a primitive ----------------------------------------------------------------

  /** The voltage a profile gets for a reference and a literal. */
  predicate Follows(p: Primitives, ref: u8, literal: u32, got: u32)
  {
    if exists name :: name in VOLTAGES && RefOf(name) == Some(ref) && !IsNaN(Voltage(p, name)) then
      forall name :: name in VOLTAGES && RefOf(name) == Some(ref) ==> got == Voltage(p, name)
    else got == literal
  }

  lemma RefFollows(p: Primitives, ref: u8, literal: u32)
    ensures Follows(p, ref, literal, OrElse(Referenced(p, ref), literal))
  {
    assert IsNaN(NAN_BITS);
    hide IsNaN;
    if 1 <= ref <= 5 {
      var name := RefName(ref);
      assert name in VOLTAGES && RefOf(name) == Some(ref);
      forall n | n in VOLTAGES && RefOf(n) == Some(ref) ensures n == name {}
    } else {
      forall n | n in VOLTAGES ensures RefOf(n) != Some(ref) {}
    }
  }

  /** Every voltage of a profile that names a primitive with a value has that value, whether the
      document stated the profile, the primitive, both or neither; every other one is as the
      members left it, and nothing else is touched. */
  lemma ReferencesHold(w: Wire, base: Config, doc: Tree<Scanned>, i: nat)
    requires Parsed(w, base, doc).Took? && i < PROFILES
    ensures var (c, d) := (Got(w, base, doc), Laid(w, base, doc).c);
            var (p, q) := (c.profiles[i], d.profiles[i]);
            && Follows(c.prim, q.cvRef, q.cvTargetV, p.cvTargetV) && Follows(c.prim, q.restRef, q.restV, p.restV)
            && p.(cvTargetV := q.cvTargetV, restV := q.restV) == q
            && c.(profiles := d.profiles, globals := c.globals.(limpV := d.globals.limpV)) == d
  {
    hide Overlay, Follows, Referenced, OrElse;
    var d := Laid(w, base, doc).c;
    RefFollows(d.prim, d.profiles[i].cvRef, d.profiles[i].cvTargetV);
    RefFollows(d.prim, d.profiles[i].restRef, d.profiles[i].restV);
  }

  lemma {:induction false} UnstatedProfilesStay(w: Wire, d: Draft, f: Fields<Scanned>)
    requires Overlay(TopStep(w), d, f).Took? && !Mentions(f, "profiles")
    ensures Overlay(TopStep(w), d, f).a.c.profiles == d.c.profiles
    decreases f
  {
    if f.Field? {
      var b := TopMember(w, d, NameOf(f.key), f.value);
      assert TopStep(w)(d, f.key, f.value) == b;
      OthersKeepProfiles(w, d, NameOf(f.key), f.value);
      hide TopMember;
      UnstatedProfilesStay(w, b.a, f.rest);
    }
  }

  lemma OthersKeepProfiles(w: Wire, d: Draft, name: string, v: Tree<Scanned>)
    requires TopMember(w, d, name, v).Took? && name != "profiles"
    ensures TopMember(w, d, name, v).a.c.profiles == d.c.profiles
  {
    hide Overlay, OverlayTable;
  }

  lemma StatedOnce(name: string, v: Tree<Scanned>)
    requires name in VOLTAGES
    ensures var f := Field("primitives", TObj(Field(name, v, NoFields)), NoFields);
            && Stated(f, "primitives", name) == Some(v) && Stated(f, "global", "limp_vcell") == None
            && (name != "v_limp" ==> Stated(f, "primitives", "v_limp") == None) && !Mentions(f, "profiles")
  {
    ConfigDocRound.PrimNames();
    ConfigDocRound.TopNames();
    hide NameOf;
    var inner := Field(name, v, NoFields);
    var f := Field("primitives", TObj(inner), NoFields);
    assert NameOf(name) == name && NameOf("primitives") == "primitives";
    assert LastIn(inner, name) == Some(v) by { assert LastIn(NoFields, name) == None; }
    assert Stated(f.rest, "primitives", name) == None && Stated(f.rest, "global", "limp_vcell") == None;
    assert "primitives" != "profiles" && "primitives" != "global";
    if name != "v_limp" {
      assert LastIn(inner, "v_limp") == None by { assert LastIn(NoFields, "v_limp") == None; }
      assert Stated(f.rest, "primitives", "v_limp") == None;
    }
  }

  lemma LaidTook(w: Wire, base: Config, doc: Tree<Scanned>)
    requires Parsed(w, base, doc).Took?
    ensures Overlay(TopStep(w), Start(base), doc.fields).Took?
    ensures Laid(w, base, doc) == Overlay(TopStep(w), Start(base), doc.fields).a
  {}

  lemma FollowsName(p: Primitives, name: string, ref: u8, literal: u32, got: u32)
    requires Follows(p, ref, literal, got) && name in VOLTAGES && RefOf(name) == Some(ref) && !IsNaN(Voltage(p, name))
    ensures got == Voltage(p, name)
  {}

  /** An edit of one primitive moves every voltage that names it, and limp_vcell with v_limp. */
  lemma EditMovesVoltages(w: Wire, base: Config, doc: Tree<Scanned>, name: string, v: Tree<Scanned>, i: nat)
    requires doc == TObj(Field("primitives", TObj(Field(name, v, NoFields)), NoFields)) && i < PROFILES
    requires name in VOLTAGES && Parsed(w, base, doc).Took? && !IsNaN(Float(w, v))
    ensures var (c, x, p) := (Got(w, base, doc), Float(w, v), base.profiles[i]);
            && (RefOf(name) == Some(p.cvRef) ==> c.profiles[i].cvTargetV == x)
            && (RefOf(name) == Some(p.restRef) ==> c.profiles[i].restV == x)
            && c.globals.limpV == if name == "v_limp" then x else base.globals.limpV
  {
    hide NameOf, Stated, Overlay, Float, Parsed, Follows, IsNaN, RefOf, Laid, Mentions;
    StatedOnce(name, v);
    PrimitivesAreStated(w, base, doc, name);
    LimpFollows(w, base, doc);
    LaidTook(w, base, doc);
    UnstatedProfilesStay(w, Start(base), doc.fields);
    ReferencesHold(w, base, doc, i);
    var (c, p) := (Got(w, base, doc), base.profiles[i]);
    if RefOf(name) == Some(p.cvRef) { FollowsName(c.prim, name, p.cvRef, p.cvTargetV, c.profiles[i].cvTargetV); }
    if RefOf(name) == Some(p.restRef) { FollowsName(c.prim, name, p.restRef, p.restV, c.profiles[i].restV); }
  }

  // ---- whole numbers ---------------------------------------------------------------------------------

  lemma {:induction false} ScaledOrder(x: real, y: real, e: int)
    ensures Scaled(x, e) == Scaled(y, e) <==> x == y
  {
    ScaledLinear(x, e);
    ScaledLinear(y, e);
    UnitPositive(e);
    var u := Scaled(1.0, e);
    assert (x - y) * u == x * u - y * u;
  }

  lemma ScaledBack(m: nat, n: nat)
    ensures Scaled((m * Pow10(n)) as real, 0 - n) == m as real
  {
    ScaledByPow(m, n, 0 - n);
  }

  /** A number on the wire is taken as an integer exactly if it is one, however it is written. */
  lemma WholeIsWhole(neg: bool, d: Decimal, x: int)
    ensures Whole(neg, Finite(d)) == Some(x) <==> (if neg then 0.0 - Value(d) else Value(d)) == x as real
  {
    if d.e >= 0 {
      ScaledByPow(d.m, d.e, 0);
      assert Value(d) == (d.m * Pow10(d.e)) as real;
    } else {
      FractionIs(d, if neg then 0 - x else x);
    }
  }

  lemma FractionIs(d: Decimal, x: int)
    requires d.e < 0
    ensures Value(d) == x as real <==> d.m % Pow10(0 - d.e) == 0 && x == d.m / Pow10(0 - d.e)
  {
    var (n, p) := (0 - d.e, Pow10(0 - d.e));
    hide Scaled, Pow10;
    var q := d.m / p;
    assert d.m == q * p + d.m % p;
    if d.m % p == 0 { ScaledBack(q, n); }
    if x >= 0 {
      ScaledBack(x, n);
      ScaledOrder(d.m as real, (x * p) as real, d.e);
      if d.m == x * p { Quotient(x, p, 0); WholeMultiple(x, p); }
    } else {
      NotNegative(d);
    }
  }

  lemma WholeMultiple(x: nat, p: nat)
    requires p > 0
    ensures (x * p) % p == 0
  {
    Quotient(x, p, 0);
  }

  lemma NotNegative(d: Decimal)
    ensures Value(d) >= 0.0
  {
    ScaledLinear(d.m as real, d.e);
    UnitPositive(d.e);
  }

  /** What a value is as an integer within bounds. */
  predicate IsInteger(v: Tree<Scanned>, lo: int, hi: int, x: int)
  {
    && v.TNum? && v.n.Number? && lo <= x <= hi
    && match v.n.mag
       case Zero => x == 0
       case Huge => false
       case Finite(d) => (if v.n.neg then 0.0 - Value(d) else Value(d)) == x as real
  }

  lemma IntegerLaw(v: Tree<Scanned>, lo: int, hi: int, x: int)
    ensures ReadInt(v, lo, hi) == Some(x) <==> IsInteger(v, lo, hi, x)
  {
    hide Scaled, Value, Pow10;
    if v.TNum? && v.n.Number? && v.n.mag.Finite? { WholeIsWhole(v.n.neg, v.n.mag.d, x); }
  }

  /** What the values of a document stand for: bytes and shorts are integers, a signed byte may be
      null for -1, a float null for NaN, a flag true or false; an unknown name of a mode or a
      source becomes one that no valid config has. */
  lemma ValueLaw(w: Wire, v: Tree<Scanned>, x: int, s: string)
    ensures 0 <= x < 256 ==> (ReadU8(v) == Some(x) <==> IsInteger(v, 0, 255, x))
    ensures 0 <= x < 0x1_0000 ==> (ReadU16(v) == Some(x) <==> IsInteger(v, 0, 65535, x))
    ensures -128 <= x < 128 ==> (ReadI8(v) == Some(x % 256) <==> IsInteger(v, -128, 127, x) || (x == -1 && v == TWord("null")))
    ensures ReadF32(w, v) == if v.TNum? then Some(Float(w, v)) else if v == TWord("null") then Some(0x7FC0_0000) else None
    ensures ReadBool(v) == if v == TWord("true") then Some(true) else if v == TWord("false") then Some(false) else None
    ensures ReadMode(TStr(s)) == Some(if Spelled(s) == "hold" then 0 else if Spelled(s) == "zero" then 1 else 2)
    ensures ReadSource(TStr(s)) ==
            Some(if Spelled(s) == "none" then 0 else if Spelled(s) == "adc_a" then 1 else if Spelled(s) == "adc_b" then 2 else 255)
  {
    hide IsInteger, Whole, Narrowed, Spelled;
    IntegerLaw(v, 0, 255, x);
    IntegerLaw(v, 0, 65535, x);
    IntegerLaw(v, -128, 127, x);
    if -128 <= x < 128 { SignedLaw(v, x); }
  }

  lemma SignedLaw(v: Tree<Scanned>, x: int)
    requires -128 <= x < 128
    ensures ReadI8(v) == Some(x % 256) <==> ReadInt(v, -128, 127) == Some(x) || (x == -1 && v == TWord("null"))
  {
    hide InBounds, Whole;
    var r := ReadInt(v, -128, 127);
    if r.Some? { assert r.value % 256 == x % 256 <==> r.value == x; }
  }

  /** A string is the name of a primitive, and leaves the number as it was; a number or null is taken
      instead of a name. */
  lemma ReferenceLaw(w: Wire, v: Tree<Scanned>, was: u32)
    ensures ReadVref(w, v, was) ==
            if v.TStr? then
              if NameOf(v.s) == "v_bulk" then Some((1, was))
              else if NameOf(v.s) == "v_bulk_cons" then Some((2, was))
              else if NameOf(v.s) == "v_float" then Some((3, was))
              else if NameOf(v.s) == "v_float_cons" then Some((4, was))
              else if NameOf(v.s) == "v_limp" then Some((5, was))
              else None
            else if v.TNum? || v == TWord("null") then Some((0, Float(w, v)))
            else None
  {
    hide NameOf, Narrowed;
  }

  // ---- the schema, and what is not known -------------------------------------------------------------

  /** Every schema the document states is schema 2. */
  predicate SchemaIsOurs(f: Fields<Scanned>)
  {
    f.Field? ==> (NameOf(f.key) == "schema_version" ==> ReadU16(f.value) == Some(2)) && SchemaIsOurs(f.rest)
  }

  lemma {:induction false} SchemaChecked(w: Wire, d: Draft, f: Fields<Scanned>)
    requires Overlay(TopStep(w), d, f).Took?
    ensures SchemaIsOurs(f)
    ensures Overlay(TopStep(w), d, f).a.schema == if LastIn(f, "schema_version").Some? then 2 else d.schema
    decreases f
  {
    if f.Field? {
      var b := TopMember(w, d, NameOf(f.key), f.value);
      assert TopStep(w)(d, f.key, f.value) == b;
      OneSchema(w, d, NameOf(f.key), f.value);
      hide TopMember, ReadU16;
      SchemaChecked(w, b.a, f.rest);
    }
  }

  lemma OneSchema(w: Wire, d: Draft, name: string, v: Tree<Scanned>)
    requires TopMember(w, d, name, v).Took?
    ensures name == "schema_version" ==> ReadU16(v) == Some(2)
    ensures TopMember(w, d, name, v).a.schema == if name == "schema_version" then 2 else d.schema
  {
    hide Overlay, OverlayTable, ReadU16;
  }

  /** A document that states another schema is refused; one that states none is taken. */
  lemma SchemaLaw(w: Wire, base: Config, doc: Tree<Scanned>)
    requires Parsed(w, base, doc).Took?
    ensures SchemaIsOurs(doc.fields)
    ensures Parsed(w, base, doc).a.schema == if LastIn(doc.fields, "schema_version").Some? then 2 else -1
  {
    hide Overlay, LastIn, SchemaIsOurs;
    SchemaChecked(w, Start(base), doc.fields);
  }

  /** The sum over the members of an object. */
  function Sum(f: Fields<Scanned>, one: (string, Tree<Scanned>) -> nat): nat
  {
    if f.NoFields? then 0 else one(NameOf(f.key), f.value) + Sum(f.rest, one)
  }

  function Inside(v: Tree<Scanned>, one: (string, Tree<Scanned>) -> nat): nat { if v.TObj? then Sum(v.fields, one) else 0 }

  function Stranger(name: string, known: set<string>): nat { if name in known then 0 else 1 }

  const REST_KEYS: set<string> := {"mode", "voltage", "power_cap_w"}
  const REVERT_KEYS: set<string> := {"v_cell", "hold_s", "soc_pct", "ah"}
  const PROFILE_KEYS: set<string> := {"id", "name", "reserved", "cv_target", "exit_at_cv_entry"}
  const FIELD_KEYS: set<string> := {"rotor_rated_v", "rotor_v_max", "allow_full_field_48v"}
  const LIMIT_KEYS: set<string> := {"battery_c_limit", "wiring_limit_a", "alternator_limit_a"}
  const GLOBAL_KEYS: set<string> :=
    {"cells_series", "bank_capacity_ah", "max_charge_power_w", "ramp_w_per_s", "p_tail_w", "t_tail_hold_s", "t_vclamp_s",
     "cv_hold_exit_min", "t_charge_max_min", "warmup_time_s", "warmup_coolant_c", "soc_target_pct", "skip_bulk_vcell",
     "skip_bulk_soc_pct", "limp_power_cap_w", "limp_vcell", "batt_temp_src", "require_batt_temp"}
  const TOP_KEYS: set<string> := {"schema_version", "active_profile", "fw"}

  function InLimits(name: string, v: Tree<Scanned>): nat
  {
    if name == "field" then Inside(v, (n, x) => Stranger(n, FIELD_KEYS)) else Stranger(name, LIMIT_KEYS)
  }

  function InProfile(name: string, v: Tree<Scanned>): nat
  {
    if name == "rest" then Inside(v, (n, x) => Stranger(n, REST_KEYS))
    else if name == "revert" then Inside(v, (n, x) => Stranger(n, REVERT_KEYS))
    else Stranger(name, PROFILE_KEYS)
  }

  function InTable(f: Fields<Scanned>): nat
  {
    if f.NoFields? then 0 else Inside(f.value, (n, x) => InProfile(n, x)) + InTable(f.rest)
  }

  /** How many members of a document nobody knows, at whatever depth. */
  function Strangers(name: string, v: Tree<Scanned>): nat
  {
    if name == "primitives" then Inside(v, (n, x) => Stranger(n, VOLTAGES))
    else if name == "limits" then Inside(v, (n, x) => InLimits(n, x))
    else if name == "global" then Inside(v, (n, x) => Stranger(n, GLOBAL_KEYS))
    else if name == "profiles" then if v.TArr? then InTable(v.fields) else 0
    else Stranger(name, TOP_KEYS)
  }

  ghost predicate Counts<A(!new)>(step: Laying<A>, one: (string, Tree<Scanned>) -> nat)
  {
    forall a, key, v :: step(a, key, v).Took? ==> step(a, key, v).unknown == one(NameOf(key), v)
  }

  lemma {:induction false} OverlayCounts<A(!new)>(step: Laying<A>, one: (string, Tree<Scanned>) -> nat, a: A, f: Fields<Scanned>)
    requires Counts(step, one) && Overlay(step, a, f).Took?
    ensures Overlay(step, a, f).unknown == Sum(f, one)
    decreases f
  {
    if f.Field? {
      var b := step(a, f.key, f.value);
      assert b.Took? && b.unknown == one(NameOf(f.key), f.value);
      OverlayCounts(step, one, b.a, f.rest);
    }
  }

  lemma PrimsCount(w: Wire)
    ensures Counts(PrimStep(w), (n, x) => Stranger(n, VOLTAGES))
  {
    hide NameOf, ReadF32;
  }

  lemma FieldCounts(w: Wire)
    ensures Counts(FieldStep(w), (n, x) => Stranger(n, FIELD_KEYS))
  {
    hide NameOf, ReadF32, ReadBool;
  }

  lemma RestCounts(w: Wire)
    ensures Counts(RestStep(w), (n, x) => Stranger(n, REST_KEYS))
  {
    hide NameOf, ReadF32, ReadMode, ReadVref;
  }

  lemma RevertCounts(w: Wire)
    ensures Counts(RevertStep(w), (n, x) => Stranger(n, REVERT_KEYS))
  {
    hide NameOf, ReadF32, ReadU16, ReadI8;
  }

  lemma GlobalKeyKnown(name: string)
    ensures GlobalKeyOf(name) == NoGlobal <==> name !in GLOBAL_KEYS
  {
    var first: set<string> :=
      {"cells_series", "bank_capacity_ah", "max_charge_power_w", "ramp_w_per_s", "p_tail_w", "t_tail_hold_s", "t_vclamp_s",
       "cv_hold_exit_min", "t_charge_max_min", "warmup_time_s"};
    var second: set<string> :=
      {"warmup_coolant_c", "soc_target_pct", "skip_bulk_vcell", "skip_bulk_soc_pct", "limp_power_cap_w", "limp_vcell",
       "batt_temp_src", "require_batt_temp"};
    assert name in GLOBAL_KEYS <==> name in first || name in second;
    assert GlobalKeyOf2(name) == NoGlobal <==> name !in second;
  }

  lemma GlobalUnknown(w: Wire, a: GlobalPart, name: string, v: Tree<Scanned>)
    requires GlobalMember(w, a, name, v).Took?
    ensures GlobalMember(w, a, name, v).unknown == if GlobalKeyOf(name) == NoGlobal then 1 else 0
  {
    hide ReadF32, ReadU8, ReadU16, ReadI8, ReadSource, ReadBool, GlobalKeyOf;
  }

  lemma GlobalCounts(w: Wire)
    ensures Counts(GlobalStep(w), (n, x) => Stranger(n, GLOBAL_KEYS))
  {
    hide GlobalMember, GlobalKeyOf;
    forall a, key, v | GlobalStep(w)(a, key, v).Took?
      ensures GlobalStep(w)(a, key, v).unknown == Stranger(NameOf(key), GLOBAL_KEYS)
    {
      GlobalUnknown(w, a, NameOf(key), v);
      GlobalKeyKnown(NameOf(key));
    }
  }

  lemma LimitsUnknown(w: Wire, a: LimitsPart, name: string, v: Tree<Scanned>)
    requires LimitsMember(w, a, name, v).Took?
    ensures LimitsMember(w, a, name, v).unknown == InLimits(name, v)
  {
    hide Overlay, ReadF32, Sum;
    FieldCounts(w);
    if name == "field" { OverlayCounts(FieldStep(w), (n, x) => Stranger(n, FIELD_KEYS), a.field, v.fields); }
  }

  lemma LimitsCount(w: Wire)
    ensures Counts(LimitsStep(w), (n, x) => InLimits(n, x))
  {
    hide LimitsMember, InLimits;
    forall a, key, v | LimitsStep(w)(a, key, v).Took? ensures LimitsStep(w)(a, key, v).unknown == InLimits(NameOf(key), v) {
      LimitsUnknown(w, a, NameOf(key), v);
    }
  }

  lemma ProfileUnknown(w: Wire, a: Profile, name: string, v: Tree<Scanned>)
    requires ProfileMember(w, a, name, v).Took?
    ensures ProfileMember(w, a, name, v).unknown == InProfile(name, v)
  {
    hide Overlay, ReadU8, ReadBool, ReadVref, Sum;
    RestCounts(w);
    RevertCounts(w);
    if name == "rest" { OverlayCounts(RestStep(w), (n, x) => Stranger(n, REST_KEYS), RestOf(a), v.fields); }
    if name == "revert" { OverlayCounts(RevertStep(w), (n, x) => Stranger(n, REVERT_KEYS), RevertOf(a), v.fields); }
  }

  lemma ProfileCounts(w: Wire)
    ensures Counts(ProfileStep(w), (n, x) => InProfile(n, x))
  {
    hide ProfileMember, InProfile;
    forall a, key, v | ProfileStep(w)(a, key, v).Took? ensures ProfileStep(w)(a, key, v).unknown == InProfile(NameOf(key), v) {
      ProfileUnknown(w, a, NameOf(key), v);
    }
  }

  lemma {:induction false} TableCounts(w: Wire, t: ProfileTable, i: nat, f: Fields<Scanned>)
    requires OverlayTable(w, t, i, f).Took?
    ensures OverlayTable(w, t, i, f).unknown == InTable(f)
    decreases f
  {
    if f.Field? {
      hide Overlay, Sum;
      OneProfileCounts(w, t[i], f.value.fields);
      TableCounts(w, t[i := Overlay(ProfileStep(w), t[i], f.value.fields).a], i + 1, f.rest);
    }
  }

  lemma OneProfileCounts(w: Wire, p: Profile, f: Fields<Scanned>)
    requires Overlay(ProfileStep(w), p, f).Took?
    ensures Overlay(ProfileStep(w), p, f).unknown == Sum(f, (n, x) => InProfile(n, x))
  {
    hide Overlay, Sum, InProfile, ProfileMember;
    ProfileCounts(w);
    OverlayCounts(ProfileStep(w), (n, x) => InProfile(n, x), p, f);
  }

  lemma TopUnknown(w: Wire, d: Draft, name: string, v: Tree<Scanned>)
    requires TopMember(w, d, name, v).Took?
    ensures TopMember(w, d, name, v).unknown == Strangers(name, v)
  {
    hide Overlay, OverlayTable, ReadU8, ReadU16, Sum, InTable, Stranger, VOLTAGES, GLOBAL_KEYS;
    if name == "primitives" {
      PrimsCount(w);
      OverlayCounts(PrimStep(w), (n, x) => Stranger(n, VOLTAGES), PrimsOf(d), v.fields);
    } else if name == "limits" {
      LimitsCount(w);
      OverlayCounts(LimitsStep(w), (n, x) => InLimits(n, x), LimitsOf(d), v.fields);
    } else if name == "global" {
      GlobalCounts(w);
      OverlayCounts(GlobalStep(w), (n, x) => Stranger(n, GLOBAL_KEYS), GlobalOf(d), v.fields);
    } else if name == "profiles" {
      TableCounts(w, d.c.profiles, 0, v.fields);
    } else {
      OtherUnknown(w, d, name, v);
    }
  }

  lemma OtherUnknown(w: Wire, d: Draft, name: string, v: Tree<Scanned>)
    requires TopMember(w, d, name, v).Took? && name !in {"primitives", "limits", "global", "profiles"}
    ensures TopMember(w, d, name, v).unknown == Stranger(name, TOP_KEYS)
  {
    hide Overlay, OverlayTable, ReadU8, ReadU16;
  }

  /** The unknown members a document is reported to have are those nobody knows, at any depth. */
  lemma UnknownIsCounted(w: Wire, base: Config, doc: Tree<Scanned>)
    requires Parsed(w, base, doc).Took?
    ensures Parsed(w, base, doc).unknown == Sum(doc.fields, (n, x) => Strangers(n, x))
  {
    hide Overlay, Sum;
    forall d, key, v | TopStep(w)(d, key, v).Took? ensures TopStep(w)(d, key, v).unknown == Strangers(NameOf(key), v) {
      hide TopMember, Strangers;
      TopUnknown(w, d, NameOf(key), v);
    }
    OverlayCounts(TopStep(w), (n, x) => Strangers(n, x), Start(base), doc.fields);
  }
}
