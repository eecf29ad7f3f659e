/** Writing a config as a document and laying the document over any base config: what comes
    back, and exactly when it is the config that was written. */
module ConfigDocRound {
  import opened Words
  import opened JsonNumber
  import opened JsonTree
  import opened ConfigCodec
  import opened DocMembers
  import opened ConfigDoc
  import JsonFormat

  // ---- values ------------------------------------------------------------------------------------

  /** The float that comes back for a float. */
  function Back(w: Wire, bits: u32): u32
  {
    var t := w.text(bits);
    if t.None? then NAN_BITS else Narrowed(w, Scan(t.value))
  }

  lemma FloatBack(w: Wire, bits: u32)
    ensures ReadF32(w, Scans(FloatTree(w, bits))) == Some(Back(w, bits))
  {}

  lemma IntBack(x: int, lo: int, hi: int)
    requires -0x8000 <= lo <= x <= hi <= 0xFFFF
    ensures ReadInt(Scans(IntTree(x)), lo, hi) == Some(x)
  {
    hide Scan, JsonFormat.IntegerText;
    JsonFormat.IntegerReads(x);
    assert Pow10(0) == 1;
  }

  lemma BytesBack(x: u8)
    ensures ReadU8(Scans(IntTree(x))) == Some(x) && ReadI8(Scans(SignedTree(x))) == Some(x)
  {
    hide ReadInt, Scan, JsonFormat.IntegerText;
    IntBack(x, 0, 255);
    if x != 255 {
      var signed := if x < 128 then x else x - 256;
      IntBack(signed, -128, 127);
      assert signed % 256 == x;
    }
  }

  lemma ShortsBack(x: u16)
    ensures ReadU16(Scans(IntTree(x))) == Some(x)
  {
    hide ReadInt, IntTree;
    IntBack(x, 0, 65535);
  }

  lemma BoolBack(b: bool)
    ensures ReadBool(Scans(BoolTree(b))) == Some(b)
  {}

  /** The reference that comes back, and the literal beside it. */
  function VrefOf(w: Wire, ref: u8, literal: u32, was: u32): (u8, u32)
  {
    if 1 <= ref <= 5 then (ref, was) else (0, Back(w, literal))
  }

  /** A reference comes back as a name; any other number than those of the primitives as
      a literal. */
  lemma VrefBack(w: Wire, ref: u8, literal: u32, was: u32)
    ensures ReadVref(w, Scans(VrefTree(w, ref, literal)), was) ==
            Some(VrefOf(w, ref, literal, was))
  {
    hide NameOf, RefOf;
    if 1 <= ref <= 5 { RefBack(ref); }
  }

  // ---- names -------------------------------------------------------------------------------------

  /** A name that strcmp sees whole. */
  predicate OwnText(s: string) { NameOf(s) == s && IsCString(s) }

  lemma OwnName(s: string)
    requires IsCString(s) && |s| < KEY_MAX
    ensures OwnText(s) && Spelled(s) == s
  {
    CleanCString(s);
  }

  lemma PrimNames()
    ensures OwnText("v_bulk")
    ensures OwnText("v_bulk_cons")
    ensures OwnText("v_float")
    ensures OwnText("v_float_cons")
    ensures OwnText("v_limp")
  {
    hide NameOf, CString, Spelled;
    assert OwnText("v_bulk") by { OwnName("v_bulk"); }
    assert OwnText("v_bulk_cons") by { OwnName("v_bulk_cons"); }
    assert OwnText("v_float") by { OwnName("v_float"); }
    assert OwnText("v_float_cons") by { OwnName("v_float_cons"); }
    assert OwnText("v_limp") by { OwnName("v_limp"); }
  }

  lemma RefBack(ref: u8)
    requires 1 <= ref <= 5
    ensures RefOf(NameOf(RefName(ref))) == Some(ref)
  {
    hide NameOf;
    PrimNames();
  }

  lemma FieldNames()
    ensures OwnText("rotor_rated_v")
    ensures OwnText("rotor_v_max")
    ensures OwnText("allow_full_field_48v")
  {
    hide NameOf, CString, Spelled;
    assert OwnText("rotor_rated_v") by { OwnName("rotor_rated_v"); }
    assert OwnText("rotor_v_max") by { OwnName("rotor_v_max"); }
    assert OwnText("allow_full_field_48v") by { OwnName("allow_full_field_48v"); }
  }

  lemma LimitsNames()
    ensures OwnText("battery_c_limit")
    ensures OwnText("wiring_limit_a")
    ensures OwnText("alternator_limit_a")
    ensures OwnText("field")
  {
    hide NameOf, CString, Spelled;
    assert OwnText("battery_c_limit") by { OwnName("battery_c_limit"); }
    assert OwnText("wiring_limit_a") by { OwnName("wiring_limit_a"); }
    assert OwnText("alternator_limit_a") by { OwnName("alternator_limit_a"); }
    assert OwnText("field") by { OwnName("field"); }
  }

  lemma PowerNames()
    ensures OwnText("cells_series")
    ensures OwnText("bank_capacity_ah")
    ensures OwnText("max_charge_power_w")
    ensures OwnText("ramp_w_per_s")
    ensures OwnText("p_tail_w")
  {
    hide NameOf, CString, Spelled;
    assert OwnText("cells_series") by { OwnName("cells_series"); }
    assert OwnText("bank_capacity_ah") by { OwnName("bank_capacity_ah"); }
    assert OwnText("max_charge_power_w") by { OwnName("max_charge_power_w"); }
    assert OwnText("ramp_w_per_s") by { OwnName("ramp_w_per_s"); }
    assert OwnText("p_tail_w") by { OwnName("p_tail_w"); }
  }

  lemma TimeNames()
    ensures OwnText("t_tail_hold_s")
    ensures OwnText("t_vclamp_s")
    ensures OwnText("cv_hold_exit_min")
    ensures OwnText("t_charge_max_min")
    ensures OwnText("warmup_time_s")
  {
    hide NameOf, CString, Spelled;
    assert OwnText("t_tail_hold_s") by { OwnName("t_tail_hold_s"); }
    assert OwnText("t_vclamp_s") by { OwnName("t_vclamp_s"); }
    assert OwnText("cv_hold_exit_min") by { OwnName("cv_hold_exit_min"); }
    assert OwnText("t_charge_max_min") by { OwnName("t_charge_max_min"); }
    assert OwnText("warmup_time_s") by { OwnName("warmup_time_s"); }
  }

  lemma SkipNames()
    ensures OwnText("warmup_coolant_c")
    ensures OwnText("soc_target_pct")
    ensures OwnText("skip_bulk_vcell")
    ensures OwnText("skip_bulk_soc_pct")
  {
    hide NameOf, CString, Spelled;
    assert OwnText("warmup_coolant_c") by { OwnName("warmup_coolant_c"); }
    assert OwnText("soc_target_pct") by { OwnName("soc_target_pct"); }
    assert OwnText("skip_bulk_vcell") by { OwnName("skip_bulk_vcell"); }
    assert OwnText("skip_bulk_soc_pct") by { OwnName("skip_bulk_soc_pct"); }
  }

  lemma LimpNames()
    ensures OwnText("limp_vcell")
    ensures OwnText("limp_power_cap_w")
    ensures OwnText("batt_temp_src")
    ensures OwnText("require_batt_temp")
  {
    hide NameOf, CString, Spelled;
    assert OwnText("limp_vcell") by { OwnName("limp_vcell"); }
    assert OwnText("limp_power_cap_w") by { OwnName("limp_power_cap_w"); }
    assert OwnText("batt_temp_src") by { OwnName("batt_temp_src"); }
    assert OwnText("require_batt_temp") by { OwnName("require_batt_temp"); }
  }

  lemma RestNames()
    ensures OwnText("mode")
    ensures OwnText("voltage")
    ensures OwnText("power_cap_w")
  {
    hide NameOf, CString, Spelled;
    assert OwnText("mode") by { OwnName("mode"); }
    assert OwnText("voltage") by { OwnName("voltage"); }
    assert OwnText("power_cap_w") by { OwnName("power_cap_w"); }
  }

  lemma RevertNames()
    ensures OwnText("v_cell")
    ensures OwnText("hold_s")
    ensures OwnText("soc_pct")
    ensures OwnText("ah")
  {
    hide NameOf, CString, Spelled;
    assert OwnText("v_cell") by { OwnName("v_cell"); }
    assert OwnText("hold_s") by { OwnName("hold_s"); }
    assert OwnText("soc_pct") by { OwnName("soc_pct"); }
    assert OwnText("ah") by { OwnName("ah"); }
  }

  lemma ProfileNames()
    ensures OwnText("id")
    ensures OwnText("name")
    ensures OwnText("reserved")
    ensures OwnText("cv_target")
    ensures OwnText("exit_at_cv_entry")
    ensures OwnText("rest")
    ensures OwnText("revert")
  {
    hide NameOf, CString, Spelled;
    assert OwnText("id") by { OwnName("id"); }
    assert OwnText("name") by { OwnName("name"); }
    assert OwnText("reserved") by { OwnName("reserved"); }
    assert OwnText("cv_target") by { OwnName("cv_target"); }
    assert OwnText("exit_at_cv_entry") by { OwnName("exit_at_cv_entry"); }
    assert OwnText("rest") by { OwnName("rest"); }
    assert OwnText("revert") by { OwnName("revert"); }
  }

  lemma TopNames()
    ensures OwnText("schema_version")
    ensures OwnText("fw")
    ensures OwnText("primitives")
    ensures OwnText("limits")
    ensures OwnText("global")
    ensures OwnText("profiles")
    ensures OwnText("active_profile")
  {
    hide NameOf, CString, Spelled;
    assert OwnText("schema_version") by { OwnName("schema_version"); }
    assert OwnText("fw") by { OwnName("fw"); }
    assert OwnText("primitives") by { OwnName("primitives"); }
    assert OwnText("limits") by { OwnName("limits"); }
    assert OwnText("global") by { OwnName("global"); }
    assert OwnText("profiles") by { OwnName("profiles"); }
    assert OwnText("active_profile") by { OwnName("active_profile"); }
  }

  /** The spellings of the two enumerations. */
  lemma Spellings()
    ensures Spelled("hold") == "hold" && Spelled("zero") == "zero"
    ensures Spelled("none") == "none" && Spelled("adc_a") == "adc_a" && Spelled("adc_b") == "adc_b"
  {
    hide NameOf, CString, Spelled;
    assert Spelled("hold") == "hold" by { OwnName("hold"); }
    assert Spelled("zero") == "zero" by { OwnName("zero"); }
    assert Spelled("none") == "none" by { OwnName("none"); }
    assert Spelled("adc_a") == "adc_a" by { OwnName("adc_a"); }
    assert Spelled("adc_b") == "adc_b" by { OwnName("adc_b"); }
  }

  // ---- objects -----------------------------------------------------------------------------------

  /** One member of a written object, taken as what it says. */
  lemma NextMember<A>(step: Laying<A>, a: A, f: Fields<string>, b: A)
    requires f.Field? && step(a, f.key, Scans(f.value)) == Took(b, 0)
    ensures Overlay(step, a, FieldScans(f)) == Overlay(step, b, FieldScans(f.rest))
  {}

  lemma NothingLeft<A>(step: Laying<A>, a: A)
    ensures Overlay(step, a, NoFields) == Took(a, 0)
  {}

  function PrimsBack(w: Wire, p: Primitives): Primitives
  {
    Primitives(Back(w, p.vBulk), Back(w, p.vBulkCons), Back(w, p.vFloat), Back(w, p.vFloatCons), Back(w, p.vLimp))
  }

  lemma PrimBack(w: Wire, a: PrimPart, p: Primitives)
    ensures Overlay(PrimStep(w), a, FieldScans(PrimFields(w, p))) == Took(PrimPart(PrimsBack(w, p), true), 0)
  {
    hide NameOf, ReadF32, FloatTree;
    PrimNames();
    FloatBack(w, p.vBulk);
    FloatBack(w, p.vBulkCons);
    FloatBack(w, p.vFloat);
    FloatBack(w, p.vFloatCons);
    FloatBack(w, p.vLimp);
    var f := PrimFields(w, p);
    var b := a.(p := a.p.(vBulk := Back(w, p.vBulk)));
    NextMember(PrimStep(w), a, f, b);
    var c := b.(p := b.p.(vBulkCons := Back(w, p.vBulkCons)));
    NextMember(PrimStep(w), b, f.rest, c);
    var d := c.(p := c.p.(vFloat := Back(w, p.vFloat)));
    NextMember(PrimStep(w), c, f.rest.rest, d);
    var e := d.(p := d.p.(vFloatCons := Back(w, p.vFloatCons)));
    NextMember(PrimStep(w), d, f.rest.rest.rest, e);
    NextMember(PrimStep(w), e, f.rest.rest.rest.rest, PrimPart(PrimsBack(w, p), true));
  }

  lemma GlobalKeys()
    ensures GlobalKeyOf("cells_series") == Cells
    ensures GlobalKeyOf("bank_capacity_ah") == BankAh
    ensures GlobalKeyOf("max_charge_power_w") == MaxChargeW
    ensures GlobalKeyOf("ramp_w_per_s") == RampWps
    ensures GlobalKeyOf("p_tail_w") == TailW
    ensures GlobalKeyOf("t_tail_hold_s") == TailHoldS
    ensures GlobalKeyOf("t_vclamp_s") == VclampS
    ensures GlobalKeyOf("cv_hold_exit_min") == CvHoldMin
    ensures GlobalKeyOf("t_charge_max_min") == ChargeMaxMin
    ensures GlobalKeyOf("warmup_time_s") == WarmupS
  {}

  lemma GlobalKeys2()
    ensures GlobalKeyOf("warmup_coolant_c") == WarmupCoolantC
    ensures GlobalKeyOf("soc_target_pct") == SocTarget
    ensures GlobalKeyOf("skip_bulk_vcell") == SkipBulkV
    ensures GlobalKeyOf("skip_bulk_soc_pct") == SkipBulkSoc
  {}

  lemma GlobalKeys3()
    ensures GlobalKeyOf("limp_vcell") == LimpV
    ensures GlobalKeyOf("limp_power_cap_w") == LimpCapW
  {}

  lemma GlobalKeys4()
    ensures GlobalKeyOf("batt_temp_src") == BattTempSrc
    ensures GlobalKeyOf("require_batt_temp") == RequireBattTemp
  {}

  function GlobalsBack(w: Wire, was: Globals, g: Globals): Globals
  {
    Globals(
      g.cells, Back(w, g.bankAh), Back(w, g.maxChargeW), Back(w, g.rampWps), Back(w, g.tailW),
      g.tailHoldS, g.vclampS, g.cvHoldMin, g.chargeMaxMin, g.warmupS,
      Back(w, g.warmupCoolantC), g.socTarget, Back(w, g.skipBulkV), g.skipBulkSoc,
      was.rotorRatedV, was.rotorMaxV, was.fullField48, Back(w, g.limpV), Back(w, g.limpCapW),
      SourceBack(g.battTempSrc), g.requireBattTemp)
  }

  function SourceBack(source: u8): u8 { if source <= 2 then source else 0 }

  /** The first ten of them. */
  function FrontBack(w: Wire, a: GlobalPart, g: Globals): GlobalPart
  {
    a.(g := a.g.(
      cells := g.cells, bankAh := Back(w, g.bankAh), maxChargeW := Back(w, g.maxChargeW), rampWps := Back(w, g.rampWps),
      tailW := Back(w, g.tailW), tailHoldS := g.tailHoldS, vclampS := g.vclampS, cvHoldMin := g.cvHoldMin,
      chargeMaxMin := g.chargeMaxMin, warmupS := g.warmupS))
  }

  lemma FrontRound(w: Wire, a: GlobalPart, g: Globals)
    ensures Overlay(GlobalStep(w), a, FieldScans(GlobalFields(w, g))) ==
            Overlay(GlobalStep(w), FrontBack(w, a, g), FieldScans(GlobalFields2(w, g)))
  {
    hide NameOf, GlobalKeyOf, ReadF32, ReadU8, ReadU16, ReadI8, ReadSource, ReadBool, FloatTree, IntTree, SignedTree,
      BoolTree, GlobalFields2, GlobalFields3;
    PowerNames();
    TimeNames();
    GlobalKeys();
    BytesBack(g.cells);
    FloatBack(w, g.bankAh);
    FloatBack(w, g.maxChargeW);
    FloatBack(w, g.rampWps);
    FloatBack(w, g.tailW);
    ShortsBack(g.tailHoldS);
    ShortsBack(g.vclampS);
    ShortsBack(g.cvHoldMin);
    ShortsBack(g.chargeMaxMin);
    ShortsBack(g.warmupS);
    var f := GlobalFields(w, g);
    var a1 := a.(g := a.g.(cells := g.cells));
    NextMember(GlobalStep(w), a, f, a1);
    var f1 := f.rest;
    var a2 := a1.(g := a1.g.(bankAh := Back(w, g.bankAh)));
    NextMember(GlobalStep(w), a1, f1, a2);
    var f2 := f1.rest;
    var a3 := a2.(g := a2.g.(maxChargeW := Back(w, g.maxChargeW)));
    NextMember(GlobalStep(w), a2, f2, a3);
    var f3 := f2.rest;
    var a4 := a3.(g := a3.g.(rampWps := Back(w, g.rampWps)));
    NextMember(GlobalStep(w), a3, f3, a4);
    var f4 := f3.rest;
    var a5 := a4.(g := a4.g.(tailW := Back(w, g.tailW)));
    NextMember(GlobalStep(w), a4, f4, a5);
    var f5 := f4.rest;
    var a6 := a5.(g := a5.g.(tailHoldS := g.tailHoldS));
    NextMember(GlobalStep(w), a5, f5, a6);
    var f6 := f5.rest;
    var a7 := a6.(g := a6.g.(vclampS := g.vclampS));
    NextMember(GlobalStep(w), a6, f6, a7);
    var f7 := f6.rest;
    var a8 := a7.(g := a7.g.(cvHoldMin := g.cvHoldMin));
    NextMember(GlobalStep(w), a7, f7, a8);
    var f8 := f7.rest;
    var a9 := a8.(g := a8.g.(chargeMaxMin := g.chargeMaxMin));
    NextMember(GlobalStep(w), a8, f8, a9);
    var f9 := f8.rest;
    NextMember(GlobalStep(w), a9, f9, FrontBack(w, a, g));
  }

  lemma SourceRound(source: u8)
    ensures ReadSource(TStr(if source == 1 then "adc_a" else if source == 2 then "adc_b" else "none")) == Some(SourceBack(source))
  {
    hide Spelled;
    Spellings();
  }

  /** The next four, and the rest. */
  function RearBack(w: Wire, a: GlobalPart, g: Globals): GlobalPart
  {
    a.(g := a.g.(warmupCoolantC := Back(w, g.warmupCoolantC), socTarget := g.socTarget,
                 skipBulkV := Back(w, g.skipBulkV), skipBulkSoc := g.skipBulkSoc))
  }

  function LastBack(w: Wire, a: GlobalPart, g: Globals): GlobalPart
  {
    GlobalPart(a.g.(limpV := Back(w, g.limpV), limpCapW := Back(w, g.limpCapW),
                    battTempSrc := SourceBack(g.battTempSrc), requireBattTemp := g.requireBattTemp), true)
  }

  lemma RearRound(w: Wire, a: GlobalPart, g: Globals)
    ensures Overlay(GlobalStep(w), a, FieldScans(GlobalFields2(w, g))) ==
            Overlay(GlobalStep(w), RearBack(w, a, g), FieldScans(GlobalFields3(w, g)))
  {
    hide NameOf, GlobalKeyOf, ReadF32, ReadU8, ReadU16, ReadI8, ReadSource, ReadBool, FloatTree, IntTree, SignedTree,
      BoolTree, GlobalFields3;
    SkipNames();
    GlobalKeys2();
    FloatBack(w, g.warmupCoolantC);
    BytesBack(g.socTarget);
    FloatBack(w, g.skipBulkV);
    BytesBack(g.skipBulkSoc);
    var f := GlobalFields2(w, g);
    var a1 := a.(g := a.g.(warmupCoolantC := Back(w, g.warmupCoolantC)));
    NextMember(GlobalStep(w), a, f, a1);
    var f1 := f.rest;
    var a2 := a1.(g := a1.g.(socTarget := g.socTarget));
    NextMember(GlobalStep(w), a1, f1, a2);
    var f2 := f1.rest;
    var a3 := a2.(g := a2.g.(skipBulkV := Back(w, g.skipBulkV)));
    NextMember(GlobalStep(w), a2, f2, a3);
    var f3 := f2.rest;
    NextMember(GlobalStep(w), a3, f3, RearBack(w, a, g));
  }

  lemma LastRound(w: Wire, a: GlobalPart, g: Globals)
    ensures Overlay(GlobalStep(w), a, FieldScans(GlobalFields3(w, g))) == Took(LastBack(w, a, g), 0)
  {
    hide NameOf, GlobalKeyOf, ReadF32, ReadU8, ReadU16, ReadI8, ReadSource, ReadBool, FloatTree, IntTree, SignedTree, BoolTree;
    LimpNames();
    GlobalKeys3();
    GlobalKeys4();
    FloatBack(w, g.limpV);
    FloatBack(w, g.limpCapW);
    SourceRound(g.battTempSrc);
    BoolBack(g.requireBattTemp);
    var f := GlobalFields3(w, g);
    var a1 := a.(g := a.g.(limpV := Back(w, g.limpV)), saw := true);
    NextMember(GlobalStep(w), a, f, a1);
    var f1 := f.rest;
    var a2 := a1.(g := a1.g.(limpCapW := Back(w, g.limpCapW)));
    NextMember(GlobalStep(w), a1, f1, a2);
    var f2 := f1.rest;
    var a3 := a2.(g := a2.g.(battTempSrc := SourceBack(g.battTempSrc)));
    NextMember(GlobalStep(w), a2, f2, a3);
    var f3 := f2.rest;
    NextMember(GlobalStep(w), a3, f3, LastBack(w, a, g));
  }

  lemma GlobalBack(w: Wire, a: GlobalPart, g: Globals)
    ensures Overlay(GlobalStep(w), a, FieldScans(GlobalFields(w, g))) == Took(GlobalPart(GlobalsBack(w, a.g, g), true), 0)
  {
    hide Overlay, GlobalStep, GlobalFields, GlobalFields2, GlobalFields3, Back, SourceBack;
    FrontRound(w, a, g);
    RearRound(w, FrontBack(w, a, g), g);
    LastRound(w, RearBack(w, FrontBack(w, a, g), g), g);
  }

  lemma FieldBack(w: Wire, a: FieldPart, g: Globals)
    ensures Overlay(FieldStep(w), a, FieldScans(FieldFields(w, g))) ==
            Took(FieldPart(Back(w, g.rotorRatedV), Back(w, g.rotorMaxV), g.fullField48), 0)
  {
    hide NameOf, ReadF32, ReadBool, FloatTree, BoolTree;
    FieldNames();
    FloatBack(w, g.rotorRatedV);
    FloatBack(w, g.rotorMaxV);
    BoolBack(g.fullField48);
    var f := FieldFields(w, g);
    var a1 := a.(rated := Back(w, g.rotorRatedV));
    NextMember(FieldStep(w), a, f, a1);
    var f1 := f.rest;
    var a2 := a1.(max := Back(w, g.rotorMaxV));
    NextMember(FieldStep(w), a1, f1, a2);
    var f2 := f1.rest;
    NextMember(FieldStep(w), a2, f2, FieldPart(Back(w, g.rotorRatedV), Back(w, g.rotorMaxV), g.fullField48));
  }

  function LimitsBack(w: Wire, c: Config): LimitsPart
  {
    LimitsPart(Limits(Back(w, c.limits.batteryC), Back(w, c.limits.wiringA), Back(w, c.limits.alternatorA)),
               FieldPart(Back(w, c.globals.rotorRatedV), Back(w, c.globals.rotorMaxV), c.globals.fullField48))
  }

  lemma LimitsRound(w: Wire, a: LimitsPart, c: Config)
    ensures Overlay(LimitsStep(w), a, FieldScans(LimitsFields(w, c))) == Took(LimitsBack(w, c), 0)
  {
    hide NameOf, ReadF32, FloatTree, FieldStep, FieldFields;
    LimitsNames();
    FloatBack(w, c.limits.batteryC);
    FloatBack(w, c.limits.wiringA);
    FloatBack(w, c.limits.alternatorA);
    FieldBack(w, a.field, c.globals);
    var f := LimitsFields(w, c);
    var a1 := a.(l := a.l.(batteryC := Back(w, c.limits.batteryC)));
    NextMember(LimitsStep(w), a, f, a1);
    var f1 := f.rest;
    var a2 := a1.(l := a1.l.(wiringA := Back(w, c.limits.wiringA)));
    NextMember(LimitsStep(w), a1, f1, a2);
    var f2 := f1.rest;
    var a3 := a2.(l := a2.l.(alternatorA := Back(w, c.limits.alternatorA)));
    NextMember(LimitsStep(w), a2, f2, a3);
    var f3 := f2.rest;
    NextMember(LimitsStep(w), a3, f3, LimitsBack(w, c));
  }

  function ModeBack(mode: u8): u8 { if mode == 1 then 1 else 0 }

  lemma ModeRound(mode: u8)
    ensures ReadMode(TStr(if mode == 1 then "zero" else "hold")) == Some(ModeBack(mode))
  {
    hide Spelled;
    Spellings();
  }

  function RestBack(w: Wire, was: RestPart, p: Profile): RestPart
  {
    var r := VrefOf(w, p.restRef, p.restV, was.v);
    RestPart(ModeBack(p.restMode), r.0, r.1, Back(w, p.restCapW))
  }

  lemma RestRound(w: Wire, a: RestPart, p: Profile)
    ensures Overlay(RestStep(w), a, FieldScans(RestFields(w, p))) == Took(RestBack(w, a, p), 0)
  {
    hide NameOf, ReadF32, ReadMode, ReadVref, FloatTree, VrefTree;
    RestNames();
    ModeRound(p.restMode);
    VrefBack(w, p.restRef, p.restV, a.v);
    FloatBack(w, p.restCapW);
    var f := RestFields(w, p);
    var a1 := a.(mode := ModeBack(p.restMode));
    NextMember(RestStep(w), a, f, a1);
    var f1 := f.rest;
    var a2 := a1.(ref := VrefOf(w, p.restRef, p.restV, a.v).0, v := VrefOf(w, p.restRef, p.restV, a.v).1);
    NextMember(RestStep(w), a1, f1, a2);
    var f2 := f1.rest;
    NextMember(RestStep(w), a2, f2, RestBack(w, a, p));
  }

  function RevertBack(w: Wire, p: Profile): RevertPart
  {
    RevertPart(Back(w, p.revertV), p.revertHoldS, p.socRevert, Back(w, p.ahRevert))
  }

  lemma RevertRound(w: Wire, a: RevertPart, p: Profile)
    ensures Overlay(RevertStep(w), a, FieldScans(RevertFields(w, p))) == Took(RevertBack(w, p), 0)
  {
    hide NameOf, ReadF32, ReadU16, ReadI8, FloatTree, IntTree, SignedTree;
    RevertNames();
    FloatBack(w, p.revertV);
    ShortsBack(p.revertHoldS);
    BytesBack(p.socRevert);
    FloatBack(w, p.ahRevert);
    var f := RevertFields(w, p);
    var a1 := a.(v := Back(w, p.revertV));
    NextMember(RevertStep(w), a, f, a1);
    var f1 := f.rest;
    var a2 := a1.(hold := p.revertHoldS);
    NextMember(RevertStep(w), a1, f1, a2);
    var f2 := f1.rest;
    var a3 := a2.(soc := p.socRevert);
    NextMember(RevertStep(w), a2, f2, a3);
    var f3 := f2.rest;
    NextMember(RevertStep(w), a3, f3, RevertBack(w, p));
  }

  /** A profile laid over another one. */
  function ProfileBack(w: Wire, was: Profile, p: Profile): Profile
  {
    var cv := VrefOf(w, p.cvRef, p.cvTargetV, was.cvTargetV);
    var rest := RestBack(w, RestOf(was), p);
    Profile(p.id, WithReserved(was.flags, p.flags % 2 == 1), cv.0, rest.ref, cv.1, p.exitAtCv, rest.mode, rest.v, rest.cap,
            Back(w, p.revertV), p.revertHoldS, p.socRevert, Back(w, p.ahRevert))
  }

  lemma ProfileKeys()
    ensures ProfileKeyOf("id") == Id
    ensures ProfileKeyOf("name") == Name
    ensures ProfileKeyOf("reserved") == Reserved
    ensures ProfileKeyOf("cv_target") == CvTarget
    ensures ProfileKeyOf("exit_at_cv_entry") == ExitAtCv
    ensures ProfileKeyOf("rest") == RestBlock
    ensures ProfileKeyOf("revert") == RevertBlock
  {}

  /** The plain members of a profile. */
  function PlainBack(w: Wire, a: Profile, p: Profile): Profile
  {
    var cv := VrefOf(w, p.cvRef, p.cvTargetV, a.cvTargetV);
    a.(id := p.id, flags := WithReserved(a.flags, p.flags % 2 == 1), cvRef := cv.0, cvTargetV := cv.1, exitAtCv := p.exitAtCv)
  }

  lemma PlainRound(w: Wire, a: Profile, p: Profile)
    ensures Overlay(ProfileStep(w), a, FieldScans(ProfileFields(w, p))) ==
            Overlay(ProfileStep(w), PlainBack(w, a, p), FieldScans(BlockFields(w, p)))
  {
    hide NameOf, ProfileKeyOf, ReadU8, ReadBool, ReadVref, RestStep, RevertStep, IntTree, BoolTree, VrefTree, BlockFields,
      DisplayName, WithReserved, VrefOf;
    ProfileNames();
    ProfileKeys();
    BytesBack(p.id);
    BoolBack(p.flags % 2 == 1);
    VrefBack(w, p.cvRef, p.cvTargetV, a.cvTargetV);
    BoolBack(p.exitAtCv);
    var f := ProfileFields(w, p);
    var a1 := a.(id := p.id);
    NextMember(ProfileStep(w), a, f, a1);
    var f1 := f.rest;
    NextMember(ProfileStep(w), a1, f1, a1);
    var f2 := f1.rest;
    var a2 := a1.(flags := WithReserved(a.flags, p.flags % 2 == 1));
    NextMember(ProfileStep(w), a1, f2, a2);
    var f3 := f2.rest;
    var cv := VrefOf(w, p.cvRef, p.cvTargetV, a.cvTargetV);
    var a3 := a2.(cvRef := cv.0, cvTargetV := cv.1);
    NextMember(ProfileStep(w), a2, f3, a3);
    var f4 := f3.rest;
    NextMember(ProfileStep(w), a3, f4, PlainBack(w, a, p));
  }

  lemma BlocksRound(w: Wire, a: Profile, p: Profile)
    ensures Overlay(ProfileStep(w), a, FieldScans(BlockFields(w, p))) ==
            Took(WithRevert(WithRest(a, RestBack(w, RestOf(a), p)), RevertBack(w, p)), 0)
  {
    hide NameOf, ProfileKeyOf, RestStep, RevertStep, RestFields, RevertFields, RestBack, RevertBack, Overlay;
    ProfileNames();
    ProfileKeys();
    RestRound(w, RestOf(a), p);
    var a1 := WithRest(a, RestBack(w, RestOf(a), p));
    RevertRound(w, RevertOf(a1), p);
    var f := BlockFields(w, p);
    var a2 := WithRevert(a1, RevertBack(w, p));
    NextMember(ProfileStep(w), a, f, a1);
    var f1 := f.rest;
    NextMember(ProfileStep(w), a1, f1, a2);
    assert FieldScans(f1.rest) == NoFields;
    NothingLeft(ProfileStep(w), a2);
  }

  lemma ProfileRound(w: Wire, a: Profile, p: Profile)
    ensures Overlay(ProfileStep(w), a, FieldScans(ProfileFields(w, p))) == Took(ProfileBack(w, a, p), 0)
  {
    hide ProfileStep, Overlay, ProfileFields, BlockFields;
    PlainRound(w, a, p);
    BlocksRound(w, PlainBack(w, a, p), p);
  }

  lemma TopKeys()
    ensures TopKeyOf("schema_version") == SchemaVersion
    ensures TopKeyOf("fw") == Firmware
    ensures TopKeyOf("primitives") == PrimBlock
    ensures TopKeyOf("limits") == LimitsBlock
    ensures TopKeyOf("global") == GlobalBlock
    ensures TopKeyOf("profiles") == Profiles
    ensures TopKeyOf("active_profile") == ActiveProfile
  {}

  // ---- the document ------------------------------------------------------------------------------

  function TableBack(w: Wire, was: ProfileTable, t: ProfileTable, i: nat): ProfileTable
  {
    seq(PROFILES, j requires 0 <= j < PROFILES => if j < i then was[j] else ProfileBack(w, was[j], t[j]))
  }

  lemma {:induction false} TableRound(w: Wire, was: ProfileTable, t: ProfileTable, i: nat)
    requires i <= PROFILES
    ensures OverlayTable(w, was, i, FieldScans(TableFields(w, t, i))) == Took(TableBack(w, was, t, i), 0)
    decreases PROFILES - i
  {
    hide ProfileStep, ProfileFields, ProfileBack, Overlay;
    if i < PROFILES {
      ProfileRound(w, was[i], t[i]);
      var next := was[i := ProfileBack(w, was[i], t[i])];
      TableRound(w, next, t, i + 1);
      assert TableBack(w, next, t, i + 1) == TableBack(w, was, t, i);
    } else {
      assert TableBack(w, was, t, i) == was;
    }
  }

  /** The draft once the whole document has been read. */
  function DraftBack(w: Wire, base: Config, c: Config): Draft
  {
    var l := LimitsBack(w, c);
    var g := base.globals.(rotorRatedV := l.field.rated, rotorMaxV := l.field.max, fullField48 := l.field.full);
    Draft(Config(PrimsBack(w, c.prim), GlobalsBack(w, g, c.globals), l.l, TableBack(w, base.profiles, c.profiles, 0), c.active),
          true, true, SCHEMA)
  }

  lemma BodyRound(w: Wire, d: Draft, c: Config)
    requires d.schema == SCHEMA
    ensures Overlay(TopStep(w), d, FieldScans(BodyFields(w, c))) == Took(DraftBack(w, d.c, c), 0)
  {
    hide NameOf, TopKeyOf, Overlay, OverlayTable, PrimStep, LimitsStep, GlobalStep, ReadU8, IntTree, PrimFields, LimitsFields,
      GlobalFields, TableFields, PrimsBack, GlobalsBack, LimitsBack, TableBack;
    TopNames();
    TopKeys();
    var f := BodyFields(w, c);
    PrimBack(w, PrimsOf(d), c.prim);
    var d1 := WithPrims(d, PrimPart(PrimsBack(w, c.prim), true));
    NextMember(TopStep(w), d, f, d1);
    var f1 := f.rest;
    LimitsRound(w, LimitsOf(d1), c);
    var d2 := WithLimits(d1, LimitsBack(w, c));
    NextMember(TopStep(w), d1, f1, d2);
    var f2 := f1.rest;
    GlobalBack(w, GlobalOf(d2), c.globals);
    var d3 := WithGlobal(d2, GlobalPart(GlobalsBack(w, d2.c.globals, c.globals), true));
    NextMember(TopStep(w), d2, f2, d3);
    var f3 := f2.rest;
    TableRound(w, d3.c.profiles, c.profiles, 0);
    var d4 := d3.(c := d3.c.(profiles := TableBack(w, d3.c.profiles, c.profiles, 0)));
    NextMember(TopStep(w), d3, f3, d4);
    var f4 := f3.rest;
    BytesBack(c.active);
    NextMember(TopStep(w), d4, f4, DraftBack(w, d.c, c));
    assert FieldScans(f4.rest) == NoFields;
    NothingLeft(TopStep(w), DraftBack(w, d.c, c));
  }

  /** What comes back when the document of `c` is laid over `base`: always a config, with no
      unknown member and our own schema. */
  lemma WrittenIsRead(w: Wire, base: Config, c: Config, fw: Option<string>)
    ensures Parsed(w, base, Scans(DocTree(w, c, fw))) == Took(Applied(Resolved(DraftBack(w, base, c)), SCHEMA), 0)
  {
    hide NameOf, TopKeyOf, Overlay, ReadU16, IntTree, BodyFields, Resolved, PrimsBack, GlobalsBack, LimitsBack, TableBack;
    TopNames();
    TopKeys();
    ShortsBack(SCHEMA);
    var d := Draft(base, false, false, -1);
    var d1 := d.(schema := SCHEMA);
    var f := DocTree(w, c, fw).fields;
    NextMember(TopStep(w), d, f, d1);
    if fw.Some? { NextMember(TopStep(w), d1, f.rest, d1); }
    BodyRound(w, d1, c);
    assert Scans(DocTree(w, c, fw)) == TObj(FieldScans(f));
    assert Overlay(TopStep(w), d, FieldScans(f)) == Took(DraftBack(w, base, c), 0);
  }

  // ---- when it is the same config ----------------------------------------------------------------

  predicate Survives(w: Wire, bits: u32) { Back(w, bits) == bits }

  predicate PrimsSurvive(w: Wire, p: Primitives)
  {
    Survives(w, p.vBulk) && Survives(w, p.vBulkCons) && Survives(w, p.vFloat) && Survives(w, p.vFloatCons) && Survives(w, p.vLimp)
  }

  predicate GlobalsSurvive(w: Wire, g: Globals)
  {
    && Survives(w, g.bankAh) && Survives(w, g.maxChargeW) && Survives(w, g.rampWps) && Survives(w, g.tailW)
    && Survives(w, g.warmupCoolantC) && Survives(w, g.skipBulkV) && Survives(w, g.rotorRatedV) && Survives(w, g.rotorMaxV)
    && Survives(w, g.limpV) && Survives(w, g.limpCapW) && g.battTempSrc <= 2
  }

  /** A voltage that names a primitive must hold its value, or what the base held if that is
      NaN; any other one must survive as a number. */
  predicate VrefSurvives(w: Wire, prims: Primitives, ref: u8, literal: u32, was: u32)
  {
    ref <= 5 && if ref == 0 then Survives(w, literal) else literal == OrElse(Referenced(prims, ref), was)
  }

  predicate ProfileSurvives(w: Wire, prims: Primitives, was: Profile, p: Profile)
  {
    && p.flags / 2 == was.flags / 2 && p.restMode <= 1
    && VrefSurvives(w, prims, p.cvRef, p.cvTargetV, was.cvTargetV) && VrefSurvives(w, prims, p.restRef, p.restV, was.restV)
    && Survives(w, p.restCapW) && Survives(w, p.revertV) && Survives(w, p.ahRevert)
  }

  predicate Faithful(w: Wire, base: Config, c: Config)
  {
    && PrimsSurvive(w, c.prim) && GlobalsSurvive(w, c.globals)
    && Survives(w, c.limits.batteryC) && Survives(w, c.limits.wiringA) && Survives(w, c.limits.alternatorA)
    && forall i :: 0 <= i < PROFILES ==> ProfileSurvives(w, c.prim, base.profiles[i], c.profiles[i])
  }

  lemma VrefSettles(w: Wire, prims: Primitives, ref: u8, literal: u32, was: u32)
    ensures var r := VrefOf(w, ref, literal, was);
            r.0 == ref && OrElse(Referenced(prims, ref), r.1) == literal <==> VrefSurvives(w, prims, ref, literal, was)
  {
    hide Back;
  }

  lemma FlagsSettle(was: u8, flags: u8)
    ensures WithReserved(was, flags % 2 == 1) == flags <==> flags / 2 == was / 2
  {}

  lemma ProfileSettles(w: Wire, prims: Primitives, was: Profile, p: Profile)
    ensures ResolvedProfile(prims, ProfileBack(w, was, p)) == p <==> ProfileSurvives(w, prims, was, p)
  {
    hide VrefOf, VrefSurvives, Referenced, OrElse, WithReserved, Back;
    VrefSettles(w, prims, p.cvRef, p.cvTargetV, was.cvTargetV);
    VrefSettles(w, prims, p.restRef, p.restV, was.restV);
    FlagsSettle(was.flags, p.flags);
  }

  /** Writing a config and reading the document over any base gives back the very same
      config exactly when its floats survive as text, its enumerations are in range, its
      named voltages hold the value of their primitive and the flags that are not written
      equal those of the base. */
  lemma RoundTrip(w: Wire, base: Config, c: Config, fw: Option<string>)
    ensures Parsed(w, base, Scans(DocTree(w, c, fw))) == Took(Applied(c, SCHEMA), 0) <==> Faithful(w, base, c)
  {
    hide Parsed, DocTree, ResolvedProfile, ProfileBack, ProfileSurvives, Back;
    WrittenIsRead(w, base, c, fw);
    var r := Resolved(DraftBack(w, base, c));
    if PrimsBack(w, c.prim) == c.prim {
      forall i | 0 <= i < PROFILES
        ensures r.profiles[i] == c.profiles[i] <==> ProfileSurvives(w, c.prim, base.profiles[i], c.profiles[i])
      {
        ProfileSettles(w, c.prim, base.profiles[i], c.profiles[i]);
      }
      assert r.profiles == c.profiles <==> forall i :: 0 <= i < PROFILES ==> r.profiles[i] == c.profiles[i];
    }
  }
}
