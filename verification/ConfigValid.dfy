/** The validator of control/Src/config_validate.c, and what a config that passed it gives the
    rest of the firmware. Floats are bit patterns read as exact values; the tolerances of the
    source are exact decimals. */
module ConfigValid {
  import opened Words
  import opened Float
  import opened ConfigCodec
  import ConfigDoc
  import ConfigDocRound
  import ConfigFloats
  import Engine
  import EngineSafety
  import Faults
  import Field

  const EPS: real := 0.0001
  const GAP_BULK: real := 0.03
  const GAP_FLOAT: real := 0.02
  const SPAN_LO: real := 3.20
  const SPAN_HI: real := 3.65

  datatype Code =
    | FloorLimp | RangeVBulk | RangeVBulkCons | RangeVFloat | RangeVFloatCons | RangeVLimp
    | OrderBulkCons | OrderConsFloat | OrderFloatFcons | OrderFconsLimp
    | LimpMismatch | RangeCells | RangeBankAh | RangeMaxPower | RangeRamp | RangeVclamp | RangeChargeMax
    | RangeWarmup | RangeCoolant | RangeSocTarget | RangeTail | RangeTailHold | RotorRated | RotorMax
    | LimpPowerCap | RangeBattTempSrc | SkipBulkVcell | RangeSkipBulkSoc
    | BatteryC | WiringA | AlternatorA
    | ProfileId | RestMode | CvRef | CvRange | RestRef | RestRange | RestPowerCap | RevertV | RangeSocRevert
    | AhRevert | ActiveProfile

  /** The first rule a config breaks, and the profile that breaks it (-1: none). */
  datatype Verdict = Accepted | Rejected(code: Code, profile: int)

  // ---- values --------------------------------------------------------------------------------------

  /** The value of a float pattern. */
  function Read(b: u32): F
  {
    if !ConfigFloats.IsFinite(b) then
      if ConfigFloats.Fraction(b) != 0 then NaN else if ConfigFloats.Negative(b) then NegInf else PosInf
    else Fin(if ConfigFloats.Negative(b) then 0.0 - ConfigFloats.Mag(b) else ConfigFloats.Mag(b))
  }

  function Signed(b: u8): int { if b < 128 then b else b - 256 }

  /** in_range: false for NaN. */
  predicate InRange(v: F, lo: real, hi: real, eps: real) { Ge(v, Fin(lo - eps)) && Le(v, Fin(hi + eps)) }

  predicate Proper(v: F) { Finite(v) && v.r >= 0.0 }

  predicate Positive(v: F) { Finite(v) && v.r > 0.0 }

  predicate Above(a: F, b: F, gap: real) { Ge(Sub(a, b), Fin(gap - EPS)) }

  function Abs(a: F): F
  {
    match a
    case Fin(x) => Fin(if x < 0.0 then -x else x)
    case NegInf => PosInf
    case _ => a
  }

  predicate Near(a: F, b: F) { Le(Abs(Sub(a, b)), Fin(EPS)) }

  // ---- the rules, block by block -------------------------------------------------------------------

  function PrimitivesFault(p: Primitives): Option<Code>
  {
    var (bulk, cons, flt, fcons, limp) := (Read(p.vBulk), Read(p.vBulkCons), Read(p.vFloat), Read(p.vFloatCons), Read(p.vLimp));
    if !Ge(limp, Fin(SPAN_LO - EPS)) then Some(FloorLimp)
    else if !InRange(bulk, 3.45, 3.65, EPS) then Some(RangeVBulk)
    else if !InRange(cons, 3.40, 3.58, EPS) then Some(RangeVBulkCons)
    else if !InRange(flt, 3.33, 3.45, EPS) then Some(RangeVFloat)
    else if !InRange(fcons, 3.28, 3.40, EPS) then Some(RangeVFloatCons)
    else if !InRange(limp, 3.20, 3.35, EPS) then Some(RangeVLimp)
    else if !Above(bulk, cons, GAP_BULK) then Some(OrderBulkCons)
    else if !Above(cons, flt, GAP_BULK) then Some(OrderConsFloat)
    else if !Above(flt, fcons, GAP_FLOAT) then Some(OrderFloatFcons)
    else if !Above(fcons, limp, GAP_FLOAT) then Some(OrderFconsLimp)
    else None
  }

  /** The tail window: 0.01 C to 0.10 C at 3.45 V per cell. */
  predicate TailInWindow(g: Globals)
  {
    var c := Scale(Read(g.bankAh), g.cells as real * 3.45);
    c.Fin? && InRange(Read(g.tailW), 0.01 * c.r, 0.10 * c.r, 0.10 * c.r * 0.000001)
  }

  function ChargeFault(g: Globals, p: Primitives): Option<Code>
  {
    if !Near(Read(g.limpV), Read(p.vLimp)) then Some(LimpMismatch)
    else if !(4 <= g.cells <= 16) then Some(RangeCells)
    else if !InRange(Read(g.bankAh), 40.0, 3000.0, 0.0) then Some(RangeBankAh)
    else if !InRange(Read(g.maxChargeW), 100.0, 20000.0, 0.0) then Some(RangeMaxPower)
    else if !InRange(Read(g.rampWps), 10.0, 1000.0, 0.0) then Some(RangeRamp)
    else if !(2 <= g.vclampS <= 30) then Some(RangeVclamp)
    else if !(60 <= g.chargeMaxMin <= 1440) then Some(RangeChargeMax)
    else if g.warmupS > 600 then Some(RangeWarmup)
    else if !Read(g.warmupCoolantC).NaN? && !InRange(Read(g.warmupCoolantC), 20.0, 90.0, 0.0) then Some(RangeCoolant)
    else if Signed(g.socTarget) != -1 && !(70 <= Signed(g.socTarget) <= 100) then Some(RangeSocTarget)
    else if !TailInWindow(g) then Some(RangeTail)
    else if !(10 <= g.tailHoldS <= 600) then Some(RangeTailHold)
    else None
  }

  function FieldFault(g: Globals): Option<Code>
  {
    if !Positive(Read(g.rotorRatedV)) then Some(RotorRated)
    else if !Read(g.rotorMaxV).NaN? && !Positive(Read(g.rotorMaxV)) then Some(RotorMax)
    else if !Proper(Read(g.limpCapW)) then Some(LimpPowerCap)
    else if g.battTempSrc > 2 then Some(RangeBattTempSrc)
    else if !Proper(Read(g.skipBulkV)) then Some(SkipBulkVcell)
    else if Signed(g.skipBulkSoc) > 100 then Some(RangeSkipBulkSoc)
    else None
  }

  function GlobalsFault(g: Globals, p: Primitives): Option<Code>
  {
    var f := ChargeFault(g, p);
    if f.Some? then f else FieldFault(g)
  }

  function LimitsFault(l: Limits): Option<Code>
  {
    if !Proper(Read(l.batteryC)) then Some(BatteryC)
    else if !Proper(Read(l.wiringA)) then Some(WiringA)
    else if !Proper(Read(l.alternatorA)) then Some(AlternatorA)
    else None
  }

  /** A voltage that refers to a primitive must be close to it; a literal must lie in the span. */
  function VoltageFault(ref: u8, v: u32, p: Primitives, wrongRef: Code, wrongRange: Code): Option<Code>
  {
    if ref != 0 then
      var prim := ConfigDoc.Referenced(p, ref);
      if !Near(Read(v), if prim.Some? then Read(prim.value) else NaN) then Some(wrongRef) else None
    else if !InRange(Read(v), SPAN_LO, SPAN_HI, EPS) then Some(wrongRange)
    else None
  }

  predicate Reserved(p: Profile) { p.flags % 2 == 1 }

  function RestFault(pr: Profile, p: Primitives): Option<Code>
  {
    if pr.restMode == 1 then None
    else
      var f := VoltageFault(pr.restRef, pr.restV, p, RestRef, RestRange);
      if f.Some? then f else if !Proper(Read(pr.restCapW)) then Some(RestPowerCap) else None
  }

  function RevertFault(pr: Profile): Option<Code>
  {
    if !Proper(Read(pr.revertV)) then Some(RevertV)
    else if !(-1 <= Signed(pr.socRevert) <= 100) then Some(RangeSocRevert)
    else if !Proper(Read(pr.ahRevert)) then Some(AhRevert)
    else None
  }

  function ProfileFault(pr: Profile, p: Primitives, i: nat): Option<Code>
  {
    if pr.id != i + 1 then Some(ProfileId)
    else if Reserved(pr) then None
    else if pr.restMode > 1 then Some(RestMode)
    else
      var cv := VoltageFault(pr.cvRef, pr.cvTargetV, p, CvRef, CvRange);
      if cv.Some? then cv
      else
        var rest := RestFault(pr, p);
        if rest.Some? then rest else RevertFault(pr)
  }

  /** The first profile from `i` on that breaks a rule. */
  function ProfilesFault(t: ProfileTable, p: Primitives, i: nat): Option<(Code, nat)>
    requires i <= PROFILES
    decreases PROFILES - i
  {
    if i == PROFILES then None
    else
      var f := ProfileFault(t[i], p, i);
      if f.Some? then Some((f.value, i)) else ProfilesFault(t, p, i + 1)
  }

  function ActiveFault(c: Config): Verdict
  {
    if !(1 <= c.active <= PROFILES) then Rejected(ActiveProfile, -1)
    else if Reserved(c.profiles[c.active - 1]) then Rejected(ActiveProfile, c.active - 1)
    else Accepted
  }

  /** ctrl_config_validate */
  function Judged(c: Config): Verdict
  {
    var p := PrimitivesFault(c.prim);
    if p.Some? then Rejected(p.value, -1)
    else
      var g := GlobalsFault(c.globals, c.prim);
      if g.Some? then Rejected(g.value, -1)
      else
        var l := LimitsFault(c.limits);
        if l.Some? then Rejected(l.value, -1)
        else
          var t := ProfilesFault(c.profiles, c.prim, 0);
          if t.Some? then Rejected(t.value.0, t.value.1) else ActiveFault(c)
  }

  predicate Valid(c: Config) { Judged(c) == Accepted }

  method Validate(c: Config) returns (v: Verdict)
    ensures v == Judged(c)
  {
    hide PrimitivesFault, GlobalsFault, LimitsFault, ProfileFault;
    var f := PrimitivesFault(c.prim);
    if f.Some? { return Rejected(f.value, -1); }
    f := GlobalsFault(c.globals, c.prim);
    if f.Some? { return Rejected(f.value, -1); }
    f := LimitsFault(c.limits);
    if f.Some? { return Rejected(f.value, -1); }
    var i := 0;
    while i < PROFILES
      invariant 0 <= i <= PROFILES && ProfilesFault(c.profiles, c.prim, i) == ProfilesFault(c.profiles, c.prim, 0)
    {
      f := ProfileFault(c.profiles[i], c.prim, i);
      if f.Some? { return Rejected(f.value, i); }
      i := i + 1;
    }
    if !(1 <= c.active <= PROFILES) { return Rejected(ActiveProfile, -1); }
    if Reserved(c.profiles[c.active - 1]) { return Rejected(ActiveProfile, c.active - 1); }
    v := Accepted;
  }

  lemma {:induction false} NoProfileFaults(t: ProfileTable, p: Primitives, i: nat, k: nat)
    requires i <= k < PROFILES && ProfilesFault(t, p, i).None?
    ensures ProfileFault(t[k], p, k).None?
    decreases k - i
  {
    hide ProfileFault;
    if i < k { NoProfileFaults(t, p, i + 1, k); }
  }

  lemma ValidParts(c: Config, k: nat)
    requires Valid(c) && k < PROFILES
    ensures PrimitivesFault(c.prim).None? && GlobalsFault(c.globals, c.prim).None? && LimitsFault(c.limits).None?
    ensures ProfileFault(c.profiles[k], c.prim, k).None? && ActiveFault(c) == Accepted
  {
    hide PrimitivesFault, GlobalsFault, LimitsFault, ProfileFault, ActiveFault;
    NoProfileFaults(c.profiles, c.prim, 0, k);
  }

  // ---- what the engine may rely on -----------------------------------------------------------------

  lemma InRangeIs(v: F, lo: real, hi: real, eps: real)
    requires InRange(v, lo, hi, eps)
    ensures v.Fin? && lo - eps <= v.r <= hi + eps
  {}

  lemma AboveIs(a: F, b: F, gap: real)
    requires a.Fin? && b.Fin? && Above(a, b, gap)
    ensures a.r - b.r >= gap - EPS
  {}

  lemma NearIs(a: F, b: F)
    requires b.Fin? && Near(a, b)
    ensures a.Fin? && -EPS <= a.r - b.r <= EPS
  {}

  /** The five charge voltages step down, and none leaves the span. */
  lemma VoltagesStepDown(c: Config)
    requires Valid(c)
    ensures Read(c.prim.vBulk).Fin? && Read(c.prim.vBulkCons).Fin? && Read(c.prim.vFloat).Fin?
    ensures Read(c.prim.vFloatCons).Fin? && Read(c.prim.vLimp).Fin?
    ensures SPAN_HI + EPS >= Read(c.prim.vBulk).r > Read(c.prim.vBulkCons).r > Read(c.prim.vFloat).r
    ensures Read(c.prim.vFloat).r > Read(c.prim.vFloatCons).r > Read(c.prim.vLimp).r >= SPAN_LO - EPS
  {
    ValidParts(c, 0);
    hide Read, Valid, GlobalsFault, LimitsFault, ProfileFault, ActiveFault, InRange, Above, Ge;
    var (bulk, cons, flt, fcons, limp) :=
      (Read(c.prim.vBulk), Read(c.prim.vBulkCons), Read(c.prim.vFloat), Read(c.prim.vFloatCons), Read(c.prim.vLimp));
    InRangeIs(bulk, 3.45, 3.65, EPS);
    InRangeIs(cons, 3.40, 3.58, EPS);
    InRangeIs(flt, 3.33, 3.45, EPS);
    InRangeIs(fcons, 3.28, 3.40, EPS);
    InRangeIs(limp, 3.20, 3.35, EPS);
    AboveIs(bulk, cons, GAP_BULK);
    AboveIs(cons, flt, GAP_BULK);
    AboveIs(flt, fcons, GAP_FLOAT);
    AboveIs(fcons, limp, GAP_FLOAT);
  }

  function EngineGlobals(g: Globals): Engine.Globals
  {
    Engine.Globals(g.cells, Read(g.maxChargeW), Read(g.rampWps), Read(g.tailW), g.tailHoldS, g.vclampS, g.cvHoldMin,
                   g.chargeMaxMin, g.warmupS, Signed(g.socTarget), Read(g.skipBulkV), Signed(g.skipBulkSoc),
                   Field.Rotor(g.fullField48, Read(g.rotorRatedV), Read(g.rotorMaxV)), Read(g.limpV), Read(g.limpCapW),
                   g.requireBattTemp)
  }

  function EngineProfile(p: Profile): Engine.Profile
  {
    Engine.Profile(Read(p.cvTargetV), p.exitAtCv, p.restMode == 1, Read(p.restV), Read(p.restCapW),
                   Read(p.revertV), p.revertHoldS, Signed(p.socRevert), Read(p.ahRevert))
  }

  lemma FieldReady(g: Globals)
    requires FieldFault(g).None?
    ensures Positive(Field.RotorV(EngineGlobals(g).rotor)) && Proper(Read(g.limpCapW)) && Proper(Read(g.skipBulkV)) && g.battTempSrc <= 2
  {
    hide Read, Signed;
  }

  lemma ChargeReady(g: Globals, p: Primitives)
    requires ChargeFault(g, p).None?
    ensures 4 <= g.cells <= 16 && 60 <= g.chargeMaxMin <= 1440 && Read(g.rampWps).Fin? && Read(g.rampWps).r >= 10.0
  {
    hide Read, TailInWindow, Signed, Near, InRange;
    InRangeIs(Read(g.rampWps), 10.0, 1000.0, 0.0);
  }

  /** What the safety proofs of the engine ask for. */
  lemma ValidGlobals(c: Config)
    requires Valid(c)
    ensures var g := EngineGlobals(c.globals);
            && EngineSafety.RampOk(g) && 4 <= Engine.CellCount(g) == g.cells <= 16
            && Positive(Field.RotorV(g.rotor)) && Proper(g.limpCapW) && 60 <= g.chargeMaxMin <= 1440
  {
    ValidParts(c, 0);
    hide Read, Valid, PrimitivesFault, LimitsFault, ProfileFault, ActiveFault, FieldFault, ChargeFault, Field.RotorV, Positive, Proper;
    FieldReady(c.globals);
    ChargeReady(c.globals, c.prim);
  }

  predicate InSpan(v: F) { v.Fin? && SPAN_LO - 2.0 * EPS <= v.r <= SPAN_HI + 2.0 * EPS }

  lemma ReferencedInSpan(c: Config, ref: u8)
    requires Valid(c)
    ensures var o := ConfigDoc.Referenced(c.prim, ref);
            o.Some? ==> Read(o.value).Fin? && SPAN_LO - EPS <= Read(o.value).r <= SPAN_HI + EPS
  {
    VoltagesStepDown(c);
    hide Read, Valid, ConfigDoc.Referenced;
    ReferencedIsOne(c.prim, ref);
  }

  lemma ReferencedIsOne(p: Primitives, ref: u8)
    ensures var o := ConfigDoc.Referenced(p, ref);
            o.Some? ==> o.value == p.vBulk || o.value == p.vBulkCons || o.value == p.vFloat || o.value == p.vFloatCons || o.value == p.vLimp
  {}

  lemma NearPrimitive(c: Config, ref: u8, v: u32, wrongRef: Code, wrongRange: Code)
    requires Valid(c) && VoltageFault(ref, v, c.prim, wrongRef, wrongRange).None?
    ensures InSpan(Read(v))
  {
    ReferencedInSpan(c, ref);
    hide Read, Valid, ConfigDoc.Referenced, Near, InRange;
    var o := ConfigDoc.Referenced(c.prim, ref);
    if ref == 0 {
      InRangeIs(Read(v), SPAN_LO, SPAN_HI, EPS);
    } else if o.Some? {
      NearIs(Read(v), Read(o.value));
    } else {
      NearNothing(Read(v));
    }
  }

  lemma NearNothing(v: F)
    ensures !Near(v, NaN)
  {}

  /** The voltage the engine regulates to lies in the span in BULK, in LIMP, and at rest of a
      profile that holds. */
  lemma StageVoltageInSpan(c: Config, e: Engine.Eng)
    requires Valid(c)
    ensures var p := EngineProfile(c.profiles[c.active - 1]);
            e.state == Engine.Bulk || Engine.LimpNow(e.faults) || !p.zeroRest ==>
              InSpan(Engine.StageV(e, p, EngineGlobals(c.globals)))
  {
    ValidParts(c, 0);
    ValidParts(c, c.active - 1);
    VoltagesStepDown(c);
    var pr := c.profiles[c.active - 1];
    hide Read, PrimitivesFault, LimitsFault, VoltageFault, RevertFault, FieldFault, TailInWindow, Engine.LimpNow;
    NearPrimitive(c, pr.cvRef, pr.cvTargetV, CvRef, CvRange);
    if pr.restMode != 1 { NearPrimitive(c, pr.restRef, pr.restV, RestRef, RestRange); }
  }

  // ---- when the target is always a validated one ---------------------------------------------------

  function ActiveProfileOf(c: Config): Engine.Profile
    requires 1 <= c.active <= PROFILES
  {
    EngineProfile(c.profiles[c.active - 1])
  }

  /** Runs of the engine on one config. */
  ghost predicate RunsOn(ins: seq<EngineSafety.Input>, c: Config)
    requires 1 <= c.active <= PROFILES
  {
    forall j :: 0 <= j < |ins| ==> ins[j].g == EngineGlobals(c.globals) && ins[j].p == ActiveProfileOf(c)
  }

  /** Whatever happens, an engine that drives the field regulates to a voltage in the span. */
  ghost predicate AlwaysInSpan(c: Config)
    requires 1 <= c.active <= PROFILES
  {
    forall ins, k: nat :: RunsOn(ins, c) && k <= |ins| && EngineSafety.StateAt(ins, k).state != Engine.Standby ==>
      InSpan(Engine.StageV(EngineSafety.StateAt(ins, k), ActiveProfileOf(c), EngineGlobals(c.globals)))
  }

  /** A cycle with the ignition on, no reading but a battery at rest, and some fault from outside. */
  function Parked(ext: Faults.Word): Engine.Measured
  {
    Engine.Measured(Fin(0.0), NaN, NaN, NaN, false, NaN, NaN, Fin(25.0), NaN, NaN, Engine.Lost, false, NaN, false, true, ext)
  }

  function ParkedInput(c: Config, ext: Faults.Word): EngineSafety.Input
    requires 1 <= c.active <= PROFILES
  {
    EngineSafety.Input(Parked(ext), [], ActiveProfileOf(c), EngineGlobals(c.globals), 10)
  }

  lemma ParkedFaults(e: Engine.Eng, ext: Faults.Word, g: Engine.Globals, bad: bool)
    requires e.faults * Faults.OPEN == {} && (ext == {} || ext == {6})
    ensures var f := Engine.FaultsNow(e, Parked(ext), g, bad);
            f * Faults.OPEN == {} && Engine.EnabledNow(Parked(ext), f) && (Engine.LimpNow(f) <==> ext == {6})
  {
    assert Engine.PerCell(Fin(0.0), g) == Fin(0.0);
    assert Engine.LiveFaults(Parked(ext), g, bad) == Engine.Bit(bad, Engine.VSUP_IMPLAUSIBLE);
    assert ext == {6} ==> 6 in Engine.FaultsNow(e, Parked(ext), g, bad) && 6 in Faults.LIMP;
    assert Engine.FaultsNow(e, Parked(ext), g, bad) * Faults.BLOCK == {};
    assert ext == {} ==> Engine.FaultsNow(e, Parked(ext), g, bad) * Faults.LIMP == {};
  }

  lemma ParkedStep(e: Engine.Eng, c: Config, ext: Faults.Word)
    requires 1 <= c.active <= PROFILES && e.faults * Faults.OPEN == {} && e.vRevert.NaN? && (ext == {} || ext == {6})
    requires ext == {} ==> e.state == Engine.Floating
    ensures var f := EngineSafety.After(e, ParkedInput(c, ext));
            && f.state == Engine.Floating && f.vRevert.NaN? && f.faults * Faults.OPEN == {}
            && (Engine.LimpNow(f.faults) <==> ext == {6})
  {
    var i := ParkedInput(c, ext);
    var s := Engine.Sensed(e, i.m, i.g, i.dt);
    ParkedFaults(e, ext, i.g, Engine.VettedSupply(e, i.m, i.g, i.dt).implausible);
    assert s.vRevert.NaN? && s.state == e.state;
    hide Engine.EnabledNow, Engine.LimpNow, Engine.Sensed, Engine.StandbyStep, Engine.BulkStep, Engine.RevertHold;
    var a := Engine.Advanced(s, i.m, i.p, i.g, i.dt);
    assert a.state == Engine.Floating && a.vRevert.NaN? && a.faults == s.faults;
    DrivenKeepsRevert(a, i);
    hide Engine.Driven, Engine.Advanced;
  }

  lemma DrivenKeepsRevert(e: Engine.Eng, i: EngineSafety.Input)
    ensures var f := Engine.Driven(e, i.m, i.ceilings, i.p, i.g, i.dt);
            f.vRevert == e.vRevert && f.state == e.state && f.faults == e.faults
  {
    hide Engine.Demand, Engine.Ramped;
  }

  function LimpRun(c: Config): (ins: seq<EngineSafety.Input>)
    requires 1 <= c.active <= PROFILES
    ensures |ins| == 2 && RunsOn(ins, c)
  {
    [ParkedInput(c, {6}), ParkedInput(c, {})]
  }

  lemma TwoCycles(ins: seq<EngineSafety.Input>)
    requires |ins| == 2
    ensures EngineSafety.StateAt(ins, 2) == EngineSafety.After(EngineSafety.After(Engine.Initial, ins[0]), ins[1])
  {
    hide EngineSafety.After;
    assert EngineSafety.StateAt(ins, 0) == Engine.Initial;
    assert EngineSafety.StateAt(ins, 1) == EngineSafety.After(Engine.Initial, ins[0]);
  }

  /** Two cycles, one under a LIMP fault and one without: the engine is left in FLOAT with the
      rest voltage as its target, whether the profile rests at zero or not. */
  lemma LimpLeavesFloating(c: Config)
    requires 1 <= c.active <= PROFILES
    ensures var e := EngineSafety.StateAt(LimpRun(c), 2);
            e.state == Engine.Floating && Engine.StageV(e, ActiveProfileOf(c), EngineGlobals(c.globals)) == ActiveProfileOf(c).restV
  {
    hide EngineSafety.After, EngineSafety.StateAt, Engine.LimpNow, ParkedInput, EngineProfile, EngineGlobals;
    TwoCycles(LimpRun(c));
    ParkedStep(Engine.Initial, c, {6});
    ParkedStep(EngineSafety.After(Engine.Initial, ParkedInput(c, {6})), c, {});
  }

  /** The active profile holds at rest, or the rest voltage it does not use is in the span. */
  predicate RestInSpan(c: Config)
    requires 1 <= c.active <= PROFILES
  {
    var p := c.profiles[c.active - 1];
    p.restMode != 1 || InSpan(Read(p.restV))
  }

  lemma Deviates(c: Config)
    requires 1 <= c.active <= PROFILES && AlwaysInSpan(c)
    ensures RestInSpan(c)
  {
    hide EngineSafety.StateAt, InSpan, Engine.StageV, RunsOn, LimpRun, EngineGlobals, Read;
    LimpLeavesFloating(c);
  }

  lemma Complies(c: Config)
    requires Valid(c) && 1 <= c.active <= PROFILES && RestInSpan(c)
    ensures AlwaysInSpan(c)
  {
    hide Valid, Read, InSpan, EngineSafety.StateAt, Engine.LimpNow, EngineGlobals, RunsOn;
    forall ins, k: nat | RunsOn(ins, c) && k <= |ins| && EngineSafety.StateAt(ins, k).state != Engine.Standby
      ensures InSpan(Engine.StageV(EngineSafety.StateAt(ins, k), ActiveProfileOf(c), EngineGlobals(c.globals)))
    {
      StageVoltageInSpan(c, EngineSafety.StateAt(ins, k));
    }
  }

  lemma ValidIsActive(c: Config)
    requires Valid(c)
    ensures 1 <= c.active <= PROFILES
  {
    ValidParts(c, 0);
  }

  /** On a valid config, on every run, the voltage the engine regulates to lies in the span if and
      only if the active profile holds at rest, or its rest voltage lies in the span anyway. */
  lemma TargetAlwaysValid(c: Config)
    requires Valid(c)
    ensures 1 <= c.active <= PROFILES && (AlwaysInSpan(c) <==> RestInSpan(c))
  {
    hide Valid, AlwaysInSpan, RestInSpan;
    ValidIsActive(c);
    if AlwaysInSpan(c) { Deviates(c); }
    if RestInSpan(c) { Complies(c); }
  }

  // ---- a valid config with a target nobody checked -------------------------------------------------

  const V128: u32 := 0x4300_0000

  const UNCHECKED_PRIM: Primitives := Primitives(0x4060_0000, 0x405C_0000, 0x4058_0000, 0x4054_0000, 0x4050_0000)

  const UNCHECKED_GLOBALS: Globals :=
    Globals(4, V128, V128, V128, V128, 60, 10, 0, 600, 0, ConfigDoc.NAN_BITS, 255, 0, 255, V128, ConfigDoc.NAN_BITS, false,
            0x4050_0000, 0, 0, false)

  /** The active profile rests at zero; its rest voltage is NaN. */
  const UNCHECKED_PROFILE: Profile :=
    Profile(1, 0, 1, 0, 0x4060_0000, false, 1, ConfigDoc.NAN_BITS, 0, 0, 60, 255, 0)

  function SpareProfile(id: u8): Profile { Profile(id, 1, 0, 0, 0, false, 0, 0, 0, 0, 0, 0, 0) }

  function Unchecked(): Config
  {
    Config(UNCHECKED_PRIM, UNCHECKED_GLOBALS, Limits(0, 0, 0),
           [UNCHECKED_PROFILE, SpareProfile(2), SpareProfile(3), SpareProfile(4), SpareProfile(5), SpareProfile(6),
            SpareProfile(7)], 1)
  }

  lemma {:induction false} TwoDownSum(m: nat, n: nat)
    ensures ConfigFloats.TwoDown(m + n) == ConfigFloats.TwoDown(m) * ConfigFloats.TwoDown(n)
  {
    if n > 0 {
      TwoDownSum(m, n - 1);
    }
  }

  lemma TwoDowns()
    ensures ConfigFloats.TwoDown(16) == 1.0 / 65536.0 && ConfigFloats.TwoDown(22) == 1.0 / 4194304.0
  {
    assert ConfigFloats.TwoDown(2) == 0.25;
    TwoDownSum(2, 2);
    TwoDownSum(4, 4);
    TwoDownSum(8, 8);
    TwoDownSum(16, 4);
    TwoDownSum(20, 2);
  }

  lemma UncheckedReads()
    ensures Read(V128) == Fin(128.0) && Read(0) == Fin(0.0) && Read(ConfigDoc.NAN_BITS) == NaN
    ensures Read(0x4060_0000) == Fin(3.5) && Read(0x405C_0000) == Fin(3.4375) && Read(0x4058_0000) == Fin(3.375)
    ensures Read(0x4054_0000) == Fin(3.3125) && Read(0x4050_0000) == Fin(3.25)
  {
    TwoDowns();
    hide ConfigFloats.TwoDown;
  }

  lemma UncheckedPrimitives()
    ensures PrimitivesFault(UNCHECKED_PRIM).None?
  {
    UncheckedReads();
    hide Read;
  }

  lemma UncheckedCharge()
    ensures ChargeFault(UNCHECKED_GLOBALS, UNCHECKED_PRIM).None?
  {
    UncheckedReads();
    hide Read;
  }

  lemma UncheckedField()
    ensures FieldFault(UNCHECKED_GLOBALS).None? && LimitsFault(Limits(0, 0, 0)).None?
  {
    UncheckedReads();
    hide Read;
  }

  lemma UncheckedProfile()
    ensures ProfileFault(UNCHECKED_PROFILE, UNCHECKED_PRIM, 0).None?
  {
    UncheckedReads();
    hide Read;
  }

  lemma SpareIsValid(i: nat)
    requires 1 <= i < 7
    ensures ProfileFault(SpareProfile(i + 1), UNCHECKED_PRIM, i).None? && Reserved(SpareProfile(i + 1))
  {}

  lemma UncheckedIsValid()
    ensures Valid(Unchecked())
  {
    UncheckedPrimitives();
    UncheckedCharge();
    UncheckedField();
    UncheckedProfile();
    hide PrimitivesFault, ChargeFault, FieldFault, LimitsFault, ProfileFault;
    SpareIsValid(1);
    SpareIsValid(2);
    SpareIsValid(3);
    SpareIsValid(4);
    SpareIsValid(5);
    SpareIsValid(6);
    var (t, p) := (Unchecked().profiles, UNCHECKED_PRIM);
    assert ProfilesFault(t, p, 7).None? && ProfilesFault(t, p, 6).None? && ProfilesFault(t, p, 5).None?;
    assert ProfilesFault(t, p, 4).None? && ProfilesFault(t, p, 3).None? && ProfilesFault(t, p, 2).None?;
  }

  /** Valid, and yet the engine can be left regulating to a voltage that is not a number. */
  lemma UncheckedTarget()
    ensures Valid(Unchecked()) && !AlwaysInSpan(Unchecked())
  {
    UncheckedIsValid();
    UncheckedReads();
    hide Valid, Read, AlwaysInSpan;
    TargetAlwaysValid(Unchecked());
  }

  /** The rotor voltage and the power ramp of a valid config. */
  ghost function RotorLimit(c: Config): real
    requires Valid(c)
  {
    ValidGlobals(c);
    Field.RotorV(EngineGlobals(c.globals).rotor).r
  }

  ghost function RampStep(c: Config, dt: u32): real
    requires Valid(c)
  {
    ValidGlobals(c);
    EngineSafety.Rise(EngineGlobals(c.globals), dt)
  }

  /** Every run on a valid config whose override is off keeps the rotor within its voltage, and
      power rises no faster than the ramp. */
  lemma ValidRunIsSafe(c: Config, ins: seq<EngineSafety.Input>, k: nat, x: real)
    requires Valid(c) && !c.globals.fullField48 && k < |ins|
    requires forall j :: 0 <= j < |ins| ==> ins[j].g == EngineGlobals(c.globals)
    requires ins[k].m.vSupply == Fin(x) || ins[k].m.vbat == Fin(x) || x == 3.2 * Field.Cells(c.globals.cells)
    ensures var (e, f) := (EngineSafety.StateAt(ins, k), EngineSafety.StateAt(ins, k + 1));
            && Times(EngineSafety.Out(e, ins[k]).duty.r, x) <= RotorLimit(c)
            && EngineSafety.PowerOk(e) && EngineSafety.PowerOk(f)
            && f.cmdPower.r <= e.cmdPower.r + RampStep(c, ins[k].dt)
  {
    ValidGlobals(c);
    hide Valid, EngineSafety.StateAt, EngineSafety.Out, Read, Engine.Ticked;
    EngineSafety.RotorProtected(ins, k, c.globals.cells, x);
    EngineSafety.PowerRampsUp(ins, k, k + 1);
    OneRise(ins, k);
  }

  lemma OneRise(ins: seq<EngineSafety.Input>, k: nat)
    requires k < |ins| && forall j :: 0 <= j < |ins| ==> EngineSafety.RampOk(ins[j].g)
    ensures EngineSafety.Rises(ins, k, k + 1) == EngineSafety.Rise(ins[k].g, ins[k].dt)
  {
    assert EngineSafety.Rises(ins, k, k) == 0.0;
  }

  // ---- what the wire may rely on -------------------------------------------------------------------

  lemma ReadIs(b: u32)
    ensures Read(b).Fin? <==> ConfigFloats.IsFinite(b)
  {}

  /** Finite values survive as text. */
  lemma ValueSurvives(w: ConfigDoc.Wire, b: u32)
    requires ConfigFloats.Real32(w) && Read(b).Fin?
    ensures ConfigDocRound.Survives(w, b)
  {
    hide ConfigFloats.Real32, ConfigDocRound.Survives;
    ReadIs(b);
    ConfigFloats.SurvivesExactly(w, b);
  }

  /** A value that may be unset survives if it is set, or unset by the canonical NaN. */
  predicate Unset(b: u32) { Read(b).NaN? ==> b == ConfigDoc.NAN_BITS }

  lemma OptionSurvives(w: ConfigDoc.Wire, b: u32)
    requires ConfigFloats.Real32(w) && (Read(b).NaN? || Read(b).Fin?)
    ensures ConfigDocRound.Survives(w, b) <==> Unset(b)
  {
    hide ConfigFloats.Real32, ConfigDocRound.Survives;
    ConfigFloats.SurvivesExactly(w, b);
  }

  /** A reference whose number is the primitive itself, to the last bit. */
  predicate Exact(p: Primitives, ref: u8, v: u32) { ref != 0 ==> ConfigDoc.Referenced(p, ref) == Some(v) }

  lemma VoltageReturns(w: ConfigDoc.Wire, p: Primitives, ref: u8, v: u32, was: u32, wrongRef: Code, wrongRange: Code)
    requires ConfigFloats.Real32(w) && VoltageFault(ref, v, p, wrongRef, wrongRange).None?
    ensures ConfigDocRound.VrefSurvives(w, p, ref, v, was) <==> Exact(p, ref, v)
  {
    hide Read, ConfigFloats.Real32, ConfigDocRound.Survives, Near, InRange, ConfigDoc.Referenced;
    if ref == 0 {
      InRangeIs(Read(v), SPAN_LO, SPAN_HI, EPS);
      ValueSurvives(w, v);
    } else if ConfigDoc.Referenced(p, ref).None? {
      NearNothing(Read(v));
    } else {
      OnlyFive(p, ref);
    }
  }

  lemma OnlyFive(p: Primitives, ref: u8)
    requires ConfigDoc.Referenced(p, ref).Some?
    ensures 1 <= ref <= 5
  {}

  /** What the validator leaves open about a profile: anything in a reserved one; else the
      flags that are not written, references that are close but not equal, and the rest
      block of a profile that does not hold. */
  predicate ProfileLeft(w: ConfigDoc.Wire, p: Primitives, was: Profile, pr: Profile)
  {
    if Reserved(pr) then ConfigDocRound.ProfileSurvives(w, p, was, pr)
    else
      && pr.flags / 2 == was.flags / 2 && Exact(p, pr.cvRef, pr.cvTargetV)
      && if pr.restMode == 0 then Exact(p, pr.restRef, pr.restV)
         else ConfigDocRound.VrefSurvives(w, p, pr.restRef, pr.restV, was.restV) && ConfigDocRound.Survives(w, pr.restCapW)
  }

  lemma ProfileReturns(w: ConfigDoc.Wire, p: Primitives, was: Profile, pr: Profile, i: nat)
    requires ConfigFloats.Real32(w) && ProfileFault(pr, p, i).None?
    ensures ConfigDocRound.ProfileSurvives(w, p, was, pr) <==> ProfileLeft(w, p, was, pr)
  {
    hide Read, ConfigFloats.Real32, ConfigDocRound.Survives, ConfigDocRound.VrefSurvives, VoltageFault, Exact, Signed;
    if !Reserved(pr) {
      VoltageReturns(w, p, pr.cvRef, pr.cvTargetV, was.cvTargetV, CvRef, CvRange);
      ValueSurvives(w, pr.revertV);
      ValueSurvives(w, pr.ahRevert);
      if pr.restMode == 0 {
        VoltageReturns(w, p, pr.restRef, pr.restV, was.restV, RestRef, RestRange);
        ValueSurvives(w, pr.restCapW);
      }
    }
  }

  lemma BlocksReturn(w: ConfigDoc.Wire, c: Config)
    requires ConfigFloats.Real32(w) && Valid(c)
    ensures ConfigDocRound.PrimsSurvive(w, c.prim)
    ensures ConfigDocRound.Survives(w, c.limits.batteryC) && ConfigDocRound.Survives(w, c.limits.wiringA)
    ensures ConfigDocRound.Survives(w, c.limits.alternatorA)
    ensures ConfigDocRound.GlobalsSurvive(w, c.globals) <==> Unset(c.globals.warmupCoolantC) && Unset(c.globals.rotorMaxV)
  {
    VoltagesStepDown(c);
    ValidParts(c, 0);
    hide Read, Valid, PrimitivesFault, ProfileFault, ActiveFault, ConfigFloats.Real32, ConfigDocRound.Survives, Unset;
    ValueSurvives(w, c.prim.vBulk);
    ValueSurvives(w, c.prim.vBulkCons);
    ValueSurvives(w, c.prim.vFloat);
    ValueSurvives(w, c.prim.vFloatCons);
    ValueSurvives(w, c.prim.vLimp);
    ValueSurvives(w, c.limits.batteryC);
    ValueSurvives(w, c.limits.wiringA);
    ValueSurvives(w, c.limits.alternatorA);
    GlobalsReturn(w, c.globals, c.prim);
  }

  lemma GlobalsReturn(w: ConfigDoc.Wire, g: Globals, p: Primitives)
    requires ConfigFloats.Real32(w) && GlobalsFault(g, p).None? && Read(p.vLimp).Fin?
    ensures ConfigDocRound.GlobalsSurvive(w, g) <==> Unset(g.warmupCoolantC) && Unset(g.rotorMaxV)
  {
    hide Read, ConfigFloats.Real32, ConfigDocRound.Survives, Unset, Near, InRange, Signed;
    NearIs(Read(g.limpV), Read(p.vLimp));
    InRangeIs(Read(g.bankAh), 40.0, 3000.0, 0.0);
    InRangeIs(Read(g.maxChargeW), 100.0, 20000.0, 0.0);
    InRangeIs(Read(g.rampWps), 10.0, 1000.0, 0.0);
    TailIs(g);
    if !Read(g.warmupCoolantC).NaN? { InRangeIs(Read(g.warmupCoolantC), 20.0, 90.0, 0.0); }
    hide TailInWindow;
    ValueSurvives(w, g.bankAh);
    ValueSurvives(w, g.maxChargeW);
    ValueSurvives(w, g.rampWps);
    ValueSurvives(w, g.tailW);
    ValueSurvives(w, g.skipBulkV);
    ValueSurvives(w, g.rotorRatedV);
    ValueSurvives(w, g.limpV);
    ValueSurvives(w, g.limpCapW);
    OptionSurvives(w, g.warmupCoolantC);
    OptionSurvives(w, g.rotorMaxV);
  }

  lemma TailIs(g: Globals)
    requires TailInWindow(g)
    ensures Read(g.tailW).Fin?
  {
    hide Read;
  }

  /** A valid config comes back from its document over any base exactly if nothing is amiss in
      what the validator leaves open. */
  lemma ValidReturns(w: ConfigDoc.Wire, base: Config, c: Config)
    requires ConfigFloats.Real32(w) && Valid(c)
    ensures ConfigDocRound.Faithful(w, base, c) <==>
            && Unset(c.globals.warmupCoolantC) && Unset(c.globals.rotorMaxV)
            && forall i :: 0 <= i < PROFILES ==> ProfileLeft(w, c.prim, base.profiles[i], c.profiles[i])
  {
    BlocksReturn(w, c);
    hide Valid, ConfigFloats.Real32, ConfigDocRound.PrimsSurvive, ConfigDocRound.GlobalsSurvive, ConfigDocRound.Survives,
      ConfigDocRound.ProfileSurvives, ProfileLeft, Unset;
    forall i | 0 <= i < PROFILES
      ensures ConfigDocRound.ProfileSurvives(w, c.prim, base.profiles[i], c.profiles[i]) <==>
              ProfileLeft(w, c.prim, base.profiles[i], c.profiles[i])
    {
      ValidParts(c, i);
      ProfileReturns(w, c.prim, base.profiles[i], c.profiles[i], i);
    }
  }
}
