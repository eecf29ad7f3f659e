/** The configs that control/Src/config_validate.c accepts, as a list of bounds on their members
    with the tolerances worked in, apart from the order in which the rules are tried. */
module ConfigBounds {
  import opened Words
  import opened Float
  import opened ConfigCodec
  import opened ConfigValid
  import ConfigDoc

  /** The pattern is a number between these two. */
  predicate Between(b: u32, lo: real, hi: real) { Read(b).Fin? && lo <= Read(b).r <= hi }

  predicate NotNegative(b: u32) { Read(b).Fin? && Read(b).r >= 0.0 }

  predicate Steps(b: u32, c: u32, gap: real) { Read(b).Fin? && Read(c).Fin? && Read(b).r - Read(c).r >= gap }

  predicate Same(b: u32, c: u32)
  {
    Read(b).Fin? && Read(c).Fin? && Read(b).r - Read(c).r <= 0.0001 && Read(c).r - Read(b).r <= 0.0001
  }

  predicate VoltageBounds(p: Primitives)
  {
    && Between(p.vBulk, 3.4499, 3.6501) && Between(p.vBulkCons, 3.3999, 3.5801) && Between(p.vFloat, 3.3299, 3.4501)
    && Between(p.vFloatCons, 3.2799, 3.4001) && Between(p.vLimp, 3.1999, 3.3501)
    && Steps(p.vBulk, p.vBulkCons, 0.0299) && Steps(p.vBulkCons, p.vFloat, 0.0299)
    && Steps(p.vFloat, p.vFloatCons, 0.0199) && Steps(p.vFloatCons, p.vLimp, 0.0199)
  }

  predicate ChargeBounds(g: Globals, p: Primitives)
  {
    && Same(g.limpV, p.vLimp) && 4 <= g.cells <= 16 && Between(g.bankAh, 40.0, 3000.0)
    && Between(g.maxChargeW, 100.0, 20000.0) && Between(g.rampWps, 10.0, 1000.0)
    && 2 <= g.vclampS <= 30 && 60 <= g.chargeMaxMin <= 1440 && 10 <= g.tailHoldS <= 600 && g.warmupS <= 600
    && (Read(g.warmupCoolantC).NaN? || Between(g.warmupCoolantC, 20.0, 90.0))
    && (g.socTarget == 255 || 70 <= g.socTarget <= 100)
  }

  /** One hundredth to one tenth of the capacity an hour, at 3.45 V for each cell, with a
      millionth of the upper end to spare at both. */
  predicate TailBounds(g: Globals)
  {
    Read(g.bankAh).Fin? && var c := Times(Read(g.bankAh).r, g.cells as real * 3.45);
                           Between(g.tailW, 0.0099999 * c, 0.1000001 * c)
  }

  predicate FieldBounds(g: Globals)
  {
    && Read(g.rotorRatedV).Fin? && Read(g.rotorRatedV).r > 0.0
    && (Read(g.rotorMaxV).NaN? || (Read(g.rotorMaxV).Fin? && Read(g.rotorMaxV).r > 0.0))
    && NotNegative(g.limpCapW) && NotNegative(g.skipBulkV)
    && g.battTempSrc <= 2 && (g.skipBulkSoc <= 100 || g.skipBulkSoc >= 128)
  }

  predicate LimitBounds(l: Limits) { NotNegative(l.batteryC) && NotNegative(l.wiringA) && NotNegative(l.alternatorA) }

  /** A voltage equals the primitive it names, or, naming none, lies in the span. */
  predicate VoltageFits(ref: u8, v: u32, p: Primitives)
  {
    match ref
    case 0 => Between(v, 3.1999, 3.6501)
    case 1 => Same(v, p.vBulk)
    case 2 => Same(v, p.vBulkCons)
    case 3 => Same(v, p.vFloat)
    case 4 => Same(v, p.vFloatCons)
    case 5 => Same(v, p.vLimp)
    case _ => false
  }

  /** A profile in use: a zero rest does not look at the rest voltage and its power. */
  predicate ProfileBounds(pr: Profile, p: Primitives)
  {
    && pr.restMode <= 1 && VoltageFits(pr.cvRef, pr.cvTargetV, p)
    && (pr.restMode == 1 || (VoltageFits(pr.restRef, pr.restV, p) && NotNegative(pr.restCapW)))
    && NotNegative(pr.revertV) && NotNegative(pr.ahRevert) && (pr.socRevert <= 100 || pr.socRevert == 255)
  }

  predicate InUse(p: Profile) { p.flags % 2 == 0 }

  predicate Bounds(c: Config)
  {
    && VoltageBounds(c.prim) && ChargeBounds(c.globals, c.prim) && TailBounds(c.globals) && FieldBounds(c.globals)
    && LimitBounds(c.limits)
    && (forall i :: 0 <= i < PROFILES ==>
          c.profiles[i].id == i + 1 && (InUse(c.profiles[i]) ==> ProfileBounds(c.profiles[i], c.prim)))
    && 1 <= c.active <= PROFILES && InUse(c.profiles[c.active - 1])
  }

  // ---- the validator accepts these and no others ----------------------------------------------------

  lemma BetweenIs(b: u32, lo: real, hi: real, eps: real)
    ensures InRange(Read(b), lo, hi, eps) <==> Between(b, lo - eps, hi + eps)
  {
    hide Read;
  }

  lemma StepsIs(b: u32, c: u32, gap: real)
    requires Read(b).Fin? && Read(c).Fin?
    ensures Above(Read(b), Read(c), gap) <==> Steps(b, c, gap - 0.0001)
  {
    hide Read;
  }

  lemma SameIs(b: u32, c: u32)
    requires Read(c).Fin?
    ensures Near(Read(b), Read(c)) <==> Same(b, c)
  {
    hide Read;
  }

  lemma VoltagesAre(p: Primitives)
    ensures PrimitivesFault(p).None? <==> VoltageBounds(p)
  {
    hide Read, InRange, Above, Steps;
    BetweenIs(p.vBulk, 3.45, 3.65, 0.0001);
    BetweenIs(p.vBulkCons, 3.40, 3.58, 0.0001);
    BetweenIs(p.vFloat, 3.33, 3.45, 0.0001);
    BetweenIs(p.vFloatCons, 3.28, 3.40, 0.0001);
    BetweenIs(p.vLimp, 3.20, 3.35, 0.0001);
    if PrimitivesFault(p).None? || VoltageBounds(p) {
      StepsIs(p.vBulk, p.vBulkCons, 0.03);
      StepsIs(p.vBulkCons, p.vFloat, 0.03);
      StepsIs(p.vFloat, p.vFloatCons, 0.02);
      StepsIs(p.vFloatCons, p.vLimp, 0.02);
    }
  }

  lemma TailIs(g: Globals)
    requires Between(g.bankAh, 40.0, 3000.0)
    ensures TailInWindow(g) <==> TailBounds(g)
  {
    var c := Times(Read(g.bankAh).r, g.cells as real * 3.45);
    assert Scale(Read(g.bankAh), g.cells as real * 3.45) == Fin(c);
    hide Read, InRange, Between, Times;
    BetweenIs(g.tailW, 0.01 * c, 0.10 * c, 0.10 * c * 0.000001);
    assert 0.01 * c - 0.10 * c * 0.000001 == 0.0099999 * c && 0.10 * c + 0.10 * c * 0.000001 == 0.1000001 * c;
  }

  lemma ChargeIs(g: Globals, p: Primitives)
    requires Read(p.vLimp).Fin?
    ensures ChargeFault(g, p).None? <==> ChargeBounds(g, p) && TailBounds(g)
  {
    hide Read, InRange, Near, Same, TailInWindow, TailBounds;
    SameIs(g.limpV, p.vLimp);
    BetweenIs(g.bankAh, 40.0, 3000.0, 0.0);
    BetweenIs(g.maxChargeW, 100.0, 20000.0, 0.0);
    BetweenIs(g.rampWps, 10.0, 1000.0, 0.0);
    BetweenIs(g.warmupCoolantC, 20.0, 90.0, 0.0);
    if Between(g.bankAh, 40.0, 3000.0) { TailIs(g); }
  }

  lemma FieldIs(g: Globals)
    ensures FieldFault(g).None? <==> FieldBounds(g)
  {
    hide Read;
  }

  lemma LimitsIs(l: Limits)
    ensures LimitsFault(l).None? <==> LimitBounds(l)
  {
    hide Read;
  }

  lemma VoltageIs(ref: u8, v: u32, p: Primitives, a: Code, b: Code)
    requires VoltageBounds(p)
    ensures VoltageFault(ref, v, p, a, b).None? <==> VoltageFits(ref, v, p)
  {
    hide Read, InRange, Near, Same, Steps;
    BetweenIs(v, 3.20, 3.65, 0.0001);
    NumberIsNotNaN(p.vBulk);
    NumberIsNotNaN(p.vBulkCons);
    NumberIsNotNaN(p.vFloat);
    NumberIsNotNaN(p.vFloatCons);
    NumberIsNotNaN(p.vLimp);
    SameIs(v, p.vBulk);
    SameIs(v, p.vBulkCons);
    SameIs(v, p.vFloat);
    SameIs(v, p.vFloatCons);
    SameIs(v, p.vLimp);
    assert !Near(Read(v), NaN) by { NearNothing(Read(v)); }
  }

  lemma NearNothing(v: F)
    ensures !Near(v, NaN)
  {}

  lemma NumberIsNotNaN(b: u32)
    requires Read(b).Fin?
    ensures !ConfigDoc.IsNaN(b)
  {}

  lemma ProfileIs(pr: Profile, p: Primitives, i: nat)
    requires VoltageBounds(p)
    ensures ProfileFault(pr, p, i).None? <==> pr.id == i + 1 && (InUse(pr) ==> ProfileBounds(pr, p))
  {
    hide Read, VoltageFault, VoltageFits, VoltageBounds;
    VoltageIs(pr.cvRef, pr.cvTargetV, p, CvRef, CvRange);
    VoltageIs(pr.restRef, pr.restV, p, RestRef, RestRange);
  }

  lemma {:induction false} TableIs(t: ProfileTable, p: Primitives, i: nat)
    requires VoltageBounds(p) && i <= PROFILES
    ensures ProfilesFault(t, p, i).None? <==>
            forall k :: i <= k < PROFILES ==> t[k].id == k + 1 && (InUse(t[k]) ==> ProfileBounds(t[k], p))
    decreases PROFILES - i
  {
    hide VoltageBounds, ProfileFault, ProfileBounds;
    if i < PROFILES {
      ProfileIs(t[i], p, i);
      TableIs(t, p, i + 1);
    }
  }

  /** A config is valid exactly if every member is within its bounds. */
  lemma ValidIsBounds(c: Config)
    ensures Valid(c) <==> Bounds(c)
  {
    hide PrimitivesFault, ChargeFault, FieldFault, LimitsFault, ProfilesFault, ChargeBounds, TailBounds, FieldBounds, LimitBounds,
      ProfileBounds, Steps, Read;
    VoltagesAre(c.prim);
    FieldIs(c.globals);
    LimitsIs(c.limits);
    if VoltageBounds(c.prim) {
      ChargeIs(c.globals, c.prim);
      TableIs(c.profiles, c.prim, 0);
    }
  }

  // ---- a rejection tells the truth --------------------------------------------------------------------

  /** What each code says is wrong with the config, or with the profile it names. */
  predicate Tells(c: Config, code: Code, k: int)
  {
    var (p, g) := (c.prim, c.globals);
    match code
    case FloorLimp => !Read(p.vLimp).PosInf? && !(Read(p.vLimp).Fin? && Read(p.vLimp).r >= 3.1999)
    case RangeVBulk => !Between(p.vBulk, 3.4499, 3.6501)
    case RangeVBulkCons => !Between(p.vBulkCons, 3.3999, 3.5801)
    case RangeVFloat => !Between(p.vFloat, 3.3299, 3.4501)
    case RangeVFloatCons => !Between(p.vFloatCons, 3.2799, 3.4001)
    case RangeVLimp => !Between(p.vLimp, 3.1999, 3.3501)
    case OrderBulkCons => !Steps(p.vBulk, p.vBulkCons, 0.0299)
    case OrderConsFloat => !Steps(p.vBulkCons, p.vFloat, 0.0299)
    case OrderFloatFcons => !Steps(p.vFloat, p.vFloatCons, 0.0199)
    case OrderFconsLimp => !Steps(p.vFloatCons, p.vLimp, 0.0199)
    case LimpMismatch => !Same(g.limpV, p.vLimp)
    case RangeCells => g.cells < 4 || g.cells > 16
    case RangeBankAh => !Between(g.bankAh, 40.0, 3000.0)
    case RangeMaxPower => !Between(g.maxChargeW, 100.0, 20000.0)
    case RangeRamp => !Between(g.rampWps, 10.0, 1000.0)
    case RangeVclamp => g.vclampS < 2 || g.vclampS > 30
    case RangeChargeMax => g.chargeMaxMin < 60 || g.chargeMaxMin > 1440
    case RangeWarmup => g.warmupS > 600
    case RangeCoolant => !Read(g.warmupCoolantC).NaN? && !Between(g.warmupCoolantC, 20.0, 90.0)
    case RangeSocTarget => g.socTarget != 255 && (g.socTarget < 70 || g.socTarget > 100)
    case RangeTail => !TailBounds(g)
    case RangeTailHold => g.tailHoldS < 10 || g.tailHoldS > 600
    case RotorRated => !(Read(g.rotorRatedV).Fin? && Read(g.rotorRatedV).r > 0.0)
    case RotorMax => !Read(g.rotorMaxV).NaN? && !(Read(g.rotorMaxV).Fin? && Read(g.rotorMaxV).r > 0.0)
    case LimpPowerCap => !NotNegative(g.limpCapW)
    case RangeBattTempSrc => g.battTempSrc > 2
    case SkipBulkVcell => !NotNegative(g.skipBulkV)
    case RangeSkipBulkSoc => 100 < g.skipBulkSoc < 128
    case BatteryC => !NotNegative(c.limits.batteryC)
    case WiringA => !NotNegative(c.limits.wiringA)
    case AlternatorA => !NotNegative(c.limits.alternatorA)
    case _ => TellsOfProfile(c, code, k)
  }

  predicate TellsOfProfile(c: Config, code: Code, k: int)
  {
    if code == ActiveProfile then
      if k == -1 then c.active < 1 || c.active > 7 else k == c.active - 1 && 0 <= k < PROFILES && !InUse(c.profiles[k])
    else 0 <= k < PROFILES && Wrong(c.profiles[k], c.prim, code, k)
  }

  predicate Wrong(pr: Profile, p: Primitives, code: Code, k: nat)
  {
    if code == ProfileId then pr.id != k + 1
    else
      InUse(pr) &&
      match code
      case RestMode => pr.restMode > 1
      case CvRef => pr.cvRef != 0 && !VoltageFits(pr.cvRef, pr.cvTargetV, p)
      case CvRange => pr.cvRef == 0 && !VoltageFits(pr.cvRef, pr.cvTargetV, p)
      case RestRef => pr.restMode == 0 && pr.restRef != 0 && !VoltageFits(pr.restRef, pr.restV, p)
      case RestRange => pr.restMode == 0 && pr.restRef == 0 && !VoltageFits(pr.restRef, pr.restV, p)
      case RestPowerCap => pr.restMode == 0 && !NotNegative(pr.restCapW)
      case RevertV => !NotNegative(pr.revertV)
      case RangeSocRevert => 100 < pr.socRevert < 255
      case AhRevert => !NotNegative(pr.ahRevert)
      case _ => false
  }

  lemma VoltagesTell(c: Config, code: Code)
    requires PrimitivesFault(c.prim) == Some(code)
    ensures Tells(c, code, -1)
  {
    var p := c.prim;
    assert code == FloorLimp ==> Tells(c, code, -1) by { FloorIs(Read(p.vLimp)); }
    hide Read, InRange, Above, Steps;
    BetweenIs(p.vBulk, 3.45, 3.65, 0.0001);
    BetweenIs(p.vBulkCons, 3.40, 3.58, 0.0001);
    BetweenIs(p.vFloat, 3.33, 3.45, 0.0001);
    BetweenIs(p.vFloatCons, 3.28, 3.40, 0.0001);
    BetweenIs(p.vLimp, 3.20, 3.35, 0.0001);
    if Between(p.vBulk, 3.4499, 3.6501) && Between(p.vBulkCons, 3.3999, 3.5801) && Between(p.vFloat, 3.3299, 3.4501)
       && Between(p.vFloatCons, 3.2799, 3.4001) && Between(p.vLimp, 3.1999, 3.3501) {
      StepsIs(p.vBulk, p.vBulkCons, 0.03);
      StepsIs(p.vBulkCons, p.vFloat, 0.03);
      StepsIs(p.vFloat, p.vFloatCons, 0.02);
      StepsIs(p.vFloatCons, p.vLimp, 0.02);
    }
  }

  lemma FloorIs(v: F)
    ensures !Ge(v, Fin(3.1999)) ==> !(v.Fin? && v.r >= 3.1999) && !v.PosInf?
  {}

  lemma ChargeTells(c: Config, code: Code)
    requires VoltageBounds(c.prim) && ChargeFault(c.globals, c.prim) == Some(code)
    ensures Tells(c, code, -1)
  {
    hide Read, InRange, Near, Same, TailInWindow, TailBounds, Steps;
    var g := c.globals;
    SameIs(g.limpV, c.prim.vLimp);
    BetweenIs(g.bankAh, 40.0, 3000.0, 0.0);
    BetweenIs(g.maxChargeW, 100.0, 20000.0, 0.0);
    BetweenIs(g.rampWps, 10.0, 1000.0, 0.0);
    BetweenIs(g.warmupCoolantC, 20.0, 90.0, 0.0);
    if Between(g.bankAh, 40.0, 3000.0) { TailIs(g); }
  }

  lemma FieldTells(c: Config, code: Code)
    requires FieldFault(c.globals) == Some(code)
    ensures Tells(c, code, -1)
  {
    hide Read, TailBounds, Between;
  }

  lemma RestTells(pr: Profile, p: Primitives, code: Code, k: nat)
    requires VoltageBounds(p) && InUse(pr) && pr.restMode <= 1 && RestFault(pr, p) == Some(code)
    ensures code in {RestRef, RestRange, RestPowerCap} && Wrong(pr, p, code, k)
  {
    hide Read, VoltageFits, VoltageBounds, InRange, Near;
    VoltageIs(pr.restRef, pr.restV, p, RestRef, RestRange);
  }

  lemma RevertTells(pr: Profile, p: Primitives, code: Code, k: nat)
    requires InUse(pr) && RevertFault(pr) == Some(code)
    ensures code in {RevertV, RangeSocRevert, AhRevert} && Wrong(pr, p, code, k)
  {
    hide Read, VoltageFits;
  }

  lemma ProfileTells(pr: Profile, p: Primitives, code: Code, k: nat)
    requires VoltageBounds(p) && ProfileFault(pr, p, k) == Some(code)
    ensures Wrong(pr, p, code, k)
    ensures code in {ProfileId, RestMode, CvRef, CvRange, RestRef, RestRange, RestPowerCap, RevertV, RangeSocRevert, AhRevert}
  {
    hide Read, VoltageFits, VoltageBounds, InRange, Near, RestFault, RevertFault;
    VoltageIs(pr.cvRef, pr.cvTargetV, p, CvRef, CvRange);
    if pr.id != k + 1 || pr.restMode > 1 || VoltageFault(pr.cvRef, pr.cvTargetV, p, CvRef, CvRange).Some? {
    } else if RestFault(pr, p).Some? {
      RestTells(pr, p, RestFault(pr, p).value, k);
    } else {
      RevertTells(pr, p, RevertFault(pr).value, k);
    }
  }

  lemma {:induction false} TableTells(t: ProfileTable, p: Primitives, i: nat)
    requires VoltageBounds(p) && i <= PROFILES && ProfilesFault(t, p, i).Some?
    ensures var (code, k) := ProfilesFault(t, p, i).value;
            && i <= k < PROFILES && ProfileFault(t[k], p, k) == Some(code)
            && forall j :: i <= j < k ==> ProfileFault(t[j], p, j).None?
    decreases PROFILES - i
  {
    hide VoltageBounds, ProfileFault;
    if ProfileFault(t[i], p, i).None? { TableTells(t, p, i + 1); }
  }

  /** The code of a rejection says something that is so, of the profile it comes with. */
  lemma VerdictTells(c: Config)
    requires Judged(c).Rejected?
    ensures Tells(c, Judged(c).code, Judged(c).profile)
  {
    hide PrimitivesFault, ChargeFault, FieldFault, ProfilesFault, ProfileFault, Wrong, Read;
    VoltagesAre(c.prim);
    if PrimitivesFault(c.prim).Some? { VoltagesTell(c, PrimitivesFault(c.prim).value); }
    else if ChargeFault(c.globals, c.prim).Some? { ChargeTells(c, ChargeFault(c.globals, c.prim).value); }
    else if FieldFault(c.globals).Some? { FieldTells(c, FieldFault(c.globals).value); }
    else if LimitsFault(c.limits).None? && ProfilesFault(c.profiles, c.prim, 0).Some? {
      TableTells(c.profiles, c.prim, 0);
      var (code, k) := ProfilesFault(c.profiles, c.prim, 0).value;
      ProfileTells(c.profiles[k], c.prim, code, k);
    }
  }
}
