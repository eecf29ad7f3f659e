/** The two-stage charge engine of control/Src/control.c, phase by phase. */
module Engine {
  import opened Words
  import opened Float
  import Field
  import Faults
  import Arbitration

  datatype State = Standby | Bulk | Floating
  datatype Reason = Off | Warmup | Resting | Latched

  /** The engine's persistent context (ctrl_t). */
  datatype Eng = Eng(
    state: State, reason: Reason, effort: F, cmdPower: F, timeIn: u32, faults: Faults.Word,
    ahSince: F, vCtrl: F, vRevert: F, pTail: F,
    warmup: u32, tailHold: u32, revertHold: u32, vclampHold: u32,
    guard: Field.Guard, probe: u32)

  datatype RpmState = Valid | Stale | Lost

  datatype Measured = Measured(
    vbat: F, vcomp: F, amps: F, watts: F, batteryTruth: bool, vSupply: F,
    altHotspotC: F, battC: F, driverC: F, rpm: F, rpmState: RpmState, running: bool,
    soc: F, socTrusted: bool, ignition: bool, ext: Faults.Word)

  datatype Profile = Profile(
    cvTargetV: F, exitAtCv: bool, zeroRest: bool, restV: F, restCapW: F,
    revertV: F, revertHoldS: u16, socRevert: int, ahRevert: F)

  datatype Globals = Globals(
    cells: u8, maxChargeW: F, rampWps: F, tailW: F, tailHoldS: u16, vclampS: u16, cvHoldMin: u16,
    chargeMaxMin: u16, warmupS: u16, socTarget: int, skipBulkV: F, skipBulkSoc: int,
    rotor: Field.Rotor, limpV: F, limpCapW: F, requireBattTemp: bool)

  datatype Command = Command(effort: F, duty: F, open: bool, state: State, reason: Reason, faults: Faults.Word)

  const OVERVOLTAGE: nat := 0
  const SELF_OVERTEMP: nat := 4
  const BATT_LOWTEMP: nat := 9
  const BATT_HIGHTEMP: nat := 10
  const LOST_VBAT: nat := 11
  const VSUP_IMPLAUSIBLE: nat := 16
  const BATT_TEMP_REQUIRED: nat := 17
  const DRIVER_OVERTEMP: nat := 18

  const DETECT_EFFORT: real := 0.05
  const PROBE_PERIOD_MS: nat := 500
  const PROBE_ON_MS: nat := 50

  const Initial: Eng :=
    Eng(Standby, Off, Fin(0.0), Fin(0.0), 0, {}, Fin(0.0), NaN, NaN, NaN, 0, 0, 0, 0, Field.FRESH, 0)

  function CellCount(g: Globals): u8 { if g.cells == 0 then 1 else g.cells }

  function Seconds(dt: u32): real { dt as real / 1000.0 }

  function Num(n: int): F { Fin(n as real) }

  /** A threshold on a measurement that may be missing. */
  predicate AtLeast(x: F, limit: real) { !x.NaN? && Ge(x, Fin(limit)) }

  predicate AtMost(x: F, limit: real) { !x.NaN? && Le(x, Fin(limit)) }

  function PerCell(v: F, g: Globals): F { Scale(v, 1.0 / CellCount(g) as real) }

  function Pack(v: F, g: Globals): F { Scale(v, CellCount(g) as real) }

  // ---- damped signals --------------------------------------------------------------------------------

  function Ema(prev: F, x: F, tau: real, dt: real): F
    requires tau > 0.0 && dt >= 0.0
  {
    if prev.NaN? then x else Add(prev, Scale(Sub(x, prev), dt / (tau + dt)))
  }

  predicate CountsAh(e: Eng, m: Measured)
  {
    (e.state == Floating || (e.state == Standby && e.reason == Resting)) && m.batteryTruth && Finite(m.amps)
  }

  function AhNext(ah: F, m: Measured, dt: u32): F
  {
    var x := Sub(ah, Scale(m.amps, Seconds(dt) / 3600.0));
    if Lt(x, Fin(0.0)) then Fin(0.0) else x
  }

  function Damped(e: Eng, m: Measured, g: Globals, dt: u32): Eng
  {
    e.(timeIn := Wrap32(e.timeIn + dt),
       vCtrl := Ema(e.vCtrl, m.vcomp, 1.0, Seconds(dt)),
       vRevert := Ema(e.vRevert, m.vcomp, 30.0, Seconds(dt)),
       pTail := Ema(e.pTail, m.watts, 60.0, Seconds(dt)),
       guard := Field.GuardNext(e.guard, m.vSupply, m.vbat, CellCount(g), dt),
       ahSince := if CountsAh(e, m) then AhNext(e.ahSince, m, dt) else e.ahSince)
  }

  // ---- faults ----------------------------------------------------------------------------------------

  function Bit(c: bool, b: nat): Faults.Word { if c then {b} else {} }

  /** What the raw signals say this cycle. */
  function LiveFaults(m: Measured, g: Globals, vsupBad: bool): Faults.Word
  {
    Bit(vsupBad, VSUP_IMPLAUSIBLE) +
    Bit(!m.vbat.NaN? && Ge(PerCell(m.vbat, g), Fin(3.70)), OVERVOLTAGE) + Bit(m.vbat.NaN?, LOST_VBAT) +
    Bit(AtLeast(m.altHotspotC, 120.0) || AtLeast(m.driverC, 120.0), SELF_OVERTEMP) +
    Bit(AtLeast(m.driverC, 125.0), DRIVER_OVERTEMP) +
    Bit(AtMost(m.battC, 0.0), BATT_LOWTEMP) + Bit(AtLeast(m.battC, 55.0), BATT_HIGHTEMP) +
    Bit(m.battC.NaN? && g.requireBattTemp, BATT_TEMP_REQUIRED)
  }

  /** OPEN-class faults latch; the rest are recomputed and merged with those of other
      modules. */
  function FaultsNow(e: Eng, m: Measured, g: Globals, vsupBad: bool): Faults.Word
  {
    (e.faults * Faults.OPEN) + LiveFaults(m, g, vsupBad) + m.ext
  }

  // ---- the state machine -----------------------------------------------------------------------------

  function Entered(e: Eng, s: State, r: Reason): Eng
  {
    e.(state := s, reason := r, timeIn := 0, tailHold := 0, revertHold := 0, vclampHold := 0)
  }

  function RevertHold(e: Eng, p: Profile, g: Globals, dt: u32): u32
  {
    if Le(e.vRevert, Pack(p.revertV, g)) then Wrap32(e.revertHold + dt) else 0
  }

  /** T3: held below the revert voltage, or a trusted state of charge, or the Ah taken out. */
  predicate RevertMet(e: Eng, m: Measured, p: Profile, g: Globals, dt: u32)
  {
    || (Le(e.vRevert, Pack(p.revertV, g)) && RevertHold(e, p, g, dt) >= p.revertHoldS * 1000)
    || (p.socRevert >= 0 && m.socTrusted && Ge(m.soc, Fin(0.0)) && Le(m.soc, Num(p.socRevert)))
    || (m.batteryTruth && Gt(p.ahRevert, Fin(0.0)) && Ge(e.ahSince, p.ahRevert))
  }

  function RevertStep(e: Eng, m: Measured, p: Profile, g: Globals, dt: u32): Eng
  {
    if RevertMet(e, m, p, g, dt) then Entered(e, Bulk, Off) else e.(revertHold := RevertHold(e, p, g, dt))
  }

  predicate AlreadyFull(e: Eng, m: Measured, g: Globals)
  {
    || (Gt(g.skipBulkV, Fin(0.0)) && !e.vCtrl.NaN? && Ge(PerCell(e.vCtrl, g), g.skipBulkV))
    || (g.skipBulkSoc > 0 && m.socTrusted && Ge(m.soc, Num(g.skipBulkSoc)))
  }

  /** Charged: count Ah from here and rest, at zero or holding. */
  function Rested(e: Eng, p: Profile): Eng
  {
    var f := e.(ahSince := Fin(0.0));
    if p.zeroRest then Entered(f, Standby, Resting) else Entered(f, Floating, Off)
  }

  function WarmupStep(e: Eng, m: Measured, p: Profile, g: Globals, dt: u32): Eng
  {
    var f := e.(warmup := Wrap32(e.warmup + dt));
    if g.warmupS == 0 || f.warmup >= g.warmupS * 1000 then
      if AlreadyFull(f, m, g) then Rested(f, p) else Entered(f, Bulk, Off)
    else f
  }

  function StandbyStep(e: Eng, m: Measured, p: Profile, g: Globals, dt: u32): Eng
  {
    var f := if e.reason == Off || e.reason == Latched then Entered(e, Standby, Warmup).(warmup := 0) else e;
    if f.reason == Warmup then WarmupStep(f, m, p, g, dt)
    else if f.reason == Resting then RevertStep(f, m, p, g, dt)
    else f
  }

  predicate AtCv(e: Eng, p: Profile, g: Globals)
  {
    Ge(e.vCtrl, Sub(Pack(p.cvTargetV, g), Fin(0.01 * CellCount(g) as real)))
  }

  predicate InTail(e: Eng, m: Measured, p: Profile, g: Globals) { m.batteryTruth && AtCv(e, p, g) && Le(e.pTail, g.tailW) }

  /** The hold timers of BULK after this cycle. */
  function BulkHeld(e: Eng, m: Measured, p: Profile, g: Globals, dt: u32): Eng
  {
    e.(vclampHold := if AtCv(e, p, g) then Wrap32(e.vclampHold + dt) else 0,
       tailHold := if p.exitAtCv then e.tailHold else if InTail(e, m, p, g) then Wrap32(e.tailHold + dt) else 0)
  }

  /** T2: any of the charged exits; `f` has the hold timers of this cycle. */
  predicate Charged(f: Eng, m: Measured, p: Profile, g: Globals)
  {
    || (if p.exitAtCv then f.vclampHold >= g.vclampS * 1000
        else
          || (g.cvHoldMin > 0 && f.vclampHold >= g.cvHoldMin * 60000)
          || (InTail(f, m, p, g) && f.tailHold >= g.tailHoldS * 1000)
          || (g.socTarget >= 0 && m.socTrusted && Ge(m.soc, Num(g.socTarget))))
    || f.timeIn >= g.chargeMaxMin * 60000
  }

  function BulkStep(e: Eng, m: Measured, p: Profile, g: Globals, dt: u32): Eng
  {
    var f := BulkHeld(e, m, p, g, dt);
    if Charged(f, m, p, g) then Rested(f, p) else f
  }

  predicate EnabledNow(m: Measured, faults: Faults.Word)
  {
    m.ignition && faults * Faults.OPEN == {} && faults * Faults.BLOCK == {}
  }

  predicate LimpNow(faults: Faults.Word) { Faults.DispositionOf(faults) == Faults.LimpHome }

  /** T1 to T4 on damped signals, for an engine whose faults are up to date. */
  function Advanced(e: Eng, m: Measured, p: Profile, g: Globals, dt: u32): Eng
  {
    if !EnabledNow(m, e.faults) then Entered(e, Standby, if e.faults * Faults.OPEN != {} then Latched else Off)
    else if LimpNow(e.faults) then (if e.state != Floating then Entered(e, Floating, Off) else e)
    else
      match e.state
      case Standby => StandbyStep(e, m, p, g, dt)
      case Bulk => BulkStep(e, m, p, g, dt)
      case Floating => RevertStep(e, m, p, g, dt)
  }

  // ---- the field -------------------------------------------------------------------------------------

  function StageW(e: Eng, p: Profile, g: Globals): F
  {
    if e.state == Bulk then g.maxChargeW else if LimpNow(e.faults) then g.limpCapW else p.restCapW
  }

  function StageV(e: Eng, p: Profile, g: Globals): F
  {
    if e.state == Bulk then p.cvTargetV else if LimpNow(e.faults) then g.limpV else p.restV
  }

  /** Commanded power ramps up and falls at once. */
  function Ramped(cmd: F, target: F, step: F): F
  {
    if Gt(target, cmd) then
      var up := Add(cmd, step);
      if Gt(up, target) then target else up
    else target
  }

  /** A demand made safe for the PWM. */
  function SafeEffort(x: F): (y: F)
    ensures y.Fin? && 0.0 <= y.r <= 1.0
  {
    if !Finite(x) || x.r < 0.0 then Fin(0.0) else if x.r > 1.0 then Fin(1.0) else x
  }

  function Demand(e: Eng, cmd: F, m: Measured, p: Profile, g: Globals, dt: u32): F
  {
    var fromV := Add(e.effort, Scale(Sub(Pack(StageV(e, p, g), g), e.vCtrl), 2.0 * Seconds(dt)));
    var fromP := Add(e.effort, Scale(Sub(cmd, m.watts), 0.001 * Seconds(dt)));
    if Le(fromV, fromP) then fromV else fromP
  }

  function Driven(e: Eng, m: Measured, ceilings: seq<F>, p: Profile, g: Globals, dt: u32): Eng
  {
    if e.state == Standby || e.vCtrl.NaN? then e.(effort := Fin(0.0), cmdPower := Fin(0.0))
    else
      var arb := Arbitration.Arbitrated(StageW(e, p, g), ceilings).watts;
      var cmd := Ramped(e.cmdPower, arb, Scale(g.rampWps, Seconds(dt)));
      e.(cmdPower := cmd,
         effort := if Le(arb, Fin(0.0)) then Fin(0.0) else SafeEffort(Demand(e, cmd, m, p, g, dt)))
  }

  predicate RunDetected(m: Measured)
  {
    m.running || (m.rpmState != Lost && Finite(m.rpm) && Gt(m.rpm, Fin(0.0)))
  }

  /** The probe's phase after a cycle without rotation. */
  function ProbeNext(probe: u32, dt: u32): u32
  {
    var p := Wrap32(probe + dt);
    if p >= PROBE_PERIOD_MS then 0 else p
  }

  function Budget(probe: u32): F { Fin(if probe < PROBE_ON_MS then DETECT_EFFORT else 0.0) }

  predicate Gates(e: Eng, m: Measured) { e.state != Standby && !RunDetected(m) }

  /** Without rotation the field is held to the detect budget. */
  function Gated(e: Eng, m: Measured, dt: u32): Eng
  {
    if Gates(e, m) then
      var q := ProbeNext(e.probe, dt);
      e.(probe := q, cmdPower := Fin(0.0), effort := if Gt(e.effort, Budget(q)) then Budget(q) else e.effort)
    else e.(probe := 0)
  }

  // ---- one cycle -------------------------------------------------------------------------------------

  function VettedSupply(e: Eng, m: Measured, g: Globals, dt: u32): Field.Vetted
  {
    Field.GuardOut(e.guard, m.vSupply, m.vbat, CellCount(g), dt)
  }

  function Sensed(e: Eng, m: Measured, g: Globals, dt: u32): Eng
  {
    Damped(e, m, g, dt).(faults := FaultsNow(e, m, g, VettedSupply(e, m, g, dt).implausible))
  }

  function Ticked(e: Eng, m: Measured, ceilings: seq<F>, p: Profile, g: Globals, dt: u32): Eng
  {
    Gated(Driven(Advanced(Sensed(e, m, g, dt), m, p, g, dt), m, ceilings, p, g, dt), m, dt)
  }

  /** The field command of a cycle that ended in `e` and began in `was`. */
  function CommandOf(was: Eng, e: Eng, m: Measured, g: Globals, dt: u32): Command
  {
    Command(e.effort, Field.Duty(e.effort, Field.DutyMax(g.rotor, VettedSupply(was, m, g, dt).v)),
            e.state == Standby, e.state, e.reason, e.faults)
  }
}
