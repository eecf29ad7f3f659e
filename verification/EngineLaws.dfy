/** When the engine does what it does, told from the readings and the history of a run: which
    reading raises which fault, how long a condition must have held before a stage is left,
    how fast the damped signals move. None of it refers to the timers the firmware keeps. */
module EngineLaws {
  import opened Words
  import opened Float
  import opened Engine
  import opened EngineSafety
  import Field
  import Faults
  import Arbitration

  // ---- readings ------------------------------------------------------------------------------------

  predicate Up(x: F, limit: real) { x.PosInf? || (x.Fin? && x.r >= limit) }

  predicate Down(x: F, limit: real) { x.NegInf? || (x.Fin? && x.r <= limit) }

  /** Cells in series; a count of 0 is read as 1. */
  function SeriesCells(g: Globals): (n: real)
    ensures n >= 1.0
  {
    if g.cells == 0 then 1.0 else g.cells as real
  }

  /** A voltage for each cell, `off` added, as a voltage of the pack. */
  function PackVolts(v: F, off: real, n: real): F { if v.Fin? then Fin((v.r + off) * n) else v }

  // ---- what raises a fault -------------------------------------------------------------------------

  const LATCHING: set<nat> := {0, 1, 3, 5, 8, 15, 18}
  const BLOCKING: set<nat> := {9, 10, 17}
  const LIMPING: set<nat> := {6, 7, 11, 12, 13}

  /** The supply reading the clamp does not believe: below 2.0 V for each cell, or more than
      four percent below the level it trusts. */
  predicate Unbelievable(e: Eng, i: Input)
  {
    var h := Field.Higher(i.m.vSupply, i.m.vbat);
    h.Fin? && (h.r < 2.0 * SeriesCells(i.g) || (e.guard.track.Fin? && h.r < 0.96 * e.guard.track.r) || e.guard.track.PosInf?)
  }

  /** The readings of a cycle that raise fault `b`. */
  predicate Raises(e: Eng, i: Input, b: nat)
  {
    || (b == 0 && Up(i.m.vbat, 3.70 * SeriesCells(i.g)))
    || (b == 4 && (Up(i.m.altHotspotC, 120.0) || Up(i.m.driverC, 120.0)))
    || (b == 9 && Down(i.m.battC, 0.0))
    || (b == 10 && Up(i.m.battC, 55.0))
    || (b == 11 && i.m.vbat.NaN?)
    || (b == 16 && Unbelievable(e, i))
    || (b == 17 && i.m.battC.NaN? && i.g.requireBattTemp)
    || (b == 18 && Up(i.m.driverC, 125.0))
  }

  lemma PerCellUp(x: real, limit: real, n: real)
    requires n >= 1.0
    ensures x * (1.0 / n) >= limit <==> x >= limit * n
  {
    var y := x * (1.0 / n);
    assert y * n == x * ((1.0 / n) * n) == x;
    if y >= limit { assert (y - limit) * n >= 0.0; } else { assert (limit - y) * n > 0.0; }
  }

  lemma PerCellIs(v: F, g: Globals, limit: real)
    ensures !v.NaN? && Ge(PerCell(v, g), Fin(limit)) <==> Up(v, limit * SeriesCells(g))
  {
    var n := SeriesCells(g);
    assert CellCount(g) as real == n && 1.0 / n > 0.0;
    if v.Fin? { PerCellUp(v.r, limit, n); }
  }

  lemma UnbelievableIs(e: Eng, i: Input)
    ensures VettedSupply(e, i.m, i.g, i.dt).implausible <==> Unbelievable(e, i)
  {
    assert Field.Cells(CellCount(i.g)) == SeriesCells(i.g);
  }

  /** What a cycle leaves of the phases before the field is driven. */
  lemma FieldKeeps(e: Eng, i: Input)
    ensures var (f, a) := (After(e, i), Advanced(Sensed(e, i.m, i.g, i.dt), i.m, i.p, i.g, i.dt));
            f == a.(effort := f.effort, cmdPower := f.cmdPower, probe := f.probe)
  {
    hide Sensed, Advanced, Demand, Ramped, Arbitration.Arbitrated, ProbeNext, RunDetected;
  }

  /** A fault is reported in a cycle exactly if its reading is there, another module reports it,
      or it latched before. */
  lemma FaultBits(e: Eng, i: Input, b: nat)
    ensures b in After(e, i).faults <==> b in i.m.ext || Raises(e, i, b) || (b in e.faults && b in LATCHING)
  {
    hide Damped, Advanced, Raises, VettedSupply;
    FieldKeeps(e, i);
    AdvancedKeeps(Sensed(e, i.m, i.g, i.dt), i.m, i.p, i.g, i.dt);
    LiveIs(e, i, b);
  }

  lemma LiveIs(e: Eng, i: Input, b: nat)
    ensures b in LiveFaults(i.m, i.g, VettedSupply(e, i.m, i.g, i.dt).implausible) <==> Raises(e, i, b)
  {
    hide VettedSupply, Unbelievable, PerCell, Up;
    PerCellIs(i.m.vbat, i.g, 3.70);
    UnbelievableIs(e, i);
    LimitIs(i.m.altHotspotC, 120.0);
    LimitIs(i.m.driverC, 120.0);
    LimitIs(i.m.driverC, 125.0);
    LimitIs(i.m.battC, 55.0);
    LimitIs(i.m.battC, 0.0);
  }

  lemma LimitIs(x: F, limit: real)
    ensures (Engine.AtLeast(x, limit) <==> Up(x, limit)) && (AtMost(x, limit) <==> Down(x, limit))
  {}

  // ---- what a fault does ----------------------------------------------------------------------------

  predicate Any(f: Faults.Word, of: set<nat>) { f * of != {} }

  /** The engine may not run in this cycle. */
  predicate Stops(f: Faults.Word, i: Input) { !i.m.ignition || Any(f, LATCHING) || Any(f, BLOCKING) }

  lemma StopLaw(e: Eng, i: Input)
    ensures var f := After(e, i);
            && (Stops(f.faults, i) ==>
                  f.state == Standby && f.reason == (if Any(f.faults, LATCHING) then Latched else Off) && f.effort == Fin(0.0))
            && (!Stops(f.faults, i) && Any(f.faults, LIMPING) ==> f.state == Floating)
  {
    hide Sensed, StandbyStep, BulkStep, RevertStep;
    FieldKeeps(e, i);
    AdvancedKeeps(Sensed(e, i.m, i.g, i.dt), i.m, i.p, i.g, i.dt);
    AfterIsSafe(e, i);
    hide After;
  }

  /** At 3.70 V for each cell, or with the driver at 125 C, the field is opened and stays open for
      the rest of the run. */
  lemma DangerLatches(ins: seq<Input>, k: nat, j: nat)
    requires k < j <= |ins|
    requires Up(ins[k].m.vbat, 3.70 * SeriesCells(ins[k].g)) || Up(ins[k].m.driverC, 125.0)
    ensures StateAt(ins, j).state == Standby && StateAt(ins, j).reason == Latched && StateAt(ins, j).effort == Fin(0.0)
  {
    hide Ticked;
    var b := if Up(ins[k].m.driverC, 125.0) then 18 else 0;
    FaultBits(StateAt(ins, k), ins[k], b);
    OpenFaultLatches(ins, k + 1, j, b);
  }

  /** A battery too cold, too hot, or without the temperature it must have is not charged. */
  lemma BatteryTemperatureStops(ins: seq<Input>, k: nat)
    requires k < |ins|
    requires var m := ins[k].m; Down(m.battC, 0.0) || Up(m.battC, 55.0) || (m.battC.NaN? && ins[k].g.requireBattTemp)
    ensures StateAt(ins, k + 1).state == Standby && StateAt(ins, k + 1).effort == Fin(0.0)
  {
    hide After;
    var (e, i) := (StateAt(ins, k), ins[k]);
    var b := if Down(i.m.battC, 0.0) then 9 else if Up(i.m.battC, 55.0) then 10 else 17;
    FaultBits(e, i, b);
    assert b in After(e, i).faults * BLOCKING;
    StopLaw(e, i);
  }

  // ---- how long something has held ---------------------------------------------------------------------

  /** Neither stopped nor in Limp Home. */
  predicate Runs(ins: seq<Input>, k: nat)
    requires k < |ins|
  {
    var f := StateAt(ins, k + 1).faults;
    !Stops(f, ins[k]) && !Any(f, LIMPING)
  }

  /** The damped voltage is within 10 mV for each cell of the target, or above it. */
  predicate AtTarget(ins: seq<Input>, k: nat)
    requires k < |ins|
  {
    Ge(StateAt(ins, k + 1).vCtrl, PackVolts(ins[k].p.cvTargetV, -0.01, SeriesCells(ins[k].g)))
  }

  /** At the target with a trusted current, and the damped power is down to the tail. */
  predicate AtTail(ins: seq<Input>, k: nat)
    requires k < |ins|
  {
    ins[k].m.batteryTruth && AtTarget(ins, k) && Le(StateAt(ins, k + 1).pTail, ins[k].g.tailW)
  }

  /** The slowly damped voltage is at or below the one to revert at. */
  predicate Sagging(ins: seq<Input>, k: nat)
    requires k < |ins|
  {
    Le(StateAt(ins, k + 1).vRevert, PackVolts(ins[k].p.revertV, 0.0, SeriesCells(ins[k].g)))
  }

  predicate Rests(e: Eng) { e.state == Floating || (e.state == Standby && e.reason == Resting) }

  predicate Warms(e: Eng) { e.state == Standby && e.reason == Warmup }

  /** The engine was and is in BULK. */
  predicate BulkOn(ins: seq<Input>, k: nat)
    requires k < |ins|
  {
    StateAt(ins, k).state == Bulk && StateAt(ins, k + 1).state == Bulk
  }

  /** It was and is at rest, in the same way. */
  predicate RestOn(ins: seq<Input>, k: nat)
    requires k < |ins|
  {
    Rests(StateAt(ins, k)) && Rests(StateAt(ins, k + 1)) && StateAt(ins, k).state == StateAt(ins, k + 1).state
  }

  /** For how long, up to state `k`, BULK has gone on. */
  function BulkMs(ins: seq<Input>, k: nat): nat
    requires k <= |ins|
  {
    if k > 0 && BulkOn(ins, k - 1) then BulkMs(ins, k - 1) + ins[k - 1].dt else 0
  }

  /** For how long it has been at the target without a break. */
  function TargetMs(ins: seq<Input>, k: nat): nat
    requires k <= |ins|
  {
    if k > 0 && BulkOn(ins, k - 1) && AtTarget(ins, k - 1) then TargetMs(ins, k - 1) + ins[k - 1].dt else 0
  }

  /** For how long it has been at the tail; cycles on a profile that leaves at the target do not
      count either way. */
  function TailMs(ins: seq<Input>, k: nat): nat
    requires k <= |ins|
  {
    if k == 0 || !BulkOn(ins, k - 1) then 0
    else if ins[k - 1].p.exitAtCv then TailMs(ins, k - 1)
    else if AtTail(ins, k - 1) then TailMs(ins, k - 1) + ins[k - 1].dt
    else 0
  }

  /** For how long the battery at rest has been sagging; cycles of Limp Home do not count either
      way. */
  function SagMs(ins: seq<Input>, k: nat): nat
    requires k <= |ins|
  {
    if k == 0 || !RestOn(ins, k - 1) then 0
    else if !Runs(ins, k - 1) then SagMs(ins, k - 1)
    else if Sagging(ins, k - 1) then SagMs(ins, k - 1) + ins[k - 1].dt
    else 0
  }

  /** For how long the engine has been warming up. */
  function WarmMs(ins: seq<Input>, k: nat): nat
    requires k <= |ins|
  {
    if k == 0 || !Warms(StateAt(ins, k)) then 0
    else (if Warms(StateAt(ins, k - 1)) then WarmMs(ins, k - 1) else 0) + ins[k - 1].dt
  }

  // ---- when a stage is left ------------------------------------------------------------------------------

  /** A time has reached a limit, on a clock of 32 bits. */
  predicate Reached(ms: nat, limit: nat) { ms % 0x1_0000_0000 >= limit }

  /** BULK is done in cycle `k`. */
  predicate Done(ins: seq<Input>, k: nat)
    requires k < |ins|
  {
    var (i, t) := (ins[k], if AtTarget(ins, k) then TargetMs(ins, k) + ins[k].dt else 0);
    || Reached(BulkMs(ins, k) + i.dt, i.g.chargeMaxMin * 60000)
    || (i.p.exitAtCv && Reached(t, i.g.vclampS * 1000))
    || (!i.p.exitAtCv && i.g.cvHoldMin > 0 && Reached(t, i.g.cvHoldMin * 60000))
    || (!i.p.exitAtCv && AtTail(ins, k) && Reached(TailMs(ins, k) + i.dt, i.g.tailHoldS * 1000))
    || (!i.p.exitAtCv && i.g.socTarget >= 0 && i.m.socTrusted && Up(i.m.soc, i.g.socTarget as real))
  }

  /** A rest is over in cycle `k`: the battery has sagged for long enough, its trusted charge is
      low, or enough has been taken out. */
  predicate Reverts(ins: seq<Input>, k: nat)
    requires k < |ins|
  {
    var i := ins[k];
    || (Sagging(ins, k) && Reached(SagMs(ins, k) + i.dt, i.p.revertHoldS * 1000))
    || (i.m.socTrusted && Up(i.m.soc, 0.0) && Down(i.m.soc, i.p.socRevert as real))
    || (i.m.batteryTruth && Gt(i.p.ahRevert, Fin(0.0)) && Ge(StateAt(ins, k + 1).ahSince, i.p.ahRevert))
  }

  predicate Warmed(ins: seq<Input>, k: nat)
    requires k < |ins|
  {
    Reached((if Warms(StateAt(ins, k)) then WarmMs(ins, k) else 0) + ins[k].dt, ins[k].g.warmupS * 1000)
  }

  /** The battery turns out to be full as it is. */
  predicate Full(ins: seq<Input>, k: nat)
    requires k < |ins|
  {
    var i := ins[k];
    || (Gt(i.g.skipBulkV, Fin(0.0)) && Ge(StateAt(ins, k + 1).vCtrl, PackVolts(i.g.skipBulkV, 0.0, SeriesCells(i.g))))
    || (i.g.skipBulkSoc > 0 && i.m.socTrusted && Up(i.m.soc, i.g.skipBulkSoc as real))
  }

  /** Charged: resting at zero or holding, with nothing taken out yet. */
  predicate CameToRest(f: Eng, p: Profile)
  {
    && f.ahSince == Fin(0.0)
    && if p.zeroRest then f.state == Standby && f.reason == Resting else f.state == Floating && f.reason == Off
  }

  // ---- the timers of the firmware are these times -----------------------------------------------------------

  ghost predicate TimersTell(ins: seq<Input>, k: nat)
    requires k <= |ins|
  {
    var e := StateAt(ins, k);
    && (e.state == Bulk ==> e.timeIn == Wrap32(BulkMs(ins, k)) && e.vclampHold == Wrap32(TargetMs(ins, k)))
    && (e.state == Bulk ==> e.tailHold == Wrap32(TailMs(ins, k)))
    && (Rests(e) ==> e.revertHold == Wrap32(SagMs(ins, k)))
    && (Warms(e) ==> e.warmup == Wrap32(WarmMs(ins, k)))
  }

  lemma AtTargetIs(ins: seq<Input>, k: nat)
    requires k < |ins|
    ensures AtTarget(ins, k) <==> AtCv(StateAt(ins, k + 1), ins[k].p, ins[k].g)
  {
    hide After;
    var n := SeriesCells(ins[k].g);
    assert CellCount(ins[k].g) as real == n;
    var v := ins[k].p.cvTargetV;
    if v.Fin? { assert (v.r + -0.01) * n == v.r * n - 0.01 * n; }
  }

  lemma SaggingIs(ins: seq<Input>, k: nat)
    requires k < |ins|
    ensures Sagging(ins, k) <==> Le(StateAt(ins, k + 1).vRevert, Pack(ins[k].p.revertV, ins[k].g))
  {
    hide After;
    var n := SeriesCells(ins[k].g);
    assert CellCount(ins[k].g) as real == n;
    var v := ins[k].p.revertV;
    if v.Fin? { assert (v.r + 0.0) * n == v.r * n; }
  }

  function Begun(ins: seq<Input>, k: nat): Eng
    requires k < |ins|
  {
    Sensed(StateAt(ins, k), ins[k].m, ins[k].g, ins[k].dt)
  }

  lemma BegunKeeps(ins: seq<Input>, k: nat)
    requires k < |ins|
    ensures var (e, s) := (StateAt(ins, k), Begun(ins, k));
            && s.state == e.state && s.reason == e.reason && s.tailHold == e.tailHold && s.revertHold == e.revertHold
            && s.vclampHold == e.vclampHold && s.warmup == e.warmup && s.timeIn == Wrap32(e.timeIn + ins[k].dt)
  {
    hide FaultsNow, Ema, AhNext, CountsAh, Field.GuardNext, Wrap32, StateAt;
  }

  lemma SignalsKept(s: Eng, m: Measured, p: Profile, g: Globals, dt: u32)
    ensures var a := Advanced(s, m, p, g, dt);
            a.vCtrl == s.vCtrl && a.vRevert == s.vRevert && a.pTail == s.pTail && a.faults == s.faults
  {
    hide RevertMet, AlreadyFull, Charged, AtCv, InTail, LimpNow, EnabledNow, RevertHold, Wrap32;
  }

  /** The signals a cycle ends with are those its decisions were made on. */
  lemma SignalsAre(ins: seq<Input>, k: nat)
    requires k < |ins|
    ensures var (f, s) := (StateAt(ins, k + 1), Begun(ins, k));
            f.vCtrl == s.vCtrl && f.vRevert == s.vRevert && f.pTail == s.pTail && f.faults == s.faults
  {
    hide Sensed, Advanced;
    FieldKeeps(StateAt(ins, k), ins[k]);
    SignalsKept(Begun(ins, k), ins[k].m, ins[k].p, ins[k].g, ins[k].dt);
  }

  lemma RunsIs(ins: seq<Input>, k: nat)
    requires k < |ins|
    ensures var s := Begun(ins, k);
            Runs(ins, k) <==> EnabledNow(ins[k].m, s.faults) && !LimpNow(s.faults)
    ensures !Stops(Begun(ins, k).faults, ins[k]) <==> EnabledNow(ins[k].m, Begun(ins, k).faults)
  {
    hide Sensed, After;
    SignalsAre(ins, k);
  }

  /** What the state machine makes of a cycle that runs. */
  lemma RunStep(ins: seq<Input>, k: nat)
    requires k < |ins| && Runs(ins, k)
    ensures var (f, s, i) := (StateAt(ins, k + 1), Begun(ins, k), ins[k]);
            var a := match s.state
                     case Standby => StandbyStep(s, i.m, i.p, i.g, i.dt)
                     case Bulk => BulkStep(s, i.m, i.p, i.g, i.dt)
                     case Floating => RevertStep(s, i.m, i.p, i.g, i.dt);
            f == a.(effort := f.effort, cmdPower := f.cmdPower, probe := f.probe)
  {
    hide Sensed, After, StandbyStep, BulkStep, RevertStep;
    RunsIs(ins, k);
    FieldKeeps(StateAt(ins, k), ins[k]);
  }

  /** The hold times of one cycle in BULK. */
  datatype BulkTimes = BulkTimes(bulk: nat, target: nat, tail: nat)

  function BulkTimesNow(ins: seq<Input>, k: nat): BulkTimes
    requires k < |ins|
  {
    var dt := ins[k].dt;
    BulkTimes(BulkMs(ins, k) + dt, if AtTarget(ins, k) then TargetMs(ins, k) + dt else 0,
              if ins[k].p.exitAtCv then TailMs(ins, k) else if AtTail(ins, k) then TailMs(ins, k) + dt else 0)
  }

  predicate DoneAt(t: BulkTimes, tail: bool, i: Input)
  {
    || Reached(t.bulk, i.g.chargeMaxMin * 60000)
    || (i.p.exitAtCv && Reached(t.target, i.g.vclampS * 1000))
    || (!i.p.exitAtCv && i.g.cvHoldMin > 0 && Reached(t.target, i.g.cvHoldMin * 60000))
    || (!i.p.exitAtCv && tail && Reached(t.tail, i.g.tailHoldS * 1000))
    || (!i.p.exitAtCv && i.g.socTarget >= 0 && i.m.socTrusted && Up(i.m.soc, i.g.socTarget as real))
  }

  lemma DoneIs(ins: seq<Input>, k: nat)
    requires k < |ins|
    ensures Done(ins, k) <==> DoneAt(BulkTimesNow(ins, k), AtTail(ins, k), ins[k])
  {
    hide Reached, Up, AtTarget, BulkMs, TargetMs, TailMs;
  }

  lemma BulkStepIs(s: Eng, i: Input, t: BulkTimes, tail: bool)
    requires tail == InTail(s, i.m, i.p, i.g) && s.timeIn == Wrap32(t.bulk)
    requires Wrap32(t.target) == if AtCv(s, i.p, i.g) then Wrap32(s.vclampHold + i.dt) else 0
    requires Wrap32(t.tail) == if i.p.exitAtCv then s.tailHold else if tail then Wrap32(s.tailHold + i.dt) else 0
    ensures var a := BulkStep(s, i.m, i.p, i.g, i.dt);
            if DoneAt(t, tail, i) then CameToRest(a, i.p) && a.revertHold == 0
            else a == s.(vclampHold := Wrap32(t.target), tailHold := Wrap32(t.tail))
  {
    var f := BulkHeld(s, i.m, i.p, i.g, i.dt);
    assert AtCv(f, i.p, i.g) == AtCv(s, i.p, i.g) && InTail(f, i.m, i.p, i.g) == InTail(s, i.m, i.p, i.g);
    hide AtCv, InTail;
    assert f == s.(vclampHold := Wrap32(t.target), tailHold := Wrap32(t.tail));
    hide BulkHeld;
    ChargedIs(f, i, t, tail);
  }

  lemma ChargedIs(f: Eng, i: Input, t: BulkTimes, tail: bool)
    requires tail == InTail(f, i.m, i.p, i.g)
    requires f.timeIn == Wrap32(t.bulk) && f.vclampHold == Wrap32(t.target) && f.tailHold == Wrap32(t.tail)
    ensures Charged(f, i.m, i.p, i.g) <==> DoneAt(t, tail, i)
  {
    hide InTail;
  }

  lemma TailIs(ins: seq<Input>, k: nat)
    requires k < |ins|
    ensures AtTail(ins, k) == InTail(Begun(ins, k), ins[k].m, ins[k].p, ins[k].g)
    ensures AtTarget(ins, k) == AtCv(Begun(ins, k), ins[k].p, ins[k].g)
  {
    hide Begun, StateAt, AtTarget, AtCv;
    SignalsAre(ins, k);
    AtTargetIs(ins, k);
    AtCvIs(StateAt(ins, k + 1), Begun(ins, k), ins[k]);
  }

  lemma BulkTold(ins: seq<Input>, k: nat)
    requires k < |ins| && StateAt(ins, k).state == Bulk && TimersTell(ins, k)
    ensures var s := Begun(ins, k);
            && s.timeIn == Wrap32(BulkMs(ins, k) + ins[k].dt)
            && s.vclampHold == Wrap32(TargetMs(ins, k)) && s.tailHold == Wrap32(TailMs(ins, k))
  {
    hide Begun, StateAt, Wrap32, BulkMs, TargetMs, TailMs, SagMs, WarmMs, Rests, Warms;
    BegunKeeps(ins, k);
    WrapAdd(BulkMs(ins, k), ins[k].dt);
  }

  /** Times and timers side by side. */
  lemma BulkTimesAre(s: Eng, i: Input, at: bool, tail: bool, targetMs: nat, tailMs: nat)
    requires s.vclampHold == Wrap32(targetMs) && s.tailHold == Wrap32(tailMs)
    ensures Wrap32(if at then targetMs + i.dt else 0) == if at then Wrap32(s.vclampHold + i.dt) else 0
    ensures Wrap32(if i.p.exitAtCv then tailMs else if tail then tailMs + i.dt else 0) ==
            if i.p.exitAtCv then s.tailHold else if tail then Wrap32(s.tailHold + i.dt) else 0
  {
    assert Wrap32(0) == 0;
    hide Wrap32;
    WrapAdd(targetMs, i.dt);
    WrapAdd(tailMs, i.dt);
  }

  lemma AtCvIs(f: Eng, s: Eng, i: Input)
    requires f.vCtrl == s.vCtrl
    ensures AtCv(f, i.p, i.g) == AtCv(s, i.p, i.g)
  {}

  lemma BulkCycle(ins: seq<Input>, k: nat)
    requires k < |ins| && StateAt(ins, k).state == Bulk && Runs(ins, k) && TimersTell(ins, k)
    ensures var f := StateAt(ins, k + 1);
            if Done(ins, k) then CameToRest(f, ins[k].p) else f.state == Bulk
    ensures TimersTell(ins, k + 1)
  {
    hide Begun, StateAt, Runs, AtTarget, AtTail, AtCv, InTail, Wrap32, DoneAt, Done, BulkStep, StandbyStep, RevertStep, TimersTell,
      BulkTimesNow;
    RunStep(ins, k);
    BegunKeeps(ins, k);
    TailIs(ins, k);
    BulkTold(ins, k);
    DoneIs(ins, k);
    NowIs(ins, k);
    BulkTimesAre(Begun(ins, k), ins[k], AtTarget(ins, k), AtTail(ins, k), TargetMs(ins, k), TailMs(ins, k));
    BulkStepIs(Begun(ins, k), ins[k], BulkTimesNow(ins, k), AtTail(ins, k));
    if Done(ins, k) { RestBegins(ins, k); } else { BulkGoesOn(ins, k); }
  }

  lemma NowIs(ins: seq<Input>, k: nat)
    requires k < |ins|
    ensures var (t, dt) := (BulkTimesNow(ins, k), ins[k].dt);
            && t.bulk == BulkMs(ins, k) + dt && t.target == (if AtTarget(ins, k) then TargetMs(ins, k) + dt else 0)
            && t.tail == (if ins[k].p.exitAtCv then TailMs(ins, k) else if AtTail(ins, k) then TailMs(ins, k) + dt else 0)
  {
    hide AtTarget, AtTail, BulkMs, TargetMs, TailMs;
  }

  lemma BulkGoesOn(ins: seq<Input>, k: nat)
    requires k < |ins| && BulkOn(ins, k)
    requires var (f, t) := (StateAt(ins, k + 1), BulkTimesNow(ins, k));
             f.timeIn == Wrap32(t.bulk) && f.vclampHold == Wrap32(t.target) && f.tailHold == Wrap32(t.tail)
    ensures TimersTell(ins, k + 1)
  {
    hide StateAt, AtTarget, AtTail, Wrap32;
    assert BulkMs(ins, k + 1) == BulkTimesNow(ins, k).bulk && TargetMs(ins, k + 1) == BulkTimesNow(ins, k).target;
  }

  lemma RestTold(ins: seq<Input>, k: nat)
    requires k < |ins| && Rests(StateAt(ins, k)) && TimersTell(ins, k)
    ensures Begun(ins, k).revertHold == Wrap32(SagMs(ins, k))
  {
    hide Begun, StateAt, Wrap32, BulkMs, TargetMs, TailMs, SagMs, WarmMs, Rests, Warms;
    BegunKeeps(ins, k);
  }

  lemma RestTimesAre(ins: seq<Input>, k: nat)
    requires k < |ins| && Rests(StateAt(ins, k)) && TimersTell(ins, k)
    ensures RevertHold(Begun(ins, k), ins[k].p, ins[k].g, ins[k].dt) ==
            Wrap32(if Sagging(ins, k) then SagMs(ins, k) + ins[k].dt else 0)
    ensures Le(Begun(ins, k).vRevert, Pack(ins[k].p.revertV, ins[k].g)) <==> Sagging(ins, k)
  {
    hide Begun, StateAt, Sagging, Wrap32, SagMs, Pack, TimersTell, Rests, Le, RevertHold;
    RestTold(ins, k);
    SignalsAre(ins, k);
    SaggingIs(ins, k);
    RevertHoldIs(Begun(ins, k), ins[k], Sagging(ins, k), SagMs(ins, k));
  }

  lemma RevertHoldIs(s: Eng, i: Input, sagging: bool, sagMs: nat)
    requires s.revertHold == Wrap32(sagMs) && (Le(s.vRevert, Pack(i.p.revertV, i.g)) <==> sagging)
    ensures RevertHold(s, i.p, i.g, i.dt) == Wrap32(if sagging then sagMs + i.dt else 0)
  {
    assert Wrap32(0) == 0;
    hide Wrap32, Le, Pack;
    WrapAdd(sagMs, i.dt);
  }

  lemma RevertsIs(ins: seq<Input>, k: nat)
    requires k < |ins| && Rests(StateAt(ins, k)) && Runs(ins, k) && TimersTell(ins, k)
    requires StateAt(ins, k + 1).ahSince == Begun(ins, k).ahSince
    ensures Reverts(ins, k) <==> RevertMet(Begun(ins, k), ins[k].m, ins[k].p, ins[k].g, ins[k].dt)
  {
    hide Begun, StateAt, Runs, Sagging, RevertHold, TimersTell, SagMs, Pack, Rests;
    RestTimesAre(ins, k);
  }

  // ---- a stage begins, goes on, or is interrupted -------------------------------------------------------------

  lemma BulkBegins(ins: seq<Input>, k: nat)
    requires k < |ins| && StateAt(ins, k).state != Bulk && StateAt(ins, k + 1).state == Bulk
    requires var f := StateAt(ins, k + 1); f.timeIn == 0 && f.vclampHold == 0 && f.tailHold == 0
    ensures TimersTell(ins, k + 1)
  {
    hide StateAt, AtTarget, AtTail;
  }

  lemma RestGoesOn(ins: seq<Input>, k: nat)
    requires k < |ins| && RestOn(ins, k)
    requires StateAt(ins, k + 1).revertHold ==
             if !Runs(ins, k) then Wrap32(SagMs(ins, k)) else Wrap32(if Sagging(ins, k) then SagMs(ins, k) + ins[k].dt else 0)
    ensures TimersTell(ins, k + 1)
  {
    hide StateAt, AtTarget, AtTail, Sagging, Wrap32, Runs;
    assert SagMs(ins, k + 1) ==
           if !Runs(ins, k) then SagMs(ins, k) else if Sagging(ins, k) then SagMs(ins, k) + ins[k].dt else 0;
  }

  lemma RestBegins(ins: seq<Input>, k: nat)
    requires k < |ins| && Rests(StateAt(ins, k + 1)) && !RestOn(ins, k) && StateAt(ins, k + 1).revertHold == 0
    ensures TimersTell(ins, k + 1)
  {
    hide StateAt, AtTarget, AtTail, Sagging, Runs;
  }

  lemma WarmupGoesOn(ins: seq<Input>, k: nat)
    requires k < |ins| && Warms(StateAt(ins, k + 1))
    requires StateAt(ins, k + 1).warmup == Wrap32((if Warms(StateAt(ins, k)) then WarmMs(ins, k) else 0) + ins[k].dt)
    ensures TimersTell(ins, k + 1)
  {
    hide StateAt, AtTarget, AtTail, Sagging, Runs, Wrap32;
  }

  lemma NothingIsTimed(ins: seq<Input>, k: nat)
    requires k < |ins| && StateAt(ins, k + 1).state == Standby && StateAt(ins, k + 1).reason in {Off, Latched}
    ensures TimersTell(ins, k + 1)
  {
    hide StateAt;
  }

  // ---- the cycles of each stage ----------------------------------------------------------------------------------

  lemma RestCycle(ins: seq<Input>, k: nat)
    requires k < |ins| && Rests(StateAt(ins, k)) && Runs(ins, k) && TimersTell(ins, k)
    ensures var (e, f) := (StateAt(ins, k), StateAt(ins, k + 1));
            if Reverts(ins, k) then f.state == Bulk else f.state == e.state && f.reason == e.reason
    ensures TimersTell(ins, k + 1)
  {
    hide Begun, StateAt, Runs, Sagging, Wrap32, RevertHold, RevertMet, TimersTell, Reverts, Reached, BulkStep, WarmupStep, SagMs;
    RunStep(ins, k);
    BegunKeeps(ins, k);
    RestTimesAre(ins, k);
    RevertsIs(ins, k);
    if Reverts(ins, k) { BulkBegins(ins, k); } else { RestGoesOn(ins, k); }
  }

  lemma FullIs(ins: seq<Input>, k: nat)
    requires k < |ins|
    ensures Full(ins, k) <==> AlreadyFull(Begun(ins, k), ins[k].m, ins[k].g)
  {
    hide Begun, StateAt;
    SignalsAre(ins, k);
    var (g, v) := (ins[k].g, Begun(ins, k).vCtrl);
    var n := SeriesCells(g);
    assert CellCount(g) as real == n && 1.0 / n > 0.0;
    if v.Fin? && g.skipBulkV.Fin? {
      assert (g.skipBulkV.r + 0.0) * n == g.skipBulkV.r * n;
      PerCellUp(v.r, g.skipBulkV.r, n);
    }
  }

  lemma StillFull(s: Eng, f: Eng, m: Measured, g: Globals)
    requires f.vCtrl == s.vCtrl
    ensures AlreadyFull(f, m, g) == AlreadyFull(s, m, g)
  {}

  lemma WarmTold(ins: seq<Input>, k: nat)
    requires k < |ins| && Warms(StateAt(ins, k)) && TimersTell(ins, k)
    ensures Begun(ins, k).warmup == Wrap32(WarmMs(ins, k))
  {
    hide Begun, StateAt, Wrap32, BulkMs, TargetMs, TailMs, SagMs, WarmMs, Rests, Warms;
    BegunKeeps(ins, k);
  }

  /** A cycle of warming up: `ms` is the time with this cycle. */
  lemma WarmStepIs(s: Eng, i: Input, full: bool, ms: nat)
    requires s.state == Standby && s.reason != Resting && full == AlreadyFull(s, i.m, i.g)
    requires Wrap32(ms) == Wrap32((if s.reason == Warmup then s.warmup else 0) + i.dt)
    ensures var a := StandbyStep(s, i.m, i.p, i.g, i.dt);
            if !Reached(ms, i.g.warmupS * 1000) then Warms(a) && a.warmup == Wrap32(ms)
            else if full then CameToRest(a, i.p) && a.revertHold == 0
            else a.state == Bulk && a.timeIn == 0 && a.vclampHold == 0 && a.tailHold == 0
  {
    hide AlreadyFull;
    var f := if s.reason == Warmup then s else Entered(s, Standby, Warmup).(warmup := 0);
    StillFull(s, f.(warmup := Wrap32(f.warmup + i.dt)), i.m, i.g);
  }

  lemma WarmCycle(ins: seq<Input>, k: nat)
    requires k < |ins| && StateAt(ins, k).state == Standby && !Rests(StateAt(ins, k)) && Runs(ins, k) && TimersTell(ins, k)
    ensures var f := StateAt(ins, k + 1);
            if !Warmed(ins, k) then Warms(f) else if Full(ins, k) then CameToRest(f, ins[k].p) else f.state == Bulk
    ensures TimersTell(ins, k + 1)
  {
    hide Begun, StateAt, Runs, Wrap32, TimersTell, Reached, StandbyStep, BulkStep, RevertStep, WarmMs, Full, AlreadyFull;
    RunStep(ins, k);
    BegunKeeps(ins, k);
    FullIs(ins, k);
    var (e, dt) := (StateAt(ins, k), ins[k].dt);
    var was := if Warms(e) then WarmMs(ins, k) else 0;
    if Warms(e) {
      WarmTold(ins, k);
      WrapAdd(was, dt);
    }
    WarmStepIs(Begun(ins, k), ins[k], Full(ins, k), was + dt);
    if !Warmed(ins, k) { WarmupGoesOn(ins, k); } else if Full(ins, k) { RestBegins(ins, k); } else { BulkBegins(ins, k); }
  }

  /** What it makes of one that does not. */
  lemma IdleStep(ins: seq<Input>, k: nat)
    requires k < |ins| && !Runs(ins, k)
    ensures var (f, s) := (StateAt(ins, k + 1), Begun(ins, k));
            var off := Entered(s, Standby, if s.faults * Faults.OPEN != {} then Latched else Off);
            var a := if Stops(s.faults, ins[k]) then off else if s.state == Floating then s else Entered(s, Floating, Off);
            f == a.(effort := f.effort, cmdPower := f.cmdPower, probe := f.probe)
  {
    hide Sensed, After, StandbyStep, BulkStep, RevertStep, EnabledNow, LimpNow;
    RunsIs(ins, k);
    FieldKeeps(StateAt(ins, k), ins[k]);
  }

  lemma IdleCycle(ins: seq<Input>, k: nat)
    requires k < |ins| && !Runs(ins, k) && TimersTell(ins, k)
    ensures TimersTell(ins, k + 1)
  {
    hide Begun, StateAt, Wrap32, TimersTell, Stops, Runs;
    IdleStep(ins, k);
    BegunKeeps(ins, k);
    if Stops(Begun(ins, k).faults, ins[k]) {
      NothingIsTimed(ins, k);
    } else if StateAt(ins, k).state == Floating {
      RestTold(ins, k);
      RestGoesOn(ins, k);
    } else {
      RestBegins(ins, k);
    }
  }

  lemma CycleTells(ins: seq<Input>, k: nat)
    requires k < |ins| && TimersTell(ins, k)
    ensures TimersTell(ins, k + 1)
  {
    hide StateAt, TimersTell, Runs, Done, Reverts, Warmed, Full, CameToRest;
    var e := StateAt(ins, k);
    if !Runs(ins, k) { IdleCycle(ins, k); }
    else if e.state == Bulk { BulkCycle(ins, k); }
    else if Rests(e) { RestCycle(ins, k); }
    else { WarmCycle(ins, k); }
  }

  /** In every run the firmware's timers hold the times the history tells, modulo 2^32. */
  lemma {:induction false} TimersAlwaysTell(ins: seq<Input>, k: nat)
    requires k <= |ins|
    ensures TimersTell(ins, k)
  {
    hide TimersTell;
    if k == 0 {
      FreshTells(ins);
    } else {
      TimersAlwaysTell(ins, k - 1);
      CycleTells(ins, k - 1);
    }
  }

  lemma FreshTells(ins: seq<Input>)
    ensures TimersTell(ins, 0)
  {
    hide After;
    assert StateAt(ins, 0) == Initial;
  }

  /** What every cycle of every run makes of the stage it finds. */
  lemma StageLaw(ins: seq<Input>, k: nat)
    requires k < |ins|
    ensures var (e, f) := (StateAt(ins, k), StateAt(ins, k + 1));
            if Stops(f.faults, ins[k]) then f.state == Standby && f.reason == if Any(f.faults, LATCHING) then Latched else Off
            else if Any(f.faults, LIMPING) then f.state == Floating
            else if e.state == Bulk then
              if Done(ins, k) then CameToRest(f, ins[k].p) else f.state == Bulk
            else if Rests(e) then
              if Reverts(ins, k) then f.state == Bulk else f.state == e.state && f.reason == e.reason
            else if !Warmed(ins, k) then Warms(f)
            else if Full(ins, k) then CameToRest(f, ins[k].p)
            else f.state == Bulk
  {
    hide After, TimersTell, Stops, Any, Done, Reverts, Warmed, Full, CameToRest;
    TimersAlwaysTell(ins, k);
    var e := StateAt(ins, k);
    StopLaw(e, ins[k]);
    if Runs(ins, k) {
      if e.state == Bulk { BulkCycle(ins, k); } else if Rests(e) { RestCycle(ins, k); } else { WarmCycle(ins, k); }
    }
  }

  // ---- damped signals and the charge taken out ---------------------------------------------------------------

  /** A first-order filter: the first reading counts as it is; after that what is left of the
      distance to the reading is tau / (tau + time) of it. */
  predicate Follows(was: F, x: F, now: F, tau: real, time: real)
  {
    if was.NaN? then now == x
    else if was.Fin? && x.Fin? then now.Fin? && Times(x.r - now.r, tau + time) == Times(x.r - was.r, tau)
    else x.NaN? ==> now.NaN?
  }

  lemma EmaFollows(was: F, x: F, tau: real, time: real)
    requires tau > 0.0 && time >= 0.0
    ensures Follows(was, x, Ema(was, x, tau, time), tau, time)
  {
    if was.Fin? && x.Fin? {
      var (d, a) := (x.r - was.r, time / (tau + time));
      var now := Ema(was, x, tau, time).r;
      assert now == was.r + d * a;
      assert a * (tau + time) == time;
      assert (x.r - now) * (tau + time) == d * (tau + time) - d * (a * (tau + time)) by {
        assert x.r - now == d - d * a;
        assert (d - d * a) * (tau + time) == d * (tau + time) - (d * a) * (tau + time);
      }
      assert d * (tau + time) - d * time == d * tau;
    }
  }

  lemma SignalLaw(e: Eng, i: Input)
    ensures var (f, t) := (After(e, i), i.dt as real / 1000.0);
            && Follows(e.vCtrl, i.m.vcomp, f.vCtrl, 1.0, t) && Follows(e.vRevert, i.m.vcomp, f.vRevert, 30.0, t)
            && Follows(e.pTail, i.m.watts, f.pTail, 60.0, t)
  {
    hide Ema, Follows, FaultsNow, Advanced, AhNext, CountsAh, Field.GuardNext;
    FieldKeeps(e, i);
    SignalsKept(Sensed(e, i.m, i.g, i.dt), i.m, i.p, i.g, i.dt);
    var t := i.dt as real / 1000.0;
    hide After;
    EmaFollows(e.vCtrl, i.m.vcomp, 1.0, t);
    EmaFollows(e.vRevert, i.m.vcomp, 30.0, t);
    EmaFollows(e.pTail, i.m.watts, 60.0, t);
  }

  /** At rest the charge taken out is counted from a trusted current, one hour to the ampere-hour,
      never below nothing; otherwise it stays, and a rest begins with nothing. */
  lemma ChargeLaw(e: Eng, i: Input)
    ensures var f := After(e, i);
            if Rests(e) && i.m.batteryTruth && i.m.amps.Fin? then
              e.ahSince.Fin? ==>
                var x := e.ahSince.r - i.m.amps.r * (i.dt as real / 1000.0 / 3600.0);
                f.ahSince == Fin(if x < 0.0 then 0.0 else x)
            else f.ahSince == e.ahSince || (!Rests(e) && CameToRest(f, i.p))
  {
    hide FaultsNow, Ema, Wrap32, Field.GuardNext, After, RevertMet, Charged, AlreadyFull, BulkHeld, EnabledNow, LimpNow, RevertHold;
    FieldKeeps(e, i);
    var s := Sensed(e, i.m, i.g, i.dt);
    assert s.state == e.state && s.reason == e.reason;
    assert BulkHeld(s, i.m, i.p, i.g, i.dt).ahSince == s.ahSince by { HeldKeepsCharge(s, i.m, i.p, i.g, i.dt); }
  }

  lemma HeldKeepsCharge(s: Eng, m: Measured, p: Profile, g: Globals, dt: u32)
    ensures BulkHeld(s, m, p, g, dt).ahSince == s.ahSince
  {}

  // ---- power and effort ---------------------------------------------------------------------------------------

  /** Voltage and power of the stage a cycle ends in. */
  function StageTarget(f: Eng, i: Input): F
  {
    if f.state == Bulk then i.p.cvTargetV else if Any(f.faults, LIMPING) then i.g.limpV else i.p.restV
  }

  function StageLimit(f: Eng, i: Input): F
  {
    if f.state == Bulk then i.g.maxChargeW else if Any(f.faults, LIMPING) then i.g.limpCapW else i.p.restCapW
  }

  function Secs(dt: u32): real { dt as real / 1000.0 }

  function Least(a: real, b: real): real { if a <= b then a else b }

  function Within01(x: real): real { if x < 0.0 then 0.0 else if x > 1.0 then 1.0 else x }

  /** The power asked for: down at once, up by the ramp. */
  function Asked(was: real, allowed: real, step: real): real { if allowed <= was then allowed else Least(allowed, was + step) }

  /** The effort after a cycle that regulates: it moves by the smaller of 2.0 a second for each volt
      below the target and 0.001 a second for each watt below the power asked for. */
  function Regulated(e: Eng, f: Eng, i: Input, target: real, power: real, watts: real): real
    requires e.effort.Fin? && f.vCtrl.Fin?
  {
    var t := Secs(i.dt);
    Within01(e.effort.r + Least(Times(Times(target, SeriesCells(i.g)) - f.vCtrl.r, 2.0 * t), Times(power - watts, 0.001 * t)))
  }

  /** The engine turns: it says so, or a speed that is not lost is above zero. */
  predicate Turns(m: Measured) { m.running || (m.rpmState != Lost && m.rpm.Fin? && m.rpm.r > 0.0) }

  lemma StageIs(a: Eng, i: Input)
    requires !Any(a.faults, LATCHING)
    ensures StageV(a, i.p, i.g) == StageTarget(a, i) && StageW(a, i.p, i.g) == StageLimit(a, i)
  {}

  lemma AskedIs(was: F, allowed: F, ramp: F, dt: u32)
    requires was.Fin? && allowed.Fin? && ramp.Fin?
    ensures Ramped(was, allowed, Scale(ramp, Seconds(dt))) == Fin(Asked(was.r, allowed.r, ramp.r * Secs(dt)))
  {
    assert Seconds(dt) == Secs(dt);
    hide Seconds, Secs;
  }

  lemma ScaledGap(x: F, y: F, k: real)
    requires x.Fin? && y.Fin?
    ensures Scale(Sub(x, y), k) == Fin(Times(x.r - y.r, k))
  {}

  lemma PackIs(v: F, g: Globals)
    requires v.Fin?
    ensures Pack(v, g) == Fin(Times(v.r, SeriesCells(g)))
  {}

  lemma RegulatedIs(a: Eng, i: Input, power: real)
    requires a.effort.Fin? && a.vCtrl.Fin? && StageV(a, i.p, i.g).Fin? && i.m.watts.Fin?
    ensures SafeEffort(Demand(a, Fin(power), i.m, i.p, i.g, i.dt)) ==
            Fin(Regulated(a, a, i, StageV(a, i.p, i.g).r, power, i.m.watts.r))
  {
    var t := Secs(i.dt);
    assert Seconds(i.dt) == t;
    hide StageV, Scale, Sub, Pack, Seconds, Secs, SeriesCells, Add, Le, SafeEffort, Least, Within01, Times;
    PackIs(StageV(a, i.p, i.g), i.g);
    ScaledGap(Pack(StageV(a, i.p, i.g), i.g), a.vCtrl, 2.0 * t);
    ScaledGap(Fin(power), i.m.watts, 0.001 * t);
    LowerDemand(a.effort, Scale(Sub(Pack(StageV(a, i.p, i.g), i.g), a.vCtrl), 2.0 * t),
                Scale(Sub(Fin(power), i.m.watts), 0.001 * t));
  }

  lemma LowerDemand(e: F, x: F, y: F)
    requires e.Fin? && x.Fin? && y.Fin?
    ensures SafeEffort(if Le(Add(e, x), Add(e, y)) then Add(e, x) else Add(e, y)) == Fin(Within01(e.r + Least(x.r, y.r)))
  {}

  lemma DrivenIs(a: Eng, i: Input, allowed: real)
    requires a.state != Standby && a.effort.Fin? && a.cmdPower.Fin? && i.g.rampWps.Fin? && i.m.watts.Fin?
    requires a.vCtrl.Fin? && StageV(a, i.p, i.g).Fin?
    requires Arbitration.Arbitrated(StageW(a, i.p, i.g), i.ceilings).watts == Fin(allowed)
    ensures var power := Asked(a.cmdPower.r, allowed, i.g.rampWps.r * Secs(i.dt));
            var effort := if allowed <= 0.0 then 0.0 else Regulated(a, a, i, StageV(a, i.p, i.g).r, power, i.m.watts.r);
            Driven(a, i.m, i.ceilings, i.p, i.g, i.dt) == a.(cmdPower := Fin(power), effort := Fin(effort))
  {
    hide StageV, StageW, Demand, SafeEffort, Regulated, Arbitration.Arbitrated;
    var power := Asked(a.cmdPower.r, allowed, i.g.rampWps.r * Secs(i.dt));
    AskedIs(a.cmdPower, Fin(allowed), i.g.rampWps, i.dt);
    RegulatedIs(a, i, power);
    assert Driven(a, i.m, i.ceilings, i.p, i.g, i.dt).cmdPower == Fin(power);
  }

  /** What was regulated, held to the probe's pulse while nothing turns. */
  lemma RegulationLaw(e: Eng, i: Input, allowed: real)
    requires e.effort.Fin? && e.cmdPower.Fin? && i.g.rampWps.Fin? && i.m.watts.Fin?
    requires After(e, i).state != Standby && After(e, i).vCtrl.Fin? && StageTarget(After(e, i), i).Fin?
    requires Arbitration.Arbitrated(StageLimit(After(e, i), i), i.ceilings).watts == Fin(allowed)
    ensures var f := After(e, i);
            var power := Asked(e.cmdPower.r, allowed, i.g.rampWps.r * Secs(i.dt));
            var effort := if allowed <= 0.0 then 0.0 else Regulated(e, f, i, StageTarget(f, i).r, power, i.m.watts.r);
            if Turns(i.m) then f.cmdPower == Fin(power) && f.effort == Fin(effort) && f.probe == 0
            else
              && f.cmdPower == Fin(0.0) && f.effort == Fin(Least(effort, if f.probe < 50 then 0.05 else 0.0))
              && f.probe == var q := (e.probe + i.dt) % 0x1_0000_0000; if q >= 500 then 0 else q
  {
    hide Sensed, Advanced, Driven, RunDetected, Turns, StageV, StageW, StageTarget, StageLimit, Asked, Within01,
      Arbitration.Arbitrated;
    var s := Sensed(e, i.m, i.g, i.dt);
    var a := Advanced(s, i.m, i.p, i.g, i.dt);
    SensedKeepsDrive(e, i);
    FieldKeeps(e, i);
    AdvancedKeeps(s, i.m, i.p, i.g, i.dt);
    StageIs(a, i);
    SameStage(After(e, i), a, i);
    DrivenIs(a, i, allowed);
    TurnsIs(i.m);
  }

  lemma TurnsIs(m: Measured)
    ensures Turns(m) <==> RunDetected(m)
  {}

  lemma SensedKeepsDrive(e: Eng, i: Input)
    ensures var s := Sensed(e, i.m, i.g, i.dt); s.effort == e.effort && s.cmdPower == e.cmdPower && s.probe == e.probe
  {}

  lemma SameStage(f: Eng, a: Eng, i: Input)
    requires f.state == a.state && f.faults == a.faults
    ensures StageTarget(f, i) == StageTarget(a, i) && StageLimit(f, i) == StageLimit(a, i)
  {}
}
