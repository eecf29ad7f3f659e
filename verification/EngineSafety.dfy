/** What the charge engine keeps in every run: latched faults, bounded effort and duty,
    bounded power and ramp, a bounded stay in BULK, a bounded excitation at standstill. */
module EngineSafety {
  import opened Words
  import opened Float
  import opened Engine
  import Field
  import Faults
  import Arbitration

  /** Everything one cycle is given. */
  datatype Input = Input(m: Measured, ceilings: seq<F>, p: Profile, g: Globals, dt: u32)

  function After(e: Eng, i: Input): Eng { Ticked(e, i.m, i.ceilings, i.p, i.g, i.dt) }

  function Out(e: Eng, i: Input): Command { CommandOf(e, After(e, i), i.m, i.g, i.dt) }

  /** The states of a run from power-up under any inputs, configuration changes included. */
  function StateAt(ins: seq<Input>, k: nat): Eng
    requires k <= |ins|
  {
    if k == 0 then Initial else After(StateAt(ins, k - 1), ins[k - 1])
  }

  // ---- latched faults, the open field, the range of the effort ---------------------------------------

  ghost predicate Safe(e: Eng)
  {
    && e.effort.Fin? && 0.0 <= e.effort.r <= 1.0
    && (e.state == Standby ==> e.effort == Fin(0.0))
    && (e.faults * Faults.OPEN != {} ==> e.state == Standby && e.reason == Latched)
  }

  lemma AdvancedKeeps(e: Eng, m: Measured, p: Profile, g: Globals, dt: u32)
    ensures var f := Advanced(e, m, p, g, dt);
            && f.faults == e.faults && f.effort == e.effort && f.cmdPower == e.cmdPower && f.guard == e.guard
            && f.probe == e.probe && f.vCtrl == e.vCtrl
            && (e.faults * Faults.OPEN != {} ==> f.state == Standby && f.reason == Latched)
  {
    hide RevertMet, AlreadyFull, Charged, AtCv, InTail, LimpNow;
  }

  lemma DrivenIsSafe(e: Eng, m: Measured, ceilings: seq<F>, p: Profile, g: Globals, dt: u32)
    ensures var f := Driven(e, m, ceilings, p, g, dt);
            && f.effort.Fin? && 0.0 <= f.effort.r <= 1.0 && (e.state == Standby ==> f.effort == Fin(0.0))
            && f.state == e.state && f.reason == e.reason && f.faults == e.faults && f.guard == e.guard
            && f.timeIn == e.timeIn && f.probe == e.probe
  {
    hide Demand, Ramped, Arbitration.Arbitrated;
  }

  lemma AfterIsSafe(e: Eng, i: Input)
    ensures Safe(After(e, i)) && e.faults * Faults.OPEN <= After(e, i).faults
  {
    hide Damped, FaultsNow, Advanced, Driven;
    var s := Sensed(e, i.m, i.g, i.dt);
    LatchKeeps(e, i.m, i.g, VettedSupply(e, i.m, i.g, i.dt).implausible);
    AdvancedKeeps(s, i.m, i.p, i.g, i.dt);
    DrivenIsSafe(Advanced(s, i.m, i.p, i.g, i.dt), i.m, i.ceilings, i.p, i.g, i.dt);
  }

  lemma LatchKeeps(e: Eng, m: Measured, g: Globals, bad: bool)
    ensures e.faults * Faults.OPEN <= FaultsNow(e, m, g, bad)
  {}

  lemma {:induction false} RunIsSafe(ins: seq<Input>, k: nat)
    requires k <= |ins|
    ensures Safe(StateAt(ins, k))
  {
    hide Ticked;
    if k > 0 { AfterIsSafe(StateAt(ins, k - 1), ins[k - 1]); }
  }

  /** An OPEN-class fault, once seen, holds the engine in STANDBY for that fault, with no
      effort, for the rest of the run. */
  lemma {:induction false} OpenFaultLatches(ins: seq<Input>, i: nat, j: nat, b: nat)
    requires i <= j <= |ins| && b in StateAt(ins, i).faults && b in Faults.OPEN
    ensures b in StateAt(ins, j).faults
    ensures StateAt(ins, j).state == Standby && StateAt(ins, j).reason == Latched && StateAt(ins, j).effort == Fin(0.0)
    decreases j
  {
    hide Ticked;
    RunIsSafe(ins, j);
    if i < j {
      OpenFaultLatches(ins, i, j - 1, b);
      AfterIsSafe(StateAt(ins, j - 1), ins[j - 1]);
      assert b in StateAt(ins, j - 1).faults * Faults.OPEN;
    }
    assert b in StateAt(ins, j).faults * Faults.OPEN;
  }

  /** The command opens the field exactly in STANDBY, then without duty; duty and effort
      are always between 0 and 1, whatever the measurements are. */
  lemma CommandIsSafe(e: Eng, i: Input)
    ensures var c := Out(e, i);
            && (c.open <==> c.state == Standby) && (c.open ==> c.duty == Fin(0.0))
            && c.effort.Fin? && 0.0 <= c.effort.r <= 1.0 && c.duty.Fin? && 0.0 <= c.duty.r <= 1.0
  {
    hide Ticked;
    AfterIsSafe(e, i);
  }

  // ---- the rotor ---------------------------------------------------------------------------------------

  lemma {:induction false} TrackStays(ins: seq<Input>, k: nat, cells: u8)
    requires k <= |ins| && forall j :: 0 <= j < |ins| ==> CellCount(ins[j].g) == cells
    ensures Field.TrackOk(StateAt(ins, k).guard, cells)
  {
    hide Ticked, Field.TrackOk, Field.GuardNext;
    if k > 0 {
      TrackStays(ins, k - 1, cells);
      GuardAfter(StateAt(ins, k - 1), ins[k - 1]);
      Field.GuardKeepsTrack(StateAt(ins, k - 1).guard, ins[k - 1].m.vSupply, ins[k - 1].m.vbat, cells, ins[k - 1].dt);
    } else {
      FreshTrack(cells);
    }
  }

  lemma FreshTrack(cells: u8)
    ensures Field.TrackOk(Field.FRESH, cells)
  {}

  lemma GuardAfter(e: Eng, i: Input)
    ensures After(e, i).guard == Field.GuardNext(e.guard, i.m.vSupply, i.m.vbat, CellCount(i.g), i.dt)
  {
    hide FaultsNow, Advanced, Driven, Field.GuardNext;
    var s := Sensed(e, i.m, i.g, i.dt);
    AdvancedKeeps(s, i.m, i.p, i.g, i.dt);
    DrivenIsSafe(Advanced(s, i.m, i.p, i.g, i.dt), i.m, i.ceilings, i.p, i.g, i.dt);
  }

  /** In every run with a fixed cell count, finite, missing or lying readings: duty times
      either supply reading stays within the rotor voltage, and duty is at most the rotor
      voltage over 3.2 V for each cell. */
  lemma RotorProtected(ins: seq<Input>, k: nat, cells: u8, x: real)
    requires k < |ins| && forall j :: 0 <= j < |ins| ==> CellCount(ins[j].g) == cells
    requires !ins[k].g.rotor.fullField48 && Field.RotorV(ins[k].g.rotor).Fin? && Field.RotorV(ins[k].g.rotor).r >= 0.0
    requires ins[k].m.vSupply == Fin(x) || ins[k].m.vbat == Fin(x) || x == 3.2 * Field.Cells(cells)
    ensures Times(Out(StateAt(ins, k), ins[k]).duty.r, x) <= Field.RotorV(ins[k].g.rotor).r
  {
    TrackStays(ins, k, cells);
    var (e, i) := (StateAt(ins, k), ins[k]);
    hide Ticked, StateAt, Field.TrackOk, Times, Field.DutyMax, Field.Duty, Field.GuardOut;
    Field.RotorNeverOverdriven(e.guard, i.g.rotor, i.m.vSupply, i.m.vbat, cells, i.dt, After(e, i).effort, x);
  }

  // ---- power and ramp ------------------------------------------------------------------------------------

  ghost predicate PowerOk(e: Eng) { e.cmdPower.Fin? && e.cmdPower.r >= 0.0 }

  ghost predicate RampOk(g: Globals) { g.rampWps.Fin? && g.rampWps.r >= 0.0 }

  /** The most the commanded power can rise in one cycle. */
  function Rise(g: Globals, dt: u32): real
    requires g.rampWps.Fin?
  {
    g.rampWps.r * Seconds(dt)
  }

  lemma RiseIsPositive(g: Globals, dt: u32)
    requires RampOk(g)
    ensures Rise(g, dt) >= 0.0 && Scale(g.rampWps, Seconds(dt)) == Fin(Rise(g, dt))
  {
    assert Seconds(dt) >= 0.0;
  }

  lemma RampedIsBounded(cmd: F, target: F, step: real)
    requires cmd.Fin? && cmd.r >= 0.0 && Ge(target, Fin(0.0)) && step >= 0.0
    ensures var r := Ramped(cmd, target, Fin(step));
            r.Fin? && 0.0 <= r.r <= cmd.r + step && Le(r, target)
  {}

  /** After every cycle the commanded power is a number that is not negative, at most one
      ramp step above the one before, and never above what the ceilings allow. */
  lemma PowerIsBounded(e: Eng, i: Input)
    requires PowerOk(e) && RampOk(i.g)
    ensures var f := After(e, i);
            && PowerOk(f) && f.cmdPower.r <= e.cmdPower.r + Rise(i.g, i.dt)
            && Le(f.cmdPower, Arbitration.Arbitrated(StageW(f, i.p, i.g), i.ceilings).watts)
  {
    hide Damped, FaultsNow, Advanced, Demand, Ramped, Rise, Arbitration.Arbitrated, Arbitration.Winner;
    var s := Sensed(e, i.m, i.g, i.dt);
    var a := Advanced(s, i.m, i.p, i.g, i.dt);
    AdvancedKeeps(s, i.m, i.p, i.g, i.dt);
    DampedKeepsPower(e, i.m, i.g, i.dt);
    RiseIsPositive(i.g, i.dt);
    var arb := Arbitration.Arbitrated(StageW(a, i.p, i.g), i.ceilings).watts;
    RampedIsBounded(a.cmdPower, arb, Rise(i.g, i.dt));
    var d := Driven(a, i.m, i.ceilings, i.p, i.g, i.dt);
    assert StageW(d, i.p, i.g) == StageW(a, i.p, i.g);
  }

  lemma DampedKeepsPower(e: Eng, m: Measured, g: Globals, dt: u32)
    ensures Damped(e, m, g, dt).cmdPower == e.cmdPower && Damped(e, m, g, dt).effort == e.effort
    ensures Damped(e, m, g, dt).state == e.state && Damped(e, m, g, dt).timeIn == Wrap32(e.timeIn + dt)
    ensures Damped(e, m, g, dt).probe == e.probe
  {}

  /** The sum of the ramp steps over a window. */
  function Rises(ins: seq<Input>, i: nat, j: nat): real
    requires i <= j <= |ins| && forall k :: 0 <= k < |ins| ==> RampOk(ins[k].g)
  {
    if i == j then 0.0 else Rises(ins, i, j - 1) + Rise(ins[j - 1].g, ins[j - 1].dt)
  }

  lemma {:induction false} PowerStaysOk(ins: seq<Input>, k: nat)
    requires k <= |ins| && forall j :: 0 <= j < |ins| ==> RampOk(ins[j].g)
    ensures PowerOk(StateAt(ins, k))
  {
    hide Ticked;
    if k > 0 {
      PowerStaysOk(ins, k - 1);
      PowerIsBounded(StateAt(ins, k - 1), ins[k - 1]);
    }
  }

  /** Over any window of any run the commanded power rises by at most the ramp. */
  lemma {:induction false} PowerRampsUp(ins: seq<Input>, i: nat, j: nat)
    requires i <= j <= |ins| && forall k :: 0 <= k < |ins| ==> RampOk(ins[k].g)
    ensures PowerOk(StateAt(ins, i)) && PowerOk(StateAt(ins, j))
    ensures StateAt(ins, j).cmdPower.r <= StateAt(ins, i).cmdPower.r + Rises(ins, i, j)
    decreases j
  {
    hide Ticked, Rise;
    PowerStaysOk(ins, j);
    if i < j {
      PowerRampsUp(ins, i, j - 1);
      PowerIsBounded(StateAt(ins, j - 1), ins[j - 1]);
    }
  }

  // ---- the stay in BULK ----------------------------------------------------------------------------------

  function LimitMs(g: Globals): nat { g.chargeMaxMin * 60000 }

  lemma BulkIsTimed(s: Eng, m: Measured, p: Profile, g: Globals, dt: u32)
    requires Advanced(s, m, p, g, dt).state == Bulk
    ensures var f := Advanced(s, m, p, g, dt);
            if s.state == Bulk then f.timeIn == s.timeIn < LimitMs(g) else f.timeIn == 0
  {
    hide RevertMet, AlreadyFull, AtCv, InTail, LimpNow, EnabledNow;
  }

  /** A cycle that stays in BULK has not used up the time; one that enters it starts it. */
  lemma BulkTime(e: Eng, i: Input)
    requires After(e, i).state == Bulk
    ensures if e.state == Bulk then After(e, i).timeIn == Wrap32(e.timeIn + i.dt) < LimitMs(i.g) else After(e, i).timeIn == 0
  {
    hide Damped, FaultsNow, Advanced, Driven, LimitMs;
    var s := Sensed(e, i.m, i.g, i.dt);
    DampedKeepsPower(e, i.m, i.g, i.dt);
    DrivenIsSafe(Advanced(s, i.m, i.p, i.g, i.dt), i.m, i.ceilings, i.p, i.g, i.dt);
    BulkIsTimed(s, i.m, i.p, i.g, i.dt);
  }

  /** The time between states `i` and `j` of a run. */
  function Between(ins: seq<Input>, i: nat, j: nat): nat
    requires i <= j <= |ins|
  {
    if i == j then 0 else Between(ins, i, j - 1) + ins[j - 1].dt
  }

  /** The limit is at most a day, and no single cycle is so long (over 48 days) that the
      timer could wrap in it. */
  ghost predicate Timed(ins: seq<Input>, limit: nat)
  {
    && limit <= 1440 * 60000
    && forall k :: 0 <= k < |ins| ==> LimitMs(ins[k].g) == limit && ins[k].dt <= POW32 - 1 - 1440 * 60000
  }

  /** However long the run, a continuous stay in BULK is shorter than the charge time
      limit: it ends in the first cycle that reaches it. `i` is where the stay began. */
  lemma {:induction false} StayInBulkIsBounded(ins: seq<Input>, limit: nat, i: nat, j: nat)
    requires Timed(ins, limit) && 0 < i <= j <= |ins| && StateAt(ins, i - 1).state != Bulk
    requires forall k :: i <= k <= j ==> StateAt(ins, k).state == Bulk
    ensures StateAt(ins, j).timeIn == Between(ins, i, j) && (i < j ==> Between(ins, i, j) < limit)
    decreases j
  {
    hide Ticked, LimitMs;
    assert StateAt(ins, j).state == Bulk;
    BulkTime(StateAt(ins, j - 1), ins[j - 1]);
    if i < j {
      StayInBulkIsBounded(ins, limit, i, j - 1);
      assert LimitMs(ins[j - 1].g) == limit;
      assert StateAt(ins, j - 1).state == Bulk;
    }
  }

  // ---- excitation at standstill --------------------------------------------------------------------------

  const CYCLE_MS: nat := 10

  /** How many of the next `n` cycles without rotation may drive the field at all. */
  function Lows(probe: u32, n: nat): nat
    decreases n
  {
    if n == 0 then 0
    else
      var q := ProbeNext(probe, CYCLE_MS);
      (if q < PROBE_ON_MS then 1 else 0) + Lows(q, n - 1)
  }

  /** Cycles in the pulse that is on, and in the one after the probe's period ends. */
  function LowsBound(probe: u32, n: nat): int
  {
    var k := probe / 10;
    (if k < 4 then Min(n, 4 - k) else 0) + (if n < 50 - k then 0 else Min(5, n - (50 - k) + 1))
  }

  lemma {:induction false} LowsAreBounded(probe: u32, n: nat)
    requires probe < PROBE_PERIOD_MS && n <= 50
    ensures Lows(probe, n) <= LowsBound(probe, n)
    decreases n
  {
    hide ProbeNext;
    if n > 0 {
      ProbeStep(probe);
      LowsAreBounded(ProbeNext(probe, CYCLE_MS), n - 1);
    }
  }

  lemma ProbeStep(probe: u32)
    requires probe < PROBE_PERIOD_MS
    ensures ProbeNext(probe, CYCLE_MS) == if probe >= 490 then 0 else probe + 10
    ensures probe < 490 ==> (probe + 10) / 10 == probe / 10 + 1
  {}

  /** In any fifty cycles of 10 ms, from any phase of the probe. */
  lemma FiveInFifty(probe: u32)
    requires probe < PROBE_PERIOD_MS
    ensures Lows(probe, 50) <= 5
  {
    LowsAreBounded(probe, 50);
  }

  /** Cycle `k` ran at 10 ms, found no rotation, and ended in STANDBY or not. */
  ghost predicate Quiet(ins: seq<Input>, k: nat, rest: bool)
    requires k < |ins|
  {
    ins[k].dt == CYCLE_MS && !RunDetected(ins[k].m) && (rest <==> StateAt(ins, k + 1).state == Standby)
  }

  /** Such cycles from `i` on; `rests` tells which of them ended in STANDBY. */
  ghost predicate Standstill(ins: seq<Input>, i: nat, rests: seq<bool>)
    decreases |rests|
  {
    i + |rests| <= |ins| && (rests != [] ==> Quiet(ins, i, rests[0]) && Standstill(ins, i + 1, rests[1..]))
  }

  /** Of the `n` cycles from `i`, those whose command drives the field. */
  function DrivenCycles(ins: seq<Input>, i: nat, n: nat): nat
    requires i + n <= |ins|
    decreases n
  {
    if n == 0 then 0
    else (if Gt(StateAt(ins, i + 1).effort, Fin(0.0)) then 1 else 0) + DrivenCycles(ins, i + 1, n - 1)
  }

  lemma GatedCycle(e: Eng, i: Input)
    requires !RunDetected(i.m) && After(e, i).state != Standby
    ensures var f := After(e, i);
            f.probe == ProbeNext(e.probe, i.dt) && f.cmdPower == Fin(0.0)
            && f.effort.Fin? && f.effort.r <= 0.05 && (f.effort.r > 0.0 ==> f.probe < PROBE_ON_MS)
  {
    hide Damped, FaultsNow, Advanced, Driven;
    var s := Sensed(e, i.m, i.g, i.dt);
    DampedKeepsPower(e, i.m, i.g, i.dt);
    AdvancedKeeps(s, i.m, i.p, i.g, i.dt);
    DrivenIsSafe(Advanced(s, i.m, i.p, i.g, i.dt), i.m, i.ceilings, i.p, i.g, i.dt);
  }

  lemma ProbeInPeriod(ins: seq<Input>, k: nat)
    requires k <= |ins|
    ensures StateAt(ins, k).probe < PROBE_PERIOD_MS
  {
    hide Driven, Advanced, Sensed;
  }

  lemma RestingCycle(e: Eng, i: Input)
    requires After(e, i).state == Standby
    ensures After(e, i).probe == 0 && After(e, i).effort == Fin(0.0)
  {
    hide Damped, FaultsNow, Advanced, Driven;
    DrivenIsSafe(Advanced(Sensed(e, i.m, i.g, i.dt), i.m, i.p, i.g, i.dt), i.m, i.ceilings, i.p, i.g, i.dt);
  }

  /** The probe replayed over cycles of 10 ms, restarted by every cycle that ends in STANDBY:
      how many of the others fall into its pulse. */
  function Replay(probe: u32, rests: seq<bool>): nat
    decreases |rests|
  {
    if rests == [] then 0
    else if rests[0] then Replay(0, rests[1..])
    else
      var q := ProbeNext(probe, CYCLE_MS);
      (if q < PROBE_ON_MS then 1 else 0) + Replay(q, rests[1..])
  }

  lemma QuietStep(ins: seq<Input>, i: nat, rest: bool)
    requires i < |ins| && Quiet(ins, i, rest)
    ensures var (e, f) := (StateAt(ins, i), StateAt(ins, i + 1));
            && f.effort.Fin? && f.effort.r <= 0.05
            && if rest then f.probe == 0 && !Gt(f.effort, Fin(0.0))
               else f.probe == ProbeNext(e.probe, CYCLE_MS) && (Gt(f.effort, Fin(0.0)) ==> f.probe < PROBE_ON_MS)
  {
    hide Ticked, ProbeNext, RunDetected;
    if rest { RestingCycle(StateAt(ins, i), ins[i]); } else { GatedCycle(StateAt(ins, i), ins[i]); }
  }

  /** A rotor that does not turn is never driven in more cycles than the replayed probe has
      pulses, whichever cycles end in STANDBY. */
  lemma {:induction false} DrivenWithinReplay(ins: seq<Input>, i: nat, rests: seq<bool>)
    requires Standstill(ins, i, rests)
    ensures DrivenCycles(ins, i, |rests|) <= Replay(StateAt(ins, i).probe, rests)
    decreases |rests|
  {
    hide StateAt, ProbeNext, Gt, Quiet;
    if rests != [] {
      QuietStep(ins, i, rests[0]);
      DrivenWithinReplay(ins, i + 1, rests[1..]);
    }
  }

  /** Nor is it ever driven with more than 0.05. */
  lemma {:induction false} EffortStaysLow(ins: seq<Input>, i: nat, rests: seq<bool>, k: nat)
    requires Standstill(ins, i, rests) && i < k <= i + |rests|
    ensures StateAt(ins, k).effort.Fin? && StateAt(ins, k).effort.r <= 0.05
    decreases |rests|
  {
    hide StateAt, ProbeNext, Gt, Quiet;
    if k == i + 1 { QuietStep(ins, i, rests[0]); } else { EffortStaysLow(ins, i + 1, rests[1..], k); }
  }

  // ---- the bound is attained ---------------------------------------------------------------------------

  /** 16 cells at 40 V, no rotation, a fault that calls for LIMP: the field is wanted whenever
      the ignition is on. */
  function Still(ignition: bool): Measured
  {
    Measured(Fin(40.0), Fin(40.0), NaN, Fin(0.0), false, NaN, NaN, NaN, NaN, NaN, Lost, false, NaN, false, ignition, {6})
  }

  const SETUP: Globals :=
    Globals(16, Fin(1000.0), Fin(100.0), Fin(100.0), 60, 10, 0, 600, 0, -1, Fin(0.0), -1,
            Field.Rotor(false, Fin(12.0), NaN), Fin(3.25), Fin(1000.0), false)

  const STOCK: Profile := Profile(Fin(3.5), false, false, Fin(3.375), Fin(1000.0), Fin(3.25), 60, -1, Fin(0.0))

  function StillInput(rest: bool, dt: u32): Input { Input(Still(!rest), [], STOCK, SETUP, dt) }

  /** The engine between two such cycles. */
  ghost predicate Idling(e: Eng)
  {
    && e.faults * Faults.OPEN == {} && (e.vCtrl.NaN? || e.vCtrl == Fin(40.0)) && e.cmdPower == Fin(0.0)
    && e.effort.Fin? && 0.0 <= e.effort.r <= 1.0
  }

  lemma StillSensed(e: Eng, rest: bool, dt: u32)
    requires Idling(e)
    ensures var (i, s) := (StillInput(rest, dt), Sensed(e, StillInput(rest, dt).m, SETUP, dt));
            && s.faults * Faults.OPEN == {} && (EnabledNow(i.m, s.faults) <==> !rest) && LimpNow(s.faults)
            && s.vCtrl == Fin(40.0) && s.cmdPower == Fin(0.0) && s.effort == e.effort && s.probe == e.probe
  {
    hide Field.GuardNext, Field.GuardOut, AhNext, CountsAh;
    var bad := VettedSupply(e, Still(!rest), SETUP, dt).implausible;
    assert LiveFaults(Still(!rest), SETUP, bad) == Bit(bad, VSUP_IMPLAUSIBLE);
    assert 6 in FaultsNow(e, Still(!rest), SETUP, bad) && 6 in Faults.LIMP;
    assert FaultsNow(e, Still(!rest), SETUP, bad) * Faults.OPEN == {};
    assert FaultsNow(e, Still(!rest), SETUP, bad) * Faults.BLOCK == {};
  }

  /** The figures of such a cycle: 1 W commanded, 12 V below the target. */
  lemma StillFigures()
    ensures Seconds(CYCLE_MS) == 0.01 && Arbitration.Arbitrated(Fin(1000.0), []).watts == Fin(1000.0)
    ensures Scale(SETUP.rampWps, 0.01) == Fin(1.0) && Pack(SETUP.limpV, SETUP) == Fin(52.0)
    ensures Scale(Fin(12.0), 0.02) == Fin(0.24) && Scale(Fin(1.0), 0.00001) == Fin(0.00001)
  {}

  lemma StillDemand(e: Eng)
    requires e.effort.Fin? && e.vCtrl == Fin(40.0) && StageV(e, STOCK, SETUP) == Fin(3.25)
    ensures Demand(e, Fin(1.0), Still(true), STOCK, SETUP, CYCLE_MS) == Fin(e.effort.r + 0.00001)
  {
    StillFigures();
    hide Scale, Pack, Seconds, StageV;
    assert Sub(Fin(52.0), Fin(40.0)) == Fin(12.0) && Sub(Fin(1.0), Fin(0.0)) == Fin(1.0);
    assert Add(e.effort, Fin(0.24)) == Fin(e.effort.r + 0.24) && Add(e.effort, Fin(0.00001)) == Fin(e.effort.r + 0.00001);
  }

  lemma StillDriven(e: Eng)
    requires Idling(e) && e.state == Floating && e.vCtrl == Fin(40.0) && LimpNow(e.faults)
    ensures Gt(Driven(e, Still(true), [], STOCK, SETUP, CYCLE_MS).effort, Fin(0.0))
  {
    hide LimpNow, Scale, Pack, Seconds, Arbitration.Arbitrated, Demand, StageV, StageW, Ramped;
    StillFigures();
    StillStage(e);
    StillDemand(e);
  }

  lemma StillStage(e: Eng)
    requires e.state == Floating && LimpNow(e.faults)
    ensures StageV(e, STOCK, SETUP) == Fin(3.25) && StageW(e, STOCK, SETUP) == Fin(1000.0)
    ensures Ramped(Fin(0.0), Fin(1000.0), Fin(1.0)) == Fin(1.0)
  {
    hide LimpNow;
  }

  lemma StillAdvanced(s: Eng, rest: bool, dt: u32)
    requires EnabledNow(Still(!rest), s.faults) <==> !rest
    requires LimpNow(s.faults) && s.faults * Faults.OPEN == {}
    ensures Advanced(s, Still(!rest), STOCK, SETUP, dt).state == if rest then Standby else Floating
  {
    hide EnabledNow, LimpNow;
  }

  lemma StillStep(e: Eng, rest: bool, dt: u32)
    requires Idling(e)
    ensures var f := After(e, StillInput(rest, dt));
            && Idling(f) && (f.state == Standby <==> rest) && f.probe == (if rest then 0 else ProbeNext(e.probe, dt))
            && (dt == CYCLE_MS && !rest ==> (Gt(f.effort, Fin(0.0)) <==> f.probe < PROBE_ON_MS))
  {
    hide Sensed, EnabledNow, LimpNow, Advanced, Driven, ProbeNext;
    var m := Still(!rest);
    var s := Sensed(e, m, SETUP, dt);
    var a := Advanced(s, m, STOCK, SETUP, dt);
    StillSensed(e, rest, dt);
    StillAdvanced(s, rest, dt);
    AdvancedKeeps(s, m, STOCK, SETUP, dt);
    DrivenIsSafe(a, m, [], STOCK, SETUP, dt);
    DrivenKeeps(a, m, [], STOCK, SETUP, dt);
    if dt == CYCLE_MS && !rest { StillDriven(a); }
  }

  lemma DrivenKeeps(e: Eng, m: Measured, ceilings: seq<F>, p: Profile, g: Globals, dt: u32)
    ensures var f := Driven(e, m, ceilings, p, g, dt);
            f.vCtrl == e.vCtrl && (e.state == Standby ==> f.cmdPower == Fin(0.0))
  {
    hide Demand, Ramped, Arbitration.Arbitrated;
  }

  /** Cycles of 10 ms that end in STANDBY as `rests` says. */
  function StillInputs(rests: seq<bool>): (ins: seq<Input>)
    ensures |ins| == |rests|
    decreases |rests|
  {
    if rests == [] then [] else [StillInput(rests[0], CYCLE_MS)] + StillInputs(rests[1..])
  }

  lemma StillSlice(ins: seq<Input>, i: nat, rests: seq<bool>)
    requires rests != [] && i + |rests| <= |ins| && ins[i..i + |rests|] == StillInputs(rests)
    ensures ins[i] == StillInput(rests[0], CYCLE_MS)
    ensures ins[i + 1..i + 1 + |rests[1..]|] == StillInputs(rests[1..])
  {
    hide StillInput;
    assert ins[i] == ins[i..i + |rests|][0];
    assert ins[i + 1..i + 1 + |rests[1..]|] == ins[i..i + |rests|][1..];
  }

  lemma StillCycle(ins: seq<Input>, i: nat, rest: bool)
    requires i < |ins| && ins[i] == StillInput(rest, CYCLE_MS) && Idling(StateAt(ins, i))
    ensures var (e, f) := (StateAt(ins, i), StateAt(ins, i + 1));
            && Quiet(ins, i, rest) && Idling(f) && f.probe == (if rest then 0 else ProbeNext(e.probe, CYCLE_MS))
            && (Gt(f.effort, Fin(0.0)) <==> !rest && f.probe < PROBE_ON_MS)
  {
    hide After, ProbeNext, Gt, Idling;
    StillStep(StateAt(ins, i), rest, CYCLE_MS);
    RestingEffort(StateAt(ins, i), ins[i]);
  }

  lemma {:induction false} StillRun(ins: seq<Input>, i: nat, rests: seq<bool>)
    requires i + |rests| <= |ins| && ins[i..i + |rests|] == StillInputs(rests) && Idling(StateAt(ins, i))
    ensures Standstill(ins, i, rests) && DrivenCycles(ins, i, |rests|) == Replay(StateAt(ins, i).probe, rests)
    decreases |rests|
  {
    hide StateAt, ProbeNext, Gt, Idling, Quiet, StillInput, StillInputs;
    if rests != [] {
      StillSlice(ins, i, rests);
      StillCycle(ins, i, rests[0]);
      StillRun(ins, i + 1, rests[1..]);
    }
  }

  lemma RestingEffort(e: Eng, i: Input)
    ensures After(e, i).state == Standby ==> !Gt(After(e, i).effort, Fin(0.0))
  {
    hide After;
    if After(e, i).state == Standby { RestingCycle(e, i); }
  }

  /** From every phase of the probe and for every STANDBY pattern there is a run that is driven
      as often as the replayed probe has pulses. */
  lemma ReplayAttained(probe: u32, rests: seq<bool>)
    requires probe < PROBE_PERIOD_MS
    ensures exists ins ::
              && |ins| == 1 + |rests| && Standstill(ins, 1, rests) && StateAt(ins, 1).probe == probe
              && DrivenCycles(ins, 1, |rests|) == Replay(probe, rests)
  {
    hide Ticked, Standstill, DrivenCycles, Replay;
    var ins := [StillInput(false, probe)] + StillInputs(rests);
    StillStep(Initial, false, probe);
    assert StateAt(ins, 0) == Initial && StateAt(ins, 1) == After(Initial, ins[0]);
    assert ins[1..1 + |rests|] == StillInputs(rests);
    StillRun(ins, 1, rests);
  }

  /** Exactly how often a standing rotor may be driven: for a window that starts at a phase of
      the probe and has a given STANDBY pattern, `most` bounds every run if and only if the
      replayed probe has at most `most` pulses. */
  lemma StandstillExcitation(probe: u32, rests: seq<bool>, most: nat)
    requires probe < PROBE_PERIOD_MS
    ensures Replay(probe, rests) <= most <==>
            forall ins, i :: Standstill(ins, i, rests) && StateAt(ins, i).probe == probe ==>
              DrivenCycles(ins, i, |rests|) <= most
  {
    hide StateAt, Quiet, DrivenCycles, Replay;
    forall ins, i | Standstill(ins, i, rests) && StateAt(ins, i).probe == probe
      ensures DrivenCycles(ins, i, |rests|) <= Replay(probe, rests)
    {
      DrivenWithinReplay(ins, i, rests);
    }
    ReplayAttained(probe, rests);
  }

  lemma {:induction false} ReplayWithoutRest(probe: u32, rests: seq<bool>)
    requires forall k :: 0 <= k < |rests| ==> !rests[k]
    ensures Replay(probe, rests) == Lows(probe, |rests|)
    decreases |rests|
  {
    if rests != [] { ReplayWithoutRest(ProbeNext(probe, CYCLE_MS), rests[1..]); }
  }

  /** Outside STANDBY the firmware's figure holds: at most 5 of any 50 cycles. */
  lemma FiveOfFifty(ins: seq<Input>, i: nat, rests: seq<bool>)
    requires |rests| == 50 && Standstill(ins, i, rests) && forall k :: 0 <= k < 50 ==> !rests[k]
    ensures DrivenCycles(ins, i, 50) <= 5
  {
    hide StateAt, Quiet, DrivenCycles, Replay, Lows;
    ProbeInPeriod(ins, i);
    FiveInFifty(StateAt(ins, i).probe);
    ReplayWithoutRest(StateAt(ins, i).probe, rests);
    DrivenWithinReplay(ins, i, rests);
  }

  /** Every fifth cycle in STANDBY. */
  function EveryFifth(n: nat): (rests: seq<bool>)
    ensures |rests| == 5 * n
  {
    if n == 0 then [] else [true, false, false, false, false] + EveryFifth(n - 1)
  }

  lemma {:induction false} FourOfFive(probe: u32, n: nat)
    ensures Replay(probe, EveryFifth(n)) == 4 * n
    decreases n
  {
    if n > 0 {
      var r := EveryFifth(n);
      assert r[1..][1..][1..][1..][1..] == EveryFifth(n - 1);
      assert r[0] && !r[1..][0] && !r[1..][1..][0] && !r[1..][1..][1..][0] && !r[1..][1..][1..][1..][0];
      assert ProbeNext(0, 10) == 10 && ProbeNext(10, 10) == 20 && ProbeNext(20, 10) == 30 && ProbeNext(30, 10) == 40;
      hide ProbeNext, EveryFifth;
      assert Replay(30, r[1..][1..][1..][1..]) == 1 + Replay(40, r[1..][1..][1..][1..][1..]);
      assert Replay(20, r[1..][1..][1..]) == 1 + Replay(30, r[1..][1..][1..][1..]);
      assert Replay(10, r[1..][1..]) == 1 + Replay(20, r[1..][1..][1..]);
      assert Replay(0, r[1..]) == 1 + Replay(10, r[1..][1..]);
      FourOfFive(40, n - 1);
    }
  }

  /** With STANDBY cycles in between it does not: a run that is driven in 40 of 50 cycles. */
  lemma FortyOfFifty()
    ensures exists ins :: Standstill(ins, 1, EveryFifth(10)) && DrivenCycles(ins, 1, 50) == 40
  {
    hide StateAt, Standstill, DrivenCycles, Replay, EveryFifth;
    FourOfFive(0, 10);
    ReplayAttained(0, EveryFifth(10));
  }
}
