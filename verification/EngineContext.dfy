/** The engine context the firmware updates in place, tied phase by phase to Engine. */
module EngineContext {
  import opened Words
  import opened Float
  import opened Engine
  import Field
  import Faults
  import Arbitration

  class Context {
    var state: State
    var reason: Reason
    var effort: F
    var cmdPower: F
    var timeIn: u32
    var faults: Faults.Word
    var ahSince: F
    var vCtrl: F
    var vRevert: F
    var pTail: F
    var warmup: u32
    var tailHold: u32
    var revertHold: u32
    var vclampHold: u32
    var probe: u32
    const vsup: Field.VsupGuard

    ghost function View(): Eng
      reads this, vsup
    {
      Eng(state, reason, effort, cmdPower, timeIn, faults, ahSince, vCtrl, vRevert, pTail,
          warmup, tailHold, revertHold, vclampHold, vsup.View(), probe)
    }

    ghost predicate Valid()
      reads this, vsup
    {
      vsup.vTrack.NaN? || vsup.vTrack.Fin?
    }

    constructor ()
      ensures Valid() && View() == Initial && fresh(vsup)
    {
      state, reason, effort, cmdPower, timeIn, faults := Standby, Off, Fin(0.0), Fin(0.0), 0, {};
      ahSince, vCtrl, vRevert, pTail := Fin(0.0), NaN, NaN, NaN;
      warmup, tailHold, revertHold, vclampHold, probe := 0, 0, 0, 0, 0;
      vsup := new Field.VsupGuard();
    }

    method Enter(s: State, r: Reason)
      modifies this
      ensures View() == Entered(old(View()), s, r)
    {
      state, reason, timeIn, tailHold, revertHold, vclampHold := s, r, 0, 0, 0, 0;
    }

    /** Damped signals, the Ah integrator and the supply guard. */
    method Damp(m: Measured, g: Globals, dt: u32) returns (vClamp: F, bad: bool)
      requires Valid()
      modifies this, vsup
      ensures Valid() && View() == Damped(old(View()), m, g, dt)
      ensures Field.Vetted(vClamp, bad) == VettedSupply(old(View()), m, g, dt)
    {
      hide Ema, Field.GuardNext, Field.GuardOut, AhNext, Wrap32;
      timeIn := Wrap32(timeIn + dt);
      vCtrl := Ema(vCtrl, m.vcomp, 1.0, Seconds(dt));
      vRevert := Ema(vRevert, m.vcomp, 30.0, Seconds(dt));
      pTail := Ema(pTail, m.watts, 60.0, Seconds(dt));
      Integrate(m, dt);
      TrackIsReal(vsup.View(), m.vSupply, m.vbat, CellCount(g), dt);
      vClamp, bad := vsup.Vet(m.vSupply, m.vbat, CellCount(g), dt);
    }

    /** Net Ah discharged since the last charged exit, never below zero. */
    method Integrate(m: Measured, dt: u32)
      modifies this`ahSince
      ensures ahSince == if CountsAh(old(View()), m) then AhNext(old(ahSince), m, dt) else old(ahSince)
    {
      if (state == Floating || (state == Standby && reason == Resting)) && m.batteryTruth && Finite(m.amps) {
        ahSince := Sub(ahSince, Scale(m.amps, Seconds(dt) / 3600.0));
        if Lt(ahSince, Fin(0.0)) { ahSince := Fin(0.0); }
      }
    }

    /** Damping, and this cycle's faults. */
    method Sense(m: Measured, g: Globals, dt: u32) returns (vClamp: F)
      requires Valid()
      modifies this, vsup
      ensures Valid() && View() == Sensed(old(View()), m, g, dt) && vClamp == VettedSupply(old(View()), m, g, dt).v
    {
      hide LiveFaults, VettedSupply;
      DampedFaults(View(), m, g, dt);
      hide Damped;
      var bad;
      vClamp, bad := Damp(m, g, dt);
      faults := (faults * Faults.OPEN) + LiveFaults(m, g, bad) + m.ext;
    }

    method RevertCheck(m: Measured, p: Profile, g: Globals, dt: u32) returns (met: bool)
      modifies this`revertHold
      ensures met == RevertMet(old(View()), m, p, g, dt)
      ensures View() == old(View()).(revertHold := RevertHold(old(View()), p, g, dt))
    {
      met := false;
      if Le(vRevert, Pack(p.revertV, g)) {
        revertHold := Wrap32(revertHold + dt);
        if revertHold >= p.revertHoldS * 1000 { met := true; }
      } else {
        revertHold := 0;
      }
      if p.socRevert >= 0 && m.socTrusted && Ge(m.soc, Fin(0.0)) && Le(m.soc, Num(p.socRevert)) { met := true; }
      if m.batteryTruth && Gt(p.ahRevert, Fin(0.0)) && Ge(ahSince, p.ahRevert) { met := true; }
    }

    method Revert(m: Measured, p: Profile, g: Globals, dt: u32)
      modifies this
      ensures View() == RevertStep(old(View()), m, p, g, dt)
    {
      hide RevertMet, RevertHold;
      var met := RevertCheck(m, p, g, dt);
      if met { Enter(Bulk, Off); }
    }

    method Rest(p: Profile)
      modifies this
      ensures View() == Rested(old(View()), p)
    {
      ahSince := Fin(0.0);
      if p.zeroRest { Enter(Standby, Resting); } else { Enter(Floating, Off); }
    }

    method StandbyCase(m: Measured, p: Profile, g: Globals, dt: u32)
      modifies this
      ensures View() == StandbyStep(old(View()), m, p, g, dt)
    {
      hide AlreadyFull, RevertStep, Rested, Entered;
      if reason == Off || reason == Latched {
        Enter(Standby, Warmup);
        warmup := 0;
        EnteredReason(old(View()), Standby, Warmup);
      }
      if reason == Warmup {
        warmup := Wrap32(warmup + dt);
        if g.warmupS == 0 || warmup >= g.warmupS * 1000 {
          if FullNow(m, g) { Rest(p); } else { Enter(Bulk, Off); }
        }
      } else if reason == Resting {
        Revert(m, p, g, dt);
      }
    }

    predicate FullNow(m: Measured, g: Globals)
      reads this, vsup
      ensures FullNow(m, g) == AlreadyFull(View(), m, g)
    {
      || (Gt(g.skipBulkV, Fin(0.0)) && !vCtrl.NaN? && Ge(PerCell(vCtrl, g), g.skipBulkV))
      || (g.skipBulkSoc > 0 && m.socTrusted && Ge(m.soc, Num(g.skipBulkSoc)))
    }

    method BulkCase(m: Measured, p: Profile, g: Globals, dt: u32)
      modifies this
      ensures View() == BulkStep(old(View()), m, p, g, dt)
    {
      hide Rested;
      var charged := BulkTimers(m, p, g, dt);
      if charged { Rest(p); }
    }

    method BulkTimers(m: Measured, p: Profile, g: Globals, dt: u32) returns (charged: bool)
      modifies this`vclampHold, this`tailHold
      ensures View() == BulkHeld(old(View()), m, p, g, dt) && charged == Charged(View(), m, p, g)
    {
      var clamped := Ge(vCtrl, Sub(Pack(p.cvTargetV, g), Fin(0.01 * CellCount(g) as real)));
      vclampHold := if clamped then Wrap32(vclampHold + dt) else 0;
      charged := false;
      if p.exitAtCv {
        if vclampHold >= g.vclampS * 1000 { charged := true; }
      } else {
        if g.cvHoldMin > 0 && vclampHold >= g.cvHoldMin * 60000 { charged := true; }
        if m.batteryTruth && clamped && Le(pTail, g.tailW) {
          tailHold := Wrap32(tailHold + dt);
          if tailHold >= g.tailHoldS * 1000 { charged := true; }
        } else {
          tailHold := 0;
        }
        if g.socTarget >= 0 && m.socTrusted && Ge(m.soc, Num(g.socTarget)) { charged := true; }
      }
      if timeIn >= g.chargeMaxMin * 60000 { charged := true; }
    }

    method Advance(m: Measured, p: Profile, g: Globals, dt: u32)
      modifies this
      ensures View() == Advanced(old(View()), m, p, g, dt)
    {
      hide StandbyStep, BulkStep, RevertStep, Entered;
      var disp := Faults.DispositionOf(faults);
      var open := disp == Faults.OpenField;
      var enable := m.ignition && !open && faults * Faults.BLOCK == {};
      if !enable {
        Enter(Standby, if open then Latched else Off);
      } else if disp == Faults.LimpHome {
        if state != Floating { Enter(Floating, Off); }
      } else {
        match state
        case Standby => StandbyCase(m, p, g, dt);
        case Bulk => BulkCase(m, p, g, dt);
        case Floating => Revert(m, p, g, dt);
      }
    }

    method Drive(m: Measured, ceilings: seq<F>, p: Profile, g: Globals, dt: u32)
      modifies this`effort, this`cmdPower
      ensures View() == Driven(old(View()), m, ceilings, p, g, dt)
    {
      hide Arbitration.Arbitrated, LimpNow;
      if state == Standby || vCtrl.NaN? {
        effort, cmdPower := Fin(0.0), Fin(0.0);
        return;
      }
      ghost var was := View();
      var limp := LimpNow(faults);
      var stageW := if state == Bulk then g.maxChargeW else if limp then g.limpCapW else p.restCapW;
      var cvV := if state == Bulk then p.cvTargetV else if limp then g.limpV else p.restV;
      var watts, src := Arbitration.Arbitrate(stageW, ceilings);
      RampTo(watts, Scale(g.rampWps, Seconds(dt)));
      var fromV := Add(effort, Scale(Sub(Pack(cvV, g), vCtrl), 2.0 * Seconds(dt)));
      var fromP := Add(effort, Scale(Sub(cmdPower, m.watts), 0.001 * Seconds(dt)));
      var x := if Le(fromV, fromP) then fromV else fromP;
      assert x == Demand(was, cmdPower, m, p, g, dt);
      hide Demand;
      effort := if Le(watts, Fin(0.0)) then Fin(0.0) else SafeEffort(x);
    }

    method RampTo(target: F, step: F)
      modifies this`cmdPower
      ensures cmdPower == Ramped(old(cmdPower), target, step)
    {
      if Gt(target, cmdPower) {
        cmdPower := Add(cmdPower, step);
        if Gt(cmdPower, target) { cmdPower := target; }
      } else {
        cmdPower := target;
      }
    }

    /** The stationary-rotor gate. */
    method Gate(m: Measured, dt: u32)
      modifies this`effort, this`cmdPower, this`probe
      ensures View() == Gated(old(View()), m, dt)
    {
      if state != Standby && !RunDetected(m) {
        probe := Wrap32(probe + dt);
        if probe >= PROBE_PERIOD_MS { probe := 0; }
        var budget := Budget(probe);
        if Gt(effort, budget) { effort := budget; }
        cmdPower := Fin(0.0);
      } else {
        probe := 0;
      }
    }

    /** ctrl_tick. */
    method Tick(m: Measured, ceilings: seq<F>, p: Profile, g: Globals, dt: u32) returns (cmd: Command)
      requires Valid()
      modifies this, vsup
      ensures Valid() && View() == Ticked(old(View()), m, ceilings, p, g, dt)
      ensures cmd == CommandOf(old(View()), View(), m, g, dt)
    {
      hide Sensed, Advanced, Driven, Gated, VettedSupply, Field.Duty, Field.DutyMax;
      var vClamp := Sense(m, g, dt);
      Advance(m, p, g, dt);
      Drive(m, ceilings, p, g, dt);
      Gate(m, dt);
      cmd := Command(effort, Field.Duty(effort, Field.DutyMax(g.rotor, vClamp)), state == Standby, state, reason, faults);
    }
  }

  lemma TrackIsReal(g: Field.Guard, supply: F, vbat: F, cells: u8, dt: u32)
    requires g.track.NaN? || g.track.Fin?
    ensures var n := Field.GuardNext(g, supply, vbat, cells, dt); n.track.NaN? || n.track.Fin?
  {}

  lemma DampedFaults(e: Eng, m: Measured, g: Globals, dt: u32)
    ensures Damped(e, m, g, dt).faults == e.faults
  {}

  lemma EnteredReason(e: Eng, s: State, r: Reason)
    ensures Entered(e, s, r).reason == r
  {}
}
