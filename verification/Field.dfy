/** The rotor clamp and the supply-voltage guard of control/Src/field.c. */
module Field {
  import opened Words
  import opened Float

  const MAX_VCELL: real := 4.0
  const MIN_VCELL: real := 2.0
  const FLOOR_VCELL: real := 3.2
  const STEP_FRAC: real := 0.04
  const DISTRUST_MAX_MS: nat := 300000

  /** The rotor's part of the configuration. */
  datatype Rotor = Rotor(fullField48: bool, rated: F, maxV: F)

  function RotorV(r: Rotor): F { if r.maxV.NaN? then r.rated else r.maxV }

  /** ctrl_duty_max, for a rotor whose override is off or on. */
  function DutyMax(r: Rotor, supply: F): (d: real)
    ensures 0.0 <= d <= 1.0
  {
    if r.fullField48 then 1.0
    else if !Gt(supply, Fin(0.0)) || !Finite(RotorV(r)) || !Gt(RotorV(r), Fin(0.0)) then 0.0
    else if supply.PosInf? then 0.0
    else Unit(RotorV(r).r / supply.r)
  }

  /** Limited to [0, 1]. */
  function Unit(x: real): (y: real)
    ensures 0.0 <= y <= 1.0 && (x >= 0.0 ==> y <= x)
  {
    if x < 0.0 then 0.0 else if x > 1.0 then 1.0 else x
  }

  function Duty(effort: F, dutyMax: real): (d: F)
    requires 0.0 <= dutyMax <= 1.0
    ensures d.Fin? && 0.0 <= d.r <= dutyMax
  {
    var e := if !Gt(effort, Fin(0.0)) then 0.0 else if Gt(effort, Fin(1.0)) then 1.0 else effort.r;
    Product(e, dutyMax);
    Fin(e * dutyMax)
  }

  lemma Product(e: real, d: real)
    requires 0.0 <= e <= 1.0 && 0.0 <= d
    ensures 0.0 <= e * d <= d
  {
    assert e * d <= 1.0 * d by { assert (1.0 - e) * d >= 0.0; }
  }

  // ---- the guard -----------------------------------------------------------------------------------

  datatype Guard = Guard(track: F, distrust: u32)

  /** What a call returns: the voltage for the clamp, and whether the reading is
      distrusted. */
  datatype Vetted = Vetted(v: F, implausible: bool)

  const FRESH: Guard := Guard(NaN, 0)

  /** The higher of the two channels; no reading if neither is finite. */
  function Higher(supply: F, vbat: F): F
  {
    var v := if Finite(vbat) && (!Finite(supply) || Gt(vbat, supply)) then vbat else supply;
    if Finite(v) then v else NaN
  }

  function Cells(n: u8): (c: real)
    ensures c >= 1.0
  {
    if n == 0 then 16.0 else n as real
  }

  function Floored(v: real, c: real): real { if v < FLOOR_VCELL * c then FLOOR_VCELL * c else v }

  function Lower(a: real, b: real): real { if a < b then a else b }

  /** The trusted level when a reading arrives: seeded by the first one in band. */
  function Seeded(g: Guard, v: real, c: real): F
  {
    if g.track.NaN? then Fin(Lower(v, MAX_VCELL * c)) else g.track
  }

  /** Not more than four percent below the trusted level. */
  predicate InBand(g: Guard, v: real, c: real) { Ge(Fin(v), Scale(Seeded(g, v, c), 1.0 - STEP_FRAC)) }

  function GuardNext(g: Guard, supply: F, vbat: F, cells: u8, dt: u32): Guard
  {
    var h := Higher(supply, vbat);
    if h.NaN? then g else NextAt(g, h.r, Cells(cells), dt)
  }

  function NextAt(g: Guard, v: real, c: real, dt: u32): Guard { if v < MIN_VCELL * c then g else TrackNext(g, v, c, dt) }

  function TrackNext(g: Guard, v: real, c: real, dt: u32): Guard
  {
    if InBand(g, v, c) then Guard(Fin(Lower(v, MAX_VCELL * c)), 0)
    else if Wrap32(g.distrust + dt) >= DISTRUST_MAX_MS then Guard(Fin(v), 0)
    else Guard(Seeded(g, v, c), Wrap32(g.distrust + dt))
  }

  /** For an absurdly low reading: the trusted level, or the highest plausible bus. */
  function Fallback(g: Guard, c: real): real
  {
    if g.track.Fin? && g.track.r >= MIN_VCELL * c then g.track.r else MAX_VCELL * c
  }

  function GuardOut(g: Guard, supply: F, vbat: F, cells: u8, dt: u32): Vetted
  {
    var h := Higher(supply, vbat);
    if h.NaN? then Vetted(NaN, false) else OutAt(g, h.r, Cells(cells), dt)
  }

  function OutAt(g: Guard, v: real, c: real, dt: u32): Vetted
  {
    if v < MIN_VCELL * c then Vetted(Fin(Floored(Fallback(g, c), c)), true)
    else
      var t := TrackNext(g, v, c, dt).track;
      Vetted(Fin(Floored(if t.Fin? && v <= t.r then t.r else v, c)), !InBand(g, v, c))
  }

  /** The guard the firmware updates in place. */
  class VsupGuard {
    var vTrack: F
    var distrustMs: u32

    ghost function View(): Guard
      reads this
    {
      Guard(vTrack, distrustMs)
    }

    constructor ()
      ensures View() == FRESH
    {
      vTrack, distrustMs := NaN, 0;
    }

    method Vet(supply: F, vbat: F, cells: u8, dt: u32) returns (r: F, implausible: bool)
      requires vTrack.NaN? || vTrack.Fin?
      modifies this
      ensures View() == GuardNext(old(View()), supply, vbat, cells, dt)
      ensures Vetted(r, implausible) == GuardOut(old(View()), supply, vbat, cells, dt)
    {
      hide NextAt, OutAt, Wrap32;
      var v := supply;
      if Finite(vbat) && (!Finite(v) || Gt(vbat, v)) { v := vbat; }
      if !Finite(v) { return NaN, false; }
      var c := if cells != 0 then cells as real else 16.0;
      r, implausible := VetReading(v.r, c, dt);
    }

    method VetReading(v: real, c: real, dt: u32) returns (r: F, implausible: bool)
      requires vTrack.NaN? || vTrack.Fin?
      modifies this
      ensures View() == NextAt(old(View()), v, c, dt) && Vetted(r, implausible) == OutAt(old(View()), v, c, dt)
    {
      hide TrackNext, InBand;
      var (vHi, vLo, vFloor) := (MAX_VCELL * c, MIN_VCELL * c, FLOOR_VCELL * c);
      if v < vLo {
        var x := if vTrack.Fin? && vTrack.r >= vLo then vTrack.r else vHi;
        return Fin(if x < vFloor then vFloor else x), true;
      }
      r, implausible := Track(v, c, dt);
      r := Fin(if r.r < vFloor then vFloor else r.r);
    }

    /** A reading in the plausible band: follow it, or hold the trusted level. */
    method Track(reading: real, c: real, dt: u32) returns (r: F, implausible: bool)
      requires vTrack.NaN? || vTrack.Fin?
      modifies this
      ensures View() == TrackNext(old(View()), reading, c, dt) && implausible == !InBand(old(View()), reading, c)
      ensures r == Fin(if vTrack.Fin? && reading <= vTrack.r then vTrack.r else reading)
    {
      hide Wrap32;
      implausible := false;
      var vHi := MAX_VCELL * c;
      var v := Fin(reading);
      if vTrack.NaN? { vTrack := Fin(if v.r < vHi then v.r else vHi); }
      if Ge(v, Scale(vTrack, 1.0 - STEP_FRAC)) {
        vTrack := Fin(if v.r < vHi then v.r else vHi);
        distrustMs := 0;
      } else {
        implausible := true;
        distrustMs := Wrap32(distrustMs + dt);
        if distrustMs >= DISTRUST_MAX_MS {
          vTrack := v;
          distrustMs := 0;
        }
      }
      r := if Gt(v, vTrack) then v else vTrack;
    }
  }

  // ---- what every call keeps -------------------------------------------------------------------------

  /** The trusted level is a plausible bus voltage. */
  ghost predicate TrackOk(g: Guard, cells: u8)
  {
    g.track.NaN? || (g.track.Fin? && 2.0 * Cells(cells) <= g.track.r <= 4.0 * Cells(cells))
  }

  lemma GuardKeepsTrack(g: Guard, supply: F, vbat: F, cells: u8, dt: u32)
    requires TrackOk(g, cells)
    ensures TrackOk(GuardNext(g, supply, vbat, cells, dt), cells)
  {}

  /** The voltage for the clamp is never below the reading nor below the floor. */
  lemma VettedIsTight(g: Guard, supply: F, vbat: F, cells: u8, dt: u32)
    requires TrackOk(g, cells)
    ensures var (h, o) := (Higher(supply, vbat), GuardOut(g, supply, vbat, cells, dt));
            if h.NaN? then o.v.NaN? else o.v.Fin? && o.v.r >= h.r && o.v.r >= 3.2 * Cells(cells)
  {}

  /** From one call to the next the trusted level falls by at most four percent, unless
      the distrusted time has reached five minutes. */
  lemma TrackFallsSlowly(g: Guard, supply: F, vbat: F, cells: u8, dt: u32)
    requires TrackOk(g, cells) && g.track.Fin?
    ensures var n := GuardNext(g, supply, vbat, cells, dt);
            n.track.Fin? && (n.track.r >= g.track.r * 0.96 || Wrap32(g.distrust + dt) >= 300000)
  {}

  datatype Call = Call(supply: F, vbat: F, dt: u32)

  /** The guard after a run of calls. */
  function After(calls: seq<Call>, cells: u8): Guard
  {
    if calls == [] then FRESH
    else
      var (before, c) := (calls[..|calls| - 1], calls[|calls| - 1]);
      GuardNext(After(before, cells), c.supply, c.vbat, cells, c.dt)
  }

  /** How long readings have been distrusted since the last one that was followed; calls
      without a reading, or with an absurdly low one, do not count. */
  function DistrustedMs(calls: seq<Call>, cells: u8): nat
  {
    if calls == [] then 0
    else
      var (before, c) := (calls[..|calls| - 1], calls[|calls| - 1]);
      var h := Higher(c.supply, c.vbat);
      var was := DistrustedMs(before, cells);
      if h.NaN? || h.r < MIN_VCELL * Cells(cells) then was
      else if InBand(After(before, cells), h.r, Cells(cells)) then 0
      else if was + c.dt >= DISTRUST_MAX_MS then 0
      else was + c.dt
  }

  lemma {:induction false} DistrustIsTimed(calls: seq<Call>, cells: u8)
    requires forall k :: 0 <= k < |calls| ==> calls[k].dt < POW32 - DISTRUST_MAX_MS
    ensures After(calls, cells).distrust == DistrustedMs(calls, cells) < DISTRUST_MAX_MS
    ensures TrackOk(After(calls, cells), cells)
  {
    hide InBand, Higher;
    if calls != [] {
      var (before, c) := (calls[..|calls| - 1], calls[|calls| - 1]);
      DistrustIsTimed(before, cells);
      GuardKeepsTrack(After(before, cells), c.supply, c.vbat, cells, c.dt);
    }
  }

  /** In every run the trusted level falls by more than four percent in one call only if
      the readings had been distrusted for five minutes. */
  lemma BigFallNeedsFiveMinutes(calls: seq<Call>, c: Call, cells: u8)
    requires forall k :: 0 <= k < |calls| ==> calls[k].dt < POW32 - DISTRUST_MAX_MS
    requires c.dt < POW32 - DISTRUST_MAX_MS && After(calls, cells).track.Fin?
    ensures var next := After(calls + [c], cells).track;
            && next.Fin? && 2.0 * Cells(cells) <= next.r <= 4.0 * Cells(cells)
            && (next.r >= After(calls, cells).track.r * 0.96 || DistrustedMs(calls, cells) + c.dt >= 300000)
  {
    DistrustIsTimed(calls, cells);
    assert (calls + [c])[..|calls|] == calls;
    TrackFallsSlowly(After(calls, cells), c.supply, c.vbat, cells, c.dt);
    GuardKeepsTrack(After(calls, cells), c.supply, c.vbat, cells, c.dt);
  }

  // ---- the clamp ---------------------------------------------------------------------------------------

  /** The duty commanded for an effort, from the vetted supply. */
  function VettedDuty(g: Guard, r: Rotor, supply: F, vbat: F, cells: u8, dt: u32, effort: F): (d: F)
    ensures d.Fin? && 0.0 <= d.r <= 1.0
  {
    Duty(effort, DutyMax(r, GuardOut(g, supply, vbat, cells, dt).v))
  }

  /** No rotor voltage or no reading, no duty. */
  lemma NoReadingNoDuty(g: Guard, r: Rotor, supply: F, vbat: F, cells: u8, dt: u32, effort: F)
    requires !r.fullField48 && (!Gt(RotorV(r), Fin(0.0)) || !Finite(RotorV(r)) || Higher(supply, vbat).NaN?)
    ensures VettedDuty(g, r, supply, vbat, cells, dt, effort) == Fin(0.0)
  {}

  /** A product, by name: duty (volts per volt) times a voltage. */
  lemma TimesMono(a: real, b: real, v: real)
    requires a <= b && v >= 0.0
    ensures Times(a, v) <= Times(b, v)
  {
    assert (b - a) * v >= 0.0;
  }

  lemma TimesMono2(d: real, a: real, b: real)
    requires a <= b && d >= 0.0
    ensures Times(d, a) <= Times(d, b)
  {
    assert d * (b - a) >= 0.0;
  }

  lemma TimesZero(x: real)
    ensures Times(0.0, x) == 0.0
  {}

  lemma Clamped(rotor: real, v: real)
    requires rotor > 0.0 && v > 0.0
    ensures Times(Unit(rotor / v), v) <= rotor
  {
    var q := rotor / v;
    assert q * v == rotor && q > 0.0;
    TimesMono(Unit(q), q, v);
  }

  lemma DutyTimesVoltage(r: Rotor, v: F, effort: F)
    requires !r.fullField48 && v.Fin? && v.r > 0.0 && RotorV(r).Fin? && RotorV(r).r > 0.0
    ensures Times(Duty(effort, DutyMax(r, v)).r, v.r) <= RotorV(r).r
  {
    var dm := DutyMax(r, v);
    assert dm == Unit(RotorV(r).r / v.r);
    Clamped(RotorV(r).r, v.r);
    hide Times, Unit, DutyMax;
    TimesMono(Duty(effort, dm).r, dm, v.r);
  }

  lemma ReadingsBelow(supply: F, vbat: F)
    ensures var h := Higher(supply, vbat);
            (Finite(supply) ==> h.Fin? && supply.r <= h.r) && (Finite(vbat) ==> h.Fin? && vbat.r <= h.r)
  {}

  /** Duty times any finite supply reading stays within the rotor voltage, and so does
      duty times 3.2 V for each cell, whatever the readings claim. */
  lemma RotorNeverOverdriven(g: Guard, r: Rotor, supply: F, vbat: F, cells: u8, dt: u32, effort: F, x: real)
    requires TrackOk(g, cells) && !r.fullField48 && RotorV(r).Fin? && RotorV(r).r >= 0.0
    requires supply == Fin(x) || vbat == Fin(x) || x == 3.2 * Cells(cells)
    ensures Times(VettedDuty(g, r, supply, vbat, cells, dt, effort).r, x) <= RotorV(r).r
  {
    hide Times;
    var o := GuardOut(g, supply, vbat, cells, dt).v;
    VettedIsTight(g, supply, vbat, cells, dt);
    ReadingsBelow(supply, vbat);
    if RotorV(r).r == 0.0 || !o.Fin? {
      NoReadingNoDuty(g, r, supply, vbat, cells, dt, effort);
      TimesZero(x);
    } else {
      DutyTimesVoltage(r, o, effort);
      TimesMono2(VettedDuty(g, r, supply, vbat, cells, dt, effort).r, x, o.r);
    }
  }
}
