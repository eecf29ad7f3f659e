/** The rotor clamp and the supply guard as one table of cases, in volts and milliseconds. */
module FieldLaws {
  import opened Words
  import opened Float
  import opened Field

  /** The rotor voltage of a configuration: the maximum if one is given, else the rating. */
  function RotorVolts(r: Rotor): F { if r.maxV.NaN? then r.rated else r.maxV }

  /** The duty is the effort's share of the most the rotor may get: all of it if the override is
      on or the supply does not exceed the rotor voltage, the part that brings the supply down to
      the rotor voltage if it does, and nothing without a usable voltage on both sides. */
  lemma DutyLaw(r: Rotor, supply: F, effort: F)
    ensures var (d, v) := (DutyMax(r, supply), RotorVolts(r));
            if r.fullField48 then d == 1.0
            else if supply.Fin? && supply.r > 0.0 && v.Fin? && v.r > 0.0 then
              if supply.r <= v.r then d == 1.0 else Times(d, supply.r) == v.r
            else d == 0.0
    ensures effort.Fin? && 0.0 <= effort.r <= 1.0 ==> Duty(effort, DutyMax(r, supply)) == Fin(effort.r * DutyMax(r, supply))
    ensures effort.PosInf? || (effort.Fin? && effort.r > 1.0) ==> Duty(effort, DutyMax(r, supply)) == Fin(DutyMax(r, supply))
    ensures effort.NaN? || effort.NegInf? || (effort.Fin? && effort.r < 0.0) ==> Duty(effort, DutyMax(r, supply)) == Fin(0.0)
  {
    var v := RotorVolts(r);
    if supply.Fin? && supply.r > 0.0 && v.Fin? && v.r > 0.0 { Share(v.r, supply.r); }
  }

  lemma Share(v: real, s: real)
    requires v > 0.0 && s > 0.0
    ensures s <= v ==> v / s >= 1.0
    ensures s > v ==> 0.0 < v / s < 1.0 && Times(v / s, s) == v
  {
    var q := v / s;
    assert q * s == v;
    ShareIs(v, s, q);
  }

  lemma ShareIs(v: real, s: real, q: real)
    requires v > 0.0 && s > 0.0 && Times(q, s) == v
    ensures s <= v ==> q >= 1.0
    ensures s > v ==> 0.0 < q < 1.0
  {
    assert Times(1.0, s) == s && Times(0.0, s) == 0.0;
    hide Times;
    if q < 1.0 { Strictly(q, s); } else { TimesMono(1.0, q, s); }
    if q <= 0.0 { TimesMono(q, 0.0, s); }
  }

  lemma Strictly(q: real, s: real)
    requires q < 1.0 && s > 0.0
    ensures Times(q, s) < s
  {
    assert (1.0 - q) * s > 0.0;
  }

  /** A count of 0 is read as 16 cells. */
  function CellsOf(n: u8): real { if n == 0 then 16.0 else n as real }

  function AtLeast(x: real, low: real): real { if x < low then low else x }

  function AtMost(x: real, high: real): real { if x > high then high else x }

  /** What the guard makes of a reading: whose voltage the clamp gets, whether it is
      believed, and what is trusted from then on. */
  lemma GuardLaw(g: Guard, supply: F, vbat: F, cells: u8, dt: u32)
    requires g.track.NaN? || g.track.Fin?
    ensures var (n, o, t) := (CellsOf(cells), GuardOut(g, supply, vbat, cells, dt), GuardNext(g, supply, vbat, cells, dt));
            if !supply.Fin? && !vbat.Fin? then o == Vetted(NaN, false) && t == g
            else
              var h := if !supply.Fin? then vbat.r else if !vbat.Fin? then supply.r else AtLeast(supply.r, vbat.r);
              var was := if g.track.Fin? then g.track.r else AtMost(h, 4.0 * n);
              var waited := (g.distrust + dt) % 0x1_0000_0000;
              if h < 2.0 * n then
                t == g && o == Vetted(Fin(AtLeast(if g.track.Fin? && was >= 2.0 * n then was else 4.0 * n, 3.2 * n)), true)
              else if h >= 0.96 * was then t == Guard(Fin(AtMost(h, 4.0 * n)), 0) && o == Vetted(Fin(AtLeast(h, 3.2 * n)), false)
              else if waited >= 300000 then t == Guard(Fin(h), 0) && o == Vetted(Fin(AtLeast(h, 3.2 * n)), true)
              else t == Guard(Fin(was), waited) && o == Vetted(Fin(AtLeast(was, 3.2 * n)), true)
  {
    hide NextAt, OutAt, AtMost;
    assert Cells(cells) == CellsOf(cells);
    if supply.Fin? || vbat.Fin? {
      HigherIs(supply, vbat);
      ReadingLaw(g, Higher(supply, vbat).r, CellsOf(cells), dt);
    }
  }

  lemma HigherIs(supply: F, vbat: F)
    requires supply.Fin? || vbat.Fin?
    ensures Higher(supply, vbat) == Fin(if !supply.Fin? then vbat.r else if !vbat.Fin? then supply.r else AtLeast(supply.r, vbat.r))
  {}

  lemma ReadingLaw(g: Guard, h: real, n: real, dt: u32)
    requires (g.track.NaN? || g.track.Fin?) && n >= 1.0
    ensures var (o, t) := (OutAt(g, h, n, dt), NextAt(g, h, n, dt));
            var was := if g.track.Fin? then g.track.r else AtMost(h, 4.0 * n);
            var waited := (g.distrust + dt) % 0x1_0000_0000;
            if h < 2.0 * n then
              t == g && o == Vetted(Fin(AtLeast(if g.track.Fin? && was >= 2.0 * n then was else 4.0 * n, 3.2 * n)), true)
            else if h >= 0.96 * was then t == Guard(Fin(AtMost(h, 4.0 * n)), 0) && o == Vetted(Fin(AtLeast(h, 3.2 * n)), false)
            else if waited >= 300000 then t == Guard(Fin(h), 0) && o == Vetted(Fin(AtLeast(h, 3.2 * n)), true)
            else t == Guard(Fin(was), waited) && o == Vetted(Fin(AtLeast(was, 3.2 * n)), true)
  {}
}
