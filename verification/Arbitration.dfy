/** The minimum of the active power ceilings, control/Src/arbitration.c. */
module Arbitration {
  import opened Float

  /** Who set the power: the stage itself, or ceiling number `k` in the order considered. */
  datatype Source = Stage | Ceiling(k: nat)

  datatype Arb = Arb(watts: F, src: Source)

  const CEILINGS: nat := 10

  /** The winner over the first `k` ceilings; only a strictly lower one takes over, so an
      inactive (+inf) or unusable (NaN) ceiling never does. */
  function Winner(stage: F, ceilings: seq<F>, k: nat): Arb
    requires k <= |ceilings|
  {
    if k == 0 then Arb(stage, Stage)
    else
      var r := Winner(stage, ceilings, k - 1);
      if Lt(ceilings[k - 1], r.watts) then Arb(ceilings[k - 1], Ceiling(k - 1)) else r
  }

  function Arbitrated(stage: F, ceilings: seq<F>): (r: Arb)
    ensures Ge(r.watts, Fin(0.0))
  {
    var r := Winner(stage, ceilings, |ceilings|);
    if Ge(r.watts, Fin(0.0)) then r else Arb(Fin(0.0), r.src)
  }

  lemma {:induction false} WinnerIsLowest(stage: F, ceilings: seq<F>, k: nat, j: nat)
    requires !stage.NaN? && j < k <= |ceilings|
    ensures var w := Winner(stage, ceilings, k).watts;
            !w.NaN? && Le(w, stage) && (ceilings[j].NaN? || Le(w, ceilings[j]))
  {
    if k > 1 {
      WinnerIsLowest(stage, ceilings, k - 1, if j < k - 1 then j else 0);
    }
  }

  /** The power never exceeds the stage's, nor any ceiling that is a number (or is zero),
      and it is one of them. */
  lemma PowerIsMinimum(stage: F, ceilings: seq<F>, j: nat)
    requires j < |ceilings|
    ensures var w := Arbitrated(stage, ceilings).watts;
            && (w == Fin(0.0) || (Le(w, stage) && (ceilings[j].NaN? || Le(w, ceilings[j]))))
            && (stage.NaN? ==> w == Fin(0.0))
  {
    if stage.NaN? {
      NanStageWins(stage, ceilings, |ceilings|);
    } else {
      WinnerIsLowest(stage, ceilings, |ceilings|, j);
    }
  }

  lemma {:induction false} NanStageWins(stage: F, ceilings: seq<F>, k: nat)
    requires stage.NaN? && k <= |ceilings|
    ensures Winner(stage, ceilings, k) == Arb(stage, Stage)
  {
    if k > 0 { NanStageWins(stage, ceilings, k - 1); }
  }

  /** What the source says is what the power is. */
  lemma {:induction false} SourceIsHonest(stage: F, ceilings: seq<F>, k: nat)
    requires k <= |ceilings|
    ensures var r := Winner(stage, ceilings, k);
            match r.src case Stage => r.watts == stage case Ceiling(j) => j < k && r.watts == ceilings[j]
  {
    if k > 0 { SourceIsHonest(stage, ceilings, k - 1); }
  }

  /** Of several equally low limits the first is named, the stage before any ceiling. */
  lemma {:induction false} FirstIsNamed(stage: F, ceilings: seq<F>, k: nat, j: nat)
    requires !stage.NaN? && j < k <= |ceilings|
    ensures var r := Winner(stage, ceilings, k);
            match r.src
            case Stage => !Lt(ceilings[j], stage)
            case Ceiling(w) => Lt(r.watts, stage) && (j < w ==> !Le(ceilings[j], r.watts))
  {
    if k > 1 {
      var i := if j < k - 1 then j else 0;
      FirstIsNamed(stage, ceilings, k - 1, i);
      WinnerIsLowest(stage, ceilings, k - 1, i);
    }
    WinnerIsLowest(stage, ceilings, k, j);
    SourceIsHonest(stage, ceilings, k);
  }

  /** ctrl_arbitrate: the winner is overwritten ceiling by ceiling. */
  method Arbitrate(stage: F, ceilings: seq<F>) returns (watts: F, src: Source)
    ensures Arb(watts, src) == Arbitrated(stage, ceilings)
  {
    watts, src := stage, Stage;
    var k := 0;
    while k < |ceilings|
      invariant 0 <= k <= |ceilings| && Arb(watts, src) == Winner(stage, ceilings, k)
    {
      if Lt(ceilings[k], watts) { watts, src := ceilings[k], Ceiling(k); }
      k := k + 1;
    }
    if !Ge(watts, Fin(0.0)) { watts := Fin(0.0); }
  }
}
