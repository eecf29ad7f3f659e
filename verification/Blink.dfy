/** The status-lamp blink encoder of control/Src/annunc.c: a timed machine that walks
    over as many phases as the elapsed time covers. */
module Blink {
  import opened Words
  import Faults

  const LONG_MS: nat := 600
  const SHORT_MS: nat := 200
  const GAP_MS: nat := 300
  const REPEAT_MS: nat := 2000
  const HEARTBEAT_ON_MS: nat := 100
  const HEARTBEAT_PERIOD_MS: nat := 3000

  datatype Phase = Flash | Inter | Gap

  datatype Lamp = Lamp(code: nat, longs: nat, total: nat, idx: nat, phase: Phase, ms: nat)

  /** The start of a cycle that shows `code`. */
  function Load(code: nat, ms: nat): Lamp
  {
    if code == 0 then Lamp(0, 0, 1, 0, Flash, ms) else Lamp(code, code / 10, code / 10 + code % 10, 0, Flash, ms)
  }

  function FlashMs(a: Lamp, k: nat): (d: nat)
    ensures d > 0
  {
    if a.code == 0 then HEARTBEAT_ON_MS else if k < a.longs then LONG_MS else SHORT_MS
  }

  function RepeatGapMs(a: Lamp): (d: nat)
    ensures d > 0
  {
    if a.code == 0 then HEARTBEAT_PERIOD_MS - HEARTBEAT_ON_MS else REPEAT_MS
  }

  function Duration(a: Lamp): (d: nat)
    ensures d > 0
  {
    match a.phase
    case Flash => FlashMs(a, a.idx)
    case Inter => GAP_MS
    case Gap => RepeatGapMs(a)
  }

  /** The next phase; only the end of a cycle looks at the faults. */
  function Next(a: Lamp, f: Faults.Word): Lamp
    requires a.ms >= Duration(a)
  {
    var rest := a.ms - Duration(a);
    match a.phase
    case Flash => a.(ms := rest, idx := a.idx + 1, phase := if a.idx + 1 >= a.total then Gap else Inter)
    case Inter => a.(ms := rest, phase := Flash)
    case Gap => Load(Faults.TopCode(f), rest)
  }

  function Walk(a: Lamp, f: Faults.Word): (b: Lamp)
    ensures b.ms < Duration(b)
    decreases a.ms
  {
    if a.ms < Duration(a) then a else Walk(Next(a, f), f)
  }

  function Later(a: Lamp, dt: nat): Lamp { a.(ms := a.ms + dt) }

  predicate Lit(a: Lamp) { a.phase == Flash }

  function Updated(a: Lamp, f: Faults.Word, dt: nat): Lamp { Walk(Later(a, dt), f) }

  /** The state the firmware updates in place. */
  class Annunciator {
    var code: nat
    var longs: nat
    var total: nat
    var flashIdx: nat
    var phase: Phase
    var phaseMs: nat

    ghost function View(): Lamp
      reads this
    {
      Lamp(code, longs, total, flashIdx, phase, phaseMs)
    }

    constructor ()
      ensures View() == Load(0, 0)
    {
      code, longs, total, flashIdx, phase, phaseMs := 0, 0, 1, 0, Flash, 0;
    }

    method LoadPattern(c: nat)
      modifies this
      ensures View() == Load(c, old(phaseMs)).(phase := old(phase))
    {
      code := c;
      if c == 0 {
        longs, total := 0, 1;
      } else {
        longs := c / 10;
        total := longs + c % 10;
      }
      flashIdx := 0;
    }

    /** One turn of the catch-up loop: the phase goes on, or the next one starts. */
    method Turn(faults: Faults.Word) returns (stays: bool)
      modifies this
      ensures stays <==> old(View()).ms < Duration(old(View()))
      ensures View() == if stays then old(View()) else Next(old(View()), faults)
    {
      if phase == Flash {
        var dur := FlashMs(Lamp(code, longs, total, flashIdx, phase, phaseMs), flashIdx);
        if phaseMs < dur { return true; }
        phaseMs := phaseMs - dur;
        flashIdx := flashIdx + 1;
        phase := if flashIdx >= total then Gap else Inter;
      } else if phase == Inter {
        if phaseMs < GAP_MS { return true; }
        phaseMs := phaseMs - GAP_MS;
        phase := Flash;
      } else {
        var dur := RepeatGapMs(Lamp(code, longs, total, flashIdx, phase, phaseMs));
        if phaseMs < dur { return true; }
        phaseMs := phaseMs - dur;
        var pick := Faults.ComputeTopCode(faults);
        LoadPattern(pick);
        phase := Flash;
      }
      stays := false;
    }

    method Update(faults: Faults.Word, dt: nat) returns (on: bool)
      modifies this
      ensures View() == Updated(old(View()), faults, dt) && on == Lit(View())
    {
      hide Duration, Next;
      phaseMs := phaseMs + dt;
      while true
        invariant Walk(View(), faults) == Updated(old(View()), faults, dt)
        decreases phaseMs
      {
        if View().ms >= Duration(View()) { NextIsLess(View(), faults); }
        var stays := Turn(faults);
        if stays { return phase == Flash; }
      }
    }
  }

  lemma NextIsLess(a: Lamp, f: Faults.Word)
    requires a.ms >= Duration(a)
    ensures Next(a, f).ms < a.ms
  {}

  // ---- slicing time --------------------------------------------------------------------------------

  lemma NextLater(a: Lamp, f: Faults.Word, dt: nat)
    requires a.ms >= Duration(a)
    ensures Next(Later(a, dt), f) == Later(Next(a, f), dt)
  {}

  lemma {:induction false} WalkLater(a: Lamp, f: Faults.Word, dt: nat)
    ensures Walk(Later(a, dt), f) == Walk(Later(Walk(a, f), dt), f)
    decreases a.ms
  {
    if a.ms >= Duration(a) {
      NextLater(a, f, dt);
      WalkLater(Next(a, f), f, dt);
    }
  }

  /** With the faults unchanged, two updates are one update by the sum of their times. */
  lemma UpdatesAdd(a: Lamp, f: Faults.Word, d1: nat, d2: nat)
    ensures Updated(Updated(a, f, d1), f, d2) == Updated(a, f, d1 + d2)
  {
    WalkLater(Later(a, d1), f, d2);
  }

  /** After an update less than three seconds are pending, so the 32-bit sum in the next
      one does not overflow for any step up to 2^32 - 3000 ms: the source's wrapped counter
      is the counter of the model. */
  lemma PendingIsShort(a: Lamp, f: Faults.Word, dt: nat, next: nat)
    requires next <= POW32 - 3000
    ensures Wrap32(Updated(a, f, dt).ms + next) == Later(Updated(a, f, dt), next).ms
    ensures Updated(a, f, dt).ms < 3000
  {
    var b := Updated(a, f, dt);
    assert b.ms < Duration(b);
  }

  // ---- what a cycle shows --------------------------------------------------------------------------

  /** The flashes a code is shown as: tens long, units short; the heartbeat for none. */
  function Flashes(code: nat): seq<nat>
  {
    if code == 0 then [100] else seq(code / 10, _ => 600) + seq(code % 10, _ => 200)
  }

  /** Whether the lamp is lit `t` ms into a train of flashes with gaps between them. */
  function LitAt(train: seq<nat>, t: nat): bool
  {
    train != [] && (t < train[0] || (t >= train[0] + 300 && LitAt(train[1..], t - train[0] - 300)))
  }

  /** How long the train takes, gaps between flashes included. */
  function TrainMs(train: seq<nat>): nat
  {
    if train == [] then 0 else train[0] + if |train| == 1 then 0 else 300 + TrainMs(train[1..])
  }

  /** A lamp in the middle of the cycle that shows `code`. */
  predicate InCycle(a: Lamp, code: nat)
  {
    var s := Load(code, 0);
    a.code == code && a.longs == s.longs && a.total == s.total
  }

  lemma FlashesHaveMs(code: nat, k: nat)
    requires k < |Flashes(code)|
    ensures Flashes(code)[k] == FlashMs(Load(code, 0), k) && |Flashes(code)| == Load(code, 0).total > 0
  {}

  /** From flash `k` on, the lamp plays the rest of the train and then stays dark for the
      repeat gap, whatever the faults do in the meantime. */
  lemma {:induction false} TrainPlays(a: Lamp, code: nat, f: Faults.Word, g: Faults.Word)
    requires InCycle(a, code) && a.phase == Flash && a.idx < |Flashes(code)|
    requires a.ms < TrainMs(Flashes(code)[a.idx..]) + RepeatGapMs(a)
    ensures Lit(Walk(a, f)) <==> LitAt(Flashes(code)[a.idx..], a.ms)
    ensures Walk(a, g) == Walk(a, f)
    decreases |Flashes(code)| - a.idx
  {
    hide Flashes;
    var train := Flashes(code)[a.idx..];
    FlashesHaveMs(code, a.idx);
    if a.ms >= train[0] {
      var b := Next(a, f);
      if b.phase == Gap {
        assert train[1..] == [];
      } else {
        assert Flashes(code)[a.idx + 1..] == train[1..];
        if b.ms >= GAP_MS { TrainPlays(Next(b, f), code, f, g); }
      }
    }
  }

  /** Any updates, with any faults in any of them. */
  function UpdatedBy(a: Lamp, steps: seq<(Faults.Word, nat)>): Lamp
    decreases |steps|
  {
    if steps == [] then a else UpdatedBy(Updated(a, steps[0].0, steps[0].1), steps[1..])
  }

  function Elapsed(steps: seq<(Faults.Word, nat)>): nat { if steps == [] then 0 else steps[0].1 + Elapsed(steps[1..]) }

  function CycleMs(code: nat): nat { TrainMs(Flashes(code)) + if code == 0 then 2900 else 2000 }

  lemma {:induction false} OneWalk(code: nat, t: nat, steps: seq<(Faults.Word, nat)>)
    requires t + Elapsed(steps) < CycleMs(code)
    ensures UpdatedBy(Walk(Load(code, t), {}), steps) == Walk(Load(code, t + Elapsed(steps)), {})
    decreases |steps|
  {
    hide TrainMs, Flashes, Walk;
    if steps != [] {
      var (f, dt) := steps[0];
      StartPlays(code, t, f);
      StartPlays(code, t + dt, f);
      WalkLater(Load(code, t), f, dt);
      assert Later(Load(code, t), dt) == Load(code, t + dt);
      OneWalk(code, t + dt, steps[1..]);
    }
  }

  lemma StartPlays(code: nat, t: nat, f: Faults.Word)
    requires t < CycleMs(code)
    ensures Walk(Load(code, t), f) == Walk(Load(code, t), {})
    ensures Lit(Walk(Load(code, t), {})) <==> LitAt(Flashes(code), t)
  {
    hide TrainMs, LitAt, Walk;
    FlashesHaveMs(code, 0);
    assert Flashes(code)[0..] == Flashes(code);
    TrainPlays(Load(code, t), code, {}, f);
  }

  /** From the start of a cycle, however its time is cut into updates and whatever faults
      come and go in them, the lamp plays the flashes of the code latched at the start. */
  lemma CyclePlays(code: nat, steps: seq<(Faults.Word, nat)>)
    requires Elapsed(steps) < CycleMs(code)
    ensures Lit(UpdatedBy(Load(code, 0), steps)) <==> LitAt(Flashes(code), Elapsed(steps))
  {
    OneWalk(code, 0, steps);
    StartPlays(code, Elapsed(steps), {});
    assert Walk(Load(code, 0), {}) == Load(code, 0);
  }

  /** At the end of the cycle the next one starts, with the code of the faults of that
      moment. */
  lemma {:induction false} CycleEnds(a: Lamp, code: nat, f: Faults.Word)
    requires InCycle(a, code) && a.phase == Flash && a.idx < |Flashes(code)|
    requires a.ms == TrainMs(Flashes(code)[a.idx..]) + if code == 0 then 2900 else 2000
    ensures Walk(a, f) == Load(Faults.TopCode(f), 0)
    decreases |Flashes(code)| - a.idx
  {
    hide Flashes, Faults.TopCode;
    var train := Flashes(code)[a.idx..];
    FlashesHaveMs(code, a.idx);
    var b := Next(a, f);
    if b.phase == Gap {
      assert train[1..] == [];
      var c := Next(b, f);
      assert c == Load(Faults.TopCode(f), 0) && Walk(c, f) == c;
    } else {
      assert Flashes(code)[a.idx + 1..] == train[1..];
      CycleEnds(Next(b, f), code, f);
    }
  }
}
