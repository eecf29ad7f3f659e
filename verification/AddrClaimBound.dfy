/** The timing bound of NoSharedAddress is exact: as soon as one tick gap and two
    delays reach the settle time, a late joiner can hold the address of a node that
    has already won it. */
module AddrClaimBound {
  import opened Words
  import opened CanIds
  import opened AddrClaim
  import opened AddrClaimBus

  ghost predicate Reachable(b: Bus, t: Timing)
  {
    exists r :: IsRun(r, t) && r[|r| - 1] == b
  }

  lemma ReachStep(b: Bus, a: Action, t: Timing)
    requires Reachable(b, t) && Enabled(b, a, t)
    ensures Reachable(Step(b, a, t), t)
  {
    var r :| IsRun(r, t) && r[|r| - 1] == b;
    var s := r + [Step(b, a, t)];
    forall k | 0 <= k < |s| - 1 ensures Next(s[k], s[k + 1], t) {
      if k < |r| - 1 { assert Next(r[k], r[k + 1], t); }
    }
    assert IsRun(s, t);
  }

  /** The early node, NAME 1, announced at time 0. */
  function Early(last: nat, owes: bool): Station
  {
    Station(Node(1, 0, 0, 0, if last >= SETTLE_MS then Claimed else Claiming, 0, false, owes), true, last, 0)
  }

  /** The late node, NAME 2, announced at the moment the early one won. */
  function Late(last: nat): Station
  {
    Station(Node(2, 0, 0, 0, if last >= 2 * SETTLE_MS then Claimed else Claiming, SETTLE_MS, false, false),
            true, last, SETTLE_MS)
  }

  function Alone(n: nat): Bus { Bus(n, [Early(n, false)], []) }

  function Both(n: nat, last: nat, owes: bool, net: seq<Msg>): Bus { Bus(n, [Early(last, owes), Late(n)], net) }

  lemma {:induction false} NoCopies(sender: nat, count: nat, at: nat)
    ensures Copies([], sender, count, at) == []
  {
    if count > 0 { NoCopies(sender, count - 1, at); }
  }

  /** A tick of a node that owes nothing only moves its clock forward. */
  lemma IdleTick(b: Bus, i: nat, t: Timing)
    requires i < |b.st| && !b.st[i].node.needClaim && !b.st[i].node.needRepeat
    ensures Step(b, Tick(i, 1), t) == b.(st := b.st[i := TickStation(b.st[i], b.now, 1)])
  {
    NoCopies(i, |b.st|, b.now);
    assert TickFrames(b.st[i].node, 1) == [];
  }

  lemma EarlyMoves(n: nat)
    requires n < 2 * SETTLE_MS
    ensures TickStation(Early(n, false), n + 1, 1) == Early(n + 1, false)
  {}

  lemma LateMoves(n: nat)
    requires SETTLE_MS <= n < 2 * SETTLE_MS
    ensures TickStation(Late(n), n + 1, 1) == Late(n + 1)
  {}

  lemma FirstAnnouncement(t: Timing)
    ensures Reachable(Alone(0), t)
  {
    assert IsRun([Empty()], t);
    var b := Step(Empty(), Join(1, 0), t);
    ReachStep(Empty(), Join(1, 0), t);
    ReachStep(b, Tick(0, 1), t);
    assert Copies(TickFrames(b.st[0].node, 1), 0, 1, 0) == [];
    assert Step(b, Tick(0, 1), t) == Alone(0);
  }

  lemma {:induction false} AloneReachable(n: nat, t: Timing)
    requires t.gap >= 1 && n <= SETTLE_MS
    ensures Reachable(Alone(n), t)
  {
    if n == 0 {
      FirstAnnouncement(t);
    } else {
      AloneReachable(n - 1, t);
      ReachStep(Alone(n - 1), Advance(1), t);
      var b := Step(Alone(n - 1), Advance(1), t);
      ReachStep(b, Tick(0, 1), t);
      IdleTick(b, 0, t);
      EarlyMoves(n - 1);
      assert Step(b, Tick(0, 1), t) == Alone(n);
    }
  }

  const LateClaim: Msg := Msg(0, ClaimFrame(2, 0), SETTLE_MS)

  lemma LateJoins(t: Timing)
    requires t.gap >= 1
    ensures Reachable(Both(SETTLE_MS, SETTLE_MS, false, [LateClaim]), t)
  {
    AloneReachable(SETTLE_MS, t);
    var b := Step(Alone(SETTLE_MS), Join(2, 0), t);
    ReachStep(Alone(SETTLE_MS), Join(2, 0), t);
    ReachStep(b, Tick(1, 1), t);
    var f := [ClaimFrame(2, 0)];
    assert TickFrames(b.st[1].node, 1) == f;
    assert Copies(f, 1, 2, SETTLE_MS) == [LateClaim] by {
      assert Copies(f, 1, 1, SETTLE_MS) == [LateClaim];
    }
    assert Step(b, Tick(1, 1), t) == Both(SETTLE_MS, SETTLE_MS, false, [LateClaim]);
  }

  /** Both nodes tick every millisecond while `net` may still be under way. */
  lemma {:induction false} BothTick(m: nat, n: nat, net: seq<Msg>, t: Timing)
    requires t.gap >= 1 && SETTLE_MS <= m <= n <= 2 * SETTLE_MS
    requires Reachable(Both(m, m, false, net), t)
    requires forall x :: x in net ==> n <= x.sentAt + t.delay
    ensures Reachable(Both(n, n, false, net), t)
    decreases n
  {
    if m < n {
      BothTick(m, n - 1, net, t);
      var b0 := Both(n - 1, n - 1, false, net);
      var b1 := Step(b0, Advance(1), t);
      ReachStep(b0, Advance(1), t);
      var b2 := Step(b1, Tick(0, 1), t);
      ReachStep(b1, Tick(0, 1), t);
      IdleTick(b1, 0, t);
      EarlyMoves(n - 1);
      assert b2 == Bus(n, [Early(n, false), Late(n - 1)], net);
      ReachStep(b2, Tick(1, 1), t);
      IdleTick(b2, 1, t);
      LateMoves(n - 1);
      assert Step(b2, Tick(1, 1), t) == Both(n, n, false, net);
    }
  }

  /** Only the late node ticks; the early one owes its rebuttal since `last`. */
  lemma {:induction false} LateTicks(last: nat, n: nat, t: Timing)
    requires t.gap >= 1 && SETTLE_MS <= last <= n <= 2 * SETTLE_MS && n <= last + t.gap
    requires Reachable(Both(last, last, true, []), t)
    ensures Reachable(Both(n, last, true, []), t)
    decreases n
  {
    if last < n {
      LateTicks(last, n - 1, t);
      var b0 := Both(n - 1, last, true, []);
      var b1 := Step(b0, Advance(1), t);
      ReachStep(b0, Advance(1), t);
      ReachStep(b1, Tick(1, 1), t);
      IdleTick(b1, 1, t);
      LateMoves(n - 1);
      assert Step(b1, Tick(1, 1), t) == Both(n, last, true, []);
    }
  }

  lemma RebuttalSent(n: nat, last: nat, t: Timing)
    requires SETTLE_MS <= last <= n <= 2 * SETTLE_MS && Reachable(Both(n, last, true, []), t)
    ensures Reachable(Both(n, n, false, [Msg(1, ClaimFrame(1, 0), n)]), t)
  {
    var b := Both(n, last, true, []);
    var f := [ClaimFrame(1, 0)];
    assert TickFrames(b.st[0].node, 1) == f;
    assert Copies(f, 0, 2, n) == [Msg(1, ClaimFrame(1, 0), n)] by {
      assert Copies(f, 0, 1, n) == [];
    }
    ReachStep(b, Tick(0, 1), t);
    assert Step(b, Tick(0, 1), t) == Both(n, n, false, [Msg(1, ClaimFrame(1, 0), n)]);
  }

  ghost predicate Exclusive(b: Bus)
  {
    forall i, j :: 0 <= i < j < |b.st| && b.st[i].node.state == Claimed && b.st[j].node.state == Claimed
      ==> b.st[i].node.addr != b.st[j].node.addr
  }

  /** Both nodes hold address 0 at the end of the late node's settle window. */
  lemma Collided(last: nat, owes: bool, net: seq<Msg>, t: Timing)
    requires last >= SETTLE_MS && Reachable(Both(2 * SETTLE_MS, last, owes, net), t)
    ensures exists b :: Reachable(b, t) && !Exclusive(b)
  {
    var b := Both(2 * SETTLE_MS, last, owes, net);
    assert b.st[0].node.state == Claimed && b.st[1].node.state == Claimed;
    assert !Exclusive(b);
  }

  lemma LateHeard(n: nat, t: Timing)
    requires SETTLE_MS <= n && Reachable(Both(n, n, false, [LateClaim]), t)
    ensures Reachable(Both(n, n, true, []), t)
  {
    var b := Both(n, n, false, [LateClaim]);
    ReceivedClaim(b.st[0].node, 2, 0);
    ReachStep(b, Deliver(0), t);
    assert Step(b, Deliver(0), t) == Both(n, n, true, []);
  }

  lemma SlowBusCollides(t: Timing)
    requires t.gap >= 1 && !FastEnough(t)
    ensures exists b :: Reachable(b, t) && !Exclusive(b)
  {
    LateJoins(t);
    var end := 2 * SETTLE_MS;
    var heard := if t.delay < SETTLE_MS then SETTLE_MS + t.delay else end;
    BothTick(SETTLE_MS, heard, [LateClaim], t);
    if heard == end {
      Collided(end, false, [LateClaim], t);
    } else {
      LateHeard(heard, t);
      var rebut := if heard + t.gap < end then heard + t.gap else end;
      LateTicks(heard, rebut, t);
      if rebut == end {
        Collided(heard, true, [], t);
      } else {
        RebuttalSent(rebut, heard, t);
        BothTick(rebut, end, [Msg(1, ClaimFrame(1, 0), rebut)], t);
        Collided(end, false, [Msg(1, ClaimFrame(1, 0), rebut)], t);
      }
    }
  }

  /** Addresses stay exclusive on every run exactly when a tick gap and two delays
      together stay below the settle time. */
  lemma ExclusiveIffFast(t: Timing)
    requires t.gap >= 1
    ensures FastEnough(t) <==> forall b :: Reachable(b, t) ==> Exclusive(b)
  {
    if FastEnough(t) {
      forall b | Reachable(b, t) ensures Exclusive(b) {
        var r :| IsRun(r, t) && r[|r| - 1] == b;
        forall i, j | 0 <= i < j < |b.st| && b.st[i].node.state == Claimed && b.st[j].node.state == Claimed
          ensures b.st[i].node.addr != b.st[j].node.addr
        {
          NoSharedAddress(r, t, |r| - 1, i, j);
        }
      }
    } else {
      SlowBusCollides(t);
    }
  }
}
