/** Any number of claim machines on one CAN bus. Frames reach every other node, each
    receiver after its own delay and in any order; the clock is global and unbounded.
    A station also remembers the true times its node only keeps modulo 2^32. */
module AddrClaimBus {
  import opened Words
  import opened CanIds
  import opened AddrClaim

  /** The timing the bus promises: every started node calls tick at most `gap` ms
      apart, and a frame sent is received at most `delay` ms later. */
  datatype Timing = Timing(gap: nat, delay: nat)

  ghost predicate FastEnough(t: Timing) { t.gap + 2 * t.delay < 250 }

  datatype Station = Station(node: Node, ticked: bool, lastTick: nat, claimAt: nat)
  datatype Msg = Msg(dest: nat, frame: Frame, sentAt: nat)
  datatype Bus = Bus(now: nat, st: seq<Station>, net: seq<Msg>)

  datatype Action =
    | Advance(ms: nat)
    | Tick(i: nat, room: nat)
    | Deliver(p: nat)
    | Join(name: u64, pref: u8)
    | Restart(i: nat, pref: u8)
    | Foreign(i: nat, frame: Frame)

  /** The copies of `frames` on their way to every station but the sender. */
  function Copies(frames: seq<Frame>, sender: nat, count: nat, at: nat): (r: seq<Msg>)
    ensures forall m :: m in r ==> m.dest < count && m.dest != sender && m.frame in frames && m.sentAt == at
    ensures forall d, f :: 0 <= d < count && d != sender && f in frames ==> Msg(d, f, at) in r
  {
    if count == 0 then []
    else
      var d := count - 1;
      Copies(frames, sender, d, at) +
      (if d == sender then [] else seq(|frames|, k requires 0 <= k < |frames| => Msg(d, frames[k], at)))
  }

  function TickStation(s: Station, now: nat, room: nat): Station
  {
    Station(Ticked(s.node, Wrap32(now), room), true, now,
            if SendsClaim(s.node, room) then now else s.claimAt)
  }

  function RxStation(s: Station, f: Frame): Station { s.(node := Received(s.node, f)) }

  predicate Punctual(b: Bus, t: Timing)
  {
    && (forall i :: 0 <= i < |b.st| && b.st[i].ticked ==> b.now <= b.st[i].lastTick + t.gap)
    && (forall m :: m in b.net ==> b.now <= m.sentAt + t.delay)
  }

  predicate Enabled(b: Bus, a: Action, t: Timing)
  {
    match a
    case Advance(ms) => Punctual(b.(now := b.now + ms), t)
    case Tick(i, room) => i < |b.st| && 0 < room
    case Deliver(p) => p < |b.net| && b.net[p].dest < |b.st|
    case Join(name, pref) => pref < 254 && forall i :: 0 <= i < |b.st| ==> b.st[i].node.name != name
    case Restart(i, pref) => i < |b.st| && pref < 254
    case Foreign(i, frame) => i < |b.st| && IdPgn(frame.id) != PGN_ADDR_CLAIM
  }

  function Step(b: Bus, a: Action, t: Timing): Bus
    requires Enabled(b, a, t)
  {
    match a
    case Advance(ms) => b.(now := b.now + ms)
    case Tick(i, room) =>
      b.(st := b.st[i := TickStation(b.st[i], b.now, room)],
         net := b.net + Copies(TickFrames(b.st[i].node, room), i, |b.st|, b.now))
    case Deliver(p) =>
      var m := b.net[p];
      b.(st := b.st[m.dest := RxStation(b.st[m.dest], m.frame)],
         net := b.net[..p] + b.net[p + 1..])
    case Join(name, pref) => b.(st := b.st + [Station(Initial(name, pref), false, 0, 0)])
    case Restart(i, pref) => b.(st := b.st[i := Station(Initial(b.st[i].node.name, pref), false, 0, 0)])
    case Foreign(i, frame) => b.(st := b.st[i := RxStation(b.st[i], frame)])
  }

  function Empty(): Bus { Bus(0, [], []) }

  ghost predicate Next(b: Bus, c: Bus, t: Timing)
  {
    exists a :: Enabled(b, a, t) && c == Step(b, a, t)
  }

  ghost predicate IsRun(r: seq<Bus>, t: Timing)
  {
    && |r| > 0 && r[0] == Empty()
    && forall k :: 0 <= k < |r| - 1 ==> Next(r[k], r[k + 1], t)
  }

  // ---- what every reachable bus keeps --------------------------------------------

  /** A node that has put its claim to its current address on the bus. */
  predicate Announced(s: Station) { s.node.state != Null && !s.node.needClaim }

  ghost predicate NodeInv(n: Node)
  {
    && n.pref < 254
    && (n.state != Null ==> n.tries < 254 && n.addr == (n.pref + n.tries) % 254)
    && (n.state == Null ==> n.tries == 254 && n.addr == ADDR_NULL && !n.needClaim)
    && (n.state == Claimed ==> !n.needClaim)
  }

  ghost predicate StationInv(s: Station, now: nat, t: Timing)
  {
    && NodeInv(s.node)
    && (s.ticked ==> s.lastTick <= now <= s.lastTick + t.gap)
    && (Announced(s) ==> s.ticked && s.claimAt <= s.lastTick && s.node.claimMs == Wrap32(s.claimAt))
    && (Announced(s) && s.node.state == Claiming ==> s.lastTick < s.claimAt + SETTLE_MS)
    && (s.node.state == Claimed ==> s.claimAt + SETTLE_MS <= now)
  }

  ghost predicate InFlight(net: seq<Msg>, dest: nat, f: Frame, upTo: nat)
  {
    exists m :: m in net && m.dest == dest && m.frame == f && m.sentAt <= upTo
  }

  function Max(a: nat, b: nat): nat { if a < b then b else a }

  /** Two stations that have announced one address, `i` holding the lower NAME: the
      collision is being resolved, and in time. Either i's claim is on its way to j,
      or j's is on its way to i, or i owes a rebuttal. */
  ghost predicate Resolving(b: Bus, i: nat, j: nat, t: Timing)
    requires i < |b.st| && j < |b.st|
  {
    var (x, y) := (b.st[i], b.st[j]);
    var last := Max(x.claimAt, y.claimAt);
    || InFlight(b.net, j, ClaimFrame(x.node.name, x.node.addr), last + t.delay + t.gap)
    || InFlight(b.net, i, ClaimFrame(y.node.name, y.node.addr), last)
    || (x.node.needRepeat && x.lastTick <= last + t.delay)
  }

  ghost predicate Contending(b: Bus, i: nat, j: nat)
  {
    && i < |b.st| && j < |b.st|
    && Announced(b.st[i]) && Announced(b.st[j])
    && b.st[i].node.addr == b.st[j].node.addr
    && b.st[i].node.name < b.st[j].node.name
  }

  ghost predicate BusInv(b: Bus, t: Timing)
  {
    && (forall i :: 0 <= i < |b.st| ==> StationInv(b.st[i], b.now, t))
    && (forall m :: m in b.net ==> m.dest < |b.st| && m.sentAt <= b.now <= m.sentAt + t.delay)
    && (forall i, j :: 0 <= i < |b.st| && 0 <= j < |b.st| && b.st[i].node.name == b.st[j].node.name ==> i == j)
    && (forall i, j :: Contending(b, i, j) ==> Resolving(b, i, j, t))
  }

  // ---- one step --------------------------------------------------------------------

  lemma TickKeepsStation(s: Station, now: nat, room: nat, t: Timing)
    requires FastEnough(t) && StationInv(s, now, t) && 0 < room
    ensures StationInv(TickStation(s, now, room), now, t)
  {
    if Announced(s) && s.node.state == Claiming { ElapsedIsExact(now, s.claimAt); }
    ElapsedIsExact(now, now);
  }

  lemma RxKeepsStation(s: Station, f: Frame, now: nat, t: Timing)
    requires StationInv(s, now, t)
    ensures StationInv(RxStation(s, f), now, t)
  {}

  /** A claim that leaves the network is either untouched by the delivery of another
      message or is the message delivered. */
  lemma StillInFlight(net: seq<Msg>, p: nat, dest: nat, f: Frame, upTo: nat)
    requires p < |net| && InFlight(net, dest, f, upTo)
    ensures InFlight(net[..p] + net[p + 1..], dest, f, upTo)
         || (net[p].dest == dest && net[p].frame == f && net[p].sentAt <= upTo)
  {
    var m :| m in net && m.dest == dest && m.frame == f && m.sentAt <= upTo;
    if m != net[p] {
      var k :| 0 <= k < |net| && net[k] == m;
      assert m == (net[..p] + net[p + 1..])[if k < p then k else k - 1];
    }
  }

  lemma MoreInFlight(net: seq<Msg>, more: seq<Msg>, dest: nat, f: Frame, upTo: nat)
    requires InFlight(net, dest, f, upTo)
    ensures InFlight(net + more, dest, f, upTo)
  {}

  /** A tick by `k` resolves or keeps resolving every contention. */
  lemma TickResolves(b: Bus, k: nat, room: nat, t: Timing, i: nat, j: nat)
    requires FastEnough(t) && BusInv(b, t) && k < |b.st| && 0 < room
    requires Contending(Step(b, Tick(k, room), t), i, j)
    ensures Resolving(Step(b, Tick(k, room), t), i, j, t)
  {
    var c := Step(b, Tick(k, room), t);
    var frames := TickFrames(b.st[k].node, room);
    var more := Copies(frames, k, |b.st|, b.now);
    var (x, y) := (b.st[i], b.st[j]);
    var last := Max(c.st[i].claimAt, c.st[j].claimAt);
    var fx, fy := ClaimFrame(x.node.name, x.node.addr), ClaimFrame(y.node.name, y.node.addr);
    if Contending(b, i, j) {
      assert last == Max(x.claimAt, y.claimAt);
      if InFlight(b.net, j, fx, last + t.delay + t.gap) {
        MoreInFlight(b.net, more, j, fx, last + t.delay + t.gap);
      } else if InFlight(b.net, i, fy, last) {
        MoreInFlight(b.net, more, i, fy, last);
      } else if k == i {
        assert fx in frames;
        assert Msg(j, fx, b.now) in more;
        assert Msg(j, fx, b.now) in c.net;
      }
    } else if k == i {
      assert fx in frames;
      assert Msg(j, fx, b.now) in more;
      assert Msg(j, fx, b.now) in c.net;
    } else {
      assert k == j && fy in frames;
      assert Msg(i, fy, b.now) in more;
      assert Msg(i, fy, b.now) in c.net;
      assert last == b.now;
    }
  }

  lemma DeliverResolves(b: Bus, p: nat, t: Timing, i: nat, j: nat)
    requires BusInv(b, t) && Enabled(b, Deliver(p), t)
    requires Contending(Step(b, Deliver(p), t), i, j)
    ensures Resolving(Step(b, Deliver(p), t), i, j, t)
  {
    var c := Step(b, Deliver(p), t);
    var m := b.net[p];
    var (x, y) := (b.st[i], b.st[j]);
    assert Contending(b, i, j);
    var last := Max(x.claimAt, y.claimAt);
    var fx, fy := ClaimFrame(x.node.name, x.node.addr), ClaimFrame(y.node.name, y.node.addr);
    if InFlight(b.net, j, fx, last + t.delay + t.gap) {
      StillInFlight(b.net, p, j, fx, last + t.delay + t.gap);
      ReceivedClaim(y.node, x.node.name, x.node.addr);
    } else if InFlight(b.net, i, fy, last) {
      StillInFlight(b.net, p, i, fy, last);
      ReceivedClaim(x.node, y.node.name, y.node.addr);
    }
  }

  lemma TickKeepsInv(b: Bus, k: nat, room: nat, t: Timing)
    requires FastEnough(t) && BusInv(b, t) && k < |b.st| && 0 < room
    ensures BusInv(Step(b, Tick(k, room), t), t)
  {
    TickKeepsStation(b.st[k], b.now, room, t);
    var c := Step(b, Tick(k, room), t);
    forall i, j | Contending(c, i, j) ensures Resolving(c, i, j, t) { TickResolves(b, k, room, t, i, j); }
  }

  lemma DeliverKeepsInv(b: Bus, p: nat, t: Timing)
    requires BusInv(b, t) && Enabled(b, Deliver(p), t)
    ensures BusInv(Step(b, Deliver(p), t), t)
  {
    RxKeepsStation(b.st[b.net[p].dest], b.net[p].frame, b.now, t);
    var c := Step(b, Deliver(p), t);
    forall i, j | Contending(c, i, j) ensures Resolving(c, i, j, t) { DeliverResolves(b, p, t, i, j); }
  }

  /** The steps that put nothing on the bus and announce nothing. */
  lemma QuietKeepsInv(b: Bus, a: Action, t: Timing)
    requires BusInv(b, t) && Enabled(b, a, t) && (a.Advance? || a.Join? || a.Restart?)
    ensures BusInv(Step(b, a, t), t)
  {
    var c := Step(b, a, t);
    forall i, j | Contending(c, i, j) ensures Resolving(c, i, j, t) { assert Contending(b, i, j); }
  }

  lemma ForeignKeepsInv(b: Bus, a: Action, t: Timing)
    requires BusInv(b, t) && Enabled(b, a, t) && a.Foreign?
    ensures BusInv(Step(b, a, t), t)
  {
    RxKeepsStation(b.st[a.i], a.frame, b.now, t);
    var c := Step(b, a, t);
    forall i, j | Contending(c, i, j) ensures Resolving(c, i, j, t) { assert Contending(b, i, j); }
  }

  lemma StepKeepsInv(b: Bus, a: Action, t: Timing)
    requires FastEnough(t) && BusInv(b, t) && Enabled(b, a, t)
    ensures BusInv(Step(b, a, t), t)
  {
    match a
    case Tick(k, room) => TickKeepsInv(b, k, room, t);
    case Deliver(p) => DeliverKeepsInv(b, p, t);
    case Foreign(_, _) => ForeignKeepsInv(b, a, t);
    case _ => QuietKeepsInv(b, a, t);
  }

  lemma {:induction false} RunKeepsInv(r: seq<Bus>, t: Timing, k: nat)
    requires FastEnough(t) && IsRun(r, t) && k < |r|
    ensures BusInv(r[k], t)
  {
    if k > 0 {
      RunKeepsInv(r, t, k - 1);
      assert Next(r[k - 1], r[k - 1 + 1], t);
      var a :| Enabled(r[k - 1], a, t) && r[k] == Step(r[k - 1], a, t);
      StepKeepsInv(r[k - 1], a, t);
    }
  }

  // ---- safety ------------------------------------------------------------------------

  /** No reachable bus has two nodes CLAIMED on one address. */
  lemma NoSharedAddress(r: seq<Bus>, t: Timing, k: nat, i: nat, j: nat)
    requires FastEnough(t) && IsRun(r, t) && k < |r|
    requires i < |r[k].st| && j < |r[k].st| && i != j
    requires r[k].st[i].node.state == Claimed && r[k].st[j].node.state == Claimed
    ensures r[k].st[i].node.addr != r[k].st[j].node.addr
  {
    RunKeepsInv(r, t, k);
    if r[k].st[i].node.addr == r[k].st[j].node.addr {
      var (lo, hi) := if r[k].st[i].node.name < r[k].st[j].node.name then (i, j) else (j, i);
      assert Contending(r[k], lo, hi);
      assert false;
    }
  }

  // ---- what ready means ----------------------------------------------------------------

  /** Between two points of the run the node holds one address, and has announced it. */
  ghost predicate HoldsSince(r: seq<Bus>, from: nat, k: nat, i: nat)
  {
    && from <= k < |r| && i < |r[k].st|
    && forall j :: from <= j <= k ==>
         i < |r[j].st| && Announced(r[j].st[i]) && r[j].st[i].node.addr == r[k].st[i].node.addr
  }

  lemma StepAnnounces(b: Bus, a: Action, t: Timing, i: nat)
    requires Enabled(b, a, t) && i < |Step(b, a, t).st| && Announced(Step(b, a, t).st[i])
    ensures Step(b, a, t).st[i].claimAt == Step(b, a, t).now
         || (i < |b.st| && Announced(b.st[i]) && b.st[i].node.addr == Step(b, a, t).st[i].node.addr
             && b.st[i].claimAt == Step(b, a, t).st[i].claimAt)
  {}

  lemma AnnouncedBefore(r: seq<Bus>, t: Timing, k: nat, i: nat)
    requires IsRun(r, t) && 0 < k < |r| && i < |r[k].st| && Announced(r[k].st[i])
    requires r[k].st[i].claimAt != r[k].now
    ensures i < |r[k - 1].st| && Announced(r[k - 1].st[i])
    ensures r[k - 1].st[i].node.addr == r[k].st[i].node.addr && r[k - 1].st[i].claimAt == r[k].st[i].claimAt
  {
    assert Next(r[k - 1], r[k - 1 + 1], t);
    var a :| Enabled(r[k - 1], a, t) && r[k] == Step(r[k - 1], a, t);
    StepAnnounces(r[k - 1], a, t, i);
  }

  lemma {:induction false} HeldSinceClaim(r: seq<Bus>, t: Timing, k: nat, i: nat)
    requires IsRun(r, t) && k < |r| && i < |r[k].st| && Announced(r[k].st[i])
    ensures exists from: nat :: HoldsSince(r, from, k, i) && r[from].now == r[k].st[i].claimAt
  {
    if r[k].st[i].claimAt == r[k].now {
      assert HoldsSince(r, k, k, i);
    } else {
      assert k > 0;
      hide Step, Enabled;
      AnnouncedBefore(r, t, k, i);
      HeldSinceClaim(r, t, k - 1, i);
      var from: nat :| HoldsSince(r, from, k - 1, i) && r[from].now == r[k - 1].st[i].claimAt;
      assert HoldsSince(r, from, k, i);
    }
  }

  /** What another part of the firmware may rely on once the node is ready: for at least
      the settle time the node has held one address whose claim is on the bus, and no other
      node that is ready has that address. */
  lemma ReadyOwnsAddress(r: seq<Bus>, t: Timing, k: nat, i: nat)
    requires FastEnough(t) && IsRun(r, t) && k < |r| && i < |r[k].st| && r[k].st[i].node.state == Claimed
    ensures r[k].st[i].node.addr < 254
    ensures exists from: nat :: HoldsSince(r, from, k, i) && r[from].now + 250 <= r[k].now
    ensures forall j :: 0 <= j < |r[k].st| && j != i && r[k].st[j].node.state == Claimed ==>
              r[k].st[j].node.addr != r[k].st[i].node.addr
  {
    RunKeepsInv(r, t, k);
    assert StationInv(r[k].st[i], r[k].now, t);
    HeldSinceClaim(r, t, k, i);
    forall j | 0 <= j < |r[k].st| && j != i && r[k].st[j].node.state == Claimed
      ensures r[k].st[j].node.addr != r[k].st[i].node.addr
    {
      NoSharedAddress(r, t, k, i, j);
    }
  }
}
