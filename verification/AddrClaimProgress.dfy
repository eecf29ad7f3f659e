/** How far address arbitration can go: how often a node is displaced, when it falls
    silent, when it has won. Timing plays no part in the displacement bounds. */
module AddrClaimProgress {
  import opened Words
  import opened CanIds
  import opened AddrClaim
  import opened AddrClaimBus

  /** The first `n` addresses of the search that starts at `pref`. */
  function Tried(pref: nat, n: nat): (s: set<int>) { set j | 0 <= j < n :: Candidate(pref, j) }

  function Candidate(pref: nat, j: nat): int { (pref + j) % 254 }

  lemma CandidatesDiffer(pref: nat, j: nat, n: nat)
    requires j < n < 254
    ensures Candidate(pref, j) != Candidate(pref, n)
  {
    var a, b := (pref + j) / 254, (pref + n) / 254;
    assert n - j == 254 * (b - a) + (Candidate(pref, n) - Candidate(pref, j));
  }

  lemma {:induction false} TriedSize(pref: nat, n: nat)
    requires n <= 254
    ensures |Tried(pref, n)| == n
  {
    if n > 0 {
      TriedSize(pref, n - 1);
      var x := Candidate(pref, n - 1);
      assert Tried(pref, n) == Tried(pref, n - 1) + {x};
      if x in Tried(pref, n - 1) {
        var j :| 0 <= j < n - 1 && x == Candidate(pref, j);
        CandidatesDiffer(pref, j, n - 1);
      }
    } else {
      assert Tried(pref, 0) == {};
    }
  }

  /** The addresses a node has announced or may yet announce at its current try. */
  function Visited(n: Node): set<int> { Tried(n.pref, Min(n.tries + 1, 254)) }

  /** The addresses a node was displaced from. */
  function Lost(n: Node): set<int> { Tried(n.pref, n.tries) }

  lemma TriedMono(pref: nat, m: nat, n: nat)
    requires m <= n
    ensures Tried(pref, m) <= Tried(pref, n)
  {}

  // ---- runs without a power cycle --------------------------------------------------

  ghost predicate IsSteadyRun(r: seq<Bus>, t: Timing)
  {
    && |r| > 0 && r[0] == Empty()
    && forall k :: 0 <= k < |r| - 1 ==> SteadyNext(r[k], r[k + 1], t)
  }

  ghost predicate SteadyNext(b: Bus, c: Bus, t: Timing)
  {
    exists a: Action :: !a.Restart? && Enabled(b, a, t) && c == Step(b, a, t)
  }

  ghost predicate VisitedBy(b: Bus, name: u64, a: int)
  {
    exists u :: 0 <= u < |b.st| && b.st[u].node.name == name && a in Visited(b.st[u].node)
  }

  ghost predicate LostToLower(b: Bus, name: u64, a: int)
  {
    exists u :: 0 <= u < |b.st| && b.st[u].node.name < name && a in Visited(b.st[u].node)
  }

  ghost predicate HonestMsg(b: Bus, m: Msg)
  {
    exists name, a: u8 :: m.frame == ClaimFrame(name, a) && VisitedBy(b, name, a)
  }

  ghost predicate FairInv(b: Bus)
  {
    && (forall i :: 0 <= i < |b.st| ==> NodeInv(b.st[i].node))
    && (forall i, j :: 0 <= i < |b.st| && 0 <= j < |b.st| && b.st[i].node.name == b.st[j].node.name ==> i == j)
    && (forall m :: m in b.net ==> m.dest < |b.st| && HonestMsg(b, m))
    && (forall i, a :: 0 <= i < |b.st| && a in Lost(b.st[i].node) ==> LostToLower(b, b.st[i].node.name, a))
  }

  /** Every station keeps its NAME and never forgets an address it visited. */
  ghost predicate Grows(b: Bus, c: Bus)
  {
    && |b.st| <= |c.st|
    && forall i :: 0 <= i < |b.st| ==>
         && c.st[i].node.name == b.st[i].node.name
         && Visited(b.st[i].node) <= Visited(c.st[i].node)
  }

  lemma HonestGrows(b: Bus, c: Bus, m: Msg)
    requires Grows(b, c) && HonestMsg(b, m)
    ensures HonestMsg(c, m)
  {
    var name, a: u8 :| m.frame == ClaimFrame(name, a) && VisitedBy(b, name, a);
    var u :| 0 <= u < |b.st| && b.st[u].node.name == name && a in Visited(b.st[u].node);
    assert a in Visited(c.st[u].node);
    assert VisitedBy(c, name, a);
  }

  lemma LostGrows(b: Bus, c: Bus, name: u64, a: int)
    requires Grows(b, c) && LostToLower(b, name, a)
    ensures LostToLower(c, name, a)
  {
    var u :| 0 <= u < |b.st| && b.st[u].node.name < name && a in Visited(b.st[u].node);
    assert a in Visited(c.st[u].node);
  }

  /** Receiving a frame displaces a node at most once, and only a claim by a lower
      NAME to its own address does. */
  lemma RxMoves(n: Node, f: Frame)
    requires NodeInv(n)
    ensures Received(n, f).tries == n.tries
         || (Received(n, f) == Displaced(n) && n.state != Null
             && IdPgn(f.id) == PGN_ADDR_CLAIM && |f.data| >= 8 && LeValue(f.data[..8]) < n.name)
    ensures Received(n, f).name == n.name && Received(n, f).pref == n.pref
    ensures NodeInv(Received(n, f)) && Visited(n) <= Visited(Received(n, f))
  {
    TriedMono(n.pref, Min(n.tries + 1, 254), Min(Received(n, f).tries + 1, 254));
  }

  lemma TickMoves(n: Node, now: u32, room: nat)
    requires NodeInv(n)
    ensures NodeInv(Ticked(n, now, room)) && Ticked(n, now, room).tries == n.tries
    ensures Ticked(n, now, room).name == n.name && Ticked(n, now, room).pref == n.pref
    ensures forall f :: f in TickFrames(n, room) ==> f == ClaimFrame(n.name, n.addr) && n.addr in Visited(n)
  {
    assert n.state != Null ==> n.addr == Candidate(n.pref, n.tries);
  }

  lemma DisplacedLoses(n: Node)
    requires NodeInv(n) && n.state != Null
    ensures Lost(Displaced(n)) == Lost(n) + {n.addr as int}
  {
    assert n.addr == Candidate(n.pref, n.tries);
    assert Displaced(n).tries == n.tries + 1 && Displaced(n).pref == n.pref;
  }

  lemma TickIsFair(b: Bus, k: nat, room: nat, t: Timing)
    requires FairInv(b) && Enabled(b, Tick(k, room), t)
    ensures FairInv(Step(b, Tick(k, room), t)) && Grows(b, Step(b, Tick(k, room), t))
  {
    var c := Step(b, Tick(k, room), t);
    var n := b.st[k].node;
    TickMoves(n, Wrap32(b.now), room);
    forall m | m in c.net ensures m.dest < |c.st| && HonestMsg(c, m) {
      if m in b.net {
        HonestGrows(b, c, m);
      } else {
        assert m.frame in TickFrames(n, room);
        assert n.addr in Visited(c.st[k].node);
        assert VisitedBy(c, n.name, n.addr);
      }
    }
    forall i, a | 0 <= i < |c.st| && a in Lost(c.st[i].node) ensures LostToLower(c, c.st[i].node.name, a) {
      LostGrows(b, c, b.st[i].node.name, a);
    }
  }

  /** The receiver of one frame: whatever it newly lost, a lower NAME visited. */
  lemma RxIsFair(b: Bus, c: Bus, d: nat, f: Frame)
    requires FairInv(b) && d < |b.st|
    requires c.st == b.st[d := RxStation(b.st[d], f)]
    requires forall m :: m in c.net ==> m in b.net
    requires IdPgn(f.id) == PGN_ADDR_CLAIM ==> exists name, a: u8 :: f == ClaimFrame(name, a) && VisitedBy(b, name, a)
    ensures FairInv(c) && Grows(b, c)
  {
    var n := b.st[d].node;
    RxMoves(n, f);
    forall m | m in c.net ensures m.dest < |c.st| && HonestMsg(c, m) { HonestGrows(b, c, m); }
    forall i, a | 0 <= i < |c.st| && a in Lost(c.st[i].node) ensures LostToLower(c, c.st[i].node.name, a) {
      if a in Lost(b.st[i].node) {
        LostGrows(b, c, b.st[i].node.name, a);
      } else {
        assert i == d && c.st[d].node == Displaced(n);
        DisplacedLoses(n);
        var name, x: u8 :| f == ClaimFrame(name, x) && VisitedBy(b, name, x);
        ReceivedClaim(n, name, x);
        var u :| 0 <= u < |b.st| && b.st[u].node.name == name && x in Visited(b.st[u].node);
        assert a in Visited(c.st[u].node);
      }
    }
  }

  lemma StepIsFair(b: Bus, a: Action, t: Timing)
    requires FairInv(b) && Enabled(b, a, t) && !a.Restart?
    ensures FairInv(Step(b, a, t)) && Grows(b, Step(b, a, t))
  {
    var c := Step(b, a, t);
    match a
    case Tick(k, room) => TickIsFair(b, k, room, t);
    case Deliver(p) => assert HonestMsg(b, b.net[p]); RxIsFair(b, c, b.net[p].dest, b.net[p].frame);
    case Foreign(k, f) => RxIsFair(b, c, k, f);
    case Advance(ms) =>
      forall m | m in c.net ensures HonestMsg(c, m) { HonestGrows(b, c, m); }
      forall i, x | 0 <= i < |c.st| && x in Lost(c.st[i].node) ensures LostToLower(c, c.st[i].node.name, x) {
        LostGrows(b, c, b.st[i].node.name, x);
      }
    case Join(name, pref) =>
      forall m | m in c.net ensures HonestMsg(c, m) { HonestGrows(b, c, m); }
      forall i, x | 0 <= i < |c.st| && x in Lost(c.st[i].node) ensures LostToLower(c, c.st[i].node.name, x) {
        LostGrows(b, c, b.st[i].node.name, x);
      }
  }

  lemma {:induction false} SteadyRunIsFair(r: seq<Bus>, t: Timing, k: nat)
    requires IsSteadyRun(r, t) && k < |r|
    ensures FairInv(r[k])
  {
    if k > 0 {
      SteadyRunIsFair(r, t, k - 1);
      assert SteadyNext(r[k - 1], r[k - 1 + 1], t);
      var a: Action :| !a.Restart? && Enabled(r[k - 1], a, t) && r[k] == Step(r[k - 1], a, t);
      StepIsFair(r[k - 1], a, t);
    }
  }

  // ---- counting displacements -------------------------------------------------------

  function Lower(b: Bus, name: u64): set<nat>
  {
    set i | 0 <= i < |b.st| && b.st[i].node.name < name
  }

  function VisitedByAll(b: Bus, who: set<nat>): set<int>
  {
    set i, a | i in who && i < |b.st| && a in Visited(b.st[i].node) :: a
  }

  function Pow2(n: nat): (r: nat) ensures r >= 1 { if n == 0 then 1 else 2 * Pow2(n - 1) }

  lemma {:induction false} Pow2Mono(m: nat, n: nat)
    requires m <= n
    ensures Pow2(m) <= Pow2(n)
    decreases n
  {
    if m < n { Pow2Mono(m, n - 1); }
  }

  lemma SubsetSize(s: set<int>, u: set<int>)
    requires s <= u
    ensures |s| <= |u|
  {
    assert u == s + (u - s);
  }

  lemma {:induction false} HighestOf(b: Bus, who: set<nat>) returns (w: nat)
    requires who != {} && forall i :: i in who ==> i < |b.st|
    ensures w in who && forall i :: i in who ==> b.st[i].node.name <= b.st[w].node.name
    decreases who
  {
    w :| w in who;
    if who != {w} {
      var v := HighestOf(b, who - {w});
      if b.st[v].node.name > b.st[w].node.name { w := v; }
    }
  }

  /** Taking the highest node out of those below `name` leaves those below it. */
  lemma BelowHighest(b: Bus, name: u64, w: nat)
    requires FairInv(b) && w in Lower(b, name)
    requires forall i :: i in Lower(b, name) ==> b.st[i].node.name <= b.st[w].node.name
    ensures Lower(b, name) == Lower(b, b.st[w].node.name) + {w} && w !in Lower(b, b.st[w].node.name)
    ensures VisitedByAll(b, Lower(b, name)) ==
            VisitedByAll(b, Lower(b, b.st[w].node.name)) + Visited(b.st[w].node)
  {
    var low, lower := Lower(b, name), Lower(b, b.st[w].node.name);
    forall i | i in low ensures i in lower + {w} {
      if b.st[i].node.name == b.st[w].node.name { assert i == w; }
    }
    assert low == lower + {w};
    forall a ensures a in VisitedByAll(b, low) <==> a in VisitedByAll(b, lower) + Visited(b.st[w].node) {}
  }

  lemma UnionSize(s: set<int>, u: set<int>)
    ensures |s + u| <= |s| + |u|
  {
    assert s + u == s + (u - s);
    SubsetSize(u - s, u);
  }

  /** A node has visited at most one address more than the nodes below it. */
  lemma VisitsOneMore(b: Bus, w: nat)
    requires FairInv(b) && w < |b.st|
    ensures |Visited(b.st[w].node)| <= |VisitedByAll(b, Lower(b, b.st[w].node.name))| + 1
  {
    hide VisitedByAll, Lower;
    var n := b.st[w].node;
    LostIsCovered(b, w);
    TriedSize(n.pref, n.tries);
    SubsetSize(Lost(n), VisitedByAll(b, Lower(b, n.name)));
    TriedSize(n.pref, Min(n.tries + 1, 254));
  }

  lemma TakeHighest(b: Bus, name: u64) returns (w: nat)
    requires FairInv(b) && Lower(b, name) != {}
    ensures w < |b.st| && |Lower(b, name)| == |Lower(b, b.st[w].node.name)| + 1
    ensures |VisitedByAll(b, Lower(b, name))| <= |VisitedByAll(b, Lower(b, b.st[w].node.name))| + |Visited(b.st[w].node)|
  {
    w := HighestOf(b, Lower(b, name));
    BelowHighest(b, name, w);
    UnionSize(VisitedByAll(b, Lower(b, b.st[w].node.name)), Visited(b.st[w].node));
  }

  lemma DoubleAndOne(n: nat)
    ensures Pow2(n + 1) == 2 * Pow2(n)
  {}

  /** The k nodes below a NAME have between them visited at most 2^k - 1 addresses. */
  lemma {:induction false} LowerVisitFew(b: Bus, name: u64)
    requires FairInv(b)
    ensures |VisitedByAll(b, Lower(b, name))| <= Pow2(|Lower(b, name)|) - 1
    decreases |Lower(b, name)|
  {
    var low := Lower(b, name);
    if low == {} {
      assert VisitedByAll(b, low) == {};
    } else {
      hide *;
      var w := TakeHighest(b, name);
      LowerVisitFew(b, b.st[w].node.name);
      VisitsOneMore(b, w);
      DoubleAndOne(|Lower(b, b.st[w].node.name)|);
    }
  }

  lemma LostIsCovered(b: Bus, i: nat)
    requires FairInv(b) && i < |b.st|
    ensures Lost(b.st[i].node) <= VisitedByAll(b, Lower(b, b.st[i].node.name))
  {
    var n := b.st[i].node;
    forall a | a in Lost(n) ensures a in VisitedByAll(b, Lower(b, n.name)) {
      assert LostToLower(b, n.name, a);
      var u :| 0 <= u < |b.st| && b.st[u].node.name < n.name && a in Visited(b.st[u].node);
      assert u in Lower(b, n.name);
    }
  }

  /** Over any run a node with k lower NAMEs is displaced at most 2^k - 1 times, and
      never more than 254 times; the lowest NAME never moves. */
  lemma DisplacementBound(r: seq<Bus>, t: Timing, k: nat, i: nat)
    requires IsSteadyRun(r, t) && k < |r| && i < |r[k].st|
    ensures r[k].st[i].node.tries <= Pow2(|Lower(r[k], r[k].st[i].node.name)|) - 1
    ensures r[k].st[i].node.tries <= 254
    ensures Lower(r[k], r[k].st[i].node.name) == {} ==> r[k].st[i].node.addr == r[k].st[i].node.pref
  {
    SteadyRunIsFair(r, t, k);
    var n := r[k].st[i].node;
    LowerVisitFew(r[k], n.name);
    LostIsCovered(r[k], i);
    TriedSize(n.pref, n.tries);
    SubsetSize(Lost(n), VisitedByAll(r[k], Lower(r[k], n.name)));
  }

  /** With at most seven lower NAMEs on the bus a node never falls silent. */
  lemma FewRivalsNeverSilent(r: seq<Bus>, t: Timing, k: nat, i: nat)
    requires IsSteadyRun(r, t) && k < |r| && i < |r[k].st|
    requires |Lower(r[k], r[k].st[i].node.name)| <= 7
    ensures r[k].st[i].node.state != Null
  {
    DisplacementBound(r, t, k, i);
    SteadyRunIsFair(r, t, k);
    Pow2Mono(|Lower(r[k], r[k].st[i].node.name)|, 7);
    assert Pow2(7) == 128;
  }

  // ---- what was lost, and to whom -----------------------------------------------------

  /** At some point of the run, not after `k`, a node of that NAME held the address and had
      announced it. */
  ghost predicate HeldBy(r: seq<Bus>, k: nat, name: u64, a: int)
    requires k < |r|
  {
    exists j, u :: 0 <= j <= k && 0 <= u < |r[j].st| && HoldsNow(r[j].st[u], name, a)
  }

  predicate HoldsNow(s: Station, name: u64, a: int) { Announced(s) && s.node.name == name && s.node.addr == a }

  /** A claim by that NAME to the address is on its way to node `i`. */
  ghost predicate ClaimFor(b: Bus, i: nat, name: u64, a: u8)
  {
    exists m :: m in b.net && m.dest == i && m.frame == ClaimFrame(name, a)
  }

  ghost predicate ClaimedBelow(b: Bus, i: nat, own: u64, a: int)
  {
    exists name: u64, x: u8 :: x == a && name < own && ClaimFor(b, i, name, x)
  }

  /** A claim by a lower NAME was sent to node `i`, and that NAME did hold the address. */
  ghost predicate LostToClaim(r: seq<Bus>, k: nat, i: nat, a: int)
    requires k < |r| && i < |r[k].st|
  {
    exists j: nat, name: u64, x: u8 ::
      j <= k && x == a && name < r[k].st[i].node.name && ClaimFor(r[j], i, name, x) && HeldBy(r, j, name, x)
  }

  ghost predicate SentByHolder(r: seq<Bus>, k: nat, m: Msg)
    requires k < |r|
  {
    exists name, a: u8 :: m.frame == ClaimFrame(name, a) && HeldBy(r, k, name, a)
  }

  lemma NewClaimIsHeld(b: Bus, a: Action, t: Timing, m: Msg)
    requires FairInv(b) && Enabled(b, a, t) && m in Step(b, a, t).net && m !in b.net
    ensures a.Tick? && HoldsNow(Step(b, a, t).st[a.i], b.st[a.i].node.name, b.st[a.i].node.addr)
    ensures m.frame == ClaimFrame(b.st[a.i].node.name, b.st[a.i].node.addr)
  {
    if a.Tick? { TickMoves(b.st[a.i].node, Wrap32(b.now), a.room); }
  }

  lemma NewClaim(b: Bus, c: Bus, t: Timing, m: Msg) returns (u: nat, name: u64, x: u8)
    requires FairInv(b) && SteadyNext(b, c, t) && m in c.net && m !in b.net
    ensures u < |c.st| && HoldsNow(c.st[u], name, x) && m.frame == ClaimFrame(name, x)
  {
    hide FairInv, HoldsNow;
    var a: Action :| !a.Restart? && Enabled(b, a, t) && c == Step(b, a, t);
    NewClaimIsHeld(b, a, t, m);
    u, name, x := a.i, b.st[a.i].node.name, b.st[a.i].node.addr;
  }

  lemma NewClaimInRun(r: seq<Bus>, t: Timing, k: nat, m: Msg)
    requires IsSteadyRun(r, t) && 0 < k < |r| && m in r[k].net && m !in r[k - 1].net
    ensures SentByHolder(r, k, m)
  {
    hide FairInv, SteadyNext, HoldsNow;
    SteadyRunIsFair(r, t, k - 1);
    assert SteadyNext(r[k - 1], r[k - 1 + 1], t);
    var u, name, x := NewClaim(r[k - 1], r[k], t, m);
    assert HeldBy(r, k, name, x);
  }

  /** Every claim in the network was sent by a node that then held the address. */
  lemma {:induction false} SentClaimsAreHeld(r: seq<Bus>, t: Timing, k: nat, m: Msg)
    requires IsSteadyRun(r, t) && k < |r| && m in r[k].net
    ensures SentByHolder(r, k, m)
  {
    if k > 0 {
      hide IsSteadyRun, SentByHolder;
      if m in r[k - 1].net {
        SentClaimsAreHeld(r, t, k - 1, m);
        HeldBefore(r, k, m);
      } else {
        NewClaimInRun(r, t, k, m);
      }
    }
  }

  lemma HeldBefore(r: seq<Bus>, k: nat, m: Msg)
    requires 0 < k < |r| && SentByHolder(r, k - 1, m)
    ensures SentByHolder(r, k, m)
  {
    var name, x: u8 :| m.frame == ClaimFrame(name, x) && HeldBy(r, k - 1, name, x);
    assert HeldBy(r, k, name, x);
  }

  /** A node loses an address only by receiving a lower NAME's claim to it. */
  lemma LosesByClaim(b: Bus, a: Action, t: Timing, i: nat, x: int)
    requires FairInv(b) && Enabled(b, a, t) && !a.Restart? && i < |Step(b, a, t).st|
    requires x in Lost(Step(b, a, t).st[i].node)
    ensures i < |b.st| && b.st[i].node.name == Step(b, a, t).st[i].node.name
    ensures x in Lost(b.st[i].node) || ClaimedBelow(b, i, b.st[i].node.name, x)
  {
    var c := Step(b, a, t);
    if i < |b.st| && x !in Lost(b.st[i].node) {
      var n := b.st[i].node;
      if a.Tick? { TickMoves(n, Wrap32(b.now), a.room); }
      if a.Foreign? { RxMoves(n, a.frame); }
      assert a.Deliver?;
      var m := b.net[a.p];
      RxMoves(n, m.frame);
      DisplacedLoses(n);
      assert HonestMsg(b, m);
      var name, y: u8 :| m.frame == ClaimFrame(name, y) && VisitedBy(b, name, y);
      ReceivedClaim(n, name, y);
      assert ClaimFor(b, i, name, y);
    }
  }

  lemma LostInRun(r: seq<Bus>, t: Timing, k: nat, i: nat, x: int)
    requires IsSteadyRun(r, t) && 0 < k < |r| && i < |r[k].st| && x in Lost(r[k].st[i].node)
    ensures i < |r[k - 1].st| && r[k - 1].st[i].node.name == r[k].st[i].node.name
    ensures x in Lost(r[k - 1].st[i].node) || ClaimedBelow(r[k - 1], i, r[k].st[i].node.name, x)
  {
    SteadyRunIsFair(r, t, k - 1);
    assert SteadyNext(r[k - 1], r[k - 1 + 1], t);
    var a: Action :| !a.Restart? && Enabled(r[k - 1], a, t) && r[k] == Step(r[k - 1], a, t);
    hide Step;
    LosesByClaim(r[k - 1], a, t, i, x);
  }

  lemma {:induction false} LostToClaims(r: seq<Bus>, t: Timing, k: nat, i: nat, x: int)
    requires IsSteadyRun(r, t) && k < |r| && i < |r[k].st| && x in Lost(r[k].st[i].node)
    ensures LostToClaim(r, k, i, x)
  {
    if k == 0 { return; }
    LostInRun(r, t, k, i, x);
    hide IsSteadyRun, ClaimFor, HeldBy, Lost;
    if x in Lost(r[k - 1].st[i].node) {
      LostToClaims(r, t, k - 1, i, x);
      var j: nat, name: u64, y: u8 :| j <= k - 1 && y == x && name < r[k - 1].st[i].node.name
        && ClaimFor(r[j], i, name, y) && HeldBy(r, j, name, y);
      assert j <= k && ClaimFor(r[j], i, name, y);
    } else {
      var name: u64, y: u8 :| y == x && name < r[k].st[i].node.name && ClaimFor(r[k - 1], i, name, y);
      SentClaimIsHeld(r, t, k - 1, i, name, y);
    }
  }

  lemma SentClaimIsHeld(r: seq<Bus>, t: Timing, k: nat, i: nat, name: u64, x: u8)
    requires IsSteadyRun(r, t) && k < |r| && ClaimFor(r[k], i, name, x)
    ensures HeldBy(r, k, name, x)
  {
    var m :| m in r[k].net && m.dest == i && m.frame == ClaimFrame(name, x);
    SentClaimsAreHeld(r, t, k, m);
    var other, y: u8 :| m.frame == ClaimFrame(other, y) && HeldBy(r, k, other, y);
    SameClaim(name, x, other, y);
  }

  /** A claim frame says whose it is and for which address. */
  lemma SameClaim(name: u64, a: u8, other: u64, b: u8)
    requires ClaimFrame(name, a) == ClaimFrame(other, b)
    ensures name == other && a == b
  {
    CanIdFields(AC_PRIO, PGN_ADDR_CLAIM, a, 255);
    CanIdFields(AC_PRIO, PGN_ADDR_CLAIM, b, 255);
    LeRoundTrip(name, 8);
    LeRoundTrip(other, 8);
    assert Pow256(8) == POW64;
  }

  /** A silent node was sent, for each of the 254 addresses, a claim by a lower NAME that
      had announced the address and held it. */
  lemma SilentLostEverything(r: seq<Bus>, t: Timing, k: nat, i: nat, a: nat)
    requires IsSteadyRun(r, t) && k < |r| && i < |r[k].st|
    requires r[k].st[i].node.state == Null && a < 254
    ensures LostToClaim(r, k, i, a)
  {
    SteadyRunIsFair(r, t, k);
    var n := r[k].st[i].node;
    var j := (a - n.pref) % 254;
    assert Candidate(n.pref, j) == a by {
      assert a - n.pref == (a - n.pref) / 254 * 254 + j;
      assert n.pref + j == a - (a - n.pref) / 254 * 254;
      assert -1 <= (a - n.pref) / 254 <= 0;
    }
    assert a in Lost(n);
    LostToClaims(r, t, k, i, a);
  }

  // ---- settling ---------------------------------------------------------------------

  /** Between two points of a run the node kept its address. */
  ghost predicate Undisturbed(r: seq<Bus>, i: nat, from: nat, upTo: nat)
  {
    && from <= upTo < |r|
    && (forall k :: from <= k <= upTo ==> i < |r[k].st|)
    && (forall k :: from <= k <= upTo ==> r[k].st[i].node.tries == r[from].st[i].node.tries)
  }

  ghost predicate AnnouncedSoon(s: Station, since: nat, t: Timing)
  {
    || s.node.state == Null
    || (Announced(s) && s.claimAt <= since + t.gap)
    || (s.node.needClaim && s.ticked && s.lastTick <= since)
  }

  lemma StepAnnouncesSoon(b: Bus, a: Action, t: Timing, i: nat, since: nat)
    requires BusInv(b, t) && Enabled(b, a, t) && !a.Restart? && i < |b.st|
    requires AnnouncedSoon(b.st[i], since, t)
    requires Step(b, a, t).st[i].node.tries == b.st[i].node.tries
    ensures AnnouncedSoon(Step(b, a, t).st[i], since, t)
  {
    assert StationInv(b.st[i], b.now, t);
    match a
    case Deliver(p) => RxMoves(b.st[b.net[p].dest].node, b.net[p].frame);
    case Foreign(d, f) => RxMoves(b.st[d].node, f);
    case _ =>
  }

  lemma StartsSoon(r: seq<Bus>, t: Timing, k: nat, i: nat)
    requires FastEnough(t) && IsRun(r, t) && k < |r| && i < |r[k].st| && r[k].st[i].ticked
    ensures AnnouncedSoon(r[k].st[i], r[k].now, t)
  {
    RunKeepsInv(r, t, k);
    assert StationInv(r[k].st[i], r[k].now, t);
  }

  lemma NextAnnouncesSoon(r: seq<Bus>, t: Timing, k: nat, i: nat, since: nat)
    requires FastEnough(t) && IsRun(r, t) && k + 1 < |r|
    requires SteadyNext(r[k], r[k + 1], t) && i < |r[k].st| && i < |r[k + 1].st|
    requires AnnouncedSoon(r[k].st[i], since, t) && r[k + 1].st[i].node.tries == r[k].st[i].node.tries
    ensures AnnouncedSoon(r[k + 1].st[i], since, t)
  {
    RunKeepsInv(r, t, k);
    var a: Action :| !a.Restart? && Enabled(r[k], a, t) && r[k + 1] == Step(r[k], a, t);
    StepAnnouncesSoon(r[k], a, t, i, since);
  }

  lemma {:induction false} UndisturbedAnnounces(r: seq<Bus>, t: Timing, i: nat, from: nat, k: nat)
    requires FastEnough(t) && IsSteadyRun(r, t) && IsRun(r, t) && Undisturbed(r, i, from, k)
    requires r[from].st[i].ticked
    ensures AnnouncedSoon(r[k].st[i], r[from].now, t)
    decreases k
  {
    if k == from {
      StartsSoon(r, t, from, i);
    } else {
      var j := k - 1;
      UndisturbedAnnounces(r, t, i, from, j);
      assert SteadyNext(r[j], r[j + 1], t);
      NextAnnouncesSoon(r, t, j, i, r[from].now);
    }
  }

  lemma SteadyIsRun(r: seq<Bus>, t: Timing)
    requires IsSteadyRun(r, t)
    ensures IsRun(r, t)
  {
    forall k | 0 <= k < |r| - 1 ensures Next(r[k], r[k + 1], t) {
      assert SteadyNext(r[k], r[k + 1], t);
    }
  }

  /** A node left alone for the settle time plus two tick gaps has won its address,
      or had already fallen silent. */
  lemma UndisturbedNodeWins(r: seq<Bus>, t: Timing, i: nat, from: nat, k: nat)
    requires FastEnough(t) && IsSteadyRun(r, t) && Undisturbed(r, i, from, k)
    requires r[from].st[i].ticked
    requires r[k].now >= r[from].now + 250 + 2 * t.gap
    ensures r[k].st[i].node.state in {Claimed, Null}
  {
    SteadyIsRun(r, t);
    UndisturbedAnnounces(r, t, i, from, k);
    RunKeepsInv(r, t, k);
    assert StationInv(r[k].st[i], r[k].now, t);
  }
}
