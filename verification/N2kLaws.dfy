/** The cadence of the NMEA 2000 messages in milliseconds, the counters, and the alerts. */
module N2kLaws {
  import opened Words
  import opened CanIds
  import opened FastPacket
  import opened N2kSched

  /** The transmission intervals, in the order in which the messages get the buffer. */
  const INTERVALS: seq<nat> := [100, 1000, 2500, 1500, 1500, 1500, 1500, 5000, 5000]

  /** What is sent now is wanted again when its interval has passed, and not before; an alert only
      while there is a fault. */
  lemma Cadence(s: Sched, c: Cycle, k: nat, room: nat, d: nat, e: Cycle)
    requires WellFormed(s) && Complete(c) && k < MESSAGES && Sends(s, c, k, room)
    requires d < 0x8000_0000 && e.now == Wrap32(c.now + d)
    ensures Wants(Ticked(s, c, true, room), e, k) <==> d >= INTERVALS[k] && (k == 1 || k == 2 ==> e.fault)
  {
    hide Sends, Due;
    DueAfter(c.now, INTERVALS[k], d);
  }

  /** Without a fault no alert is sent; the first cycle with one wants both at once. */
  lemma AlertsAtOnce(s: Sched, c: Cycle, k: nat, room: nat, d: nat, e: Cycle)
    requires WellFormed(s) && Complete(c) && !c.fault && 1 <= k <= 2
    requires d < 0x8000_0000 && e.now == Wrap32(c.now + d)
    ensures !Sends(s, c, k, room)
    ensures Wants(Ticked(s, c, true, room), e, k) <==> e.fault
  {
    hide Due;
    DueAfter(c.now, 0, d);
  }

  /** Every other message waits: as long as it is not sent, it stays wanted. */
  lemma WantedUntilSent(s: Sched, c: Cycle, k: nat, room: nat)
    requires WellFormed(s) && Complete(c) && k < MESSAGES && Wants(s, c, k)
    ensures Wants(Ticked(s, c, true, room), c, k) <==> !Sends(s, c, k, room)
  {
    hide Sends, Due;
    DueAfter(c.now, INTERVALS[k], 0);
  }

  // ---- counters ----------------------------------------------------------------------------------------

  function Sids(sid: u8, n: nat): u8 { if n == 0 then sid else NextSid(Sids(sid, n - 1)) }

  /** The snapshot counter stays below 253 and takes all of these values in turn. */
  lemma {:induction false} SidsCycle(sid: u8, n: nat)
    requires sid <= 252
    ensures Sids(sid, n) == (sid + n) % 253
  {
    if n > 0 {
      SidsCycle(sid, n - 1);
      NextRemainder(sid + n - 1, 253);
    }
  }

  lemma NextRemainder(x: nat, m: nat)
    requires m == 8 || m == 253
    ensures (x + 1) % m == if x % m == m - 1 then 0 else x % m + 1
  {}

  lemma SidHeals(sid: u8)
    requires sid > 252
    ensures NextSid(sid) == 1
  {}

  /** Of the next eight trains of a message no two have the same sequence number, and every frame of
      a train carries it in its top three bits. */
  lemma TrainsDiffer(q: u8, m: nat, n: nat)
    requires q < 8 && m < n < 8
    ensures Bumps(q, m) != Bumps(q, n) && Bumps(q, n) < 8
  {
    BumpsCycle(q, m);
    BumpsCycle(q, n);
  }

  function Bumps(q: u8, n: nat): u8 { if n == 0 then q else Bumped(Bumps(q, n - 1)) }

  lemma {:induction false} BumpsCycle(q: u8, n: nat)
    requires q < 8
    ensures Bumps(q, n) == (q + n) % 8
  {
    if n > 0 {
      BumpsCycle(q, n - 1);
      NextRemainder(q + n - 1, 8);
    }
  }

  /** A train as it stands on the bus: counter and frame number in the first byte, the length once,
      and the unused bytes of the last frame set. */
  lemma TrainBytes(id: u32, q: u8, p: seq<u8>, f: nat)
    requires 0 < |p| <= 223 && q < 8 && f < |Frames(id, q, p)|
    ensures |p| <= 6 ==> |Frames(id, q, p)| == 1
    ensures |p| > 6 ==> 7 * (|Frames(id, q, p)| - 2) < |p| - 6 <= 7 * (|Frames(id, q, p)| - 1)
    ensures var d := Frames(id, q, p)[f].data;
            && Frames(id, q, p)[f].id == id && |d| == 8 && d[0] == 32 * q + f && (f == 0 ==> d[1] == |p|)
            && forall k :: (if f == 0 then 2 else 1) <= k < 8 ==>
                 var at := if f == 0 then k - 2 else 7 * f + k - 2; d[k] == if at < |p| then p[at] else 255
  {
    CountFits(|p|);
  }
}
