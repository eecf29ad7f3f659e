/** The NMEA 2000 transmit cadence of control/Src/n2k_sched.c: nine messages in priority
    order, each sent whole or not at all into a bounded buffer. The firmware writes the
    nine cases out one after the other; here they are one loop over a table. */
module N2kSched {
  import opened Words
  import opened CanIds
  import opened FastPacket

  /** The messages in the order in which they get the buffer. */
  const RAPID: nat := 0
  const ALERT: nat := 1
  const ALERT_TEXT: nat := 2
  const BATTERY: nat := 3
  const DC_DETAIL: nat := 4
  const CONVERTER: nat := 5
  const TELEMETRY: nat := 6
  const PRODUCT: nat := 7
  const CONFIGURATION: nat := 8
  const MESSAGES: nat := 9

  const BATCH: nat := 32

  function Period(k: nat): (p: nat)
    requires k < MESSAGES
    ensures k != RAPID ==> 1000 <= p <= 5000
  {
    [100, 1000, 2500, 1500, 1500, 1500, 1500, 5000, 5000][k]
  }

  predicate IsAlert(k: nat) { k == ALERT || k == ALERT_TEXT }

  predicate IsFast(k: nat) { k != RAPID && k != BATTERY && k != CONVERTER }

  /** The scheduler state: the snapshot counter, and per message a timer and a fast-packet
      sequence counter. */
  datatype Sched = Sched(sid: u8, next: seq<u32>, seqs: seq<u8>)

  /** One cycle's input: the clock, whether any fault is active, and the encoded messages.
      A payload that cannot be encoded is empty. */
  datatype Cycle = Cycle(now: u32, fault: bool, ids: seq<u32>, payloads: seq<seq<u8>>)

  ghost predicate WellFormed(s: Sched) { |s.next| == |s.seqs| == MESSAGES }

  ghost predicate Complete(c: Cycle) { |c.ids| == |c.payloads| == MESSAGES }

  function Initial(): Sched { Sched(0, seq(MESSAGES, _ => 0), seq(MESSAGES, _ => 0)) }

  predicate Encodable(c: Cycle, k: nat)
    requires k < |c.payloads|
  {
    IsFast(k) ==> 0 < |c.payloads[k]| <= MAX_PAYLOAD
  }

  function Cost(c: Cycle, k: nat): nat
    requires k < |c.payloads|
  {
    if IsFast(k) then FrameCount(|c.payloads[k]|) else 1
  }

  /** The frames of one message. */
  function Message(s: Sched, c: Cycle, k: nat): (fs: seq<Frame>)
    requires k < |s.seqs| && k < |c.ids| && k < |c.payloads| && Encodable(c, k)
    ensures |fs| == Cost(c, k)
  {
    if IsFast(k) then Frames(c.ids[k], s.seqs[k], c.payloads[k]) else [Frame(c.ids[k], c.payloads[k])]
  }

  predicate Wants(s: Sched, c: Cycle, k: nat)
    requires k < |s.next|
  {
    Due(c.now, s.next[k]) && (IsAlert(k) ==> c.fault)
  }

  predicate Sends(s: Sched, c: Cycle, k: nat, room: nat)
    requires WellFormed(s) && Complete(c) && k < MESSAGES
    decreases k, 1
  {
    Wants(s, c, k) && Encodable(c, k) && Count(s, c, k, room) + Cost(c, k) <= room
  }

  /** The frames written before message `k` has its turn. */
  function Count(s: Sched, c: Cycle, k: nat, room: nat): (n: nat)
    requires WellFormed(s) && Complete(c) && k <= MESSAGES
    ensures n <= room
    decreases k, 0
  {
    if k == 0 then 0
    else Count(s, c, k - 1, room) + if Sends(s, c, k - 1, room) then Cost(c, k - 1) else 0
  }

  function Output(s: Sched, c: Cycle, k: nat, room: nat): (fs: seq<Frame>)
    requires WellFormed(s) && Complete(c) && k <= MESSAGES
    ensures |fs| == Count(s, c, k, room)
  {
    if k == 0 then []
    else Output(s, c, k - 1, room) + if Sends(s, c, k - 1, room) then Message(s, c, k - 1) else []
  }

  function NextTime(s: Sched, c: Cycle, k: nat, room: nat): u32
    requires WellFormed(s) && Complete(c) && k < MESSAGES
  {
    if Sends(s, c, k, room) then Wrap32(c.now + Period(k))
    else if IsAlert(k) && !c.fault then c.now
    else s.next[k]
  }

  function Bumped(q: u8): u8
  {
    var n: int := q;
    (n + 1) % 8
  }

  function NextSeq(s: Sched, c: Cycle, k: nat, room: nat): u8
    requires WellFormed(s) && Complete(c) && k < MESSAGES
  {
    if Sends(s, c, k, room) && IsFast(k) then Bumped(s.seqs[k]) else s.seqs[k]
  }

  /** n2k_sid_next: 0 to 252, healing an out-of-range seed. */
  function NextSid(sid: u8): u8
  {
    var v := if sid > 252 then 0 else sid;
    if v >= 252 then 0 else v + 1
  }

  function Ticked(s: Sched, c: Cycle, ready: bool, room: nat): (t: Sched)
    requires WellFormed(s) && Complete(c)
    ensures WellFormed(t)
  {
    if !ready then s
    else Sched(NextSid(s.sid),
               seq(MESSAGES, k requires 0 <= k < MESSAGES => NextTime(s, c, k, room)),
               seq(MESSAGES, k requires 0 <= k < MESSAGES => NextSeq(s, c, k, room)))
  }

  // ---- the context the firmware updates in place -------------------------------------------------

  class Scheduler {
    var sid: u8
    const next: array<u32>
    const seqs: array<u8>

    ghost predicate Valid()
      reads this, next, seqs
    {
      next.Length == seqs.Length == MESSAGES
    }

    ghost function View(): (s: Sched)
      requires Valid()
      reads this, next, seqs
      ensures WellFormed(s)
    {
      Sched(sid, next[..], seqs[..])
    }

    constructor ()
      ensures Valid() && View() == Initial() && fresh(next) && fresh(seqs)
    {
      sid := 0;
      next := new u32[MESSAGES](_ => 0);
      seqs := new u8[MESSAGES](_ => 0);
    }

    /** The turn of a due fast-packet message. */
    method FastTurn(c: Cycle, k: nat, out: array<Frame>, count: nat, ghost s: Sched) returns (n: nat)
      requires Valid() && WellFormed(s) && Complete(c) && k < MESSAGES && count == Count(s, c, k, out.Length) < out.Length
      requires next[k] == s.next[k] && seqs[k] == s.seqs[k] && IsFast(k) && Wants(s, c, k)
      modifies next, seqs, out
      ensures Valid() && n == Count(s, c, k + 1, out.Length) && count <= n
      ensures next[k] == NextTime(s, c, k, out.Length) && seqs[k] == NextSeq(s, c, k, out.Length)
      ensures forall j :: 0 <= j < MESSAGES && j != k ==> next[j] == old(next[j]) && seqs[j] == old(seqs[j])
      ensures out[..count] == old(out[..count]) && out[n..] == old(out[..])[n..]
      ensures out[count..n] == if Sends(s, c, k, out.Length) then Message(s, c, k) else []
    {
      hide Due, Frames, FrameCount;
      n := count;
      var sent := Split(c.ids[k], seqs[k], c.payloads[k], out, count, out.Length - count);
      if sent > 0 {
        n := count + sent;
        seqs[k] := Bumped(seqs[k]);
        next[k] := Wrap32(c.now + Period(k));
      }
    }

    /** One message's turn, `count` frames into the buffer. */
    method Turn(c: Cycle, k: nat, out: array<Frame>, count: nat, ghost s: Sched) returns (n: nat)
      requires Valid() && WellFormed(s) && Complete(c) && k < MESSAGES && count == Count(s, c, k, out.Length)
      requires next[k] == s.next[k] && seqs[k] == s.seqs[k]
      modifies next, seqs, out
      ensures Valid() && n == Count(s, c, k + 1, out.Length) && count <= n
      ensures next[k] == NextTime(s, c, k, out.Length) && seqs[k] == NextSeq(s, c, k, out.Length)
      ensures forall j :: 0 <= j < MESSAGES && j != k ==> next[j] == old(next[j]) && seqs[j] == old(seqs[j])
      ensures out[..count] == old(out[..count]) && out[n..] == old(out[..])[n..]
      ensures out[count..n] == if Sends(s, c, k, out.Length) then Message(s, c, k) else []
    {
      hide Due, Frames, FrameCount;
      n := count;
      if IsAlert(k) && !c.fault {
        next[k] := c.now;
        return;
      }
      if !Due(c.now, next[k]) || count >= out.Length {
        CostPositive(c, k);
        return;
      }
      if IsFast(k) {
        n := FastTurn(c, k, out, count, s);
      } else {
        out[count] := Frame(c.ids[k], c.payloads[k]);
        n := count + 1;
        next[k] := Wrap32(c.now + Period(k));
      }
    }

    /** The first `k` messages have had their turn. */
    ghost predicate Done(s: Sched, c: Cycle, k: nat, room: nat)
      requires Valid() && WellFormed(s) && Complete(c) && k <= MESSAGES
      reads this, next, seqs
    {
      && (forall j :: 0 <= j < k ==> next[j] == NextTime(s, c, j, room) && seqs[j] == NextSeq(s, c, j, room))
      && (forall j :: k <= j < MESSAGES ==> next[j] == s.next[j] && seqs[j] == s.seqs[j])
    }

    method NextTurn(c: Cycle, k: nat, out: array<Frame>, count: nat, ghost s: Sched) returns (n: nat)
      requires Valid() && WellFormed(s) && Complete(c) && k < MESSAGES && count == Count(s, c, k, out.Length)
      requires Done(s, c, k, out.Length) && out[..count] == Output(s, c, k, out.Length)
      modifies next, seqs, out
      ensures Valid() && n == Count(s, c, k + 1, out.Length) && count <= n
      ensures Done(s, c, k + 1, out.Length) && out[..n] == Output(s, c, k + 1, out.Length)
      ensures out[n..] == old(out[..])[n..]
    {
      hide Sends, Count, Message, NextTime, NextSeq, Output;
      n := Turn(c, k, out, count, s);
      OutputNext(s, c, k, out.Length);
      assert out[..n] == out[..count] + out[count..n];
    }

    method Tick(c: Cycle, ready: bool, out: array<Frame>) returns (count: nat)
      requires Valid() && Complete(c)
      modifies this, next, seqs, out
      ensures Valid() && View() == Ticked(old(View()), c, ready, out.Length)
      ensures count <= out.Length && out[count..] == old(out[..])[count..]
      ensures out[..count] == if ready then Output(old(View()), c, MESSAGES, out.Length) else []
    {
      count := 0;
      if !ready {
        assert out[..0] == [];
        return;
      }
      hide Sends, Count, Message, NextTime, NextSeq, Output, NextSid, Ticked;
      ghost var s := View();
      Starts(s, c, out.Length);
      sid := NextSid(sid);
      var k := 0;
      while k < MESSAGES
        invariant 0 <= k <= MESSAGES && Valid() && sid == NextSid(s.sid) && count == Count(s, c, k, out.Length)
        invariant Done(s, c, k, out.Length) && out[..count] == Output(s, c, k, out.Length)
        invariant out[count..] == old(out[..])[count..]
      {
        count := NextTurn(c, k, out, count, s);
        k := k + 1;
      }
      TickedIs(s, c, out.Length, View());
    }
  }

  lemma Starts(s: Sched, c: Cycle, room: nat)
    requires WellFormed(s) && Complete(c)
    ensures Count(s, c, 0, room) == 0 && Output(s, c, 0, room) == []
  {}

  lemma TickedIs(s: Sched, c: Cycle, room: nat, t: Sched)
    requires WellFormed(s) && Complete(c) && WellFormed(t) && t.sid == NextSid(s.sid)
    requires forall k :: 0 <= k < MESSAGES ==> t.next[k] == NextTime(s, c, k, room) && t.seqs[k] == NextSeq(s, c, k, room)
    ensures t == Ticked(s, c, true, room)
  {
    hide NextTime, NextSeq, NextSid;
  }

  lemma CostPositive(c: Cycle, k: nat)
    requires k < |c.payloads|
    ensures Cost(c, k) >= 1
  {}

  lemma OutputNext(s: Sched, c: Cycle, k: nat, room: nat)
    requires WellFormed(s) && Complete(c) && k < MESSAGES
    ensures Output(s, c, k + 1, room) == Output(s, c, k, room) + if Sends(s, c, k, room) then Message(s, c, k) else []
  {}

  // ---- all or nothing ----------------------------------------------------------------------------

  lemma {:induction false} OutputGrows(s: Sched, c: Cycle, j: nat, k: nat, room: nat)
    requires WellFormed(s) && Complete(c) && j <= k <= MESSAGES
    ensures Output(s, c, j, room) <= Output(s, c, k, room)
    decreases k
  {
    if j < k { OutputGrows(s, c, j, k - 1, room); }
  }

  /** A message that is sent stands whole and in one piece in the buffer, and a receiver
      can put it together again; one that is not sent keeps its sequence counter, and
      its timer unless there is no fault for it to report. */
  lemma WholeOrNotAtAll(s: Sched, c: Cycle, k: nat, room: nat)
    requires WellFormed(s) && Complete(c) && k < MESSAGES
    ensures Sends(s, c, k, room) ==>
              var (at, out) := (Count(s, c, k, room), Output(s, c, MESSAGES, room));
              && at + Cost(c, k) <= |out| && out[at..at + Cost(c, k)] == Message(s, c, k)
              && (IsFast(k) ==> Reassemble(Message(s, c, k)) == Some(c.payloads[k]))
    ensures !Sends(s, c, k, room) ==>
              var t := Ticked(s, c, true, room);
              t.seqs[k] == s.seqs[k] && (t.next[k] == s.next[k] || (IsAlert(k) && !c.fault))
  {
    hide Sends, Message, Count;
    if Sends(s, c, k, room) {
      OutputNext(s, c, k, room);
      OutputGrows(s, c, k + 1, MESSAGES, room);
      PrefixPiece(Output(s, c, k, room), MessageOf(s, c, k, room), Output(s, c, MESSAGES, room));
      SentReassembles(s, c, k, room);
    }
  }

  function MessageOf(s: Sched, c: Cycle, k: nat, room: nat): (fs: seq<Frame>)
    requires WellFormed(s) && Complete(c) && k < MESSAGES && Sends(s, c, k, room)
    ensures |fs| == Cost(c, k)
  {
    Message(s, c, k)
  }

  lemma PrefixPiece(a: seq<Frame>, b: seq<Frame>, all: seq<Frame>)
    requires a + b <= all
    ensures |a| + |b| <= |all| && all[|a|..|a| + |b|] == b
  {
    assert all[..|a + b|] == a + b;
  }

  lemma SentReassembles(s: Sched, c: Cycle, k: nat, room: nat)
    requires WellFormed(s) && Complete(c) && k < MESSAGES && Sends(s, c, k, room)
    ensures Encodable(c, k)
    ensures IsFast(k) ==> Reassemble(Message(s, c, k)) == Some(c.payloads[k])
  {
    if IsFast(k) { SplitRoundTrip(c.ids[k], s.seqs[k], c.payloads[k]); }
  }

  // ---- nothing waits for more than two cycles ----------------------------------------------------

  const LONGEST_ALERT_TEXT: nat := 41
  const MFG_INFO: nat := 31

  /** The payload sizes of this firmware: fixed layouts, an alert text of at most 41
      characters, and two empty installation texts beside the manufacturer's. */
  ghost predicate FirmwareSizes(c: Cycle)
  {
    && Complete(c) && |c.payloads[ALERT]| == 28
    && 21 <= |c.payloads[ALERT_TEXT]| <= 21 + LONGEST_ALERT_TEXT
    && |c.payloads[DC_DETAIL]| == 11 && |c.payloads[TELEMETRY]| == 22
    && |c.payloads[PRODUCT]| == 134 && |c.payloads[CONFIGURATION]| == 6 + MFG_INFO
  }

  /** The most frames message `k` can take. */
  function Most(k: nat): nat
    requires k < MESSAGES
  {
    [1, 5, 9, 1, 2, 1, 4, 20, 6][k]
  }

  function MostBefore(k: nat): nat
    requires k <= MESSAGES
  {
    if k == 0 then 0 else MostBefore(k - 1) + Most(k - 1)
  }

  lemma CostIsBounded(c: Cycle, k: nat)
    requires FirmwareSizes(c) && k < MESSAGES
    ensures Cost(c, k) <= Most(k) && Encodable(c, k)
  {
    assert k == RAPID || k == ALERT || k == ALERT_TEXT || k == BATTERY || k == DC_DETAIL || k == CONVERTER
        || k == TELEMETRY || k == PRODUCT || k == CONFIGURATION;
  }

  lemma {:induction false} CountIsBounded(s: Sched, c: Cycle, k: nat, room: nat)
    requires WellFormed(s) && FirmwareSizes(c) && k <= MESSAGES
    ensures Count(s, c, k, room) <= MostBefore(k)
  {
    hide FirmwareSizes, Cost, Most, Sends;
    if k > 0 {
      CountIsBounded(s, c, k - 1, room);
      CostIsBounded(c, k - 1);
    }
  }

  lemma SumsOfMost()
    ensures MostBefore(1) == 1 && MostBefore(7) == 23 && MostBefore(8) == 43
  {
    assert MostBefore(2) == 6 && MostBefore(3) == 15 && MostBefore(4) == 16 && MostBefore(5) == 18;
    assert MostBefore(6) == 19;
  }

  lemma {:induction false} MostGrows(j: nat, k: nat)
    requires j <= k <= MESSAGES
    ensures MostBefore(j) <= MostBefore(k)
    decreases k
  {
    if j < k { MostGrows(j, k - 1); }
  }

  /** Everything up to the telemetry message fits into one batch together. */
  lemma UrgentAtOnce(s: Sched, c: Cycle, k: nat)
    requires WellFormed(s) && FirmwareSizes(c) && k <= TELEMETRY && Wants(s, c, k)
    ensures Sends(s, c, k, BATCH)
  {
    hide FirmwareSizes, Cost, Most;
    CountIsBounded(s, c, k, BATCH);
    CostIsBounded(c, k);
    MostGrows(k + 1, 7);
    SumsOfMost();
  }

  /** What was just sent is not due again less than a second later, across the wrap of
      the clock; only the rapid message is. */
  lemma SentIsNotWanted(s: Sched, c: Cycle, d: Cycle, k: nat)
    requires WellFormed(s) && Complete(c) && 0 < k < MESSAGES && Sends(s, c, k, BATCH)
    requires Sub32(d.now, c.now) < 1000
    ensures !Wants(Ticked(s, c, true, BATCH), d, k)
  {
    hide Sends, Period;
    WrapDiff(d.now, c.now, Period(k));
  }

  lemma WrapDiff(a: u32, b: u32, p: nat)
    requires Sub32(a, b) < 1000 <= p <= 5000
    ensures Sub32(a, Wrap32(b + p)) == Sub32(a, b) - p + POW32
  {
    var d := Sub32(a, b);
    assert a == Wrap32(b + d) by { assert (a - b) % POW32 == d; }
  }

  /** The frames two cycles less than a second apart spend before message `k`: every
      message but the rapid one at most once. */
  lemma {:induction false} CountsTogether(s: Sched, c: Cycle, d: Cycle, k: nat)
    requires WellFormed(s) && FirmwareSizes(c) && FirmwareSizes(d) && 0 < k <= MESSAGES && Sub32(d.now, c.now) < 1000
    ensures Count(s, c, k, BATCH) + Count(Ticked(s, c, true, BATCH), d, k, BATCH) <= MostBefore(k) + 1
  {
    assert Complete(c);
    hide FirmwareSizes, Cost, Most, Wants, Ticked;
    CostIsBounded(c, k - 1);
    CostIsBounded(d, k - 1);
    if k == 1 {
      SumsOfMost();
      RapidIsOne(c);
      RapidIsOne(d);
    } else {
      CountsTogether(s, c, d, k - 1);
      if Sends(s, c, k - 1, BATCH) { SentIsNotWanted(s, c, d, k - 1); }
    }
  }

  lemma RapidIsOne(c: Cycle)
    requires FirmwareSizes(c)
    ensures Cost(c, RAPID) == 1
  {}

  /** With the firmware's buffer of 32 frames and its texts, a message that is due in two
      cycles in a row, less than a second apart, is sent in the first or in the second,
      whatever the timers, the faults and the clock. */
  lemma SentByTheSecondCycle(s: Sched, c: Cycle, d: Cycle, k: nat)
    requires WellFormed(s) && FirmwareSizes(c) && FirmwareSizes(d) && k < MESSAGES && Sub32(d.now, c.now) < 1000
    requires Wants(s, c, k) && Wants(Ticked(s, c, true, BATCH), d, k)
    ensures Sends(s, c, k, BATCH) || Sends(Ticked(s, c, true, BATCH), d, k, BATCH)
  {
    if k <= TELEMETRY {
      UrgentAtOnce(s, c, k);
    } else {
      hide FirmwareSizes, Cost, Most, Ticked, Count, Wants;
      CountsTogether(s, c, d, k);
      CostIsBounded(c, k);
      CostIsBounded(d, k);
      SumsOfMost();
      BigCosts();
    }
  }

  lemma BigCosts()
    ensures Most(PRODUCT) == 20 && Most(CONFIGURATION) == 6
  {}
}
