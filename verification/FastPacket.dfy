/** Fast-packet transport of control/Src/n2k_encode.c: splitting a payload into CAN
    frames, and the reassembly a receiver does. */
module FastPacket {
  import opened Words
  import opened CanIds

  const MAX_PAYLOAD: nat := 223
  const MAX_FRAMES: nat := 32
  const FIRST: nat := 6
  const LATER: nat := 7

  function FrameCount(len: nat): (n: nat) ensures n >= 1 { 1 + if len > FIRST then (len - FIRST + 6) / LATER else 0 }

  /** Where frame `f` starts in the payload, and how many payload bytes it has room for. */
  function Start(f: nat): nat { if f == 0 then 0 else FIRST + (f - 1) * LATER }

  function Room(f: nat): nat { if f == 0 then FIRST else LATER }

  /** The sequence counter and the frame index share the first byte. */
  function Header(seqNo: u8, f: nat): u8 { seqNo % 8 * 32 + f % 32 }

  /** Bytes `at`, `at + 1`, ... of the payload, filled up with 0xFF. */
  function Padded(p: seq<u8>, at: nat, n: nat): (b: seq<u8>)
    ensures |b| == n
  {
    seq(n, i requires 0 <= i < n => if at + i < |p| then p[at + i] else 0xFF)
  }

  function SplitFrame(id: u32, seqNo: u8, p: seq<u8>, f: nat): (r: Frame)
    requires |p| <= MAX_PAYLOAD
    ensures |r.data| == 8
  {
    Frame(id, [Header(seqNo, f)] + (if f == 0 then [|p|] else []) + Padded(p, Start(f), Room(f)))
  }

  function Frames(id: u32, seqNo: u8, p: seq<u8>): (fs: seq<Frame>)
    requires |p| <= MAX_PAYLOAD
    ensures |fs| == FrameCount(|p|)
  {
    seq(FrameCount(|p|), f requires 0 <= f < FrameCount(|p|) => SplitFrame(id, seqNo, p, f))
  }

  /** n2k_fp_split: the frames, or nothing at all. */
  method Split(id: u32, seqNo: u8, payload: seq<u8>, out: array<Frame>, from: nat, room: nat) returns (n: int)
    requires from + room <= out.Length
    modifies out
    ensures |payload| == 0 || |payload| > MAX_PAYLOAD || FrameCount(|payload|) > room ==> n == -1 && out[..] == old(out[..])
    ensures 0 < |payload| <= MAX_PAYLOAD && FrameCount(|payload|) <= room ==>
              n == FrameCount(|payload|) && out[..] == old(out[..from]) + Frames(id, seqNo, payload) + old(out[from + n..])
  {
    if |payload| == 0 || |payload| > MAX_PAYLOAD { return -1; }
    var nframes := 1 + if |payload| > 6 then (|payload| - 6 + 6) / 7 else 0;
    if nframes > room { return -1; }
    ghost var fs := Frames(id, seqNo, payload);
    var f, off := 0, 0;
    while f < nframes
      invariant 0 <= f <= nframes && off == Min(Start(f), |payload|)
      invariant out[..from] == old(out[..from]) && out[from..from + f] == fs[..f]
      invariant out[from + f..] == old(out[..])[from + f..]
    {
      var data;
      data, off := FillFrame(seqNo, payload, f, off);
      out[from + f] := Frame(id, data);
      assert out[from..from + f + 1] == out[from..from + f] + [fs[f]];
      f := f + 1;
    }
    n := nframes;
    assert out[..] == out[..from] + out[from..from + n] + out[from + n..];
  }

  /** The eight bytes of frame `f`, and how far into the payload it got. */
  method FillFrame(seqNo: u8, payload: seq<u8>, f: nat, at: nat) returns (data: seq<u8>, off: nat)
    requires |payload| <= MAX_PAYLOAD && at == Min(Start(f), |payload|)
    ensures data == SplitFrame(0, seqNo, payload, f).data && off == Min(Start(f + 1), |payload|)
  {
    data := [Header(seqNo, f)];
    if f == 0 { data := data + [|payload|]; }
    off := at;
    ghost var head := data;
    while |data| < 8
      invariant |head| <= |data| <= 8 && data == head + Padded(payload, Start(f), |data| - |head|)
      invariant off == Min(Start(f) + |data| - |head|, |payload|)
    {
      PaddedNext(payload, Start(f), |data| - |head|);
      if off < |payload| {
        data := data + [payload[off]];
        off := off + 1;
      } else {
        data := data + [0xFF];
      }
    }
  }

  lemma PaddedNext(p: seq<u8>, at: nat, k: nat)
    ensures Padded(p, at, k + 1) == Padded(p, at, k) + [if at + k < |p| then p[at + k] else 0xFF]
  {}

  // ---- the receiving side ----------------------------------------------------------------------

  /** Frames of one message, in order, none missing: all carry the same sequence counter
      and their own index. */
  predicate InOrder(fs: seq<Frame>)
  {
    && |fs| > 0 && (forall f :: 0 <= f < |fs| ==> |fs[f].data| == 8)
    && forall f :: 0 <= f < |fs| ==> fs[f].data[0] % 32 == f % 32 && fs[f].data[0] / 32 == fs[0].data[0] / 32
  }

  function Chunk(fs: seq<Frame>, f: nat): seq<u8>
    requires f < |fs| && |fs[f].data| == 8
  {
    if f == 0 then fs[f].data[2..] else fs[f].data[1..]
  }

  function Gathered(fs: seq<Frame>, n: nat): seq<u8>
    requires n <= |fs| && forall f :: 0 <= f < |fs| ==> |fs[f].data| == 8
  {
    if n == 0 then [] else Gathered(fs, n - 1) + Chunk(fs, n - 1)
  }

  /** What a receiver makes of a train of frames: the length in the first one says how
      many there must be and how much of the last one counts. */
  function Reassemble(fs: seq<Frame>): Option<seq<u8>>
  {
    if !InOrder(fs) then None
    else
      var len := fs[0].data[1];
      if len > MAX_PAYLOAD || |fs| != FrameCount(len) || |Gathered(fs, |fs|)| < len then None
      else Some(Gathered(fs, |fs|)[..len])
  }

  lemma {:induction false} GatheredIsPadded(id: u32, seqNo: u8, p: seq<u8>, n: nat)
    requires 0 < |p| <= MAX_PAYLOAD && n <= FrameCount(|p|)
    ensures Gathered(Frames(id, seqNo, p), n) == Padded(p, 0, Start(n))
  {
    if n > 0 {
      GatheredIsPadded(id, seqNo, p, n - 1);
      ChunkIsPadded(id, seqNo, p, n - 1);
      hide Frames, Chunk, FrameCount;
      assert Start(n) == Start(n - 1) + Room(n - 1);
      assert Padded(p, 0, Start(n)) == Padded(p, 0, Start(n - 1)) + Padded(p, Start(n - 1), Room(n - 1));
    }
  }

  lemma ChunkIsPadded(id: u32, seqNo: u8, p: seq<u8>, f: nat)
    requires 0 < |p| <= MAX_PAYLOAD && f < FrameCount(|p|)
    ensures Chunk(Frames(id, seqNo, p), f) == Padded(p, Start(f), Room(f))
  {
    hide FrameCount;
  }

  /** The frames hold all of the payload, and one less would not. */
  lemma CountFits(len: nat)
    requires 0 < len <= MAX_PAYLOAD
    ensures 0 < FrameCount(len) <= MAX_FRAMES && Start(FrameCount(len) - 1) < len <= Start(FrameCount(len))
  {
    if len > FIRST {
      var q := (len - FIRST + 6) / LATER;
      assert q * LATER <= len - FIRST + 6 < q * LATER + LATER;
    }
  }

  /** Splitting and reassembling gives back the payload, for every length from 1 to 223. */
  lemma SplitRoundTrip(id: u32, seqNo: u8, p: seq<u8>)
    requires 0 < |p| <= 223
    ensures Reassemble(Frames(id, seqNo, p)) == Some(p) && |Frames(id, seqNo, p)| <= 32
  {
    hide Start, Room, FrameCount, Gathered, Header, InOrder;
    var fs := Frames(id, seqNo, p);
    CountFits(|p|);
    SplitInOrder(id, seqNo, p);
    GatheredIsPadded(id, seqNo, p, |fs|);
    assert Padded(p, 0, Start(|fs|))[..|p|] == p;
  }

  lemma SplitInOrder(id: u32, seqNo: u8, p: seq<u8>)
    requires 0 < |p| <= MAX_PAYLOAD
    ensures InOrder(Frames(id, seqNo, p)) && Frames(id, seqNo, p)[0].data[1] == |p|
  {
    var fs := Frames(id, seqNo, p);
    CountFits(|p|);
    forall f | 0 <= f < |fs| ensures fs[f].data[0] % 32 == f % 32 && fs[f].data[0] / 32 == seqNo % 8 {
      HeaderParts(seqNo % 8, f % 32);
    }
  }

  lemma HeaderParts(s: nat, f: nat)
    requires f < 32
    ensures (s * 32 + f) % 32 == f && (s * 32 + f) / 32 == s
  {}

  /** A message with any one frame lost is not mistaken for a complete one. */
  lemma LostFrameRejected(id: u32, seqNo: u8, p: seq<u8>, k: nat)
    requires 0 < |p| <= MAX_PAYLOAD && k < FrameCount(|p|)
    ensures var fs := Frames(id, seqNo, p); Reassemble(fs[..k] + fs[k + 1..]) == None
  {
    var fs := Frames(id, seqNo, p);
    var gs := fs[..k] + fs[k + 1..];
    CountFits(|p|);
    if k < |gs| {
      HeaderParts(seqNo % 8, k + 1);
      assert gs[k] == fs[k + 1] && gs[k].data[0] % 32 == k + 1;
    } else if |gs| > 0 {
      assert gs[0] == fs[0];
    }
  }
}
