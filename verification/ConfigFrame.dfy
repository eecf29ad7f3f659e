/** Framing of the config record: header, payload, trailing CRC; what cfg_peek accepts
    and what a torn record cannot pass. */
module ConfigFrame {
  import opened Words
  import opened Crc32
  import opened ConfigCodec

  datatype FrameError = Short | BadMagic | BadVersion | BadLength | BadCrc
  datatype Peeked = Frame(generation: u32) | Reject(error: FrameError)
  datatype Decoded = Record(config: Config, generation: u32) | Refused(error: FrameError)

  const MAGIC: seq<u8> := [0x57, 0x35, 0x43, 0x46]

  function HeaderBytes(generation: u32): (b: seq<u8>)
    ensures |b| == HEADER
  {
    MAGIC + Le16(SCHEMA) + Le16(0) + Le32(generation) + Le16(PAYLOAD_LEN) + Le16(0)
  }

  function BodyBytes(c: Config, generation: u32): (b: seq<u8>)
    ensures |b| == BODY
  {
    HeaderBytes(generation) + PayloadBytes(c)
  }

  /** cfg_encode. */
  function RecordBytes(c: Config, generation: u32): (b: seq<u8>)
    ensures |b| == RECORD
  {
    BodyBytes(c, generation) + Le32(CrcOf(BodyBytes(c, generation)))
  }

  /** cfg_peek, on a buffer of any length. */
  function Peek(b: seq<u8>): Peeked
  {
    if |b| < HEADER then Reject(Short)
    else if b[..4] != MAGIC then Reject(BadMagic)
    else if At16(b, 4) != SCHEMA then Reject(BadVersion)
    else if At16(b, 12) != PAYLOAD_LEN then Reject(BadLength)
    else if |b| < RECORD then Reject(Short)
    else if At32(b, BODY) != CrcOf(b[..BODY]) then Reject(BadCrc)
    else Frame(At32(b, 8))
  }

  function Decode(b: seq<u8>): Decoded
  {
    var p := Peek(b);
    if p.Reject? then Refused(p.error) else Record(PayloadAt(b, HEADER), p.generation)
  }

  predicate Valid(b: seq<u8>) { |b| == RECORD && Peek(b).Frame? }

  lemma HeaderFields(generation: u32)
    ensures var h := HeaderBytes(generation);
            h[..4] == MAGIC && At16(h, 4) == SCHEMA && At32(h, 8) == generation && At16(h, 12) == PAYLOAD_LEN
  {
    var h := HeaderBytes(generation);
    assert h[..4] == MAGIC;
    Le32RoundTrip(generation);
  }

  /** A record read back decodes to the config and generation that were encoded. */
  lemma DecodeEncode(c: Config, generation: u32)
    ensures Decode(RecordBytes(c, generation)) == Record(c, generation)
  {
    var (h, p) := (HeaderBytes(generation), PayloadBytes(c));
    var body := BodyBytes(c, generation);
    var b := RecordBytes(c, generation);
    HeaderFields(generation);
    assert b[..BODY] == body && b[..4] == h[..4] && LiesAt(b, HEADER, p);
    assert At16(b, 4) == At16(h, 4) && At16(b, 12) == At16(h, 12) && At32(b, 8) == At32(h, 8);
    assert At32(b, BODY) == CrcOf(body) by { Le32RoundTrip(CrcOf(body)); }
    PayloadRoundTrip(b, HEADER, c);
  }

  // ---- torn records --------------------------------------------------------------------

  /** The bytes after the first `n` of `next` were written over `was`. */
  function Torn(was: seq<u8>, next: seq<u8>, n: nat): (b: seq<u8>)
    requires |was| == |next| && n <= |next|
    ensures |b| == |next|
  {
    next[..n] + was[n..]
  }

  /** Two valid records whose bodies differ only inside four consecutive bytes, and
      whose stored CRCs are the same, are one record. */
  lemma SameCrcWindow(a: seq<u8>, b: seq<u8>, k: nat)
    requires Valid(a) && Valid(b) && k + 4 <= BODY
    requires forall i :: 0 <= i < RECORD && !(k <= i < k + 4) ==> a[i] == b[i]
    ensures a == b
  {
    assert At32(a, BODY) == At32(b, BODY);
    WindowNeverMissed(a[..BODY], b[..BODY], k);
    assert a == a[..BODY] + a[BODY..] && b == b[..BODY] + b[BODY..];
    assert a[BODY..] == b[BODY..];
  }

  /** What an interrupted write leaves behind is harmless if it is rejected, or if it is
      one of the two complete records after all. */
  ghost predicate TornRejected(was: seq<u8>, next: seq<u8>, n: nat)
    requires |was| == |next| == RECORD && n <= RECORD
  {
    var b := Torn(was, next, n);
    b == was || b == next || !Valid(b)
  }

  /** As long as what was written so far differs from a valid record in nothing but the
      generation, the cut is rejected: the CRC covers those four bytes. */
  lemma GenerationCutRejected(was: seq<u8>, next: seq<u8>, n: nat)
    requires |was| == |next| == RECORD && n <= RECORD && Valid(was)
    requires forall i :: 0 <= i < n && !(8 <= i < 12) ==> was[i] == next[i]
    ensures TornRejected(was, next, n)
  {
    hide Peek;
    if Valid(Torn(was, next, n)) { SameCrcWindow(Torn(was, next, n), was, 8); }
  }

  /** The fields of the header other than the generation never change. */
  lemma HeaderFixed(c: Config, g: u32, d: Config, h: u32, i: nat)
    requires i < HEADER && !(8 <= i < 12)
    ensures RecordBytes(c, g)[i] == RecordBytes(d, h)[i]
  {
    assert RecordBytes(c, g)[i] == HeaderBytes(g)[i];
    assert RecordBytes(d, h)[i] == HeaderBytes(h)[i];
  }

  lemma RecordIsValid(c: Config, g: u32)
    ensures Valid(RecordBytes(c, g))
  {
    DecodeEncode(c, g);
  }

  /** A cut anywhere in the header page, over a record of ours, is always rejected. */
  lemma HeaderCutRejected(c: Config, g: u32, d: Config, h: u32, n: nat)
    requires n <= HEADER
    ensures TornRejected(RecordBytes(c, g), RecordBytes(d, h), n)
  {
    var (was, next) := (RecordBytes(c, g), RecordBytes(d, h));
    RecordIsValid(c, g);
    forall i | 0 <= i < n && !(8 <= i < 12) ensures was[i] == next[i] { HeaderFixed(c, g, d, h, i); }
    GenerationCutRejected(was, next, n);
  }

  lemma SameBodySameRecord(a: seq<u8>, b: seq<u8>)
    requires Valid(a) && Valid(b) && a[..BODY] == b[..BODY]
    ensures a == b
  {
    assert At32(a, BODY) == At32(b, BODY);
    SameWord(a, b, BODY);
    forall i | 0 <= i < RECORD ensures a[i] == b[i] {
      if i < BODY { assert a[i] == a[..BODY][i] && b[i] == b[..BODY][i]; }
    }
  }

  /** A cut once the whole body is in place is always rejected, whatever was there:
      only the new record's own CRC fits the new body. */
  lemma TrailerCutRejected(was: seq<u8>, d: Config, h: u32, n: nat)
    requires |was| == RECORD && BODY <= n <= RECORD
    ensures TornRejected(was, RecordBytes(d, h), n)
  {
    hide RecordBytes, Peek;
    RecordIsValid(d, h);
    var next := RecordBytes(d, h);
    var b := Torn(was, next, n);
    if Valid(b) {
      assert b[..BODY] == next[..BODY];
      SameBodySameRecord(b, next);
    }
  }

  lemma SamePayload(c: Config, g: u32, h: u32, i: nat)
    requires HEADER <= i < BODY
    ensures RecordBytes(c, g)[i] == RecordBytes(c, h)[i]
  {
    assert RecordBytes(c, g)[i] == PayloadBytes(c)[i - HEADER];
    assert RecordBytes(c, h)[i] == PayloadBytes(c)[i - HEADER];
  }

  /** Saving one config again under a new generation can be cut anywhere. */
  lemma ResaveCutRejected(c: Config, g: u32, h: u32, n: nat)
    requires n <= RECORD
    ensures TornRejected(RecordBytes(c, g), RecordBytes(c, h), n)
  {
    var (was, next) := (RecordBytes(c, g), RecordBytes(c, h));
    if n >= BODY {
      TrailerCutRejected(was, c, h, n);
    } else {
      RecordIsValid(c, g);
      forall i | 0 <= i < n && !(8 <= i < 12) ensures was[i] == next[i] {
        if i < HEADER { HeaderFixed(c, g, c, h, i); } else { SamePayload(c, g, h, i); }
      }
      GenerationCutRejected(was, next, n);
    }
  }
}
