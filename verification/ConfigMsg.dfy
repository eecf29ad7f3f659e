/** The line protocol of control/Src/config_msg.c: assembling lines from the byte stream,
    and the config transaction. What a document means, which configs are valid and whether
    a save succeeds are parameters here. */
module ConfigMsg {
  import opened Words
  import opened ConfigCodec
  import JsonGrammar

  const LINE_MAX: nat := 3072

  // ---- lines -----------------------------------------------------------------------------------------

  /** What was held of the unfinished line; nothing once it has grown too long. */
  datatype Partial = Partial(text: string, overflow: bool)

  datatype Event = Whole(line: string) | TooLong

  const FRESH: Partial := Partial("", false)

  function Fed1(a: Partial, c: char): Partial
  {
    if c == '\n' then FRESH
    else if a.overflow then a
    else if |a.text| >= LINE_MAX then Partial("", true)
    else Partial(a.text + [c], false)
  }

  function Events1(a: Partial, c: char): seq<Event>
  {
    if c != '\n' then [] else if a.overflow then [TooLong] else [Whole(a.text)]
  }

  function Fed(a: Partial, s: string): Partial
    decreases |s|
  {
    if s == "" then a else Fed(Fed1(a, s[0]), s[1..])
  }

  function EventsOf(a: Partial, s: string): seq<Event>
    decreases |s|
  {
    if s == "" then [] else Events1(a, s[0]) + EventsOf(Fed1(a, s[0]), s[1..])
  }

  /** Where the stream is cut makes no difference. */
  lemma {:induction false} CutAnywhere(a: Partial, s: string, t: string)
    ensures Fed(a, s + t) == Fed(Fed(a, s), t)
    ensures EventsOf(a, s + t) == EventsOf(a, s) + EventsOf(Fed(a, s), t)
    decreases |s|
  {
    if s == "" {
      assert s + t == t;
    } else {
      assert (s + t)[1..] == s[1..] + t;
      CutAnywhere(Fed1(a, s[0]), s[1..], t);
    }
  }

  /** The complete lines of a text that starts in the middle of the line `head`. */
  function Lines(head: string, s: string): seq<string>
    decreases |s|
  {
    if s == "" then [] else if s[0] == '\n' then [head] + Lines("", s[1..]) else Lines(head + [s[0]], s[1..])
  }

  /** The unfinished line at its end. */
  function Tail(head: string, s: string): string
    decreases |s|
  {
    if s == "" then head else if s[0] == '\n' then Tail("", s[1..]) else Tail(head + [s[0]], s[1..])
  }

  function Judged(line: string): Event { if |line| <= 3072 then Whole(line) else TooLong }

  function JudgedAll(lines: seq<string>): (es: seq<Event>)
    ensures |es| == |lines|
  {
    seq(|lines|, k requires 0 <= k < |lines| => Judged(lines[k]))
  }

  function Held(line: string): Partial { if |line| <= 3072 then Partial(line, false) else Partial("", true) }

  /** Every line up to 3072 bytes is dispatched whole and in order, and each longer one is
      answered exactly once. */
  lemma {:induction false} LinesJudged(head: string, s: string)
    ensures EventsOf(Held(head), s) == JudgedAll(Lines(head, s)) && Fed(Held(head), s) == Held(Tail(head, s))
    decreases |s|
  {
    if s != "" {
      if s[0] == '\n' {
        LinesJudged("", s[1..]);
        assert JudgedAll([head] + Lines("", s[1..])) == [Judged(head)] + JudgedAll(Lines("", s[1..]));
      } else {
        LinesJudged(head + [s[0]], s[1..]);
      }
    }
  }

  // ---- the config transaction ------------------------------------------------------------------------

  datatype Parsed = Document(config: Config) | NoDocument(code: string)

  /** What the line handler relies on: the document mapper, the validator and the store,
      which succeeds or not at each attempt; and whether a telemetry hook is set. */
  datatype Host = Host(
    typeOf: string -> Option<string>, parse: (string, Config) -> Parsed, valid: Config -> bool,
    save: nat -> Option<u32>, telem: bool)

  datatype Reply = Info(kind: string) | Stored(generation: u32) | Refused(code: string)

  /** The config the regulator runs, how often a save was tried, and which configs were
      saved so far. */
  datatype Node = Node(live: Config, attempts: nat, stored: seq<Config>)

  predicate IsBlank(c: char) { c == ' ' || c == '\t' || c == '\r' }

  function TrimEnd(s: string): string
  {
    if s != "" && (s[|s| - 1] == '\r' || s[|s| - 1] == '\n') then TrimEnd(s[..|s| - 1]) else s
  }

  function TrimStart(s: string): string { if s != "" && IsBlank(s[0]) then TrimStart(s[1..]) else s }

  function Trimmed(s: string): string { TrimStart(TrimEnd(s)) }

  function WellFormed(s: string): bool { JsonGrammar.Validate(s).Ok? }

  /** cfg-set: a copy is changed, checked and saved; only then is it adopted. */
  function Set(h: Host, n: Node, line: string): (Node, Reply)
  {
    match h.parse(line, n.live)
    case NoDocument(code) => (n, Refused(code))
    case Document(c) =>
      if !h.valid(c) then (n, Refused("validator"))
      else
        match h.save(n.attempts)
        case None => (n.(attempts := n.attempts + 1), Refused("CFG_ERR_STORE"))
        case Some(g) => (Node(c, n.attempts + 1, n.stored + [c]), Stored(g))
  }

  /** cfg_msg_line. A blank line has no reply. */
  function Handle(h: Host, n: Node, text: string): (Node, seq<Reply>)
  {
    var line := Trimmed(text);
    if line == "" then (n, [])
    else if !WellFormed(line) then (n, [Refused("CFG_ERR_JSON")])
    else
      match h.typeOf(line)
      case None => (n, [Refused("CFG_ERR_MSG")])
      case Some(t) =>
        if t == "hello" || t == "cfg-get" || (t == "telem-get" && h.telem) then (n, [Info(t)])
        else if t == "cfg-set" then
          var (m, r) := Set(h, n, line);
          (m, [r])
        else (n, [Refused("CFG_ERR_MSG")])
  }

  function React(h: Host, n: Node, e: Event): (Node, seq<Reply>)
  {
    match e
    case Whole(line) => Handle(h, n, line)
    case TooLong => (n, [Refused("CFG_ERR_JSON")])
  }

  function Served(h: Host, n: Node, es: seq<Event>): (Node, seq<Reply>)
    decreases |es|
  {
    if es == [] then (n, [])
    else
      var (m, r) := React(h, n, es[0]);
      var (k, rs) := Served(h, m, es[1..]);
      (k, r + rs)
  }

  lemma {:induction false} ServedInTurn(h: Host, n: Node, a: seq<Event>, b: seq<Event>)
    ensures var (m, r) := Served(h, n, a);
            Served(h, n, a + b) == (Served(h, m, b).0, r + Served(h, m, b).1)
    decreases |a|
  {
    hide React;
    if a == [] {
      assert a + b == b;
      assert [] + Served(h, n, b).1 == Served(h, n, b).1;
    } else {
      assert (a + b)[1..] == a[1..] + b && (a + b)[0] == a[0];
      var (m, r) := React(h, n, a[0]);
      var (k, q) := Served(h, m, a[1..]);
      assert r + (q + Served(h, k, b).1) == (r + q) + Served(h, k, b).1;
      ServedInTurn(h, React(h, n, a[0]).0, a[1..], b);
    }
  }

  /** The protocol state: the line under assembly and the node it serves. */
  class Protocol {
    const host: Host
    const line: array<char>
    var len: nat
    var overflow: bool
    var node: Node
    /** What was sent back so far. */
    var sent: seq<Reply>

    ghost predicate Valid()
      reads this
    {
      line.Length == LINE_MAX && len <= LINE_MAX && (overflow ==> len == 0)
    }

    ghost function View(): Partial
      requires Valid()
      reads this, line
    {
      Partial(line[..len], overflow)
    }

    constructor (host: Host, boot: Config)
      ensures Valid() && View() == FRESH && this.host == host && node == Node(boot, 0, []) && sent == []
      ensures fresh(line)
    {
      this.host, len, overflow, node, sent := host, 0, false, Node(boot, 0, []), [];
      line := new char[LINE_MAX];
    }

    method Answer(e: Event)
      modifies this`node, this`sent
      ensures node == React(host, old(node), e).0 && sent == old(sent) + React(host, old(node), e).1
    {
      var (n, r) := React(host, node, e);
      node, sent := n, sent + r;
    }

    method RxByte(c: char)
      requires Valid()
      modifies this, line
      ensures Valid() && View() == Fed1(old(View()), c)
      ensures var (n, r) := Served(host, old(node), Events1(old(View()), c)); node == n && sent == old(sent) + r
    {
      hide React;
      OneServed(host, node, Whole(line[..len]));
      OneServed(host, node, TooLong);
      if c == '\n' {
        if overflow { Answer(TooLong); } else { Answer(Whole(line[..len])); }
        overflow := false;
        len := 0;
        return;
      }
      assert sent == sent + [];
      if overflow { return; }
      if len >= LINE_MAX {
        overflow := true;
        len := 0;
        return;
      }
      line[len] := c;
      len := len + 1;
    }

    /** cfg_msg_rx. */
    method Rx(data: string)
      requires Valid()
      modifies this, line
      ensures Valid() && View() == Fed(old(View()), data)
      ensures var (n, r) := Served(host, old(node), EventsOf(old(View()), data)); node == n && sent == old(sent) + r
    {
      hide Fed1, Events1, React;
      ghost var a := View();
      var i := 0;
      assert data[..0] == "" && sent + [] == sent;
      while i < |data|
        invariant 0 <= i <= |data| && Valid() && View() == Fed(a, data[..i])
        invariant var (n, r) := Served(host, old(node), EventsOf(a, data[..i])); node == n && sent == old(sent) + r
      {
        StepServed(host, old(node), a, data, i);
        RxByte(data[i]);
        i := i + 1;
      }
      assert data[..i] == data;
    }
  }

  lemma OneServed(h: Host, n: Node, e: Event)
    ensures Served(h, n, [e]) == React(h, n, e)
  {
    hide React;
    var (m, r) := React(h, n, e);
    assert Served(h, m, [e][1..]) == (m, []) && r + [] == r;
  }

  lemma StepServed(h: Host, n: Node, a: Partial, data: string, i: nat)
    requires i < |data|
    ensures Fed(a, data[..i + 1]) == Fed1(Fed(a, data[..i]), data[i])
    ensures var (m, r) := Served(h, n, EventsOf(a, data[..i]));
            var (k, q) := Served(h, m, Events1(Fed(a, data[..i]), data[i]));
            Served(h, n, EventsOf(a, data[..i + 1])) == (k, r + q)
  {
    hide Fed1, Events1, React;
    var c := [data[i]];
    assert data[..i + 1] == data[..i] + c;
    CutAnywhere(a, data[..i], c);
    OneCharFed(Fed(a, data[..i]), data[i]);
    ServedInTurn(h, n, EventsOf(a, data[..i]), EventsOf(Fed(a, data[..i]), c));
  }

  lemma OneCharFed(a: Partial, c: char)
    ensures Fed(a, [c]) == Fed1(a, c) && EventsOf(a, [c]) == Events1(a, c)
  {
    hide Fed1, Events1;
    assert [c][1..] == "";
  }

  // ---- whole sessions --------------------------------------------------------------------------------

  function Joined(chunks: seq<string>): string { if chunks == [] then "" else chunks[0] + Joined(chunks[1..]) }

  /** Chunk after chunk, as successive receive calls do it. */
  function Session(h: Host, a: Partial, n: Node, chunks: seq<string>): (Partial, Node, seq<Reply>)
    decreases |chunks|
  {
    if chunks == [] then (a, n, [])
    else
      var (m, r) := Served(h, n, EventsOf(a, chunks[0]));
      var (b, k, rs) := Session(h, Fed(a, chunks[0]), m, chunks[1..]);
      (b, k, r + rs)
  }

  lemma {:induction false} SessionIsOneCall(h: Host, a: Partial, n: Node, chunks: seq<string>)
    ensures var (m, r) := Served(h, n, EventsOf(a, Joined(chunks)));
            Session(h, a, n, chunks) == (Fed(a, Joined(chunks)), m, r)
    decreases |chunks|
  {
    hide React;
    if chunks != [] {
      var (m, r) := Served(h, n, EventsOf(a, chunks[0]));
      CutAnywhere(a, chunks[0], Joined(chunks[1..]));
      ServedInTurn(h, n, EventsOf(a, chunks[0]), EventsOf(Fed(a, chunks[0]), Joined(chunks[1..])));
      SessionIsOneCall(h, Fed(a, chunks[0]), m, chunks[1..]);
    }
  }

  /** For every byte stream, however it is cut into receive calls: the replies and the
      config that ends up running are those of its lines, judged one by one. */
  lemma RepliesFollowLines(h: Host, n: Node, chunks: seq<string>)
    ensures var (m, r) := Served(h, n, JudgedAll(Lines("", Joined(chunks))));
            Session(h, FRESH, n, chunks) == (Held(Tail("", Joined(chunks))), m, r)
  {
    SessionIsOneCall(h, FRESH, n, chunks);
    LinesJudged("", Joined(chunks));
  }

  /** The running config is the last one stored, or still the one from boot; only valid
      configs are ever stored. */
  ghost predicate Sound(h: Host, boot: Config, n: Node)
  {
    && (forall k :: 0 <= k < |n.stored| ==> h.valid(n.stored[k]))
    && n.live == if n.stored == [] then boot else n.stored[|n.stored| - 1]
  }

  lemma ReactionIsSound(h: Host, boot: Config, n: Node, e: Event)
    requires Sound(h, boot, n)
    ensures Sound(h, boot, React(h, n, e).0) && n.stored <= React(h, n, e).0.stored
  {
    hide WellFormed, Trimmed;
  }

  lemma {:induction false} ServedStaysSound(h: Host, boot: Config, n: Node, es: seq<Event>)
    requires Sound(h, boot, n)
    ensures Sound(h, boot, Served(h, n, es).0) && n.stored <= Served(h, n, es).0.stored
    decreases |es|
  {
    if es != [] {
      hide React, Sound;
      ReactionIsSound(h, boot, n, es[0]);
      ServedStaysSound(h, boot, React(h, n, es[0]).0, es[1..]);
    }
  }

  /** In every session the running config is either the boot config or one that passed the
      validator and was saved. */
  lemma LiveConfigIsSound(h: Host, boot: Config, chunks: seq<string>)
    ensures var n := Session(h, FRESH, Node(boot, 0, []), chunks).1;
            Sound(h, boot, n) && (n.live == boot || h.valid(n.live))
  {
    hide Served;
    RepliesFollowLines(h, Node(boot, 0, []), chunks);
    ServedStaysSound(h, boot, Node(boot, 0, []), JudgedAll(Lines("", Joined(chunks))));
  }

  /** A line is answered at most once, a blank one not at all; the running config changes
      only with a reply that says so. Without a telemetry hook a request for telemetry is
      an unknown message. */
  lemma OneReplyPerLine(h: Host, n: Node, text: string)
    ensures Trimmed(text) != "" && WellFormed(Trimmed(text)) && h.typeOf(Trimmed(text)) == Some("telem-get") ==>
              Handle(h, n, text) == (n, [if h.telem then Info("telem-get") else Refused("CFG_ERR_MSG")])
    ensures var (m, r) := Handle(h, n, text);
            && (if Trimmed(text) == "" then r == [] else |r| == 1)
            && (m.stored != n.stored <==> r != [] && r[0].Stored?) && (m.live != n.live ==> r[0].Stored?)
  {
    hide WellFormed, Trimmed;
  }

  // ---- which lines are blank, and what reaches the store -------------------------------------------------

  predicate Blanks(s: string) { forall i :: 0 <= i < |s| ==> s[i] in {' ', '\t', '\r'} }

  predicate Ends(s: string) { forall i :: 0 <= i < |s| ==> s[i] in {'\r', '\n'} }

  /** Blanks, tabs and carriage returns, and any line ends after them. */
  ghost predicate BlankLine(s: string) { exists a, b :: s == a + b && Blanks(a) && Ends(b) }

  lemma {:induction false} EndIs(s: string)
    ensures var t := TrimEnd(s);
            && |t| <= |s| && t == s[..|t|] && Ends(s[|t|..]) && (t != "" ==> t[|t| - 1] !in {'\r', '\n'})
  {
    if s != "" && (s[|s| - 1] == '\r' || s[|s| - 1] == '\n') {
      var r := s[..|s| - 1];
      EndIs(r);
      assert s[|TrimEnd(r)|..] == r[|TrimEnd(r)|..] + [s[|s| - 1]];
    }
  }

  lemma {:induction false} StartIs(s: string)
    ensures TrimStart(s) == "" <==> Blanks(s)
  {
    if s != "" && IsBlank(s[0]) {
      StartIs(s[1..]);
      assert s == [s[0]] + s[1..];
    }
  }

  /** A line is ignored exactly if it is blank. */
  lemma BlankIsIgnored(s: string)
    ensures Trimmed(s) == "" <==> BlankLine(s)
  {
    EndIs(s);
    var t := TrimEnd(s);
    StartIs(t);
    assert s == t + s[|t|..];
    if BlankLine(s) {
      var a, b :| s == a + b && Blanks(a) && Ends(b);
      assert forall k :: |a| <= k < |s| ==> s[k] == b[k - |a|];
      assert |t| <= |a|;
      assert Blanks(t) by { assert forall i :: 0 <= i < |t| ==> t[i] == a[i]; }
    }
  }

  /** A save is tried once for a message that asks for a config the validator accepts, and for
      nothing else; its outcome decides everything. */
  lemma SaveLaw(h: Host, n: Node, text: string)
    ensures var (line, m, r) := (Trimmed(text), Handle(h, n, text).0, Handle(h, n, text).1);
            if line != "" && WellFormed(line) && h.typeOf(line) == Some("cfg-set")
               && h.parse(line, n.live).Document? && h.valid(h.parse(line, n.live).config) then
              var c := h.parse(line, n.live).config;
              && m.attempts == n.attempts + 1
              && match h.save(n.attempts)
                 case Some(g) => r == [Stored(g)] && m.live == c && m.stored == n.stored + [c]
                 case None => r == [Refused("CFG_ERR_STORE")] && m.live == n.live && m.stored == n.stored
            else m == n && (forall g :: Stored(g) !in r)
  {
    hide WellFormed, Trimmed;
  }

  /** The order in which a message is judged. */
  lemma RefusalLaw(h: Host, n: Node, text: string)
    requires Trimmed(text) != ""
    ensures var (line, r) := (Trimmed(text), Handle(h, n, text).1);
            && (!WellFormed(line) ==> r == [Refused("CFG_ERR_JSON")])
            && (WellFormed(line) ==>
                  match h.typeOf(line)
                  case None => r == [Refused("CFG_ERR_MSG")]
                  case Some(t) =>
                    && (t in {"hello", "cfg-get"} ==> r == [Info(t)])
                    && (t !in {"hello", "cfg-get", "cfg-set", "telem-get"} ==> r == [Refused("CFG_ERR_MSG")])
                    && (t == "cfg-set" && h.parse(line, n.live).NoDocument? ==> r == [Refused(h.parse(line, n.live).code)])
                    && (t == "cfg-set" && h.parse(line, n.live).Document? && !h.valid(h.parse(line, n.live).config) ==>
                          r == [Refused("validator")]))
  {
    hide WellFormed, Trimmed;
  }

  /** A line of more than 3072 characters is malformed whatever it says, every other one is judged by
      what it says. */
  lemma LongLineLaw(h: Host, n: Node, line: string)
    ensures EventsOf(FRESH, line + "\n") == [Judged(line)] || '\n' in line
    ensures Served(h, n, [Judged(line)]) == if |line| > 3072 then (n, [Refused("CFG_ERR_JSON")]) else Handle(h, n, line)
  {
    OneServed(h, n, Judged(line));
    if '\n' !in line {
      LinesJudged("", line + "\n");
      OneLine("", line);
      assert "" + line == line;
      assert JudgedAll([line]) == [Judged(line)];
    }
  }

  lemma {:induction false} OneLine(head: string, line: string)
    requires '\n' !in line
    ensures Lines(head, line + "\n") == [head + line]
    decreases |line|
  {
    var s := line + "\n";
    if line == "" {
      assert s == "\n" && s[1..] == "" && head + "" == head;
    } else {
      assert s[1..] == line[1..] + "\n" && s[0] == line[0];
      OneLine(head + [line[0]], line[1..]);
      assert head + [line[0]] + line[1..] == head + line;
    }
  }
}
