/** The cursor of control/Src/config_json.c over a text, proved to follow the parser. */
module JsonReader {
  import opened Words
  import opened JsonNumber
  import opened JsonGrammar
  import JsonAccepts

  // ---- what a string body decodes to ---------------------------------------------------------

  function HexVal(c: char): (v: nat)
    requires IsHex(c)
    ensures v < 16
  {
    if '0' <= c <= '9' then (c - '0') as nat else if 'a' <= c <= 'f' then (c - 'a') as nat + 10 else (c - 'A') as nat + 10
  }

  function CodePoint(b: string, i: nat): (cp: nat)
    requires i + 4 <= |b| && Hex4(b, i)
    ensures cp < 0x1_0000
  {
    ((HexVal(b[i]) * 16 + HexVal(b[i + 1])) * 16 + HexVal(b[i + 2])) * 16 + HexVal(b[i + 3])
  }

  /** A code point of the basic plane as UTF-8 bytes, surrogates included. */
  function Utf8(cp: nat): string
    requires cp < 0x1_0000
  {
    if cp < 0x80 then [cp as char]
    else if cp < 0x800 then [(0xC0 + cp / 64) as char, (0x80 + cp % 64) as char]
    else [(0xE0 + cp / 4096) as char, (0x80 + cp / 64 % 64) as char, (0x80 + cp % 64) as char]
  }

  function Decoded(e: char): char
    requires IsEscape(e)
  {
    match e
    case 'b' => 8 as char
    case 'f' => 12 as char
    case 'n' => '\n'
    case 'r' => '\r'
    case 't' => '\t'
    case _ => e
  }

  /** The bytes a string body stands for. */
  function Unescape(b: string): string
    requires LegalBody(b)
  {
    if b == "" then ""
    else if b[0] != '\\' then [b[0]] + Unescape(b[1..])
    else if IsEscape(b[1]) then [Decoded(b[1])] + Unescape(b[2..])
    else Utf8(CodePoint(b, 2)) + Unescape(b[6..])
  }

  /** What of `d` a buffer of `cap` bytes with a terminator holds. */
  function Held(d: string, cap: int): string
  {
    if cap <= 0 then "" else if |d| < cap then d else d[..cap - 1]
  }

  predicate Overlong(d: string, cap: int) { 0 < cap <= |d| }

  // ---- the cursor ------------------------------------------------------------------------------

  datatype Fault = Fine | Broke(error: Error)

  datatype Kind = KNone | KObj | KArr | KStr | KNum | KBool | KNull

  /** What the first character of a value says about it. */
  function KindOf(c: char): Kind
  {
    match c
    case '{' => KObj
    case '[' => KArr
    case '\"' => KStr
    case '-' => KNum
    case 't' => KBool
    case 'f' => KBool
    case 'n' => KNull
    case _ => if IsDigit(c) then KNum else KNone
  }

  class Cursor {
    const s: string
    var pos: nat
    var depth: nat
    var seen: set<nat>
    var err: Fault

    ghost predicate Valid()
      reads this
    {
      pos <= |s| && depth <= DEPTH_MAX
    }

    /** Everything a level above `d` remembers is as it was. */
    twostate predicate KeepsBelow(d: nat)
      reads this
    {
      forall l :: 0 <= l < d ==> (l in seen <==> l in old(seen))
    }

    constructor (text: string)
      ensures Valid() && s == text && pos == 0 && depth == 0 && seen == {} && err == Fine
    {
      s, pos, depth, seen, err := text, 0, 0, {}, Fine;
    }

    method Fail(e: Error) returns (ok: bool)
      modifies this`err
      ensures !ok && err == if old(err).Fine? then Broke(e) else old(err)
    {
      if err.Fine? { err := Broke(e); }
      ok := false;
    }

    method SkipWs()
      requires Valid()
      modifies this`pos
      ensures pos == Ws(s, old(pos))
    {
      while pos < |s| && IsWs(s[pos])
        invariant old(pos) <= pos <= |s| && Ws(s, pos) == Ws(s, old(pos))
      {
        pos := pos + 1;
      }
    }

    method Peek() returns (k: Kind)
      requires Valid()
      modifies this`pos
      ensures err.Broke? ==> k == KNone && pos == old(pos)
      ensures err.Fine? ==> pos == Ws(s, old(pos))
      ensures err.Fine? && pos < |s| ==>
                k == KindOf(s[pos])
      ensures err.Fine? && pos >= |s| ==> k == KNone
    {
      if err.Broke? { return KNone; }
      SkipWs();
      if pos >= |s| { return KNone; }
      var c := s[pos];
      if c == '{' { return KObj; }
      if c == '[' { return KArr; }
      if c == '\"' { return KStr; }
      if c == '-' || IsDigit(c) { return KNum; }
      if c == 't' || c == 'f' { return KBool; }
      if c == 'n' { return KNull; }
      k := KNone;
    }

    method ContainerBegin(open: char) returns (ok: bool)
      requires Valid()
      modifies this
      ensures Valid()
      ensures old(err).Broke? ==> !ok && pos == old(pos) && depth == old(depth) && seen == old(seen) && err == old(err)
      ensures old(err).Fine? ==>
                var p := Ws(s, old(pos));
                if p >= |s| then !ok && err == Broke(Truncated)
                else if s[p] != open then !ok && err == Broke(Syntax)
                else if old(depth) >= DEPTH_MAX then !ok && err == Broke(Depth)
                else ok && err == Fine && pos == p + 1 && depth == old(depth) + 1 && seen == old(seen) - {old(depth)}
      ensures !ok ==> depth == old(depth) && seen == old(seen)
    {
      if err.Broke? { return false; }
      SkipWs();
      if pos >= |s| { ok := Fail(Truncated); return; }
      if s[pos] != open { ok := Fail(Syntax); return; }
      if depth >= DEPTH_MAX { ok := Fail(Depth); return; }
      pos := pos + 1;
      depth := depth + 1;
      seen := seen - {depth - 1};
      ok := true;
    }

    /** One move inside a container: an item follows, it closed, or an error. */
    method ContainerStep(close: char) returns (r: int)
      requires Valid()
      modifies this
      ensures Valid()
      ensures old(err).Broke? ==> r == -1 && pos == old(pos) && depth == old(depth) && seen == old(seen) && err == old(err)
      ensures old(err).Fine? && old(depth) == 0 ==> r == -1 && err == Broke(Syntax)
      ensures old(err).Fine? && old(depth) > 0 ==>
                match StepIn(s, old(pos), old(depth) - 1 !in old(seen), close)
                case Broken(e) => r == -1 && err == Broke(e) && depth == old(depth)
                case Closed(n) => r == 0 && err == Fine && pos == n && depth == old(depth) - 1 && seen == old(seen)
                case NextAt(start, _, _) =>
                  r == 1 && err == Fine && pos == start && depth == old(depth) && seen == old(seen) + {depth - 1}
    {
      if err.Broke? { return -1; }
      r := -1;
      if depth == 0 {
        var f := Fail(Syntax);
        return;
      }
      SkipWs();
      if pos >= |s| {
        var f := Fail(Truncated);
        return;
      }
      if s[pos] == close {
        pos := pos + 1;
        depth := depth - 1;
        return 0;
      }
      if depth - 1 in seen {
        if s[pos] != ',' {
          var f := Fail(Syntax);
          return;
        }
        pos := pos + 1;
        SkipWs();
        if pos >= |s| {
          var f := Fail(Truncated);
          return;
        }
        if s[pos] == close {
          var f := Fail(Syntax);
          return;
        }
      }
      seen := seen + {depth - 1};
      r := 1;
    }

    /** cfg_json_str into a buffer of `cap` bytes; no buffer is `cap` 0. */
    method Str(cap: int) returns (ok: bool, out: string, truncated: bool)
      requires Valid()
      modifies this`pos, this`err
      ensures Valid()
      ensures old(err).Broke? ==> !ok && pos == old(pos) && err == old(err)
      ensures old(err).Fine? ==>
                var p := Ws(s, old(pos));
                if p >= |s| then !ok && err == Broke(Truncated)
                else if s[p] != '\"' then !ok && err == Broke(Syntax)
                else
                  match ParseBody(s, p + 1)
                  case Err(e) => !ok && err == Broke(e)
                  case Ok(b, next) =>
                    && ok && err == Fine && pos == next && LegalBody(b)
                    && out == Held(Unescape(b), cap) && truncated == Overlong(Unescape(b), cap)
    {
      hide LegalBody, Held, Overlong, ParseBody, Utf8, CodePoint, Decoded, Reading;
      ok, out, truncated := false, "", false;
      if err.Broke? { return; }
      SkipWs();
      if pos >= |s| { ok := Fail(Truncated); return; }
      if s[pos] != '\"' { ok := Fail(Syntax); return; }
      pos := pos + 1;
      ghost var start := pos;
      ghost var done := "";
      ReadingStarts(s, start);
      HeldNothing(cap);
      while true
        invariant pos <= |s| && err == Fine
        invariant Reading(s, start, pos, done)
        invariant out == Held(done, cap) && truncated == Overlong(done, cap)
        decreases |s| - pos
      {
        ReadingMoves(s, start, pos, done);
        if pos >= |s| { ok := Fail(Truncated); return; }
        var c := s[pos];
        pos := pos + 1;
        if c == '\"' { break; }
        var piece: string;
        if c == '\\' {
          if pos >= |s| { ok := Fail(Truncated); return; }
          var e := s[pos];
          pos := pos + 1;
          if IsEscape(e) {
            piece := [Decoded(e)];
          } else if e == 'u' {
            if |s| - pos < 4 { ok := Fail(Truncated); return; }
            if !Hex4(s, pos) { ok := Fail(Syntax); return; }
            piece := Utf8(CodePoint(s, pos));
            pos := pos + 4;
          } else {
            ok := Fail(Syntax);
            return;
          }
        } else {
          if c < ' ' { ok := Fail(Syntax); return; }
          piece := [c];
        }
        out, truncated := PutAll(out, truncated, done, piece, cap);
        done := done + piece;
      }
      ok := true;
    }

    method ObjKey(cap: int) returns (ok: bool, key: string, truncated: bool)
      requires Valid()
      modifies this
      ensures Valid()
      ensures old(err).Broke? ==> !ok && pos == old(pos) && depth == old(depth) && seen == old(seen) && err == old(err)
      ensures old(err).Fine? && old(depth) == 0 ==> !ok && err == Broke(Syntax)
      ensures old(err).Fine? && old(depth) > 0 ==>
                match StepIn(s, old(pos), old(depth) - 1 !in old(seen), '}')
                case Broken(e) => !ok && err == Broke(e)
                case Closed(n) => !ok && err == Fine && pos == n && depth == old(depth) - 1 && seen == old(seen)
                case NextAt(start, _, _) =>
                  match ParseLabel(s, start, true)
                  case Err(e) => !ok && err == Broke(e)
                  case Ok(l, next) =>
                    && ok && err == Fine && old(pos) < pos && Ws(s, pos) == next && depth == old(depth)
                    && seen == old(seen) + {depth - 1} && LegalBody(l.body)
                    && key == Held(Unescape(l.body), cap) && truncated == Overlong(Unescape(l.body), cap)
    {
      hide ParseBody, LegalBody, Held, Overlong, StepIn, Unescape;
      ok, key, truncated := false, "", false;
      var r := ContainerStep('}');
      if r != 1 { return; }
      ghost var start := pos;
      ok, key, truncated := Str(cap);
      if !ok { return; }
      ok := false;
      SkipWs();
      if pos >= |s| { ok := Fail(Truncated); return; }
      if s[pos] != ':' { ok := Fail(Syntax); return; }
      pos := pos + 1;
      ok := true;
    }

    method ArrNext() returns (ok: bool)
      requires Valid()
      modifies this
      ensures Valid()
      ensures old(err).Broke? ==> !ok && pos == old(pos) && depth == old(depth) && seen == old(seen) && err == old(err)
      ensures old(err).Fine? && old(depth) == 0 ==> !ok && err == Broke(Syntax)
      ensures old(err).Fine? && old(depth) > 0 ==>
                match StepIn(s, old(pos), old(depth) - 1 !in old(seen), ']')
                case Broken(e) => !ok && err == Broke(e)
                case Closed(n) => !ok && err == Fine && pos == n && depth == old(depth) - 1 && seen == old(seen)
                case NextAt(start, _, _) =>
                  ok && err == Fine && pos == start && depth == old(depth) && seen == old(seen) + {depth - 1}
    {
      var r := ContainerStep(']');
      ok := r == 1;
    }

    method Number() returns (ok: bool, neg: bool, mag: Magnitude)
      requires Valid()
      modifies this`pos, this`err
      ensures Valid()
      ensures old(err).Broke? ==> !ok && pos == old(pos) && err == old(err)
      ensures old(err).Fine? ==>
                var p := Ws(s, old(pos));
                if p >= |s| then !ok && err == Broke(Truncated)
                else
                  match ParseNum(s, p)
                  case Err(e) => !ok && err == Broke(e)
                  case Ok(v, next) => ok && err == Fine && pos == next && Scan(v.text) == JsonNumber.Number(|v.text|, neg, mag)
    {
      hide Scan;
      ok, neg, mag := false, false, Zero;
      if err.Broke? { return; }
      SkipWs();
      if pos >= |s| { ok := Fail(Truncated); return; }
      var probe := 0;
      while probe < |s| - pos && probe <= NUM_CHARS_MAX && IsNumChar(s[pos + probe])
        invariant 0 <= probe <= |s| - pos && probe <= NUM_CHARS_MAX + 1 && NumRun(s, pos) == NumRun(s, pos + probe)
      {
        probe := probe + 1;
      }
      if probe > NUM_CHARS_MAX { ok := Fail(TooLong); return; }
      assert NumRun(s, pos) == pos + probe;
      var n := ScanNum(s[pos..pos + probe]);
      if n.NoNumber? || n.consumed <= 0 { ok := Fail(Syntax); return; }
      if n.consumed != probe { ok := Fail(Syntax); return; }
      pos := pos + n.consumed;
      ok, neg, mag := true, n.neg, n.mag;
    }

    method Literal(word: string) returns (ok: bool)
      requires Valid() && err.Fine? && |word| > 0
      modifies this`pos, this`err
      ensures Valid()
      ensures match ParseWord(s, old(pos), word)
              case Err(e) => !ok && err == Broke(e)
              case Ok(_, next) => ok && err == Fine && pos == next
    {
      if |s| - pos < |word| { ok := Fail(Truncated); return; }
      if s[pos..pos + |word|] != word { ok := Fail(Syntax); return; }
      pos := pos + |word|;
      ok := true;
    }

    method Boolean() returns (ok: bool, out: bool)
      requires Valid()
      modifies this`pos, this`err
      ensures Valid()
      ensures old(err).Broke? ==> !ok && pos == old(pos) && err == old(err)
      ensures old(err).Fine? ==>
                var p := Ws(s, old(pos));
                if p >= |s| then !ok && err == Broke(Truncated)
                else if s[p] != 't' && s[p] != 'f' then !ok && err == Broke(Syntax)
                else
                  match ParseWord(s, p, if s[p] == 't' then "true" else "false")
                  case Err(e) => !ok && err == Broke(e)
                  case Ok(_, next) => ok && err == Fine && pos == next && out == (s[p] == 't')
    {
      ok, out := false, false;
      if err.Broke? { return; }
      SkipWs();
      if pos >= |s| { ok := Fail(Truncated); return; }
      if s[pos] == 't' {
        ok := Literal("true");
        out := ok;
        return;
      }
      if s[pos] == 'f' { ok := Literal("false"); return; }
      ok := Fail(Syntax);
    }

    method NullValue() returns (ok: bool)
      requires Valid()
      modifies this`pos, this`err
      ensures Valid()
      ensures old(err).Broke? ==> !ok && pos == old(pos) && err == old(err)
      ensures old(err).Fine? ==>
                match ParseWord(s, Ws(s, old(pos)), "null")
                case Err(e) => !ok && err == Broke(e)
                case Ok(_, next) => ok && err == Fine && pos == next
    {
      if err.Broke? { return false; }
      SkipWs();
      ok := Literal("null");
    }

    /** The cursor did what the parser did with a value. */
    twostate predicate Followed(ok: bool)
      reads this
    {
      old(pos) <= |s| &&
      match ParseValue(s, old(pos), old(depth))
      case Err(e) => !ok && err == Broke(e)
      case Ok(_, next) => ok && err == Fine && pos == next && depth == old(depth) && KeepsBelow(depth)
    }

    /** cfg_json_skip: one value, whole containers included. */
    method Skip() returns (ok: bool)
      requires Valid()
      modifies this
      ensures Valid()
      ensures old(err).Broke? ==> !ok && pos == old(pos) && err == old(err)
      ensures old(err).Fine? ==> Followed(ok)
      decreases |s| - pos, 0
    {
      hide ParseItems, ParseBody, ParseNum, ParseWord, LegalBody, Scan, Unescape, Held, Overlong;
      if err.Broke? { return false; }
      var k := Peek();
      match k
      case KObj =>
        ok := ContainerBegin('{');
        if !ok { return; }
        ok := SkipMembers();
      case KArr =>
        ok := ContainerBegin('[');
        if !ok { return; }
        ok := SkipElements();
      case _ =>
        JsonAccepts.LeadingWs(s, old(pos), depth);
        ok := SkipLeaf(k);
    }

    /** A string, number, boolean or null under the cursor, or nothing of the kind. */
    method SkipLeaf(k: Kind) returns (ok: bool)
      requires Valid() && err.Fine? && Ws(s, pos) == pos && !k.KObj? && !k.KArr?
      requires k == if pos < |s| then KindOf(s[pos]) else KNone
      modifies this
      ensures Valid() && Followed(ok)
    {
      hide ParseItems, ParseBody, ParseNum, ParseWord, LegalBody, Scan, Unescape, Held, Overlong;
      if k.KStr? {
        var out, tr;
        ok, out, tr := Str(0);
      } else if k.KNum? {
        var neg, mag;
        ok, neg, mag := Number();
      } else if k.KBool? {
        var b;
        ok, b := Boolean();
      } else if k.KNull? {
        ok := NullValue();
      } else {
        ok := Fail(if pos >= |s| then Truncated else Syntax);
      }
    }

    /** The cursor did what the parser did with the rest of a container. */
    twostate predicate FollowedItems(named: bool, ok: bool)
      requires old(Valid()) && old(depth) > 0
      reads this
    {
      match ItemsOut(s, old(pos), old(depth) - 1 !in old(seen), named, old(depth))
      case Failed(e) => !ok && err == Broke(e)
      case Done(next) => ok && err == Fine && pos == next && depth == old(depth) - 1 && KeepsBelow(depth)
    }

    /** Between two items: the one at the cursor and the rest are still owed. */
    twostate predicate AtItem(named: bool, d: nat, total: Outcome)
      reads this
    {
      pos <= |s| && err == Fine && depth == d > 0 && d - 1 in seen && KeepsBelow(d - 1) && total == RestOut(s, pos, named, d)
    }

    /** After the last item, or an error. */
    twostate predicate PastItems(d: nat, total: Outcome)
      reads this
    {
      match total
      case Failed(e) => err == Broke(e)
      case Done(next) => err == Fine && pos == next && depth == d - 1 && KeepsBelow(depth)
    }

    method SkipMembers() returns (ok: bool)
      requires Valid() && err.Fine? && depth > 0
      modifies this
      ensures Valid() && FollowedItems(true, ok)
      decreases |s| - pos, 1
    {
      hide StepIn, ParseLabel, ParseValue, Held, Overlong, Unescape, ItemsOut, RestOut;
      ghost var d := depth;
      ghost var total := ItemsOut(s, pos, d - 1 !in seen, true, d);
      ItemsMove(s, pos, d - 1 !in seen, true, d);
      var more, key, tr := ObjKey(4);
      if more { RestWs(s, pos, true, d); }
      while more
        invariant Valid() && (if more then old(pos) < pos && AtItem(true, d, total) else PastItems(d, total))
        decreases more, |s| - pos
      {
        RestMove(s, pos, true, d);
        var fine := Skip();
        if !fine { return false; }
        ItemsMove(s, pos, false, true, d);
        more, key, tr := ObjKey(4);
        if more { RestWs(s, pos, true, d); }
      }
      ok := err.Fine?;
    }

    method SkipElements() returns (ok: bool)
      requires Valid() && err.Fine? && depth > 0
      modifies this
      ensures Valid() && FollowedItems(false, ok)
      decreases |s| - pos, 1
    {
      hide StepIn, ParseValue, ItemsOut, RestOut;
      ghost var d := depth;
      ghost var total := ItemsOut(s, pos, d - 1 !in seen, false, d);
      ItemsMove(s, pos, d - 1 !in seen, false, d);
      var more := ArrNext();
      while more
        invariant Valid() && (if more then old(pos) <= pos && AtItem(false, d, total) else PastItems(d, total))
        decreases more, |s| - pos
      {
        RestMove(s, pos, false, d);
        var fine := Skip();
        if !fine { return false; }
        ItemsMove(s, pos, false, false, d);
        more := ArrNext();
      }
      ok := err.Fine?;
    }
  }

  /** cfg_json_validate: the verdict, and where in the grammar it comes from. */
  method ValidateText(text: string) returns (verdict: Fault)
    ensures verdict == match Validate(text) case Err(e) => Broke(e) case Ok(_, _) => Fine
  {
    hide ParseValue;
    var j := new Cursor(text);
    var ok := j.Skip();
    if !ok { return j.err; }
    j.SkipWs();
    if j.pos != |text| { return Broke(Trailing); }
    verdict := Fine;
  }

  // ---- what is left of a container -------------------------------------------------------------

  datatype Outcome = Done(next: nat) | Failed(error: Error)

  function ItemsOut(s: string, i: nat, first: bool, named: bool, depth: nat): Outcome
    requires i <= |s|
  {
    var r := ParseItems(s, i, first, named, depth);
    if r.Err? then Failed(r.error) else Done(r.next)
  }

  /** A value and the items after it. */
  function RestOut(s: string, i: nat, named: bool, depth: nat): Outcome
    requires i <= |s|
  {
    var v := ParseValue(s, i, depth);
    if v.Err? then Failed(v.error) else ItemsOut(s, v.next, false, named, depth)
  }

  lemma ItemsMove(s: string, i: nat, first: bool, named: bool, depth: nat)
    requires i <= |s|
    ensures ItemsOut(s, i, first, named, depth) ==
            match StepIn(s, i, first, Close(named))
            case Broken(e) => Failed(e)
            case Closed(n) => Done(n)
            case NextAt(start, _, _) =>
              match ParseLabel(s, start, named)
              case Err(e) => Failed(e)
              case Ok(_, next) => RestOut(s, next, named, depth)
  {
    hide StepIn, ParseLabel, ParseValue;
  }

  lemma RestMove(s: string, i: nat, named: bool, depth: nat)
    requires i <= |s|
    ensures RestOut(s, i, named, depth) ==
            match ParseValue(s, i, depth)
            case Err(e) => Failed(e)
            case Ok(_, next) => ItemsOut(s, next, false, named, depth)
  {}

  lemma RestWs(s: string, i: nat, named: bool, depth: nat)
    requires i <= |s|
    ensures RestOut(s, i, named, depth) == RestOut(s, Ws(s, i), named, depth)
  {
    JsonAccepts.LeadingWs(s, i, depth);
  }

  /** The reader is at `pos` inside the string that started at `start`, with `done`
      decoded so far. */
  ghost predicate Reading(s: string, start: nat, pos: nat, done: string)
  {
    && start <= pos <= |s|
    && var (r, rest) := (ParseBody(s, start), ParseBody(s, pos));
    match r
    case Err(e) => rest == Err(e)
    case Ok(b, next) =>
      && rest.Ok? && rest.next == next && LegalBody(b) && LegalBody(rest.value)
      && Unescape(b) == done + Unescape(rest.value)
  }

  lemma ReadingStarts(s: string, start: nat)
    requires start <= |s|
    ensures Reading(s, start, start, "")
  {
    if ParseBody(s, start).Ok? { JsonAccepts.BodySound(s, start); }
  }

  lemma HeldNothing(cap: int)
    ensures Held("", cap) == "" && !Overlong("", cap)
  {}

  /** What the reader meets next inside a string. */
  datatype Unit = Cut(error: Error) | Quote | Piece(length: nat, bytes: string)

  function UnitAt(s: string, i: nat): (u: Unit)
    requires i <= |s|
    ensures u.Piece? ==> 0 < u.length && i + u.length <= |s|
  {
    if i >= |s| then Cut(Truncated)
    else if s[i] == '\"' then Quote
    else if s[i] != '\\' then (if s[i] < ' ' then Cut(Syntax) else Piece(1, [s[i]]))
    else if i + 1 >= |s| then Cut(Truncated)
    else if IsEscape(s[i + 1]) then Piece(2, [Decoded(s[i + 1])])
    else if s[i + 1] != 'u' then Cut(Syntax)
    else if |s| - (i + 2) < 4 then Cut(Truncated)
    else if !Hex4(s, i + 2) then Cut(Syntax)
    else Piece(6, Utf8(CodePoint(s, i + 2)))
  }

  lemma UnitParses(s: string, i: nat)
    requires i <= |s|
    ensures var u := UnitAt(s, i);
            ParseBody(s, i) == if u.Cut? then Err(u.error) else if u.Quote? then Ok("", i + 1) else Prefixed(s, i, u.length)
  {
    hide Utf8, CodePoint, Decoded, Prefixed;
  }

  /** Decoding the body from `i` is decoding its first piece, then the rest. */
  lemma UnitDecodes(s: string, i: nat)
    requires i <= |s| && UnitAt(s, i).Piece? && ParseBody(s, i).Ok?
    ensures ParseBody(s, i + UnitAt(s, i).length).Ok?
    ensures LegalBody(ParseBody(s, i).value) && LegalBody(ParseBody(s, i + UnitAt(s, i).length).value)
    ensures Unescape(ParseBody(s, i).value) ==
            UnitAt(s, i).bytes + Unescape(ParseBody(s, i + UnitAt(s, i).length).value)
  {
    hide Utf8, Decoded, ParseBody, LegalBody, HexVal;
    var n := UnitAt(s, i).length;
    var r := ParseBody(s, i);
    var b := r.value;
    UnitParses(s, i);
    JsonAccepts.BodySound(s, i);
    JsonAccepts.BodySound(s, i + n);
    assert b[n..] == s[i + n..r.next - 1];
    assert forall k :: 0 <= k < |b| ==> b[k] == s[i..r.next - 1][k] == s[i + k];
    if n == 2 {
      assert b[1] == s[i + 1];
    } else if n == 6 {
      assert b[1] == s[i + 1] && b[2] == s[i + 2] && b[3] == s[i + 3] && b[4] == s[i + 4] && b[5] == s[i + 5];
      assert CodePoint(s, i + 2) == CodePoint(b, 2);
    }
    hide UnitAt, CodePoint, Hex4, Prefixed;
    UnescapeUnit(b, n);
  }

  /** The pieces of a body, seen from the body alone. */
  lemma UnescapeUnit(b: string, n: nat)
    requires LegalBody(b) && b != ""
    requires n == if b[0] != '\\' then 1 else if IsEscape(b[1]) then 2 else 6
    ensures n <= |b| && LegalBody(b[n..])
    ensures b[0] != '\\' ==> Unescape(b) == [b[0]] + Unescape(b[1..])
    ensures b[0] == '\\' && n == 2 ==> Unescape(b) == [Decoded(b[1])] + Unescape(b[2..])
    ensures b[0] == '\\' && n == 6 ==> Hex4(b, 2) && Unescape(b) == Utf8(CodePoint(b, 2)) + Unescape(b[6..])
  {
    hide Utf8, Decoded, CodePoint;
  }

  lemma ReadingMoves(s: string, start: nat, pos: nat, done: string)
    requires Reading(s, start, pos, done)
    ensures var (u, r) := (UnitAt(s, pos), ParseBody(s, start));
            && (u.Cut? ==> r == Err(u.error))
            && (u.Quote? ==> r.Ok? && r.next == pos + 1 && LegalBody(r.value) && Unescape(r.value) == done)
            && (u.Piece? ==> Reading(s, start, pos + u.length, done + u.bytes))
  {
    hide UnitAt, ParseBody, LegalBody;
    UnitParses(s, pos);
    var u := UnitAt(s, pos);
    if u.Quote? {
      EmptyBody();
    } else if u.Piece? && ParseBody(s, pos).Ok? {
      UnitDecodes(s, pos);
      Append3(done, u.bytes, Unescape(ParseBody(s, pos + u.length).value));
    }
  }

  lemma EmptyBody()
    ensures LegalBody("") && Unescape("") == ""
  {}

  /** str_put: one decoded byte, if there is room for it and the terminator. */
  method Put(out: string, truncated: bool, ghost done: string, c: char, cap: int) returns (o: string, t: bool)
    requires out == Held(done, cap) && truncated == Overlong(done, cap)
    ensures o == Held(done + [c], cap) && t == Overlong(done + [c], cap)
  {
    o, t := out, truncated;
    if cap <= 0 { return; }
    if |out| < cap - 1 { o := out + [c]; } else { t := true; }
  }

  method PutAll(out: string, truncated: bool, ghost done: string, piece: string, cap: int) returns (o: string, t: bool)
    requires out == Held(done, cap) && truncated == Overlong(done, cap)
    ensures o == Held(done + piece, cap) && t == Overlong(done + piece, cap)
  {
    o, t := out, truncated;
    var i := 0;
    assert done + piece[..0] == done;
    while i < |piece|
      invariant 0 <= i <= |piece| && o == Held(done + piece[..i], cap) && t == Overlong(done + piece[..i], cap)
    {
      o, t := Put(o, t, done + piece[..i], piece[i], cap);
      assert done + piece[..i] + [piece[i]] == done + piece[..i + 1];
      i := i + 1;
    }
    assert piece[..i] == piece;
  }
}
