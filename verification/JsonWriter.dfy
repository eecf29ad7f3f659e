/** The streaming writer of control/Src/config_json.c: whatever the chunk size, the sink
    receives the text of the tree that was written. */
module JsonWriter {
  import opened Words
  import opened JsonNumber
  import opened JsonGrammar
  import opened JsonTree
  import JsonFormat

  const DEPTH_BITS: nat := 32

  /** How much of `left` bytes one turn of the copy loop takes with a sink: the chunk holds
      `len` bytes, or none once a full one is drained. */
  function Taken(cap: nat, len: nat, left: nat): nat
    requires len <= cap
  {
    Min(left, cap - if len >= cap then 0 else len)
  }

  function LenAfter(cap: nat, len: nat, left: nat): (l: nat)
    requires len <= cap
    ensures l <= cap
  {
    (if len >= cap then 0 else len) + Taken(cap, len, left)
  }

  /** What is left of `left` bytes after that many turns. */
  function LeftAfter(cap: nat, len: nat, left: nat, turns: nat): nat
    requires len <= cap
    decreases turns
  {
    if turns == 0 then left else LeftAfter(cap, LenAfter(cap, len, left), left - Taken(cap, len, left), turns - 1)
  }

  lemma {:induction false} NothingIsTaken(left: nat, turns: nat)
    ensures LeftAfter(0, 0, left, turns) == left
    decreases turns
  {
    if turns > 0 { NothingIsTaken(left, turns - 1); }
  }

  lemma {:induction false} OneByteATurn(cap: nat, len: nat, left: nat)
    requires len <= cap && cap > 0
    ensures LeftAfter(cap, len, left, left) == 0
    decreases left
  {
    if left > 0 {
      var k := Taken(cap, len, left);
      OneByteATurn(cap, LenAfter(cap, len, left), left - k);
      NothingMore(cap, LenAfter(cap, len, left), left - k, left - k, left - 1);
    }
  }

  lemma {:induction false} NothingMore(cap: nat, len: nat, left: nat, m: nat, n: nat)
    requires len <= cap && m <= n && LeftAfter(cap, len, left, m) == 0
    ensures LeftAfter(cap, len, left, n) == 0
    decreases n
  {
    if left == 0 {
      if n > 0 { NothingMore(cap, LenAfter(cap, len, 0), 0, 0, n - 1); }
    } else {
      NothingMore(cap, LenAfter(cap, len, left), left - Taken(cap, len, left), m - 1, n - 1);
    }
  }

  /** With a sink the copy loop ends exactly if the chunk has room for a byte or there is
      nothing to copy: a chunk of capacity 0 is drained for ever. */
  lemma CopyEnds(cap: nat, len: nat, left: nat)
    requires len <= cap
    ensures (exists turns :: LeftAfter(cap, len, left, turns) == 0) <==> cap > 0 || left == 0
  {
    if cap == 0 {
      forall turns ensures LeftAfter(cap, len, left, turns) == left { NothingIsTaken(left, turns); }
      assert LeftAfter(cap, len, left, 0) == left;
    } else {
      OneByteATurn(cap, len, left);
    }
  }

  class Writer {
    const cap: nat
    const buf: array<char>
    const hasSink: bool
    /** What the sink was handed so far. */
    var sent: string
    var len: nat
    var comma: set<nat>
    var isArr: set<nat>
    var depth: nat
    var pending: bool
    var ovf: bool
    /** Everything that was to be written, and whether a container was too deep. */
    ghost var full: string
    ghost var tooDeep: bool

    /** With a sink nothing is ever lost; without one the buffer holds what fits, and
        `ovf` says whether that is less than everything. */
    ghost predicate Valid()
      reads this, buf
    {
      && buf.Length == cap && len <= cap && depth <= DEPTH_BITS && (hasSink ==> cap >= 1)
      && (hasSink ==> sent + buf[..len] == full)
      && (!hasSink ==> sent == "" && len == Min(|full|, cap) && buf[..len] == full[..len])
      && (ovf <==> cap == 0 || tooDeep || (!hasSink && |full| > cap))
    }

    /** The bookkeeping the structural calls depend on. */
    twostate predicate SameBooks()
      reads this
    {
      comma == old(comma) && isArr == old(isArr) && depth == old(depth) && pending == old(pending) && tooDeep == old(tooDeep)
    }

    /** A chunk of no capacity cannot be combined with a sink: see CopyEnds. */
    constructor (cap: nat, hasSink: bool)
      requires hasSink ==> cap >= 1
      ensures Valid() && this.cap == cap && this.hasSink == hasSink && full == "" && !tooDeep && sent == ""
      ensures depth == 0 && !pending && comma == {} && isArr == {}
      ensures fresh(buf)
    {
      this.cap, this.hasSink := cap, hasSink;
      buf := new char[cap];
      sent, len, comma, isArr, depth, pending := "", 0, {}, {}, 0, false;
      ovf := cap == 0;
      full, tooDeep := "", false;
    }

    /** Hand the chunk to the sink. */
    method Drain()
      requires Valid() && hasSink
      modifies this
      ensures Valid() && full == old(full) && len == 0 && ovf == old(ovf) && SameBooks()
    {
      sent := sent + buf[..len];
      len := 0;
      assert sent + buf[..len] == sent;
    }

    /** memcpy of a piece that fits into the chunk. */
    method Fill(s: string, i: nat, k: nat)
      requires Valid() && i + k <= |s| && len + k <= cap && (!hasSink ==> len < cap)
      modifies this, buf
      ensures Valid() && full == old(full) + s[i..i + k] && SameBooks() && len == old(len) + k
    {
      var j := 0;
      while j < k
        invariant 0 <= j <= k && len == old(len) && ovf == old(ovf) && sent == old(sent) && full == old(full) && SameBooks()
        invariant buf[..len + j] == old(buf[..len]) + s[i..i + j]
      {
        buf[len + j] := s[i + j];
        j := j + 1;
      }
      len := len + k;
      full := full + s[i..i + k];
      assert hasSink ==> sent + buf[..len] == (sent + old(buf[..len])) + s[i..i + k];
    }

    /** The buffer is full and there is no sink. */
    method Lose(rest: string)
      requires Valid() && !hasSink && len >= cap && rest != ""
      modifies this
      ensures Valid() && full == old(full) + rest && SameBooks()
    {
      ovf := true;
      full := full + rest;
    }

    /** One turn of the copy loop: as much as the chunk has room for, once it is drained;
        all of it is lost if it cannot be. */
    method WrSome(s: string, i: nat) returns (k: nat)
      requires Valid() && i < |s|
      modifies this, buf
      ensures Valid() && 0 < k <= |s| - i && full == old(full) + s[i..i + k] && SameBooks()
      ensures hasSink ==> k == Taken(cap, old(len), |s| - i) && len == LenAfter(cap, old(len), |s| - i)
    {
      if len >= cap {
        if !hasSink {
          k := |s| - i;
          Lose(s[i..i + k]);
          return;
        }
        Drain();
      }
      var room := cap - len;
      k := if |s| - i < room then |s| - i else room;
      Fill(s, i, k);
    }

    method Wr(s: string)
      requires Valid()
      modifies this, buf
      ensures Valid() && full == old(full) + s && SameBooks()
    {
      var i := 0;
      while i < |s|
        invariant 0 <= i <= |s| && Valid() && full == old(full) + s[..i] && SameBooks()
      {
        var k := WrSome(s, i);
        assert s[..i + k] == s[..i] + s[i..i + k];
        i := i + k;
      }
      assert s[..i] == s;
    }

    function SepText(): string
      reads this
    {
      if !pending && depth > 0 && depth - 1 in comma then "," else ""
    }

    /** The next value has been announced: its level is no longer empty. */
    twostate predicate Separated()
      reads this
    {
      && !pending && depth == old(depth) && isArr == old(isArr) && tooDeep == old(tooDeep)
      && comma == if old(pending) || depth == 0 then old(comma) else old(comma) + {depth - 1}
    }

    method Sep()
      requires Valid()
      modifies this, buf
      ensures Valid() && full == old(full) + old(SepText()) && Separated()
    {
      if pending {
        pending := false;
        assert full == full + "";
        return;
      }
      if depth > 0 {
        if depth - 1 in comma {
          Wr(",");
        } else {
          comma := comma + {depth - 1};
          assert full == full + "";
        }
      }
    }

    method WrQuoted(s: string)
      requires Valid()
      modifies this, buf
      ensures Valid() && full == old(full) + "\"" + Escape(CString(s)) + "\"" && SameBooks()
    {
      hide EscapeChar;
      Wr("\"");
      var i := 0;
      assert s[0..] == s;
      while i < |s| && s[i] != 0 as char
        invariant i <= |s| && Valid() && SameBooks()
        invariant full + Escape(CString(s[i..])) == old(full) + "\"" + Escape(CString(s))
        decreases |s| - i
      {
        var rest := CString(s[i + 1..]);
        assert s[i..][1..] == s[i + 1..];
        assert CString(s[i..]) == [s[i]] + rest;
        assert Escape([s[i]] + rest) == EscapeChar(s[i]) + Escape(rest);
        Wr(EscapeChar(s[i]));
        i := i + 1;
      }
      Wr("\"");
    }

    method ContainerOpen(c: char, arr: bool)
      requires Valid()
      modifies this, buf
      ensures Valid() && full == old(full) + old(SepText()) + [c] && !pending
      ensures tooDeep == (old(tooDeep) || old(depth) >= DEPTH_BITS)
      ensures old(depth) >= DEPTH_BITS ==> depth == old(depth)
      ensures old(depth) < DEPTH_BITS ==>
                && depth == old(depth) + 1 && old(depth) !in comma
                && (old(depth) in isArr <==> arr)
                && (forall l :: 0 <= l < old(depth) ==> (l in isArr <==> l in old(isArr)))
                && (forall l :: 0 <= l < old(depth) ==>
                      (l in comma <==> l in old(comma) || (!old(pending) && l == old(depth) - 1)))
    {
      Sep();
      Wr([c]);
      if depth >= DEPTH_BITS {
        ovf, tooDeep := true, true;
        return;
      }
      depth := depth + 1;
      comma := comma - {depth - 1};
      isArr := if arr then isArr + {depth - 1} else isArr - {depth - 1};
    }

    method End()
      requires Valid()
      modifies this, buf
      ensures Valid()
      ensures old(depth) == 0 ==> full == old(full) && SameBooks()
      ensures old(depth) > 0 ==>
                && full == old(full) + [if old(depth) - 1 in old(isArr) then ']' else '}'] && !pending
                && depth == old(depth) - 1 && comma == old(comma) && isArr == old(isArr) && tooDeep == old(tooDeep)
    {
      if depth == 0 { return; }
      Wr([if depth - 1 in isArr then ']' else '}']);
      depth := depth - 1;
      pending := false;
    }

    method Key(key: string)
      requires Valid()
      modifies this, buf
      ensures Valid() && full == old(full) + old(SepText()) + "\"" + Escape(CString(key)) + "\"" + ":" && pending
      ensures depth == old(depth) && isArr == old(isArr) && tooDeep == old(tooDeep)
      ensures comma == if old(pending) || depth == 0 then old(comma) else old(comma) + {depth - 1}
    {
      Sep();
      WrQuoted(key);
      Wr(":");
      pending := true;
    }

    method Str(s: string)
      requires Valid()
      modifies this, buf
      ensures Valid() && full == old(full) + old(SepText()) + ("\"" + Escape(CString(s)) + "\"") && Separated()
    {
      Sep();
      WrQuoted(s);
    }

    /** A token as it stands: numbers, and the words true, false and null. */
    method Raw(s: string)
      requires Valid()
      modifies this, buf
      ensures Valid() && full == old(full) + old(SepText()) + s && Separated()
    {
      Sep();
      Wr(s);
    }

    method Boolean(v: bool)
      requires Valid()
      modifies this, buf
      ensures Valid() && full == old(full) + old(SepText()) + (if v then "true" else "false") && Separated()
    {
      Sep();
      if v { Wr("true"); } else { Wr("false"); }
    }

    method Int(v: int)
      requires Valid() && -0x8000_0000_0000_0000 <= v < 0x8000_0000_0000_0000
      modifies this, buf
      ensures Valid() && full == old(full) + old(SepText()) + JsonFormat.IntegerText(v) && Separated()
    {
      var t := JsonFormat.IntToken(v);
      Sep();
      Wr(t);
    }

    method Null()
      requires Valid()
      modifies this, buf
      ensures Valid() && full == old(full) + old(SepText()) + "null" && Separated()
    {
      Sep();
      Wr("null");
    }

    /** With a sink, everything written has reached it. */
    method Flush() returns (ok: bool)
      requires Valid()
      modifies this, buf
      ensures Valid() && full == old(full) && SameBooks() && ok == !ovf && ovf == old(ovf)
      ensures hasSink ==> sent == full
    {
      if hasSink && len > 0 { Drain(); }
      assert hasSink ==> buf[..len] == "";
      ok := !ovf;
    }
  }

  // ---- writing a tree ------------------------------------------------------------------------------

  function Height(t: Tree<string>): nat
  {
    match t
    case TObj(f) => 1 + FieldsHeight(f)
    case TArr(f) => 1 + FieldsHeight(f)
    case _ => 0
  }

  function FieldsHeight(f: Fields<string>): nat
  {
    if f.NoFields? then 0
    else
      var (v, r) := (Height(f.value), FieldsHeight(f.rest));
      if v > r then v else r
  }

  /** Strings without a NUL, and the words of the grammar. */
  predicate Clean(t: Tree<string>)
  {
    match t
    case TObj(f) => CleanFields(f, true)
    case TArr(f) => CleanFields(f, false)
    case TStr(s) => IsCString(s)
    case TNum(_) => true
    case TWord(w) => IsWord(w)
  }

  predicate CleanFields(f: Fields<string>, named: bool)
  {
    f.Field? ==> (named ==> IsCString(f.key)) && Clean(f.value) && CleanFields(f.rest, named)
  }

  /** Write a tree with the public calls of the writer. */
  method EmitValue(w: Writer, t: Tree<string>)
    requires w.Valid() && Clean(t) && w.depth + Height(t) <= DEPTH_BITS
    modifies w, w.buf
    ensures w.Valid() && w.full == old(w.full) + old(w.SepText()) + Printed(t)
    ensures !w.pending && w.depth == old(w.depth) && w.tooDeep == old(w.tooDeep)
    ensures forall l :: 0 <= l < w.depth ==> (l in w.isArr <==> l in old(w.isArr))
    ensures forall l :: 0 <= l < w.depth ==>
              (l in w.comma <==> l in old(w.comma) || (!old(w.pending) && l == w.depth - 1))
    decreases t, 0
  {
    if t.TObj? || t.TArr? {
      hide Clean, Height, Printed;
      ContainerParts(t);
      EmitContainer(w, t.fields, t.TObj?);
    } else {
      EmitLeaf(w, t);
    }
  }

  method EmitContainer(w: Writer, f: Fields<string>, named: bool)
    requires w.Valid() && CleanFields(f, named) && w.depth + 1 + FieldsHeight(f) <= DEPTH_BITS
    modifies w, w.buf
    ensures w.Valid() && !w.pending && w.depth == old(w.depth) && w.tooDeep == old(w.tooDeep)
    ensures w.full == old(w.full) + old(w.SepText()) + ([Open(named)] + ItemsText(WrittenItems(f, named), true, Close(named)))
    ensures forall l :: 0 <= l < w.depth ==> (l in w.isArr <==> l in old(w.isArr))
    ensures forall l :: 0 <= l < w.depth ==>
              (l in w.comma <==> l in old(w.comma) || (!old(w.pending) && l == w.depth - 1))
    decreases f, 1
  {
    hide Escape, CString, IsCString, WrittenItems, ItemsText, EscapeChar, CleanFields, FieldsHeight;
    ghost var before := w.full + w.SepText();
    w.ContainerOpen(Open(named), !named);
    EmitFields(w, f, named);
    Append3(before, [Open(named)], ItemsText(WrittenItems(f, named), true, Close(named)));
  }

  lemma ContainerParts(t: Tree<string>)
    requires t.TObj? || t.TArr?
    ensures Clean(t) <==> CleanFields(t.fields, t.TObj?)
    ensures Height(t) == 1 + FieldsHeight(t.fields)
    ensures Printed(t) == [Open(t.TObj?)] + ItemsText(WrittenItems(t.fields, t.TObj?), true, Close(t.TObj?))
  {
    hide WrittenItems, ItemsText;
  }

  method EmitLeaf(w: Writer, t: Tree<string>)
    requires w.Valid() && Clean(t) && !t.TObj? && !t.TArr?
    modifies w, w.buf
    ensures w.Valid() && w.full == old(w.full) + old(w.SepText()) + Printed(t) && w.Separated()
  {
    hide Escape, CString, IsCString, EscapeChar;
    match t
    case TStr(s) =>
      CleanCString(s);
      w.Str(s);
    case TNum(text) =>
      w.Raw(text);
    case TWord(word) =>
      if word == "null" { w.Null(); } else { w.Boolean(word == "true"); }
  }

  method EmitFields(w: Writer, f: Fields<string>, named: bool)
    requires w.Valid() && CleanFields(f, named) && 0 < w.depth && w.depth + FieldsHeight(f) <= DEPTH_BITS
    requires !w.pending && (w.depth - 1 in w.isArr <==> !named)
    modifies w, w.buf
    ensures w.Valid()
    ensures w.full == old(w.full) + ItemsText(WrittenItems(f, named), old(w.depth) - 1 !in old(w.comma), Close(named))
    ensures !w.pending && w.depth == old(w.depth) - 1 && w.tooDeep == old(w.tooDeep)
    ensures forall l :: 0 <= l < w.depth ==> (l in w.isArr <==> l in old(w.isArr)) && (l in w.comma <==> l in old(w.comma))
    decreases f, 0
  {
    if f.Field? { FieldParts(f, named); }
    hide Escape, CString, IsCString, Written, Text, WrittenItems, ItemsText, Printed, FieldText, CleanFields, Clean,
      Height, FieldsHeight;
    ghost var first := w.depth - 1 !in w.comma;
    if f.NoFields? {
      NothingPrinted(first, named);
      w.End();
      return;
    }
    EmitField(w, f.key, f.value, named);
    ghost var mid := w.full;
    EmitFields(w, f.rest, named);
    ItemPrinted(f, first, named);
    Append3(old(w.full), FieldText(f.key, f.value, first, named), ItemsText(WrittenItems(f.rest, named), false, Close(named)));
  }

  /** One item with its separator and name. */
  function FieldText(key: string, value: Tree<string>, first: bool, named: bool): string
  {
    (if first then "" else ",") + (if named then "\"" + Escape(key) + "\"" + ":" else "") + Printed(value)
  }

  method EmitField(w: Writer, key: string, value: Tree<string>, named: bool)
    requires w.Valid() && (named ==> IsCString(key)) && Clean(value) && 0 < w.depth && w.depth + Height(value) <= DEPTH_BITS
    requires !w.pending
    modifies w, w.buf
    ensures w.Valid() && !w.pending && w.depth == old(w.depth) && w.depth - 1 in w.comma && w.tooDeep == old(w.tooDeep)
    ensures w.full == old(w.full) + FieldText(key, value, old(w.depth) - 1 !in old(w.comma), named)
    ensures forall l :: 0 <= l < w.depth ==> (l in w.isArr <==> l in old(w.isArr))
    ensures forall l :: 0 <= l < w.depth - 1 ==> (l in w.comma <==> l in old(w.comma))
    decreases value, 1
  {
    hide Escape, CString, IsCString, Printed, Clean, Height, Written, Text, WrittenItems, ItemsText;
    ghost var sep := w.SepText();
    ghost var name := if named then "\"" + Escape(key) + "\"" + ":" else "";
    if named {
      CleanCString(key);
      w.Key(key);
    }
    EmitValue(w, value);
    assert w.full == old(w.full) + (sep + name + Printed(value));
  }

  lemma FieldParts(f: Fields<string>, named: bool)
    requires f.Field? && CleanFields(f, named)
    ensures (named ==> IsCString(f.key)) && Clean(f.value) && CleanFields(f.rest, named)
    ensures Height(f.value) <= FieldsHeight(f) && FieldsHeight(f.rest) <= FieldsHeight(f)
  {}

  lemma NothingPrinted(first: bool, named: bool)
    ensures ItemsText(WrittenItems(NoFields, named), first, Close(named)) == [Close(named)]
  {}

  lemma ItemPrinted(f: Fields<string>, first: bool, named: bool)
    requires f.Field?
    ensures ItemsText(WrittenItems(f, named), first, Close(named)) ==
            FieldText(f.key, f.value, first, named) + ItemsText(WrittenItems(f.rest, named), false, Close(named))
  {
    hide Escape, Written, Text;
    assert "," + "" == ",";
  }

  /** Any chunk size, one text: what reaches the sink is the text of the tree. Without a
      sink the buffer holds it if it fits, and overflow is reported exactly if it does not. */
  method PrintDocument(t: Tree<string>, cap: nat, hasSink: bool) returns (w: Writer, ok: bool)
    requires Clean(t) && Height(t) <= DEPTH_BITS && (hasSink ==> cap >= 1)
    ensures hasSink ==> ok && w.sent == Printed(t)
    ensures !hasSink ==> ok == (0 < cap && |Printed(t)| <= cap)
    ensures !hasSink && ok ==> w.len <= w.buf.Length && w.buf[..w.len] == Printed(t)
  {
    hide Printed, Clean, Height;
    w := new Writer(cap, hasSink);
    EmitValue(w, t);
    assert w.full == "" + "" + Printed(t) == Printed(t);
    ok := w.Flush();
  }
}
