/** The JSON subset of control/Src/config_json.c: its grammar, as derivations with the
    text each one has, and a parser that is proved to accept exactly those texts. */
module JsonGrammar {
  import opened JsonNumber

  const DEPTH_MAX: nat := 6
  const NUM_CHARS_MAX: nat := 40

  // ---- the grammar: sections 4, 5 and 7 of RFC 8259 --------------------------------------

  predicate IsWs(c: char) { c == ' ' || c == '\t' || c == '\n' || c == '\r' }

  predicate AllWs(s: string) { forall i :: 0 <= i < |s| ==> IsWs(s[i]) }

  predicate IsHex(c: char) { '0' <= c <= '9' || 'a' <= c <= 'f' || 'A' <= c <= 'F' }

  predicate IsEscape(c: char)
  {
    c == '\"' || c == '\\' || c == '/' || c == 'b' || c == 'f' || c == 'n' || c == 'r' || c == 't'
  }

  predicate IsPlain(c: char) { c >= ' ' && c != '\"' && c != '\\' }

  predicate Hex4(b: string, i: nat)
    requires i + 4 <= |b|
  {
    IsHex(b[i]) && IsHex(b[i + 1]) && IsHex(b[i + 2]) && IsHex(b[i + 3])
  }

  /** What may stand between the quotes of a string. */
  predicate LegalBody(b: string)
  {
    if b == "" then true
    else if b[0] != '\\' then IsPlain(b[0]) && LegalBody(b[1..])
    else if |b| >= 2 && IsEscape(b[1]) then LegalBody(b[2..])
    else |b| >= 6 && b[1] == 'u' && Hex4(b, 2) && LegalBody(b[6..])
  }

  /** A member name with the white space around its colon. */
  datatype Label = NoLabel | Label(body: string, before: string, after: string)

  /** A derivation of one value. White space belongs to the containers. */
  datatype Value =
    | Obj(items: Items)
    | Arr(items: Items)
    | Str(body: string)
    | Num(text: string)
    | Word(word: string)

  /** The rest of a container: white space and the closing bracket, or white space, a
      comma and white space (not before the first item), a name in objects, a value. */
  datatype Items = End(ws: string) | Item(ws: string, gap: string, name: Label, value: Value, rest: Items)

  predicate IsWord(w: string) { w == "true" || w == "false" || w == "null" }

  ghost predicate IsNumber(s: string) { exists n :: JsonNumber.Legal(n) && NumText(n) == s }

  predicate LegalLabel(l: Label, named: bool)
  {
    if named then l.Label? && LegalBody(l.body) && AllWs(l.before) && AllWs(l.after) else l.NoLabel?
  }

  /** A derivation that stays within the bounds when it stands `depth` containers deep. */
  ghost predicate LegalValue(v: Value, depth: nat)
  {
    match v
    case Obj(items) => depth < 6 && LegalItems(items, true, true, depth + 1)
    case Arr(items) => depth < 6 && LegalItems(items, true, false, depth + 1)
    case Str(body) => LegalBody(body)
    case Num(text) => IsNumber(text) && |text| <= 40
    case Word(w) => IsWord(w)
  }

  ghost predicate LegalItems(items: Items, first: bool, named: bool, depth: nat)
  {
    match items
    case End(ws) => AllWs(ws)
    case Item(ws, gap, name, value, rest) =>
      && AllWs(ws) && AllWs(gap) && (first ==> gap == "") && LegalLabel(name, named)
      && LegalValue(value, depth) && LegalItems(rest, false, named, depth)
  }

  function LabelText(l: Label): string
  {
    if l.NoLabel? then "" else "\"" + l.body + "\"" + l.before + ":" + l.after
  }

  function Text(v: Value): (t: string)
    ensures v.Obj? || v.Arr? || v.Str? ==> |t| > 0
  {
    match v
    case Obj(items) => "{" + ItemsText(items, true, '}')
    case Arr(items) => "[" + ItemsText(items, true, ']')
    case Str(body) => "\"" + body + "\""
    case Num(text) => text
    case Word(w) => w
  }

  function Separator(first: bool, gap: string): string { if first then "" else "," + gap }

  function ItemsText(items: Items, first: bool, close: char): string
  {
    match items
    case End(ws) => ws + [close]
    case Item(ws, gap, name, value, rest) =>
      ws + Separator(first, gap) + LabelText(name) + Text(value) + ItemsText(rest, false, close)
  }

  /** A complete document. */
  datatype Document = Document(before: string, value: Value, after: string)

  ghost predicate LegalDocument(d: Document) { AllWs(d.before) && LegalValue(d.value, 0) && AllWs(d.after) }

  function DocumentText(d: Document): string { d.before + Text(d.value) + d.after }

  // ---- the parser --------------------------------------------------------------------------

  datatype Error = Syntax | Depth | TooLong | Truncated | Trailing

  datatype Parse<T> = Ok(value: T, next: nat) | Err(error: Error)

  function Ws(s: string, i: nat): (j: nat)
    requires i <= |s|
    ensures i <= j <= |s| && (forall k :: i <= k < j ==> IsWs(s[k])) && (j < |s| ==> !IsWs(s[j]))
    decreases |s| - i
  {
    if i < |s| && IsWs(s[i]) then Ws(s, i + 1) else i
  }

  /** The closing quote of the string whose body starts at `i`. */
  function ParseBody(s: string, i: nat): (r: Parse<string>)
    requires i <= |s|
    ensures r.Ok? ==> i < r.next <= |s| && s[r.next - 1] == '\"' && r.value == s[i..r.next - 1]
    decreases |s| - i
  {
    if i >= |s| then Err(Truncated)
    else if s[i] == '\"' then Ok("", i + 1)
    else if s[i] == '\\' then
      if i + 1 >= |s| then Err(Truncated)
      else if IsEscape(s[i + 1]) then Prefixed(s, i, 2)
      else if s[i + 1] != 'u' then Err(Syntax)
      else if |s| - (i + 2) < 4 then Err(Truncated)
      else if !Hex4(s, i + 2) then Err(Syntax)
      else Prefixed(s, i, 6)
    else if s[i] < ' ' then Err(Syntax)
    else Prefixed(s, i, 1)
  }

  function Prefixed(s: string, i: nat, n: nat): (r: Parse<string>)
    requires n > 0 && i + n <= |s|
    ensures r.Ok? ==> i + n < r.next <= |s| && s[r.next - 1] == '\"' && r.value == s[i..r.next - 1]
    decreases |s| - i, 0
  {
    var r := ParseBody(s, i + n);
    if r.Err? then r else Ok(s[i..r.next - 1], r.next)
  }

  predicate IsNumChar(c: char) { IsDigit(c) || c == '-' || c == '+' || c == '.' || c == 'e' || c == 'E' }

  function NumRun(s: string, i: nat): (j: nat)
    requires i <= |s|
    ensures i <= j <= |s| && (forall k :: i <= k < j ==> IsNumChar(s[k])) && (j < |s| ==> !IsNumChar(s[j]))
    decreases |s| - i
  {
    if i < |s| && IsNumChar(s[i]) then NumRun(s, i + 1) else i
  }

  function ParseNum(s: string, i: nat): (r: Parse<Value>)
    requires i <= |s|
    ensures r.Ok? ==> i < r.next <= |s| && r.value.Num?
  {
    var j := NumRun(s, i);
    if j - i > NUM_CHARS_MAX then Err(TooLong)
    else
      var n := Scan(s[i..j]);
      if n.Number? && n.consumed == j - i then Ok(Num(s[i..j]), j) else Err(Syntax)
  }

  function ParseWord(s: string, i: nat, w: string): (r: Parse<Value>)
    requires i <= |s| && |w| > 0
    ensures r.Ok? ==> i < r.next <= |s|
  {
    if |s| - i < |w| then Err(Truncated)
    else if s[i..i + |w|] != w then Err(Syntax)
    else Ok(Word(w), i + |w|)
  }

  /** One value, after any white space. */
  function ParseValue(s: string, i: nat, depth: nat): (r: Parse<Value>)
    requires i <= |s|
    ensures r.Ok? ==> i < r.next <= |s|
    decreases |s| - i, 0
  {
    var p := Ws(s, i);
    if p >= |s| then Err(Truncated)
    else if s[p] == '{' || s[p] == '[' then
      if depth >= DEPTH_MAX then Err(Depth)
      else
        var r := ParseItems(s, p + 1, true, s[p] == '{', depth + 1);
        if r.Err? then Err(r.error) else Ok(if s[p] == '{' then Obj(r.value) else Arr(r.value), r.next)
    else if s[p] == '\"' then
      var r := ParseBody(s, p + 1);
      if r.Err? then Err(r.error) else Ok(Str(r.value), r.next)
    else if s[p] == '-' || IsDigit(s[p]) then ParseNum(s, p)
    else if s[p] == 't' then ParseWord(s, p, "true")
    else if s[p] == 'f' then ParseWord(s, p, "false")
    else if s[p] == 'n' then ParseWord(s, p, "null")
    else Err(Syntax)
  }

  function Open(named: bool): char { if named then '{' else '[' }

  function Close(named: bool): char { if named then '}' else ']' }

  /** Where the next item of a container starts: nowhere if the container closes here. */
  datatype Step = Closed(next: nat) | NextAt(start: nat, ws: string, gap: string) | Broken(error: Error)

  function StepIn(s: string, i: nat, first: bool, close: char): (r: Step)
    requires i <= |s|
    ensures r.Closed? ==> i < r.next <= |s|
    ensures r.NextAt? ==> i <= r.start < |s| && !IsWs(s[r.start])
  {
    var p := Ws(s, i);
    if p >= |s| then Broken(Truncated)
    else if s[p] == close then Closed(p + 1)
    else if first then NextAt(p, s[i..p], "")
    else if s[p] != ',' then Broken(Syntax)
    else
      var q := Ws(s, p + 1);
      if q >= |s| then Broken(Truncated)
      else if s[q] == close then Broken(Syntax)
      else NextAt(q, s[i..p], s[p + 1..q])
  }

  /** A member name and its colon, up to the value. */
  function ParseLabel(s: string, i: nat, named: bool): (r: Parse<Label>)
    requires i < |s|
    ensures r.Ok? ==> i <= r.next <= |s|
  {
    if !named then Ok(NoLabel, i)
    else if s[i] != '\"' then Err(Syntax)
    else
      var b := ParseBody(s, i + 1);
      if b.Err? then Err(b.error)
      else
        var p := Ws(s, b.next);
        if p >= |s| then Err(Truncated)
        else if s[p] != ':' then Err(Syntax)
        else
          var q := Ws(s, p + 1);
          Ok(Label(b.value, s[b.next..p], s[p + 1..q]), q)
  }

  function ParseItems(s: string, i: nat, first: bool, named: bool, depth: nat): (r: Parse<Items>)
    requires i <= |s|
    ensures r.Ok? ==> i < r.next <= |s|
    decreases |s| - i, 1
  {
    var step := StepIn(s, i, first, Close(named));
    match step
    case Broken(e) => Err(e)
    case Closed(next) => Ok(End(s[i..next - 1]), next)
    case NextAt(start, ws, gap) =>
      var l := ParseLabel(s, start, named);
      if l.Err? then Err(l.error)
      else
        var v := ParseValue(s, l.next, depth);
        if v.Err? then Err(v.error)
        else
          var rest := ParseItems(s, v.next, false, named, depth);
          if rest.Err? then rest else Ok(Item(ws, gap, l.value, v.value, rest.value), rest.next)
  }

  /** cfg_json_validate: no error, or the first rule broken. */
  function Validate(s: string): Parse<Document>
  {
    var r := ParseValue(s, 0, 0);
    if r.Err? then Err(r.error)
    else if Ws(s, r.next) != |s| then Err(Trailing)
    else Ok(Document(s[..Ws(s, 0)], r.value, s[r.next..]), |s|)
  }
}
