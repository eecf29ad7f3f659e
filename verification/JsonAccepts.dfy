/** The parser accepts exactly the grammar, and finds the only derivation there is. */
module JsonAccepts {
  import opened JsonNumber
  import opened JsonGrammar

  predicate At(s: string, i: nat, t: string) { i + |t| <= |s| && s[i..i + |t|] == t }

  lemma AtSplit(s: string, i: nat, a: string, b: string)
    ensures At(s, i, a + b) <==> At(s, i, a) && At(s, i + |a|, b)
  {
    if At(s, i, a) && At(s, i + |a|, b) {
      assert s[i..i + |a + b|] == s[i..i + |a|] + s[i + |a|..i + |a| + |b|];
    }
    if At(s, i, a + b) {
      var t := s[i..i + |a + b|];
      assert s[i..i + |a|] == t[..|a|] == a;
      assert s[i + |a|..i + |a| + |b|] == t[|a|..] == b;
    }
  }

  lemma AtChar(s: string, i: nat, t: string, k: nat)
    requires At(s, i, t) && k < |t|
    ensures i + k < |s| && s[i + k] == t[k]
  {
    assert s[i..i + |t|][k] == s[i + k];
  }

  lemma WsIs(s: string, i: nat, w: string)
    requires At(s, i, w) && AllWs(w) && (i + |w| < |s| ==> !IsWs(s[i + |w|]))
    ensures Ws(s, i) == i + |w| && s[i..i + |w|] == w
  {
    assert forall k :: i <= k < i + |w| ==> s[k] == s[i..i + |w|][k - i];
  }

  // ---- strings -------------------------------------------------------------------------------

  lemma {:induction false} BodySound(s: string, i: nat)
    requires i <= |s| && ParseBody(s, i).Ok?
    ensures LegalBody(ParseBody(s, i).value)
    decreases |s| - i
  {
    var r := ParseBody(s, i);
    var b := s[i..r.next - 1];
    if s[i] == '\"' {
    } else if s[i] != '\\' {
      BodySound(s, i + 1);
      assert b[1..] == s[i + 1..r.next - 1];
    } else if IsEscape(s[i + 1]) {
      BodySound(s, i + 2);
      assert b[2..] == s[i + 2..r.next - 1];
    } else {
      BodySound(s, i + 6);
      assert b[6..] == s[i + 6..r.next - 1];
    }
  }

  lemma {:induction false} BodyComplete(s: string, i: nat, b: string)
    requires LegalBody(b) && At(s, i, b) && i + |b| < |s| && s[i + |b|] == '\"'
    ensures ParseBody(s, i) == Ok(b, i + |b| + 1)
    decreases |b|
  {
    if b != "" {
      var n := if b[0] != '\\' then 1 else if |b| >= 2 && IsEscape(b[1]) then 2 else 6;
      UnitStarts(s, i, b, n);
      hide LegalBody, IsEscape, ParseBody, At;
      AtRest(s, i, b, n);
      BodyComplete(s, i + n, b[n..]);
      BodyGrows(s, i, b, n);
    }
  }

  lemma AtRest(s: string, i: nat, b: string, n: nat)
    requires At(s, i, b) && n <= |b|
    ensures At(s, i + n, b[n..])
  {
    assert b == b[..n] + b[n..];
    AtSplit(s, i, b[..n], b[n..]);
  }

  lemma BodyGrows(s: string, i: nat, b: string, n: nat)
    requires At(s, i, b) && i + |b| < |s| && 0 < n <= |b|
    requires ParseBody(s, i) == Prefixed(s, i, n) && ParseBody(s, i + n) == Ok(b[n..], i + |b| + 1)
    ensures ParseBody(s, i) == Ok(b, i + |b| + 1)
  {
    hide ParseBody;
    assert s[i..i + |b|] == b;
  }

  /** The first unit of a body is recognised where it stands. */
  lemma UnitStarts(s: string, i: nat, b: string, n: nat)
    requires LegalBody(b) && b != "" && At(s, i, b) && i + |b| < |s|
    requires n == if b[0] != '\\' then 1 else if |b| >= 2 && IsEscape(b[1]) then 2 else 6
    ensures n <= |b| && LegalBody(b[n..]) && ParseBody(s, i) == Prefixed(s, i, n)
  {
    hide Prefixed;
    UnitAt(s, i, b, n);
  }

  lemma UnitAt(s: string, i: nat, b: string, n: nat)
    requires At(s, i, b) && n <= |b|
    ensures forall k :: 0 <= k < n ==> s[i + k] == b[k]
  {
    forall k | 0 <= k < n ensures s[i + k] == b[k] { AtChar(s, i, b, k); }
  }

  // ---- the pieces of a text ------------------------------------------------------------------

  /** The pieces of a label, one after the other. */
  lemma AtLabel(s: string, i: nat, l: Label)
    requires l.Label?
    ensures At(s, i, LabelText(l)) <==>
            && At(s, i, "\"") && At(s, i + 1, l.body) && At(s, i + 1 + |l.body|, "\"")
            && At(s, i + 2 + |l.body|, l.before) && At(s, i + 2 + |l.body| + |l.before|, ":")
            && At(s, i + 3 + |l.body| + |l.before|, l.after)
  {
    hide At;
    var quoted := "\"" + l.body + "\"";
    AtSplit(s, i, "\"", l.body);
    AtSplit(s, i, "\"" + l.body, "\"");
    AtSplit(s, i, quoted, l.before);
    AtSplit(s, i, quoted + l.before, ":");
    AtSplit(s, i, quoted + l.before + ":", l.after);
  }

  /** Where the pieces of an item stand. */
  datatype Places = Places(sep: nat, name: nat, value: nat, rest: nat, end: nat)

  function PlacesOf(i: nat, x: Items, first: bool, close: char): Places
    requires x.Item?
  {
    var sep := i + |x.ws|;
    var name := sep + |Separator(first, x.gap)|;
    var value := name + |LabelText(x.name)|;
    var rest := value + |Text(x.value)|;
    Places(sep, name, value, rest, rest + |ItemsText(x.rest, false, close)|)
  }

  lemma AtItem(s: string, i: nat, x: Items, first: bool, close: char)
    requires x.Item?
    ensures var p := PlacesOf(i, x, first, close);
            && (At(s, i, ItemsText(x, first, close)) <==>
                && At(s, i, x.ws) && At(s, p.sep, Separator(first, x.gap)) && At(s, p.name, LabelText(x.name))
                && At(s, p.value, Text(x.value)) && At(s, p.rest, ItemsText(x.rest, false, close)))
            && p.end == i + |ItemsText(x, first, close)|
  {
    hide At, Separator, LabelText, Text;
    var (a, b, c) := (Separator(first, x.gap), LabelText(x.name), Text(x.value));
    AtSplit(s, i, x.ws, a);
    AtSplit(s, i, x.ws + a, b);
    AtSplit(s, i, x.ws + a + b, c);
    AtSplit(s, i, x.ws + a + b + c, ItemsText(x.rest, false, close));
  }

  lemma AtEnd(s: string, i: nat, ws: string, first: bool, close: char)
    ensures At(s, i, ItemsText(End(ws), first, close)) <==> At(s, i, ws) && At(s, i + |ws|, [close])
  {
    AtSplit(s, i, ws, [close]);
  }

  lemma AtContainer(s: string, i: nat, items: Items, named: bool, depth: nat)
    ensures var v := if named then Obj(items) else Arr(items);
            && (At(s, i, Text(v)) <==> At(s, i, [Open(named)]) && At(s, i + 1, ItemsText(items, true, Close(named))))
            && |Text(v)| == 1 + |ItemsText(items, true, Close(named))|
            && (LegalValue(v, depth) <==> depth < DEPTH_MAX && LegalItems(items, true, named, depth + 1))
  {
    hide At;
    AtSplit(s, i, [Open(named)], ItemsText(items, true, Close(named)));
  }

  lemma AtString(s: string, i: nat, body: string)
    ensures At(s, i, Text(Str(body))) <==> At(s, i, "\"") && At(s, i + 1, body) && At(s, i + 1 + |body|, "\"")
  {
    AtSplit(s, i, "\"", body);
    AtSplit(s, i, "\"" + body, "\"");
  }

  lemma AtSep(s: string, i: nat, gap: string)
    ensures At(s, i, "," + gap) <==> At(s, i, ",") && At(s, i + 1, gap)
  {
    AtSplit(s, i, ",", gap);
    assert |","| == 1;
  }

  // ---- soundness -----------------------------------------------------------------------------

  lemma NumSound(s: string, i: nat)
    requires i <= |s| && ParseNum(s, i).Ok?
    ensures LegalValue(ParseNum(s, i).value, 0) && At(s, i, Text(ParseNum(s, i).value))
    ensures ParseNum(s, i).next == i + |Text(ParseNum(s, i).value)|
  {
    hide Scan, NumText, JsonNumber.Legal, IsNumChar;
    var t := s[i..NumRun(s, i)];
    ScanAcceptsNumbers(t, Numeral(false, "", "", NoExp));
    assert IsNumber(t);
  }

  /** What a parse yields: a legal derivation, whose text stands where it was parsed. */
  ghost predicate Sound(s: string, p: nat, depth: nat, r: Parse<Value>)
  {
    r.Ok? ==> LegalValue(r.value, depth) && At(s, p, Text(r.value)) && r.next == p + |Text(r.value)|
  }

  lemma {:induction false} ValueSound(s: string, i: nat, depth: nat)
    requires i <= |s|
    ensures Sound(s, Ws(s, i), depth, ParseValue(s, i, depth))
    decreases |s| - i, 0
  {
    hide ParseNum, ParseItems, LegalItems, ItemsText, ParseBody, LegalBody, ParseWord, Scan;
    var p := Ws(s, i);
    if p >= |s| {
    } else if s[p] == '{' || s[p] == '[' {
      if depth < DEPTH_MAX {
        var r := ParseItems(s, p + 1, true, s[p] == '{', depth + 1);
        if r.Ok? {
          ItemsSound(s, p + 1, true, s[p] == '{', depth + 1);
          AtContainer(s, p, r.value, s[p] == '{', depth);
        }
      }
    } else if s[p] == '\"' {
      StringSound(s, p, depth);
    } else if s[p] == '-' || IsDigit(s[p]) {
      if ParseNum(s, p).Ok? { NumSound(s, p); }
    } else {
      WordSound(s, p, depth);
    }
  }

  lemma StringSound(s: string, p: nat, depth: nat)
    requires p < |s| && s[p] == '\"' && Ws(s, p) == p
    ensures Sound(s, p, depth, ParseValue(s, p, depth))
  {
    hide LegalBody, ParseItems, ParseNum, ParseWord, ParseBody;
    var r := ParseBody(s, p + 1);
    if r.Ok? {
      BodySound(s, p + 1);
      AtString(s, p, r.value);
    }
  }

  lemma WordSound(s: string, p: nat, depth: nat)
    requires p <= |s|
    ensures Sound(s, p, depth, ParseWord(s, p, "true")) && Sound(s, p, depth, ParseWord(s, p, "false"))
    ensures Sound(s, p, depth, ParseWord(s, p, "null"))
  {}

  lemma LabelSound(s: string, i: nat, named: bool)
    requires i < |s| && ParseLabel(s, i, named).Ok?
    ensures LegalLabel(ParseLabel(s, i, named).value, named)
    ensures At(s, i, LabelText(ParseLabel(s, i, named).value))
    ensures ParseLabel(s, i, named).next == i + |LabelText(ParseLabel(s, i, named).value)|
  {
    hide ParseBody, LegalBody, LabelText;
    var l := ParseLabel(s, i, named).value;
    if named {
      var b := ParseBody(s, i + 1);
      var p := Ws(s, b.next);
      BodySound(s, i + 1);
      OneChar(s, i);
      OneChar(s, b.next - 1);
      OneChar(s, p);
      assert At(s, i + 1, l.body) && At(s, b.next, l.before) && At(s, p + 1, l.after);
      hide At;
      AtLabel(s, i, l);
      LabelLength(l);
    } else {
      NoLabelText();
    }
  }

  lemma LabelLength(l: Label)
    requires l.Label?
    ensures |LabelText(l)| == 3 + |l.body| + |l.before| + |l.after|
  {}

  lemma NoLabelText()
    ensures LabelText(NoLabel) == ""
  {}

  /** The value of an item starts right where its label ends. */
  lemma NoGap(s: string, i: nat, named: bool)
    requires i < |s| && ParseLabel(s, i, named).Ok? && (!named ==> !IsWs(s[i]))
    ensures Ws(s, ParseLabel(s, i, named).next) == ParseLabel(s, i, named).next
  {
    hide ParseBody;
  }

  lemma StepSound(s: string, i: nat, first: bool, close: char)
    requires i <= |s|
    ensures var r := StepIn(s, i, first, close);
            && (r.Closed? ==> AllWs(s[i..r.next - 1]) && At(s, i, s[i..r.next - 1]) && At(s, r.next - 1, [close]))
            && (r.NextAt? ==>
                  && AllWs(r.ws) && AllWs(r.gap) && (first ==> r.gap == "")
                  && At(s, i, r.ws) && At(s, i + |r.ws|, Separator(first, r.gap))
                  && r.start == i + |r.ws| + |Separator(first, r.gap)|)
  {
    hide At, AllWs, Separator;
    var r := StepIn(s, i, first, close);
    var p := Ws(s, i);
    WsSound(s, i);
    if r.Closed? {
      OneChar(s, p);
    } else if r.NextAt? && !first {
      OneChar(s, p);
      WsSound(s, p + 1);
      AtSep(s, p, r.gap);
      SeparatorIs(r.gap);
    } else if r.NextAt? {
      NoSeparator(s, p);
    }
  }

  lemma WsSound(s: string, i: nat)
    requires i <= |s|
    ensures AllWs(s[i..Ws(s, i)]) && At(s, i, s[i..Ws(s, i)])
  {}

  lemma OneChar(s: string, i: nat)
    requires i < |s|
    ensures At(s, i, [s[i]])
  {}

  lemma SeparatorIs(gap: string)
    ensures Separator(false, gap) == [','] + gap
  {}

  lemma NoSeparator(s: string, i: nat)
    requires i <= |s|
    ensures AllWs("") && Separator(true, "") == "" && At(s, i, "")
  {}

  lemma {:induction false} ItemsSound(s: string, i: nat, first: bool, named: bool, depth: nat)
    requires i <= |s| && ParseItems(s, i, first, named, depth).Ok?
    ensures var r := ParseItems(s, i, first, named, depth);
            && LegalItems(r.value, first, named, depth)
            && At(s, i, ItemsText(r.value, first, Close(named))) && r.next == i + |ItemsText(r.value, first, Close(named))|
    decreases |s| - i, 1
  {
    hide StepIn, ParseLabel, ParseValue, LegalValue, LabelText, Text, LegalLabel, Separator, AllWs, At, ItemsText,
      LegalItems, ParseItems;
    var x := ParseItems(s, i, first, named, depth).value;
    var step := StepIn(s, i, first, Close(named));
    StepSound(s, i, first, Close(named));
    ParsedItems(s, i, first, named, depth);
    if step.NextAt? {
      var l := ParseLabel(s, step.start, named);
      LabelSound(s, step.start, named);
      NoGap(s, step.start, named);
      ValueSound(s, l.next, depth);
      ItemsSound(s, ParseValue(s, l.next, depth).next, false, named, depth);
      AtItem(s, i, x, first, Close(named));
      ItemLegal(x, first, named, depth);
    } else {
      EndLegal(x, first, named, depth);
      AtEnd(s, i, x.ws, first, Close(named));
      EndLength(x.ws, first, Close(named));
    }
  }

  /** The parts a parse of items is made of. */
  lemma ParsedItems(s: string, i: nat, first: bool, named: bool, depth: nat)
    requires i <= |s| && ParseItems(s, i, first, named, depth).Ok?
    ensures var (r, step) := (ParseItems(s, i, first, named, depth), StepIn(s, i, first, Close(named)));
            && !step.Broken?
            && (step.Closed? ==> r == Ok(End(s[i..step.next - 1]), step.next))
            && (step.NextAt? ==>
                  var l := ParseLabel(s, step.start, named);
                  l.Ok? && var v := ParseValue(s, l.next, depth);
                  v.Ok? && var rest := ParseItems(s, v.next, false, named, depth);
                  rest.Ok? && r == Ok(Item(step.ws, step.gap, l.value, v.value, rest.value), rest.next))
  {
    hide StepIn, ParseLabel, ParseValue;
  }

  lemma ItemLegal(x: Items, first: bool, named: bool, depth: nat)
    requires x.Item? && AllWs(x.ws) && AllWs(x.gap) && (first ==> x.gap == "") && LegalLabel(x.name, named)
    requires LegalValue(x.value, depth) && LegalItems(x.rest, false, named, depth)
    ensures LegalItems(x, first, named, depth)
  {}

  lemma EndLegal(x: Items, first: bool, named: bool, depth: nat)
    requires x.End? && AllWs(x.ws)
    ensures LegalItems(x, first, named, depth)
  {}

  lemma EndLength(ws: string, first: bool, close: char)
    ensures |ItemsText(End(ws), first, close)| == |ws| + 1
  {}

  // ---- completeness ----------------------------------------------------------------------------

  /** Nothing that could lengthen a number follows. */
  predicate Delimited(s: string, j: nat) { j < |s| ==> !IsNumChar(s[j]) }

  lemma {:induction false} NumeralChars(n: Numeral, k: nat)
    requires JsonNumber.Legal(n) && k < |NumText(n)|
    ensures IsNumChar(NumText(n)[k]) && (NumText(n)[0] == '-' || IsDigit(NumText(n)[0]))
  {
    TextParts(n);
    var t := NumText(n);
    var (w, f, e) := (WholeAt(n), FracAt(n), ExpAt(n));
    if w <= k < f {
      assert t[k] == t[w..f][k - w];
    } else if f <= k < e {
      assert t[k] == t[f..e][k - f];
    } else if e <= k {
      assert t[k] == t[e..][k - e];
    }
    if !n.neg { assert t[0] == t[w..f][0]; }
  }

  lemma NumRunIs(s: string, i: nat, t: string)
    requires At(s, i, t) && Delimited(s, i + |t|) && (forall k :: 0 <= k < |t| ==> IsNumChar(t[k]))
    ensures NumRun(s, i) == i + |t|
  {
    hide IsNumChar;
    UnitAt(s, i, t, |t|);
  }

  lemma NumComplete(s: string, i: nat, t: string)
    requires IsNumber(t) && |t| <= NUM_CHARS_MAX && At(s, i, t) && Delimited(s, i + |t|)
    ensures |t| > 0 && i < |s| && (s[i] == '-' || IsDigit(s[i])) && ParseNum(s, i) == Ok(Num(t), i + |t|)
  {
    hide JsonNumber.Legal, NumText, Scan, IsNumChar;
    var n :| JsonNumber.Legal(n) && NumText(n) == t;
    ScanAcceptsNumbers(t, n);
    NumTextNonEmpty(n);
    forall k | 0 <= k < |t| ensures IsNumChar(t[k]) { NumeralChars(n, k); }
    NumeralChars(n, 0);
    AtChar(s, i, t, 0);
    NumRunIs(s, i, t);
  }

  lemma NumTextNonEmpty(n: Numeral)
    requires JsonNumber.Legal(n)
    ensures |NumText(n)| > 0
  {}

  predicate IsClose(c: char) { c == '}' || c == ']' }

  lemma {:induction false} ValueComplete(s: string, i: nat, v: Value, depth: nat)
    requires LegalValue(v, depth) && At(s, i, Text(v)) && (v.Num? ==> Delimited(s, i + |Text(v)|))
    ensures ParseValue(s, i, depth) == Ok(v, i + |Text(v)|) && i < |s| && !IsWs(s[i]) && !IsClose(s[i])
    decreases v
  {
    hide At, ItemsText, LegalItems, ParseItems, ParseValue, IsNumber;
    match v
    case Obj(items) =>
      AtContainer(s, i, items, true, depth);
      ItemsComplete(s, i + 1, items, true, true, depth + 1);
      ContainerParses(s, i, items, true, depth);
    case Arr(items) =>
      AtContainer(s, i, items, false, depth);
      ItemsComplete(s, i + 1, items, true, false, depth + 1);
      ContainerParses(s, i, items, false, depth);
    case Str(body) => StringComplete(s, i, body, depth);
    case Num(text) => NumberComplete(s, i, text, depth);
    case Word(w) => WordComplete(s, i, w, depth);
  }

  lemma ContainerParses(s: string, i: nat, items: Items, named: bool, depth: nat)
    requires At(s, i, [Open(named)]) && depth < DEPTH_MAX
    requires ParseItems(s, i + 1, true, named, depth + 1).Ok? && ParseItems(s, i + 1, true, named, depth + 1).value == items
    ensures var r := ParseItems(s, i + 1, true, named, depth + 1);
            && i < |s| && !IsWs(s[i]) && !IsClose(s[i])
            && ParseValue(s, i, depth) == Ok(if named then Obj(items) else Arr(items), r.next)
  {
    hide ParseItems;
    AtChar(s, i, [Open(named)], 0);
  }

  ghost predicate ParsesAt(s: string, i: nat, v: Value, depth: nat)
  {
    i < |s| && ParseValue(s, i, depth) == Ok(v, i + |Text(v)|) && !IsWs(s[i]) && !IsClose(s[i])
  }

  lemma StringComplete(s: string, i: nat, body: string, depth: nat)
    requires LegalBody(body) && At(s, i, Text(Str(body)))
    ensures ParsesAt(s, i, Str(body), depth)
  {
    hide ParseItems, ParseNum, ParseWord, ParseBody, LegalBody;
    AtString(s, i, body);
    AtChar(s, i, "\"", 0);
    AtChar(s, i + 1 + |body|, "\"", 0);
    BodyComplete(s, i + 1, body);
  }

  lemma NumberComplete(s: string, i: nat, text: string, depth: nat)
    requires IsNumber(text) && |text| <= NUM_CHARS_MAX && At(s, i, text) && Delimited(s, i + |text|)
    ensures ParsesAt(s, i, Num(text), depth)
  {
    hide ParseItems, ParseNum, ParseWord, ParseBody, IsNumber;
    NumComplete(s, i, text);
  }

  lemma WordComplete(s: string, i: nat, w: string, depth: nat)
    requires IsWord(w) && At(s, i, w)
    ensures ParsesAt(s, i, Word(w), depth)
  {
    hide ParseItems, ParseNum, ParseBody;
    AtChar(s, i, w, 0);
  }

  lemma LabelParts(s: string, i: nat, l: Label)
    requires LegalLabel(l, true) && At(s, i, LabelText(l))
    requires i + |LabelText(l)| < |s| && !IsWs(s[i + |LabelText(l)|])
    ensures var (b, c) := (i + 2 + |l.body|, i + 2 + |l.body| + |l.before|);
            && s[i] == '\"' && ParseBody(s, i + 1) == Ok(l.body, b)
            && Ws(s, b) == c && s[b..c] == l.before && c < |s| && s[c] == ':'
            && Ws(s, c + 1) == i + |LabelText(l)| && s[c + 1..i + |LabelText(l)|] == l.after
  {
    hide ParseBody, LegalBody, LabelText;
    AtLabel(s, i, l);
    LabelLength(l);
    var (q, b, c) := (i + 1 + |l.body|, i + 2 + |l.body|, i + 2 + |l.body| + |l.before|);
    AtChar(s, i, "\"", 0);
    AtChar(s, q, "\"", 0);
    AtChar(s, c, ":", 0);
    BodyComplete(s, i + 1, l.body);
    WsIs(s, b, l.before);
    WsIs(s, c + 1, l.after);
  }

  lemma LabelComplete(s: string, i: nat, l: Label, named: bool)
    requires LegalLabel(l, named) && At(s, i, LabelText(l)) && i < |s|
    requires i + |LabelText(l)| < |s| && !IsWs(s[i + |LabelText(l)|])
    ensures ParseLabel(s, i, named) == Ok(l, i + |LabelText(l)|)
  {
    hide ParseBody, LegalBody, LabelText, At, AllWs;
    if named { LabelParts(s, i, l); } else { NoLabelText(); }
  }

  /** The first character after a value in a container. */
  lemma FirstOfRest(rest: Items, named: bool, depth: nat)
    requires LegalItems(rest, false, named, depth)
    ensures var t := ItemsText(rest, false, Close(named)); |t| > 0 && !IsNumChar(t[0])
  {}

  lemma {:induction false} ItemsComplete(s: string, i: nat, items: Items, first: bool, named: bool, depth: nat)
    requires LegalItems(items, first, named, depth) && At(s, i, ItemsText(items, first, Close(named)))
    ensures ParseItems(s, i, first, named, depth) == Ok(items, i + |ItemsText(items, first, Close(named))|)
    decreases items
  {
    hide StepIn, ParseLabel, ParseValue, LegalValue, LabelText, Text, LegalLabel, Separator, AllWs, At, ItemsText;
    match items
    case End(ws) =>
      AtEnd(s, i, ws, first, Close(named));
      StepCloses(s, i, first, ws, Close(named));
      EndLength(ws, first, Close(named));
    case Item(ws, gap, name, value, rest) =>
      AtItem(s, i, items, first, Close(named));
      var p := PlacesOf(i, items, first, Close(named));
      FirstOfRest(rest, named, depth);
      AtChar(s, p.rest, ItemsText(rest, false, Close(named)), 0);
      ValueComplete(s, p.value, value, depth);
      StepContinues(s, i, items, first, named, depth);
      LabelComplete(s, p.name, name, named);
      ItemsComplete(s, p.rest, rest, false, named, depth);
  }

  lemma StepCloses(s: string, i: nat, first: bool, ws: string, close: char)
    requires AllWs(ws) && !IsWs(close) && At(s, i, ws) && At(s, i + |ws|, [close])
    ensures StepIn(s, i, first, close) == Closed(i + |ws| + 1) && s[i..i + |ws|] == ws
  {
    AtChar(s, i + |ws|, [close], 0);
    WsIs(s, i, ws);
  }

  lemma StepContinues(s: string, i: nat, x: Items, first: bool, named: bool, depth: nat)
    requires x.Item? && LegalItems(x, first, named, depth) && At(s, i, x.ws)
    requires var p := PlacesOf(i, x, first, Close(named));
             && At(s, p.sep, Separator(first, x.gap)) && At(s, p.name, LabelText(x.name))
             && p.value < |s| && !IsWs(s[p.value]) && !IsClose(s[p.value])
    ensures StepIn(s, i, first, Close(named)) == NextAt(PlacesOf(i, x, first, Close(named)).name, x.ws, x.gap)
  {
    hide Text, LegalValue, LegalLabel, LabelText;
    var p := PlacesOf(i, x, first, Close(named));
    LabelStart(s, p.name, x.name, named);
    if first { StepFirst(s, i, x.ws, Close(named)); } else { StepNext(s, i, x.ws, x.gap, Close(named)); }
  }

  lemma LabelStart(s: string, i: nat, l: Label, named: bool)
    requires LegalLabel(l, named) && At(s, i, LabelText(l)) && i + |LabelText(l)| < |s|
    requires !IsWs(s[i + |LabelText(l)|]) && !IsClose(s[i + |LabelText(l)|])
    ensures i < |s| && !IsWs(s[i]) && !IsClose(s[i])
  {
    hide LegalBody;
    if named {
      AtLabel(s, i, l);
      AtChar(s, i, "\"", 0);
    }
  }

  lemma StepFirst(s: string, i: nat, ws: string, close: char)
    requires At(s, i, ws) && AllWs(ws) && i + |ws| < |s| && !IsWs(s[i + |ws|]) && s[i + |ws|] != close
    ensures StepIn(s, i, true, close) == NextAt(i + |ws|, ws, "")
  {
    hide At, AllWs;
    WsIs(s, i, ws);
  }

  lemma StepNext(s: string, i: nat, ws: string, gap: string, close: char)
    requires At(s, i, ws) && AllWs(ws) && At(s, i + |ws|, "," + gap) && AllWs(gap) && IsClose(close)
    requires var start := i + |ws| + 1 + |gap|; start < |s| && !IsWs(s[start]) && s[start] != close
    ensures StepIn(s, i, false, close) == NextAt(i + |ws| + 1 + |gap|, ws, gap)
  {
    hide At, AllWs;
    AtSep(s, i + |ws|, gap);
    AtChar(s, i + |ws|, ",", 0);
    WsIs(s, i, ws);
    WsIs(s, i + |ws| + 1, gap);
  }

  // ---- the two directions together ----------------------------------------------------------------

  /** cfg_json_validate accepts exactly the documents of the grammar, nested at most six
      deep, with number tokens of at most 40 characters. */
  lemma ValidateExact(s: string)
    ensures Validate(s).Ok? <==> exists d :: LegalDocument(d) && DocumentText(d) == s
  {
    if Validate(s).Ok? { DocumentSound(s); }
    forall d | LegalDocument(d) && DocumentText(d) == s ensures Validate(s).Ok? { DocumentComplete(s, d); }
  }

  /** What it accepted is the document it reports. */
  lemma DocumentSound(s: string)
    requires Validate(s).Ok?
    ensures LegalDocument(Validate(s).value) && DocumentText(Validate(s).value) == s
  {
    hide ParseValue, LegalValue, Text;
    var r := ParseValue(s, 0, 0);
    var p := Ws(s, 0);
    ValueSound(s, 0, 0);
    assert s == s[..p] + s[p..r.next] + s[r.next..];
  }

  /** A text has one derivation at most, and it is the one that is found. */
  lemma DocumentComplete(s: string, d: Document)
    requires LegalDocument(d) && DocumentText(d) == s
    ensures Validate(s) == Ok(d, |s|)
  {
    hide ParseValue, LegalValue, Text, At, Delimited, IsWs;
    var (p, q) := (|d.before|, |d.before| + |Text(d.value)|);
    DocumentParts(s, d);
    ValueComplete(s, p, d.value, 0);
    WsIs(s, 0, d.before);
    LeadingWs(s, 0, 0);
    WsIs(s, q, d.after);
    assert s[..p] == s[0..p] && s[q..] == s[q..q + |d.after|];
  }

  lemma DocumentParts(s: string, d: Document)
    requires AllWs(d.after) && DocumentText(d) == s
    ensures var (p, q) := (|d.before|, |d.before| + |Text(d.value)|);
            && At(s, 0, d.before) && At(s, p, Text(d.value)) && At(s, q, d.after) && q + |d.after| == |s| && Delimited(s, q)
  {
    hide Text;
    var q := |d.before| + |Text(d.value)|;
    assert s[0..|s|] == s;
    AtSplit(s, 0, d.before + Text(d.value), d.after);
    AtSplit(s, 0, d.before, Text(d.value));
    assert q < |s| ==> s[q] == d.after[0];
  }

  /** White space before a value changes nothing. */
  lemma LeadingWs(s: string, i: nat, depth: nat)
    requires i <= |s|
    ensures ParseValue(s, i, depth) == ParseValue(s, Ws(s, i), depth)
  {
    hide ParseItems, ParseNum, ParseWord, ParseBody;
    assert Ws(s, Ws(s, i)) == Ws(s, i);
  }
}
