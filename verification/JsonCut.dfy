/** What the reader of control/Src/config_json.c says of a line that was cut off: that it is
    truncated, so that a cut line can be told from a malformed one. The one exception is a cut
    inside a number that is not yet one. */
module JsonCut {
  import opened JsonNumber
  import opened JsonGrammar

  /** The text ends in what could still become a number, but is none. */
  ghost predicate Unfinished(p: string)
  {
    exists i :: 0 <= i < |p| && Started(p, i)
  }

  predicate Started(p: string, i: nat)
    requires i < |p|
  {
    && (forall k :: i <= k < |p| ==> IsNumChar(p[k]))
    && var n := Scan(p[i..]); !(n.Number? && n.consumed == |p| - i)
  }

  ghost predicate IsCut<T>(r: Parse<T>, p: string) { r == Err(Truncated) || (r == Err(Syntax) && Unfinished(p)) }

  // ---- white space and strings -----------------------------------------------------------------

  lemma {:induction false} WsCut(s: string, i: nat, n: nat)
    requires i <= n <= |s|
    ensures Ws(s[..n], i) == if Ws(s, i) <= n then Ws(s, i) else n
    decreases n - i
  {
    if i < n && IsWs(s[i]) { WsCut(s, i + 1, n); }
  }

  /** A string that ends before the cut reads as before; one that does not is truncated. */
  lemma {:induction false} BodyCut(s: string, i: nat, n: nat)
    requires i <= n <= |s| && ParseBody(s, i).Ok?
    ensures ParseBody(s[..n], i) == if ParseBody(s, i).next <= n then ParseBody(s, i) else Err(Truncated)
    decreases n - i
  {
    var p := s[..n];
    if i == n || s[i] == '\"' { return; }
    var k := if s[i] != '\\' then 1 else if IsEscape(s[i + 1]) then 2 else 6;
    if i + k <= n {
      BodyCut(s, i + k, n);
      PrefixedCut(s, i, k, n);
    }
  }

  lemma PrefixedCut(s: string, i: nat, k: nat, n: nat)
    requires k > 0 && i + k <= n <= |s| && ParseBody(s, i + k).Ok?
    requires ParseBody(s[..n], i + k) == if ParseBody(s, i + k).next <= n then ParseBody(s, i + k) else Err(Truncated)
    ensures Prefixed(s[..n], i, k) == if Prefixed(s, i, k).next <= n then Prefixed(s, i, k) else Err(Truncated)
  {
    hide ParseBody;
    var r := ParseBody(s, i + k);
    if r.next <= n { assert s[..n][i..r.next - 1] == s[i..r.next - 1]; }
  }

  // ---- numbers and words -------------------------------------------------------------------------

  lemma {:induction false} RunCut(s: string, i: nat, n: nat)
    requires i <= n <= |s|
    ensures NumRun(s[..n], i) == if NumRun(s, i) <= n then NumRun(s, i) else n
    decreases n - i
  {
    if i < n && IsNumChar(s[i]) { RunCut(s, i + 1, n); }
  }

  lemma NumCut(s: string, i: nat, n: nat)
    requires i < n <= |s| && ParseNum(s, i).Ok?
    ensures var (r, t) := (ParseNum(s, i), ParseNum(s[..n], i));
            if r.next <= n then t == r else (t.Ok? && t.next == n) || (t == Err(Syntax) && Unfinished(s[..n]))
  {
    hide Scan;
    var (p, j) := (s[..n], NumRun(s, i));
    RunCut(s, i, n);
    if j <= n {
      assert p[i..j] == s[i..j];
    } else {
      assert p[i..n] == p[i..];
      if ParseNum(p, i).Err? {
        assert forall k :: i <= k < |p| ==> IsNumChar(p[k]);
        assert Started(p, i);
      }
    }
  }

  lemma WordCut(s: string, i: nat, w: string, n: nat)
    requires i <= n <= |s| && |w| > 0 && ParseWord(s, i, w).Ok?
    ensures ParseWord(s[..n], i, w) == if ParseWord(s, i, w).next <= n then ParseWord(s, i, w) else Err(Truncated)
  {
    if i + |w| <= n { assert s[..n][i..i + |w|] == s[i..i + |w|]; }
  }

  // ---- containers ----------------------------------------------------------------------------------

  lemma StepCut(s: string, i: nat, first: bool, close: char, n: nat)
    requires i <= n <= |s| && !StepIn(s, i, first, close).Broken?
    ensures var (r, t) := (StepIn(s, i, first, close), StepIn(s[..n], i, first, close));
            match r
            case Closed(next) => t == if next <= n then r else Broken(Truncated)
            case NextAt(start, _, _) => t == if start < n then r else Broken(Truncated)
  {
    hide IsWs, Ws;
    WsCut(s, i, n);
    var p := Ws(s, i);
    if p < n {
      assert s[..n][i..p] == s[i..p];
      if s[p] != close && !first {
        WsCut(s, p + 1, n);
        var q := Ws(s, p + 1);
        if q < n { assert s[..n][p + 1..q] == s[p + 1..q]; }
      }
    }
  }

  lemma LabelCut(s: string, i: nat, named: bool, n: nat)
    requires i < n <= |s| && ParseLabel(s, i, named).Ok?
    ensures var (r, t) := (ParseLabel(s, i, named), ParseLabel(s[..n], i, named));
            if r.next <= n then t == r else t == Err(Truncated) || (t.Ok? && t.next == n)
  {
    hide IsWs, Ws, ParseBody;
    if named {
      BodyCut(s, i + 1, n);
      var b := ParseBody(s, i + 1);
      if b.next <= n {
        WsCut(s, b.next, n);
        var p := Ws(s, b.next);
        if p < n {
          WsCut(s, p + 1, n);
          var q := Ws(s, p + 1);
          assert s[..n][b.next..p] == s[b.next..p];
          if q <= n { assert s[..n][p + 1..q] == s[p + 1..q]; }
        }
      }
    }
  }

  /** A value that ends before the cut reads as before. One that does not is cut, unless it is a number
      and what is left of it is one too: then it seems to end where the text does. */
  ghost predicate ValueAsCut(s: string, i: nat, depth: nat, n: nat)
    requires i <= n <= |s| && ParseValue(s, i, depth).Ok?
  {
    var (r, t) := (ParseValue(s, i, depth), ParseValue(s[..n], i, depth));
    if r.next <= n then t == r else IsCut(t, s[..n]) || (t.Ok? && t.next == n && r.value.Num?)
  }

  ghost predicate ItemsAsCut(s: string, i: nat, first: bool, named: bool, depth: nat, n: nat)
    requires i <= n <= |s| && ParseItems(s, i, first, named, depth).Ok?
  {
    var (r, t) := (ParseItems(s, i, first, named, depth), ParseItems(s[..n], i, first, named, depth));
    if r.next <= n then t == r else IsCut(t, s[..n])
  }

  lemma ScalarCut(s: string, i: nat, depth: nat, n: nat)
    requires i <= n <= |s| && ParseValue(s, i, depth).Ok?
    requires !ParseValue(s, i, depth).value.Obj? && !ParseValue(s, i, depth).value.Arr?
    ensures ValueAsCut(s, i, depth, n)
  {
    hide ParseBody, ParseNum, ParseItems, ParseWord, Unfinished;
    WsCut(s, i, n);
    var p := Ws(s, i);
    if p >= n { return; }
    if s[p] == '\"' {
      BodyCut(s, p + 1, n);
    } else if s[p] == '-' || IsDigit(s[p]) {
      NumCut(s, p, n);
      NumIs(s, p);
    } else {
      WordCut(s, p, if s[p] == 't' then "true" else if s[p] == 'f' then "false" else "null", n);
    }
  }

  lemma NumIs(s: string, p: nat)
    requires p <= |s| && ParseNum(s, p).Ok?
    ensures ParseNum(s, p).value.Num?
  {}

  /** A container by its items. */
  lemma Opens(s: string, i: nat, depth: nat)
    requires i <= |s| && Ws(s, i) < |s| && (s[Ws(s, i)] == '{' || s[Ws(s, i)] == '[') && depth < DEPTH_MAX
    ensures var (p, named) := (Ws(s, i), s[Ws(s, i)] == '{');
            ParseValue(s, i, depth) ==
            match ParseItems(s, p + 1, true, named, depth + 1)
            case Err(e) => Err(e)
            case Ok(x, next) => Ok(if named then Obj(x) else Arr(x), next)
  {
    hide ParseItems;
  }

  lemma FromItems(s: string, i: nat, depth: nat, n: nat)
    requires i <= n <= |s| && ParseValue(s, i, depth).Ok? && Ws(s, i) < n && depth < DEPTH_MAX
    requires s[Ws(s, i)] == '{' || s[Ws(s, i)] == '['
    requires ParseItems(s, Ws(s, i) + 1, true, s[Ws(s, i)] == '{', depth + 1).Ok?
    requires ItemsAsCut(s, Ws(s, i) + 1, true, s[Ws(s, i)] == '{', depth + 1, n)
    ensures ValueAsCut(s, i, depth, n)
  {
    hide ParseItems, ParseValue, Unfinished;
    WsCut(s, i, n);
    Opens(s, i, depth);
    Opens(s[..n], i, depth);
  }

  lemma {:induction false} ValueCut(s: string, i: nat, depth: nat, n: nat)
    requires i <= n <= |s| && ParseValue(s, i, depth).Ok?
    ensures ValueAsCut(s, i, depth, n)
    decreases |s| - i, 0
  {
    hide ParseItems, ParseValue, ItemsAsCut;
    var v := ParseValue(s, i, depth).value;
    var p := Ws(s, i);
    if !v.Obj? && !v.Arr? {
      ScalarCut(s, i, depth, n);
    } else {
      ContainerStarts(s, i, depth);
      Opens(s, i, depth);
      if p < n {
        ItemsCut(s, p + 1, true, s[p] == '{', depth + 1, n);
        FromItems(s, i, depth, n);
      } else {
        WsCut(s, i, n);
        NothingThere(s[..n], i, depth);
      }
    }
  }

  lemma NothingThere(p: string, i: nat, depth: nat)
    requires i <= |p| && Ws(p, i) == |p|
    ensures ParseValue(p, i, depth) == Err(Truncated)
  {}

  lemma ContainerStarts(s: string, i: nat, depth: nat)
    requires i <= |s| && ParseValue(s, i, depth).Ok?
    requires ParseValue(s, i, depth).value.Obj? || ParseValue(s, i, depth).value.Arr?
    ensures var p := Ws(s, i); p < |s| && (s[p] == '{' || s[p] == '[') && depth < DEPTH_MAX
  {
    hide ParseBody, ParseItems, ParseNum;
    var p := Ws(s, i);
    if p < |s| && ParseNum(s, p).Ok? { NumIs(s, p); }
  }

  /** An item and those after it. */
  function ItemFrom(s: string, start: nat, ws: string, gap: string, named: bool, depth: nat): Parse<Items>
    requires start < |s|
  {
    var l := ParseLabel(s, start, named);
    if l.Err? then Err(l.error)
    else
      var v := ParseValue(s, l.next, depth);
      if v.Err? then Err(v.error)
      else
        var rest := ParseItems(s, v.next, false, named, depth);
        if rest.Err? then rest else Ok(Item(ws, gap, l.value, v.value, rest.value), rest.next)
  }

  lemma Unfolds(s: string, i: nat, first: bool, named: bool, depth: nat)
    requires i <= |s|
    ensures var (r, step) := (ParseItems(s, i, first, named, depth), StepIn(s, i, first, Close(named)));
            && (step.Broken? ==> r == Err(step.error))
            && (step.Closed? ==> r == Ok(End(s[i..step.next - 1]), step.next))
            && (step.NextAt? ==> r == ItemFrom(s, step.start, step.ws, step.gap, named, depth))
  {
    hide StepIn, ParseLabel, ParseValue;
  }

  lemma {:induction false} ItemsCut(s: string, i: nat, first: bool, named: bool, depth: nat, n: nat)
    requires i <= n <= |s| && ParseItems(s, i, first, named, depth).Ok?
    ensures ItemsAsCut(s, i, first, named, depth, n)
    decreases |s| - i, 1
  {
    hide StepIn, ParseLabel, ParseValue, ParseItems, Unfinished;
    var p := s[..n];
    var step := StepIn(s, i, first, Close(named));
    Unfolds(s, i, first, named, depth);
    Unfolds(p, i, first, named, depth);
    StepCut(s, i, first, Close(named), n);
    if step.Closed? {
      if step.next <= n { assert p[i..step.next - 1] == s[i..step.next - 1]; }
    } else if step.start < n {
      LabelCut(s, step.start, named, n);
      var l := ParseLabel(s, step.start, named);
      if l.next <= n {
        ValueCut(s, l.next, depth, n);
        var v := ParseValue(s, l.next, depth);
        if v.next <= n { ItemsCut(s, v.next, false, named, depth, n); } else { NothingFollows(p, n, named, depth); }
      } else {
        NoValue(p, n, depth);
      }
    }
  }

  /** At the end of the text nothing more can be read. */
  lemma NothingFollows(p: string, n: nat, named: bool, depth: nat)
    requires n == |p|
    ensures ParseItems(p, n, false, named, depth) == Err(Truncated)
  {}

  lemma NoValue(p: string, n: nat, depth: nat)
    requires n == |p|
    ensures ParseValue(p, n, depth) == Err(Truncated)
  {}

  /** A line that is accepted with an object or array in it, cut anywhere before the end of that, is
      reported as truncated, or it ends in an unfinished number. */
  lemma CutIsTruncated(s: string, n: nat)
    requires Validate(s).Ok? && (Validate(s).value.value.Obj? || Validate(s).value.value.Arr?)
    requires n < ParseValue(s, 0, 0).next
    ensures IsCut(Validate(s[..n]), s[..n])
  {
    hide ParseValue;
    ValueCut(s, 0, 0, n);
  }

  /** The exception is real: after a minus sign the reader calls the cut a syntax error. */
  lemma CutNumberIsSyntax()
    ensures Validate("[-1]").Ok? && Validate("[-1]"[..2]) == Err(Syntax)
  {
    AcceptsMinusOne();
    var p := "[-1]"[..2];
    assert p == "[-" && Ws(p, 0) == 0 && Ws(p, 1) == 1;
    assert p[1..2] == "-";
    assert Scan("-") == NoNumber;
    assert NumRun(p, 1) == 2;
    assert ParseNum(p, 1) == Err(Syntax);
    assert ParseValue(p, 1, 1) == Err(Syntax);
    assert StepIn(p, 1, true, ']') == NextAt(1, "", "");
    Opens(p, 0, 0);
    Unfolds(p, 1, true, false, 1);
  }

  lemma AcceptsMinusOne()
    ensures Validate("[-1]").Ok?
  {
    var s := "[-1]";
    assert Ws(s, 0) == 0 && Ws(s, 1) == 1 && Ws(s, 3) == 3 && Ws(s, 4) == 4;
    assert NumRun(s, 1) == 3 && s[1..3] == "-1";
    assert Scan("-1").Number? && Scan("-1").consumed == 2 by { MinusOne(); }
    assert ParseNum(s, 1) == Ok(Num("-1"), 3);
    assert ParseValue(s, 1, 1) == Ok(Num("-1"), 3);
    assert StepIn(s, 1, true, ']') == NextAt(1, "", "") && StepIn(s, 3, false, ']') == Closed(4);
    Opens(s, 0, 0);
    Unfolds(s, 1, true, false, 1);
    Unfolds(s, 3, false, false, 1);
  }

  lemma MinusOne()
    ensures Scan("-1").Number? && Scan("-1").consumed == 2
  {
    var n := Numeral(true, "1", "", NoExp);
    assert NumText(n) == "-1";
    SplitOfText(n);
  }
}
