/** cfg_doc_parse of control/Src/config_doc.c as it runs: the reader walks the text and every
    member is laid over the config as it is met. Proved to do what the document says. */
module ConfigMapper {
  import opened Words
  import opened JsonNumber
  import opened JsonGrammar
  import opened JsonReader
  import opened JsonTree
  import opened ConfigCodec
  import opened DocMembers
  import opened ConfigDoc
  import opened ConfigScalars
  import JsonAccepts

  // ---- the loop over the members of a container -----------------------------------------------------

  /** What a loop over the members of one object, or the elements of one array, is to achieve:
      each of them laid over `start`, and the reader at the end of it. `members` is none if the text is
      malformed somewhere in it. */
  datatype Goal<!A> = Goal(
    step: Laying<A>, start: A, named: bool, members: Option<Fields<Scanned>>, end: Outcome, depth: nat, below: set<nat>)

  /** Laying `rest` over `a` gives all of it, `n` members having been ignored before. */
  ghost predicate Owes<A>(g: Goal<A>, a: A, n: nat, rest: Option<Fields<Scanned>>)
  {
    if g.members.None? then rest.None?
    else rest.Some? && Overlay(g.step, g.start, g.members.value) == Then(Overlay(g.step, a, rest.value), n)
  }

  lemma OwesFirst<A>(g: Goal<A>)
    ensures Owes(g, g.start, 0, g.members)
  {}

  lemma OwesNothing<A>(g: Goal<A>, a: A, n: nat)
    requires Owes(g, a, n, Some(NoFields))
    ensures g.members.Some? && Overlay(g.step, g.start, g.members.value) == Took(a, n)
  {}

  /** One member is laid over, or refused. */
  lemma OwesLess<A>(g: Goal<A>, a: A, n: nat, key: string, v: Option<Tree<Scanned>>, rest: Option<Fields<Scanned>>)
    requires Owes(g, a, n, Joined(key, v, rest)) && v.Some?
    ensures match g.step(a, key, v.value)
            case Took(b, m) => Owes(g, b, n + m, rest)
            case Refused(e) => g.members.Some? ==> Overlay(g.step, g.start, g.members.value) == Refused(e)
  {
    var o := g.step(a, key, v.value);
    if o.Took? && rest.Some? {
      assert Overlay(g.step, a, Field(key, v.value, rest.value)) == Then(Overlay(g.step, o.a, rest.value), o.unknown);
    }
  }

  ghost predicate KeptBelow(j: Cursor, d: nat, below: set<nat>)
    reads j
  {
    forall l :: 0 <= l < d ==> (l in j.seen <==> l in below)
  }

  /** The reader is between two members. */
  ghost predicate Between<A>(j: Cursor, g: Goal<A>, a: A, n: nat)
    reads j
  {
    && j.Valid() && j.err.Fine? && j.depth == g.depth > 0 && KeptBelow(j, g.depth - 1, g.below)
    && ItemsOut(j.s, j.pos, j.depth - 1 !in j.seen, g.named, j.depth) == g.end
    && Owes(g, a, n, MembersAt(j.s, j.pos, j.depth - 1 !in j.seen, g.named, j.depth))
  }

  /** The reader is at the value of the member `key`, or at an element. */
  ghost predicate AtMember<A>(j: Cursor, g: Goal<A>, a: A, key: string, n: nat)
    reads j
  {
    && j.Valid() && j.err.Fine? && j.depth == g.depth > 0 && g.depth - 1 in j.seen && KeptBelow(j, g.depth - 1, g.below)
    && RestOut(j.s, j.pos, g.named, j.depth) == g.end
    && Owes(g, a, n, Joined(key, ValueAt(j.s, j.pos, j.depth), After(j.s, j.pos, g.named, j.depth)))
  }

  /** The reader has left the object, or it has failed. */
  ghost predicate Past<A>(j: Cursor, g: Goal<A>, a: A, n: nat)
    reads j
  {
    && j.Valid()
    && if j.err.Broke? then g.members.None?
       else
         && g.members.Some? && Overlay(g.step, g.start, g.members.value) == Took(a, n)
         && g.depth > 0 && j.depth == g.depth - 1 && g.end == Done(j.pos) && KeptBelow(j, j.depth, g.below)
  }

  /** A member whose name does not fit the buffer counts as unknown. */
  ghost predicate IgnoresLong<A(!new)>(step: Laying<A>)
  {
    forall a, k, v :: |k| >= KEY_MAX ==> step(a, k, v) == Took(a, 1)
  }

  /** After the value of a member. */
  lemma MemberDone<A>(g: Goal<A>, s: string, p: nat, d: nat, a: A, key: string, n: nat)
    requires p <= |s| && RestOut(s, p, g.named, d) == g.end && Owes(g, a, n, Joined(key, ValueAt(s, p, d), After(s, p, g.named, d)))
    ensures ValueAt(s, p, d).None? ==> g.members.None?
    ensures ValueAt(s, p, d).Some? <==> ParseValue(s, p, d).Ok?
    ensures ValueAt(s, p, d).Some? ==>
              var q := ParseValue(s, p, d).next;
              match g.step(a, key, ValueAt(s, p, d).value)
              case Took(b, m) => ItemsOut(s, q, false, g.named, d) == g.end && Owes(g, b, n + m, MembersAt(s, q, false, g.named, d))
              case Refused(e) => g.members.Some? ==> Overlay(g.step, g.start, g.members.value) == Refused(e)
  {
    hide ParseValue, ParseItems, MembersAt, ValueAt, ItemsOut, RestOut, Overlay;
    RestMove(s, p, g.named, d);
    AcceptedMeans(s, p, d);
    if ValueAt(s, p, d).Some? { OwesLess(g, a, n, key, ValueAt(s, p, d), After(s, p, g.named, d)); }
  }

  /** The whole name of the member that comes next. */
  ghost function FullName(s: string, i: nat, first: bool): string
    requires i <= |s| && StepIn(s, i, first, '}').NextAt?
  {
    var l := ParseLabel(s, StepIn(s, i, first, '}').start, true);
    if l.Ok? && LegalBody(l.value.body) then Unescape(l.value.body) else ""
  }

  lemma NameRead(s: string, i: nat, first: bool, depth: nat, pos: nat)
    requires i <= |s| && pos <= |s| && StepIn(s, i, first, '}').NextAt?
    requires var l := ParseLabel(s, StepIn(s, i, first, '}').start, true);
             l.Ok? && LegalBody(l.value.body) && Ws(s, pos) == l.next
    ensures MembersAt(s, i, first, true, depth) ==
            Joined(FullName(s, i, first), ValueAt(s, pos, depth), After(s, pos, true, depth))
    ensures ItemsOut(s, i, first, true, depth) == RestOut(s, pos, true, depth)
  {
    hide StepIn, ParseLabel, ParseValue, ParseItems, LegalBody, Unescape, MembersAt, ValueAt, ItemsOut, RestOut;
    MembersMove(s, i, first, true, depth);
    ItemsMove(s, i, first, true, depth);
    SameAfterWs(s, pos, depth);
    JsonAccepts.LeadingWs(s, pos, depth);
    RestWs(s, pos, true, depth);
  }

  lemma OwesBroken<A>(g: Goal<A>, a: A, n: nat)
    requires Owes(g, a, n, None)
    ensures g.members.None?
  {}

  /** cfg_json_obj_key */
  method NextName<A(!new)>(j: Cursor, ghost g: Goal<A>, ghost a: A, ghost n: nat)
    returns (more: bool, key: string, cut: bool, ghost full: string)
    requires Between(j, g, a, n) && g.named
    modifies j
    ensures j.Valid()
    ensures more ==>
              && old(j.pos) < j.pos && AtMember(j, g, a, full, n)
              && key == Held(full, KEY_MAX) && cut == Overlong(full, KEY_MAX)
    ensures !more ==> Past(j, g, a, n)
  {
    hide StepIn, ParseLabel, ParseValue, ParseItems, Held, Overlong, Unescape, ItemsOut, RestOut, MembersAt, ValueAt,
      Overlay, Owes;
    ghost var p, first := j.pos, j.depth - 1 !in j.seen;
    MembersMove(j.s, p, first, true, j.depth);
    ItemsMove(j.s, p, first, true, j.depth);
    full := "";
    more, key, cut := j.ObjKey(KEY_MAX);
    if more {
      NameRead(j.s, p, first, g.depth, j.pos);
      full := FullName(j.s, p, first);
    } else if j.err.Fine? {
      OwesNothing(g, a, n);
    } else {
      OwesBroken(g, a, n);
    }
  }

  /** dc_unknown: the member is ignored. */
  method SkipMember<A>(j: Cursor, ghost g: Goal<A>, ghost a: A, ghost key: string, ghost n: nat) returns (ok: bool)
    requires AtMember(j, g, a, key, n) && g.named && (forall v :: g.step(a, key, v) == Took(a, 1))
    modifies j
    ensures j.Valid() && if ok then old(j.pos) < j.pos && Between(j, g, a, n + 1) else Past(j, g, a, n)
  {
    hide ParseValue, ParseItems, Meaning, LegalValue, ItemsOut, RestOut, Owes, ValueAt, MembersAt, After, Overlay;
    MemberDone(g, j.s, j.pos, j.depth, a, key, n);
    ok := j.Skip();
  }

  /** next_key: the next member whose name fits the buffer. */
  method NextKey<A(!new)>(j: Cursor, ghost g: Goal<A>, ghost a: A, n: nat) returns (more: bool, key: string, m: nat)
    requires Between(j, g, a, n) && g.named && IgnoresLong(g.step)
    modifies j
    ensures j.Valid()
    ensures more ==> old(j.pos) < j.pos && AtMember(j, g, a, key, m) && |key| < KEY_MAX
    ensures !more ==> Past(j, g, a, m)
  {
    hide AtMember, Between, Past, ParseValue;
    m := n;
    var cut;
    ghost var full;
    more, key, cut, full := NextName(j, g, a, n);
    while more && cut
      invariant more ==>
                  && old(j.pos) < j.pos && AtMember(j, g, a, full, m)
                  && key == Held(full, KEY_MAX) && cut == Overlong(full, KEY_MAX)
      invariant j.Valid() && (!more ==> Past(j, g, a, m))
      decreases more, |j.s| - j.pos
    {
      var ok := SkipMember(j, g, a, full, m);
      if !ok { return false, key, m; }
      m := m + 1;
      more, key, cut, full := NextName(j, g, a, m);
    }
  }

  ghost function ObjectDue<A>(step: Laying<A>, a: A, v: Option<Tree<Scanned>>): Option<Effect<A>>
  {
    if v.None? then None
    else Some(if v.value.TObj? then Overlay(step, a, v.value.fields) else Refused(WrongJson))
  }

  ghost function MemberDue<A>(step: Laying<A>, a: A, key: string, v: Option<Tree<Scanned>>): Option<Effect<A>>
  {
    if v.None? then None else Some(step(a, key, v.value))
  }

  ghost function AsContainer(named: bool, members: Option<Fields<Scanned>>): Option<Tree<Scanned>>
  {
    if members.None? then None else Some(if named then TObj(members.value) else TArr(members.value))
  }

  /** Whether a value is the container that was asked for. */
  predicate IsContainer(named: bool, t: Tree<Scanned>) { if named then t.TObj? else t.TArr? }

  method OpenContainer<A>(j: Cursor, named: bool, ghost step: Laying<A>, ghost a: A) returns (ok: bool, ghost g: Goal<A>)
    requires j.Valid() && j.err.Fine?
    modifies j
    ensures j.Valid() && g.step == step && g.named == named
    ensures ok ==>
              && Between(j, g, a, 0) && old(j.pos) < j.pos
              && g.start == a && g.depth == old(j.depth) + 1 && g.below == old(j.seen)
              && old(Here(j)) == AsContainer(named, g.members)
              && (g.end.Done? ==> var r := ParseValue(j.s, old(j.pos), old(j.depth)); r.Ok? && r.next == g.end.next)
    ensures !ok ==> var v := old(Here(j)); v.Some? ==> !IsContainer(named, v.value)
  {
    hide ParseItems, ParseBody, ParseNum, ParseWord, LegalBody, LegalItems, ItemsMeaning, Overlay;
    Settle(j.s, j.pos, j.depth);
    ok := j.ContainerBegin(JsonGrammar.Open(named));
    g := Goal(step, a, named, MembersAt(j.s, j.pos, true, named, j.depth), ItemsOut(j.s, j.pos, true, named, j.depth),
              j.depth, old(j.seen));
    if ok {
      JsonAccepts.ValueSound(j.s, old(j.pos), old(j.depth));
      OwesFirst(g);
    }
  }

  /** In the loop: at a member, or past the last one. */
  ghost predicate Going<A>(j: Cursor, g: Goal<A>, more: bool, a: A, key: string, n: nat)
    reads j
  {
    j.Valid() && if more then AtMember(j, g, a, key, n) && |key| < KEY_MAX else Past(j, g, a, n)
  }

  /** A member nobody knows, or one that is not stored: its value is skipped. */
  method SkipValue<A>(j: Cursor, a: A, n: nat) returns (o: Effect<A>)
    requires j.Valid() && j.err.Fine?
    modifies j
    ensures j.Valid() && Mapped(j, o, if old(Here(j)).None? then None else Some(Took(a, n)))
  {
    hide ParseValue, ParseItems, Meaning, LegalValue;
    AcceptedMeans(j.s, j.pos, j.depth);
    var ok := j.Skip();
    o := if ok then Took(a, n) else Refused(WrongJson);
  }

  method PrimValue(j: Cursor, w: Wire, a: PrimPart, key: string) returns (o: Effect<PrimPart>)
    requires j.Valid() && j.err.Fine?
    modifies j
    ensures j.Valid() && Mapped(j, o, MemberDue(PrimStep(w), a, key, old(Here(j))))
  {
    hide Here, ReadF32, ReadU8, ReadU16, ReadI8, ReadBool, ReadVref, Spelled, SourceOf, ModeOf, WithReserved, Overlay,
      NameOf, PrimKeyOf;
    var name := NameOf(key);
    match PrimKeyOf(name)
    case VBulk =>
      var x := ReadFloat(j, w, name);
      o := if x.Refused? then Refused(x.error) else Took(a.(p := a.p.(vBulk := x.a)), 0);
    case VBulkCons =>
      var x := ReadFloat(j, w, name);
      o := if x.Refused? then Refused(x.error) else Took(a.(p := a.p.(vBulkCons := x.a)), 0);
    case VFloat =>
      var x := ReadFloat(j, w, name);
      o := if x.Refused? then Refused(x.error) else Took(a.(p := a.p.(vFloat := x.a)), 0);
    case VFloatCons =>
      var x := ReadFloat(j, w, name);
      o := if x.Refused? then Refused(x.error) else Took(a.(p := a.p.(vFloatCons := x.a)), 0);
    case VLimp =>
      var x := ReadFloat(j, w, name);
      o := if x.Refused? then Refused(x.error) else Took(a.(p := a.p.(vLimp := x.a), saw := true), 0);
    case NoPrim => o := SkipValue(j, a, 1);
  }

  lemma PrimLong(key: string)
    requires |key| >= KEY_MAX
    ensures PrimKeyOf(NameOf(key)).NoPrim?
  {}

  lemma PrimIgnoresLong(w: Wire)
    ensures IgnoresLong(PrimStep(w))
  {
    hide PrimKeyOf, NameOf;
    forall a, k, v | |k| >= KEY_MAX ensures PrimStep(w)(a, k, v) == Took(a, 1) { PrimLong(k); }
  }

  method PrimMembers(j: Cursor, w: Wire, a: PrimPart) returns (o: Effect<PrimPart>)
    requires j.Valid() && j.err.Fine?
    modifies j
    ensures j.Valid() && Mapped(j, o, ObjectDue(PrimStep(w), a, old(Here(j))))
  {
    hide PrimStep, IgnoresLong, Overlay, ParseValue, ParseItems, RestOut, ItemsOut, Owes, ValueAt, MembersAt, After, Joined;
    PrimIgnoresLong(w);
    var ok;
    ghost var g;
    ok, g := OpenContainer(j, true, PrimStep(w), a);
    if !ok { return Refused(WrongJson); }
    var b := a;
    var more, key;
    var n: nat;
    more, key, n := NextKey(j, g, b, 0);
    while more
      invariant Going(j, g, more, b, key, n)
      decreases more, |j.s| - j.pos
    {
      MemberDone(g, j.s, j.pos, j.depth, b, key, n);
      var x := PrimValue(j, w, b, key);
      if x.Refused? { return x; }
      b := x.a;
      more, key, n := NextKey(j, g, b, n + x.unknown);
    }
    o := if j.err.Broke? then Refused(WrongJson) else Took(b, n);
  }

  method FieldValue(j: Cursor, w: Wire, a: FieldPart, key: string) returns (o: Effect<FieldPart>)
    requires j.Valid() && j.err.Fine?
    modifies j
    ensures j.Valid() && Mapped(j, o, MemberDue(FieldStep(w), a, key, old(Here(j))))
  {
    hide Here, ReadF32, ReadU8, ReadU16, ReadI8, ReadBool, ReadVref, Spelled, SourceOf, ModeOf, WithReserved, Overlay,
      NameOf, FieldKeyOf;
    var name := NameOf(key);
    match FieldKeyOf(name)
    case Rated =>
      var x := ReadFloat(j, w, name);
      o := if x.Refused? then Refused(x.error) else Took(a.(rated := x.a), 0);
    case MaxV =>
      var x := ReadFloat(j, w, name);
      o := if x.Refused? then Refused(x.error) else Took(a.(max := x.a), 0);
    case FullField =>
      var x := ReadFlag(j, name);
      o := if x.Refused? then Refused(x.error) else Took(a.(full := x.a), 0);
    case NoField => o := SkipValue(j, a, 1);
  }

  lemma FieldLong(key: string)
    requires |key| >= KEY_MAX
    ensures FieldKeyOf(NameOf(key)).NoField?
  {}

  lemma FieldIgnoresLong(w: Wire)
    ensures IgnoresLong(FieldStep(w))
  {
    hide FieldKeyOf, NameOf;
    forall a, k, v | |k| >= KEY_MAX ensures FieldStep(w)(a, k, v) == Took(a, 1) { FieldLong(k); }
  }

  method FieldMembers(j: Cursor, w: Wire, a: FieldPart) returns (o: Effect<FieldPart>)
    requires j.Valid() && j.err.Fine?
    modifies j
    ensures j.Valid() && Mapped(j, o, ObjectDue(FieldStep(w), a, old(Here(j))))
  {
    hide FieldStep, IgnoresLong, Overlay, ParseValue, ParseItems, RestOut, ItemsOut, Owes, ValueAt, MembersAt, After, Joined;
    FieldIgnoresLong(w);
    var ok;
    ghost var g;
    ok, g := OpenContainer(j, true, FieldStep(w), a);
    if !ok { return Refused(WrongJson); }
    var b := a;
    var more, key;
    var n: nat;
    more, key, n := NextKey(j, g, b, 0);
    while more
      invariant Going(j, g, more, b, key, n)
      decreases more, |j.s| - j.pos
    {
      MemberDone(g, j.s, j.pos, j.depth, b, key, n);
      var x := FieldValue(j, w, b, key);
      if x.Refused? { return x; }
      b := x.a;
      more, key, n := NextKey(j, g, b, n + x.unknown);
    }
    o := if j.err.Broke? then Refused(WrongJson) else Took(b, n);
  }

  method LimitsValue(j: Cursor, w: Wire, a: LimitsPart, key: string) returns (o: Effect<LimitsPart>)
    requires j.Valid() && j.err.Fine?
    modifies j
    ensures j.Valid() && Mapped(j, o, MemberDue(LimitsStep(w), a, key, old(Here(j))))
  {
    hide Here, ReadF32, ReadU8, ReadU16, ReadI8, ReadBool, ReadVref, Spelled, SourceOf, ModeOf, WithReserved, Overlay,
      NameOf, LimitsKeyOf;
    var name := NameOf(key);
    match LimitsKeyOf(name)
    case BatteryC =>
      var x := ReadFloat(j, w, name);
      o := if x.Refused? then Refused(x.error) else Took(a.(l := a.l.(batteryC := x.a)), 0);
    case WiringA =>
      var x := ReadFloat(j, w, name);
      o := if x.Refused? then Refused(x.error) else Took(a.(l := a.l.(wiringA := x.a)), 0);
    case AlternatorA =>
      var x := ReadFloat(j, w, name);
      o := if x.Refused? then Refused(x.error) else Took(a.(l := a.l.(alternatorA := x.a)), 0);
    case FieldBlock =>
      var x := FieldMembers(j, w, a.field);
      o := if x.Refused? then Refused(x.error) else Took(a.(field := x.a), x.unknown);
    case NoLimits => o := SkipValue(j, a, 1);
  }

  lemma LimitsLong(key: string)
    requires |key| >= KEY_MAX
    ensures LimitsKeyOf(NameOf(key)).NoLimits?
  {}

  lemma LimitsIgnoresLong(w: Wire)
    ensures IgnoresLong(LimitsStep(w))
  {
    hide LimitsKeyOf, NameOf;
    forall a, k, v | |k| >= KEY_MAX ensures LimitsStep(w)(a, k, v) == Took(a, 1) { LimitsLong(k); }
  }

  method LimitsMembers(j: Cursor, w: Wire, a: LimitsPart) returns (o: Effect<LimitsPart>)
    requires j.Valid() && j.err.Fine?
    modifies j
    ensures j.Valid() && Mapped(j, o, ObjectDue(LimitsStep(w), a, old(Here(j))))
  {
    hide LimitsStep, IgnoresLong, Overlay, ParseValue, ParseItems, RestOut, ItemsOut, Owes, ValueAt, MembersAt, After, Joined;
    LimitsIgnoresLong(w);
    var ok;
    ghost var g;
    ok, g := OpenContainer(j, true, LimitsStep(w), a);
    if !ok { return Refused(WrongJson); }
    var b := a;
    var more, key;
    var n: nat;
    more, key, n := NextKey(j, g, b, 0);
    while more
      invariant Going(j, g, more, b, key, n)
      decreases more, |j.s| - j.pos
    {
      MemberDone(g, j.s, j.pos, j.depth, b, key, n);
      var x := LimitsValue(j, w, b, key);
      if x.Refused? { return x; }
      b := x.a;
      more, key, n := NextKey(j, g, b, n + x.unknown);
    }
    o := if j.err.Broke? then Refused(WrongJson) else Took(b, n);
  }

  method GlobalValue(j: Cursor, w: Wire, a: GlobalPart, key: string) returns (o: Effect<GlobalPart>)
    requires j.Valid() && j.err.Fine?
    modifies j
    ensures j.Valid() && Mapped(j, o, MemberDue(GlobalStep(w), a, key, old(Here(j))))
  {
    hide Here, ReadF32, ReadU8, ReadU16, ReadI8, ReadBool, ReadVref, Spelled, SourceOf, ModeOf, WithReserved, Overlay,
      NameOf, GlobalKeyOf;
    var name := NameOf(key);
    match GlobalKeyOf(name)
    case Cells =>
      var x := ReadByte(j, name);
      o := if x.Refused? then Refused(x.error) else Took(a.(g := a.g.(cells := x.a)), 0);
    case BankAh =>
      var x := ReadFloat(j, w, name);
      o := if x.Refused? then Refused(x.error) else Took(a.(g := a.g.(bankAh := x.a)), 0);
    case MaxChargeW =>
      var x := ReadFloat(j, w, name);
      o := if x.Refused? then Refused(x.error) else Took(a.(g := a.g.(maxChargeW := x.a)), 0);
    case RampWps =>
      var x := ReadFloat(j, w, name);
      o := if x.Refused? then Refused(x.error) else Took(a.(g := a.g.(rampWps := x.a)), 0);
    case TailW =>
      var x := ReadFloat(j, w, name);
      o := if x.Refused? then Refused(x.error) else Took(a.(g := a.g.(tailW := x.a)), 0);
    case TailHoldS =>
      var x := ReadShort(j, name);
      o := if x.Refused? then Refused(x.error) else Took(a.(g := a.g.(tailHoldS := x.a)), 0);
    case VclampS =>
      var x := ReadShort(j, name);
      o := if x.Refused? then Refused(x.error) else Took(a.(g := a.g.(vclampS := x.a)), 0);
    case CvHoldMin =>
      var x := ReadShort(j, name);
      o := if x.Refused? then Refused(x.error) else Took(a.(g := a.g.(cvHoldMin := x.a)), 0);
    case ChargeMaxMin =>
      var x := ReadShort(j, name);
      o := if x.Refused? then Refused(x.error) else Took(a.(g := a.g.(chargeMaxMin := x.a)), 0);
    case WarmupS =>
      var x := ReadShort(j, name);
      o := if x.Refused? then Refused(x.error) else Took(a.(g := a.g.(warmupS := x.a)), 0);
    case WarmupCoolantC =>
      var x := ReadFloat(j, w, name);
      o := if x.Refused? then Refused(x.error) else Took(a.(g := a.g.(warmupCoolantC := x.a)), 0);
    case SocTarget =>
      var x := ReadSigned(j, name);
      o := if x.Refused? then Refused(x.error) else Took(a.(g := a.g.(socTarget := x.a)), 0);
    case SkipBulkV =>
      var x := ReadFloat(j, w, name);
      o := if x.Refused? then Refused(x.error) else Took(a.(g := a.g.(skipBulkV := x.a)), 0);
    case SkipBulkSoc =>
      var x := ReadSigned(j, name);
      o := if x.Refused? then Refused(x.error) else Took(a.(g := a.g.(skipBulkSoc := x.a)), 0);
    case LimpCapW =>
      var x := ReadFloat(j, w, name);
      o := if x.Refused? then Refused(x.error) else Took(a.(g := a.g.(limpCapW := x.a)), 0);
    case LimpV =>
      var x := ReadFloat(j, w, name);
      o := if x.Refused? then Refused(x.error) else Took(a.(g := a.g.(limpV := x.a), saw := true), 0);
    case BattTempSrc =>
      var x := ReadEnum(j, name);
      o := if x.Refused? then Refused(x.error) else Took(a.(g := a.g.(battTempSrc := SourceOf(x.a))), 0);
    case RequireBattTemp =>
      var x := ReadFlag(j, name);
      o := if x.Refused? then Refused(x.error) else Took(a.(g := a.g.(requireBattTemp := x.a)), 0);
    case NoGlobal => o := SkipValue(j, a, 1);
  }

  lemma GlobalLong(key: string)
    requires |key| >= KEY_MAX
    ensures GlobalKeyOf(NameOf(key)).NoGlobal?
  {}

  lemma GlobalIgnoresLong(w: Wire)
    ensures IgnoresLong(GlobalStep(w))
  {
    hide GlobalKeyOf, NameOf;
    forall a, k, v | |k| >= KEY_MAX ensures GlobalStep(w)(a, k, v) == Took(a, 1) { GlobalLong(k); }
  }

  method GlobalMembers(j: Cursor, w: Wire, a: GlobalPart) returns (o: Effect<GlobalPart>)
    requires j.Valid() && j.err.Fine?
    modifies j
    ensures j.Valid() && Mapped(j, o, ObjectDue(GlobalStep(w), a, old(Here(j))))
  {
    hide GlobalStep, IgnoresLong, Overlay, ParseValue, ParseItems, RestOut, ItemsOut, Owes, ValueAt, MembersAt, After, Joined;
    GlobalIgnoresLong(w);
    var ok;
    ghost var g;
    ok, g := OpenContainer(j, true, GlobalStep(w), a);
    if !ok { return Refused(WrongJson); }
    var b := a;
    var more, key;
    var n: nat;
    more, key, n := NextKey(j, g, b, 0);
    while more
      invariant Going(j, g, more, b, key, n)
      decreases more, |j.s| - j.pos
    {
      MemberDone(g, j.s, j.pos, j.depth, b, key, n);
      var x := GlobalValue(j, w, b, key);
      if x.Refused? { return x; }
      b := x.a;
      more, key, n := NextKey(j, g, b, n + x.unknown);
    }
    o := if j.err.Broke? then Refused(WrongJson) else Took(b, n);
  }

  method RestValue(j: Cursor, w: Wire, a: RestPart, key: string) returns (o: Effect<RestPart>)
    requires j.Valid() && j.err.Fine?
    modifies j
    ensures j.Valid() && Mapped(j, o, MemberDue(RestStep(w), a, key, old(Here(j))))
  {
    hide Here, ReadF32, ReadU8, ReadU16, ReadI8, ReadBool, ReadVref, Spelled, SourceOf, ModeOf, WithReserved, Overlay,
      NameOf, RestKeyOf;
    var name := NameOf(key);
    match RestKeyOf(name)
    case Mode =>
      var x := ReadEnum(j, name);
      o := if x.Refused? then Refused(x.error) else Took(a.(mode := ModeOf(x.a)), 0);
    case Voltage =>
      var x := ReadReference(j, w, name, a.v);
      o := if x.Refused? then Refused(x.error) else Took(a.(ref := x.a.0, v := x.a.1), 0);
    case PowerCap =>
      var x := ReadFloat(j, w, name);
      o := if x.Refused? then Refused(x.error) else Took(a.(cap := x.a), 0);
    case NoRest => o := SkipValue(j, a, 1);
  }

  lemma RestLong(key: string)
    requires |key| >= KEY_MAX
    ensures RestKeyOf(NameOf(key)).NoRest?
  {}

  lemma RestIgnoresLong(w: Wire)
    ensures IgnoresLong(RestStep(w))
  {
    hide RestKeyOf, NameOf;
    forall a, k, v | |k| >= KEY_MAX ensures RestStep(w)(a, k, v) == Took(a, 1) { RestLong(k); }
  }

  method RestMembers(j: Cursor, w: Wire, a: RestPart) returns (o: Effect<RestPart>)
    requires j.Valid() && j.err.Fine?
    modifies j
    ensures j.Valid() && Mapped(j, o, ObjectDue(RestStep(w), a, old(Here(j))))
  {
    hide RestStep, IgnoresLong, Overlay, ParseValue, ParseItems, RestOut, ItemsOut, Owes, ValueAt, MembersAt, After, Joined;
    RestIgnoresLong(w);
    var ok;
    ghost var g;
    ok, g := OpenContainer(j, true, RestStep(w), a);
    if !ok { return Refused(WrongJson); }
    var b := a;
    var more, key;
    var n: nat;
    more, key, n := NextKey(j, g, b, 0);
    while more
      invariant Going(j, g, more, b, key, n)
      decreases more, |j.s| - j.pos
    {
      MemberDone(g, j.s, j.pos, j.depth, b, key, n);
      var x := RestValue(j, w, b, key);
      if x.Refused? { return x; }
      b := x.a;
      more, key, n := NextKey(j, g, b, n + x.unknown);
    }
    o := if j.err.Broke? then Refused(WrongJson) else Took(b, n);
  }

  method RevertValue(j: Cursor, w: Wire, a: RevertPart, key: string) returns (o: Effect<RevertPart>)
    requires j.Valid() && j.err.Fine?
    modifies j
    ensures j.Valid() && Mapped(j, o, MemberDue(RevertStep(w), a, key, old(Here(j))))
  {
    hide Here, ReadF32, ReadU8, ReadU16, ReadI8, ReadBool, ReadVref, Spelled, SourceOf, ModeOf, WithReserved, Overlay,
      NameOf, RevertKeyOf;
    var name := NameOf(key);
    match RevertKeyOf(name)
    case VCell =>
      var x := ReadFloat(j, w, name);
      o := if x.Refused? then Refused(x.error) else Took(a.(v := x.a), 0);
    case HoldS =>
      var x := ReadShort(j, name);
      o := if x.Refused? then Refused(x.error) else Took(a.(hold := x.a), 0);
    case SocPct =>
      var x := ReadSigned(j, name);
      o := if x.Refused? then Refused(x.error) else Took(a.(soc := x.a), 0);
    case Ah =>
      var x := ReadFloat(j, w, name);
      o := if x.Refused? then Refused(x.error) else Took(a.(ah := x.a), 0);
    case NoRevert => o := SkipValue(j, a, 1);
  }

  lemma RevertLong(key: string)
    requires |key| >= KEY_MAX
    ensures RevertKeyOf(NameOf(key)).NoRevert?
  {}

  lemma RevertIgnoresLong(w: Wire)
    ensures IgnoresLong(RevertStep(w))
  {
    hide RevertKeyOf, NameOf;
    forall a, k, v | |k| >= KEY_MAX ensures RevertStep(w)(a, k, v) == Took(a, 1) { RevertLong(k); }
  }

  method RevertMembers(j: Cursor, w: Wire, a: RevertPart) returns (o: Effect<RevertPart>)
    requires j.Valid() && j.err.Fine?
    modifies j
    ensures j.Valid() && Mapped(j, o, ObjectDue(RevertStep(w), a, old(Here(j))))
  {
    hide RevertStep, IgnoresLong, Overlay, ParseValue, ParseItems, RestOut, ItemsOut, Owes, ValueAt, MembersAt, After, Joined;
    RevertIgnoresLong(w);
    var ok;
    ghost var g;
    ok, g := OpenContainer(j, true, RevertStep(w), a);
    if !ok { return Refused(WrongJson); }
    var b := a;
    var more, key;
    var n: nat;
    more, key, n := NextKey(j, g, b, 0);
    while more
      invariant Going(j, g, more, b, key, n)
      decreases more, |j.s| - j.pos
    {
      MemberDone(g, j.s, j.pos, j.depth, b, key, n);
      var x := RevertValue(j, w, b, key);
      if x.Refused? { return x; }
      b := x.a;
      more, key, n := NextKey(j, g, b, n + x.unknown);
    }
    o := if j.err.Broke? then Refused(WrongJson) else Took(b, n);
  }

  method ProfileValue(j: Cursor, w: Wire, a: Profile, key: string) returns (o: Effect<Profile>)
    requires j.Valid() && j.err.Fine?
    modifies j
    ensures j.Valid() && Mapped(j, o, MemberDue(ProfileStep(w), a, key, old(Here(j))))
  {
    hide Here, ReadF32, ReadU8, ReadU16, ReadI8, ReadBool, ReadVref, Spelled, SourceOf, ModeOf, WithReserved, Overlay,
      NameOf, ProfileKeyOf;
    var name := NameOf(key);
    match ProfileKeyOf(name)
    case Id =>
      var x := ReadByte(j, name);
      o := if x.Refused? then Refused(x.error) else Took(a.(id := x.a), 0);
    case Name => o := SkipValue(j, a, 0);
    case Reserved =>
      var x := ReadFlag(j, name);
      o := if x.Refused? then Refused(x.error) else Took(a.(flags := WithReserved(a.flags, x.a)), 0);
    case CvTarget =>
      var x := ReadReference(j, w, name, a.cvTargetV);
      o := if x.Refused? then Refused(x.error) else Took(a.(cvRef := x.a.0, cvTargetV := x.a.1), 0);
    case ExitAtCv =>
      var x := ReadFlag(j, name);
      o := if x.Refused? then Refused(x.error) else Took(a.(exitAtCv := x.a), 0);
    case RestBlock =>
      var x := RestMembers(j, w, RestOf(a));
      o := if x.Refused? then Refused(x.error) else Took(WithRest(a, x.a), x.unknown);
    case RevertBlock =>
      var x := RevertMembers(j, w, RevertOf(a));
      o := if x.Refused? then Refused(x.error) else Took(WithRevert(a, x.a), x.unknown);
    case NoProfile => o := SkipValue(j, a, 1);
  }

  lemma ProfileLong(key: string)
    requires |key| >= KEY_MAX
    ensures ProfileKeyOf(NameOf(key)).NoProfile?
  {}

  lemma ProfileIgnoresLong(w: Wire)
    ensures IgnoresLong(ProfileStep(w))
  {
    hide ProfileKeyOf, NameOf;
    forall a, k, v | |k| >= KEY_MAX ensures ProfileStep(w)(a, k, v) == Took(a, 1) { ProfileLong(k); }
  }

  method ProfileMembers(j: Cursor, w: Wire, a: Profile) returns (o: Effect<Profile>)
    requires j.Valid() && j.err.Fine?
    modifies j
    ensures j.Valid() && Mapped(j, o, ObjectDue(ProfileStep(w), a, old(Here(j))))
  {
    hide ProfileStep, IgnoresLong, Overlay, ParseValue, ParseItems, RestOut, ItemsOut, Owes, ValueAt, MembersAt, After, Joined;
    ProfileIgnoresLong(w);
    var ok;
    ghost var g;
    ok, g := OpenContainer(j, true, ProfileStep(w), a);
    if !ok { return Refused(WrongJson); }
    var b := a;
    var more, key;
    var n: nat;
    more, key, n := NextKey(j, g, b, 0);
    while more
      invariant Going(j, g, more, b, key, n)
      decreases more, |j.s| - j.pos
    {
      MemberDone(g, j.s, j.pos, j.depth, b, key, n);
      var x := ProfileValue(j, w, b, key);
      if x.Refused? { return x; }
      b := x.a;
      more, key, n := NextKey(j, g, b, n + x.unknown);
    }
    o := if j.err.Broke? then Refused(WrongJson) else Took(b, n);
  }

  // ---- the table of profiles ---------------------------------------------------------------------

  /** The table, and the profile the next element goes to. */
  datatype Slot = Slot(t: ProfileTable, i: nat)

  function TableElement(w: Wire, a: Slot, v: Tree<Scanned>): Effect<Slot>
  {
    if a.i >= PROFILES then Refused(WrongType("profiles"))
    else if !v.TObj? then Refused(WrongJson)
    else
      match Overlay(ProfileStep(w), a.t[a.i], v.fields)
      case Refused(e) => Refused(e)
      case Took(p, n) => Took(Slot(a.t[a.i := p], a.i + 1), n)
  }

  function TableStep(w: Wire): Laying<Slot> { (a, key, v) => TableElement(w, a, v) }

  lemma {:induction false} TableIsOverlay(w: Wire, a: Slot, f: Fields<Scanned>)
    ensures OverlayTable(w, a.t, a.i, f) ==
            match Overlay(TableStep(w), a, f)
            case Refused(e) => Refused(e)
            case Took(b, n) => Took(b.t, n)
    decreases f
  {
    hide ProfileStep;
    if f.Field? {
      assert TableStep(w)(a, f.key, f.value) == TableElement(w, a, f.value);
      var o := TableElement(w, a, f.value);
      if o.Took? { TableIsOverlay(w, o.a, f.rest); }
    }
  }

  /** cfg_json_arr_next */
  method NextElement<A>(j: Cursor, ghost g: Goal<A>, ghost a: A, n: nat) returns (more: bool)
    requires Between(j, g, a, n) && !g.named
    modifies j
    ensures (more ==> old(j.pos) <= j.pos) && Going(j, g, more, a, "", n)
  {
    hide StepIn, ParseValue, ParseItems, ItemsOut, RestOut, MembersAt, ValueAt, Overlay;
    ghost var p, first := j.pos, j.depth - 1 !in j.seen;
    MembersMove(j.s, p, first, false, j.depth);
    ItemsMove(j.s, p, first, false, j.depth);
    more := j.ArrNext();
    if more { NoName(j.s, j.pos); } else if j.err.Fine? { OwesNothing(g, a, n); } else { OwesBroken(g, a, n); }
  }

  lemma NoName(s: string, i: nat)
    requires i < |s|
    ensures ParseLabel(s, i, false) == Ok(NoLabel, i)
  {}

  method Table(j: Cursor, w: Wire, t: ProfileTable) returns (o: Effect<ProfileTable>)
    requires j.Valid() && j.err.Fine?
    modifies j
    ensures j.Valid()
    ensures Mapped(j, o, TableDue(w, t, old(Here(j))))
  {
    hide ProfileStep, Overlay, OverlayTable, ParseValue, ParseItems, RestOut, ItemsOut, Owes, ValueAt, MembersAt, After, Joined;
    var ok;
    ghost var g;
    ok, g := OpenContainer(j, false, TableStep(w), Slot(t, 0));
    if !ok { return Refused(WrongJson); }
    if g.members.Some? { TableIsOverlay(w, Slot(t, 0), g.members.value); }
    var b, i: nat, n: nat := t, 0, 0;
    var more := NextElement(j, g, Slot(b, i), n);
    while more
      invariant Going(j, g, more, Slot(b, i), "", n)
      decreases more, |j.s| - j.pos
    {
      MemberDone(g, j.s, j.pos, j.depth, Slot(b, i), "", n);
      ghost var before := Here(j);
      if i >= PROFILES { return Refused(WrongType("profiles")); }
      var x := ProfileMembers(j, w, b[i]);
      ElementDue(w, Slot(b, i), before, x);
      if x.Refused? { return Refused(x.error); }
      b, i, n := b[i := x.a], i + 1, n + x.unknown;
      more := NextElement(j, g, Slot(b, i), n);
    }
    o := if j.err.Broke? then Refused(WrongJson) else Took(b, n);
  }

  /** An element of the table is one profile. */
  lemma ElementDue(w: Wire, a: Slot, v: Option<Tree<Scanned>>, x: Effect<Profile>)
    requires a.i < PROFILES && (v.Some? ==> Some(x) == ObjectDue(ProfileStep(w), a.t[a.i], v))
    ensures v.Some? ==> TableStep(w)(a, "", v.value) ==
                        if x.Refused? then Refused(x.error) else Took(Slot(a.t[a.i := x.a], a.i + 1), x.unknown)
  {
    hide ProfileStep, Overlay;
  }

  ghost function TableDue(w: Wire, t: ProfileTable, v: Option<Tree<Scanned>>): Option<Effect<ProfileTable>>
  {
    if v.None? then None
    else Some(if v.value.TArr? then OverlayTable(w, t, 0, v.value.fields) else Refused(WrongJson))
  }

  // ---- the document ------------------------------------------------------------------------------

  method TopValue(j: Cursor, w: Wire, a: Draft, key: string) returns (o: Effect<Draft>)
    requires j.Valid() && j.err.Fine?
    modifies j
    ensures j.Valid() && Mapped(j, o, MemberDue(TopStep(w), a, key, old(Here(j))))
  {
    hide Here, ReadF32, ReadU8, ReadU16, ReadI8, ReadBool, ReadVref, Spelled, SourceOf, ModeOf, WithReserved, Overlay,
      OverlayTable, NameOf, TopKeyOf;
    var name := NameOf(key);
    match TopKeyOf(name)
    case SchemaVersion =>
      var x := ReadShort(j, name);
      o := if x.Refused? then Refused(x.error) else if x.a != SCHEMA then Refused(WrongSchema) else Took(a.(schema := x.a), 0);
    case PrimBlock =>
      var x := PrimMembers(j, w, PrimsOf(a));
      o := if x.Refused? then Refused(x.error) else Took(WithPrims(a, x.a), x.unknown);
    case LimitsBlock =>
      var x := LimitsMembers(j, w, LimitsOf(a));
      o := if x.Refused? then Refused(x.error) else Took(WithLimits(a, x.a), x.unknown);
    case GlobalBlock =>
      var x := GlobalMembers(j, w, GlobalOf(a));
      o := if x.Refused? then Refused(x.error) else Took(WithGlobal(a, x.a), x.unknown);
    case Profiles =>
      var x := Table(j, w, a.c.profiles);
      o := if x.Refused? then Refused(x.error) else Took(a.(c := a.c.(profiles := x.a)), x.unknown);
    case ActiveProfile =>
      var x := ReadByte(j, name);
      o := if x.Refused? then Refused(x.error) else Took(a.(c := a.c.(active := x.a)), 0);
    case Firmware => o := SkipValue(j, a, 0);
    case NoTop => o := SkipValue(j, a, 1);
  }

  lemma TopLong(key: string)
    requires |key| >= KEY_MAX
    ensures TopKeyOf(NameOf(key)).NoTop?
  {}

  lemma TopIgnoresLong(w: Wire)
    ensures IgnoresLong(TopStep(w))
  {
    hide TopKeyOf, NameOf;
    forall a, k, v | |k| >= KEY_MAX ensures TopStep(w)(a, k, v) == Took(a, 1) { TopLong(k); }
  }

  method TopMembers(j: Cursor, w: Wire, a: Draft) returns (o: Effect<Draft>)
    requires j.Valid() && j.err.Fine?
    modifies j
    ensures j.Valid() && Mapped(j, o, ObjectDue(TopStep(w), a, old(Here(j))))
  {
    hide TopStep, IgnoresLong, Overlay, ParseValue, ParseItems, RestOut, ItemsOut, Owes, ValueAt, MembersAt, After, Joined;
    TopIgnoresLong(w);
    var ok;
    ghost var g;
    ok, g := OpenContainer(j, true, TopStep(w), a);
    if !ok { return Refused(WrongJson); }
    var b := a;
    var more, key;
    var n: nat;
    more, key, n := NextKey(j, g, b, 0);
    while more
      invariant Going(j, g, more, b, key, n)
      decreases more, |j.s| - j.pos
    {
      MemberDone(g, j.s, j.pos, j.depth, b, key, n);
      var x := TopValue(j, w, b, key);
      if x.Refused? { return x; }
      b := x.a;
      more, key, n := NextKey(j, g, b, n + x.unknown);
    }
    o := if j.err.Broke? then Refused(WrongJson) else Took(b, n);
  }

  /** resolve_after_parse: references take the value of their primitive, and limp_vcell follows
      a v_limp that was set alone. */
  method Resolve(d: Draft) returns (c: Config)
    ensures c == Resolved(d)
  {
    var t := d.c.profiles;
    var i := 0;
    while i < PROFILES
      invariant 0 <= i <= PROFILES
      invariant forall k :: 0 <= k < PROFILES ==>
                  t[k] == if k < i then ResolvedProfile(d.c.prim, d.c.profiles[k]) else d.c.profiles[k]
    {
      var cv := Referenced(d.c.prim, t[i].cvRef);
      var rest := Referenced(d.c.prim, t[i].restRef);
      if cv.Some? { t := t[i := t[i].(cvTargetV := cv.value)]; }
      if rest.Some? { t := t[i := t[i].(restV := rest.value)]; }
      i := i + 1;
    }
    c := d.c.(profiles := t);
    if d.sawVLimp && !d.sawLimpVcell { c := c.(globals := c.globals.(limpV := c.prim.vLimp)); }
    assert c.profiles == Resolved(d).profiles;
  }

  /** cfg_doc_parse: for every text at the cursor, over every base config. A well-formed value
      does to the config exactly what it says; a malformed one is refused. */
  method ApplyDocument(j: Cursor, w: Wire, base: Config) returns (o: Effect<Applied>)
    requires j.Valid() && j.err.Fine?
    modifies j
    ensures j.Valid()
    ensures var v := old(Here(j)); Mapped(j, o, if v.None? then None else Some(Parsed(w, base, v.value)))
  {
    hide Overlay, TopStep, Resolved, Here;
    var x := TopMembers(j, w, Draft(base, false, false, -1));
    if x.Refused? { return Refused(x.error); }
    var c := Resolve(x.a);
    o := Took(Applied(c, x.a.schema), x.unknown);
  }
}
