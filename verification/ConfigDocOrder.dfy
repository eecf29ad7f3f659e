/** The order in which a config document lists its members changes nothing. */
module ConfigDocOrder {
  import opened Words
  import opened JsonNumber
  import opened JsonTree
  import opened ConfigCodec
  import opened DocMembers
  import opened ConfigDoc

  /** Reordering changes only objects and arrays. */
  lemma SameLeaf(v: Tree<Scanned>, u: Tree<Scanned>)
    requires Reordered(v, u)
    ensures v == u || (v.TObj? && u.TObj?) || (v.TArr? && u.TArr?)
  {}

  /** Either the names differ, or neither is known. */
  predicate Apart(m: string, n: string) { m != n || (m == "" && n == "") }

  lemma NamesApart(k: string, l: string)
    requires CString(k) != CString(l)
    ensures Apart(NameOf(k), NameOf(l))
  {}

  // ---- objects of plain values -------------------------------------------------------------------

  lemma PrimKeysApart(m: string, n: string)
    requires Apart(m, n)
    ensures PrimKeyOf(m) != PrimKeyOf(n) || (PrimKeyOf(m).NoPrim? && PrimKeyOf(n).NoPrim?)
  {}

  lemma PrimSwap(w: Wire, a: PrimPart, k: string, v: Tree<Scanned>, l: string, u: Tree<Scanned>)
    requires CString(k) != CString(l)
    ensures Agree(Two(PrimStep(w), a, k, v, l, u), Two(PrimStep(w), a, l, u, k, v))
  {
    hide NameOf, PrimKeyOf, ReadF32;
    NamesApart(k, l);
    PrimKeysApart(NameOf(k), NameOf(l));
  }

  lemma FieldKeysApart(m: string, n: string)
    requires Apart(m, n)
    ensures FieldKeyOf(m) != FieldKeyOf(n) || (FieldKeyOf(m).NoField? && FieldKeyOf(n).NoField?)
  {}

  lemma FieldSwap(w: Wire, a: FieldPart, k: string, v: Tree<Scanned>, l: string, u: Tree<Scanned>)
    requires CString(k) != CString(l)
    ensures Agree(Two(FieldStep(w), a, k, v, l, u), Two(FieldStep(w), a, l, u, k, v))
  {
    hide NameOf, FieldKeyOf, ReadF32, ReadBool;
    NamesApart(k, l);
    FieldKeysApart(NameOf(k), NameOf(l));
  }

  lemma RestKeysApart(m: string, n: string)
    requires Apart(m, n)
    ensures RestKeyOf(m) != RestKeyOf(n) || (RestKeyOf(m).NoRest? && RestKeyOf(n).NoRest?)
  {}

  lemma RestSwap(w: Wire, a: RestPart, k: string, v: Tree<Scanned>, l: string, u: Tree<Scanned>)
    requires CString(k) != CString(l)
    ensures Agree(Two(RestStep(w), a, k, v, l, u), Two(RestStep(w), a, l, u, k, v))
  {
    hide NameOf, RestKeyOf, ReadF32, ReadMode, RefOf;
    NamesApart(k, l);
    RestKeysApart(NameOf(k), NameOf(l));
  }

  lemma RevertKeysApart(m: string, n: string)
    requires Apart(m, n)
    ensures RevertKeyOf(m) != RevertKeyOf(n) || (RevertKeyOf(m).NoRevert? && RevertKeyOf(n).NoRevert?)
  {}

  lemma RevertSwap(w: Wire, a: RevertPart, k: string, v: Tree<Scanned>, l: string, u: Tree<Scanned>)
    requires CString(k) != CString(l)
    ensures Agree(Two(RevertStep(w), a, k, v, l, u), Two(RevertStep(w), a, l, u, k, v))
  {
    hide NameOf, RevertKeyOf, ReadF32, ReadU16, ReadI8;
    NamesApart(k, l);
    RevertKeysApart(NameOf(k), NameOf(l));
  }

  function GlobalName(k: GlobalKey): string
  {
    match k
    case Cells => "cells_series"
    case BankAh => "bank_capacity_ah"
    case MaxChargeW => "max_charge_power_w"
    case RampWps => "ramp_w_per_s"
    case TailW => "p_tail_w"
    case TailHoldS => "t_tail_hold_s"
    case VclampS => "t_vclamp_s"
    case CvHoldMin => "cv_hold_exit_min"
    case ChargeMaxMin => "t_charge_max_min"
    case WarmupS => "warmup_time_s"
    case WarmupCoolantC => "warmup_coolant_c"
    case SocTarget => "soc_target_pct"
    case SkipBulkV => "skip_bulk_vcell"
    case SkipBulkSoc => "skip_bulk_soc_pct"
    case LimpCapW => "limp_power_cap_w"
    case LimpV => "limp_vcell"
    case BattTempSrc => "batt_temp_src"
    case RequireBattTemp => "require_batt_temp"
    case NoGlobal => ""
  }

  lemma GlobalNamed2(name: string)
    ensures GlobalKeyOf2(name).NoGlobal? || name == GlobalName(GlobalKeyOf2(name))
  {}

  lemma GlobalNamed(name: string)
    ensures GlobalKeyOf(name).NoGlobal? || name == GlobalName(GlobalKeyOf(name))
  {
    hide GlobalKeyOf2;
    GlobalNamed2(name);
  }

  lemma NamelessGlobal()
    ensures GlobalKeyOf("").NoGlobal?
  {}

  lemma GlobalKeysApart(m: string, n: string)
    requires Apart(m, n)
    ensures GlobalKeyOf(m) != GlobalKeyOf(n) || (GlobalKeyOf(m).NoGlobal? && GlobalKeyOf(n).NoGlobal?)
  {
    hide GlobalKeyOf, GlobalName;
    GlobalNamed(m);
    GlobalNamed(n);
    NamelessGlobal();
  }

  /** What a value means for each kind of field. */
  datatype Readings = Readings(f: Option<u32>, b: Option<u8>, i: Option<u8>, h: Option<u16>, s: Option<u8>, t: Option<bool>)

  function ReadAll(w: Wire, v: Tree<Scanned>): Readings
  {
    Readings(ReadF32(w, v), ReadU8(v), ReadI8(v), ReadU16(v), ReadSource(v), ReadBool(v))
  }

  predicate Accepts(k: GlobalKey, r: Readings)
  {
    match k
    case Cells => r.b.Some?
    case SocTarget => r.i.Some?
    case SkipBulkSoc => r.i.Some?
    case TailHoldS => r.h.Some?
    case VclampS => r.h.Some?
    case CvHoldMin => r.h.Some?
    case ChargeMaxMin => r.h.Some?
    case WarmupS => r.h.Some?
    case BattTempSrc => r.s.Some?
    case RequireBattTemp => r.t.Some?
    case NoGlobal => true
    case _ => r.f.Some?
  }

  function Pick<T>(here: bool, o: Option<T>, was: T): T { if here && o.Some? then o.value else was }

  /** One member seen field by field: its own field is set, the others stay. */
  function Masked(a: GlobalPart, k: GlobalKey, r: Readings): GlobalPart
  {
    GlobalPart(Globals(
      Pick(k.Cells?, r.b, a.g.cells), Pick(k.BankAh?, r.f, a.g.bankAh), Pick(k.MaxChargeW?, r.f, a.g.maxChargeW),
      Pick(k.RampWps?, r.f, a.g.rampWps), Pick(k.TailW?, r.f, a.g.tailW), Pick(k.TailHoldS?, r.h, a.g.tailHoldS),
      Pick(k.VclampS?, r.h, a.g.vclampS), Pick(k.CvHoldMin?, r.h, a.g.cvHoldMin), Pick(k.ChargeMaxMin?, r.h, a.g.chargeMaxMin),
      Pick(k.WarmupS?, r.h, a.g.warmupS), Pick(k.WarmupCoolantC?, r.f, a.g.warmupCoolantC), Pick(k.SocTarget?, r.i, a.g.socTarget),
      Pick(k.SkipBulkV?, r.f, a.g.skipBulkV), Pick(k.SkipBulkSoc?, r.i, a.g.skipBulkSoc), a.g.rotorRatedV,
      a.g.rotorMaxV, a.g.fullField48, Pick(k.LimpV?, r.f, a.g.limpV),
      Pick(k.LimpCapW?, r.f, a.g.limpCapW), Pick(k.BattTempSrc?, r.s, a.g.battTempSrc), Pick(k.RequireBattTemp?, r.t, a.g.requireBattTemp)),
      a.saw || k.LimpV?)
  }

  lemma GlobalEffect(w: Wire, a: GlobalPart, name: string, v: Tree<Scanned>)
    ensures var (o, k, r) := (GlobalMember(w, a, name, v), GlobalKeyOf(name), ReadAll(w, v));
            if Accepts(k, r) then o == Took(Masked(a, k, r), if k.NoGlobal? then 1 else 0) else o.Refused?
  {
    hide GlobalKeyOf, ReadF32, ReadU8, ReadU16, ReadI8, ReadSource, ReadBool;
  }

  lemma MasksSwap(a: GlobalPart, k: GlobalKey, r: Readings, l: GlobalKey, q: Readings)
    requires k != l || k.NoGlobal?
    ensures Masked(Masked(a, k, r), l, q) == Masked(Masked(a, l, q), k, r)
  {}

  lemma GlobalSwap(w: Wire, a: GlobalPart, k: string, v: Tree<Scanned>, l: string, u: Tree<Scanned>)
    requires CString(k) != CString(l)
    ensures Agree(Two(GlobalStep(w), a, k, v, l, u), Two(GlobalStep(w), a, l, u, k, v))
  {
    hide NameOf, GlobalKeyOf, ReadAll, GlobalMember, Masked, Accepts;
    NamesApart(k, l);
    var (m, n, r, q) := (NameOf(k), NameOf(l), ReadAll(w, v), ReadAll(w, u));
    GlobalKeysApart(m, n);
    GlobalEffect(w, a, m, v);
    GlobalEffect(w, a, n, u);
    GlobalEffect(w, Masked(a, GlobalKeyOf(m), r), n, u);
    GlobalEffect(w, Masked(a, GlobalKeyOf(n), q), m, v);
    MasksSwap(a, GlobalKeyOf(m), r, GlobalKeyOf(n), q);
  }

  // ---- objects with objects inside -----------------------------------------------------------------

  lemma LimitsKeysApart(m: string, n: string)
    requires Apart(m, n)
    ensures LimitsKeyOf(m) != LimitsKeyOf(n) || (LimitsKeyOf(m).NoLimits? && LimitsKeyOf(n).NoLimits?)
  {}

  lemma LimitsSwap(w: Wire, a: LimitsPart, k: string, v: Tree<Scanned>, l: string, u: Tree<Scanned>)
    requires CString(k) != CString(l)
    ensures Agree(Two(LimitsStep(w), a, k, v, l, u), Two(LimitsStep(w), a, l, u, k, v))
  {
    hide NameOf, LimitsKeyOf, ReadF32, Overlay, FieldStep;
    NamesApart(k, l);
    LimitsKeysApart(NameOf(k), NameOf(l));
  }

  lemma ProfileKeysApart(m: string, n: string)
    requires Apart(m, n)
    ensures ProfileKeyOf(m) != ProfileKeyOf(n) || (ProfileKeyOf(m).NoProfile? && ProfileKeyOf(n).NoProfile?)
  {}

  lemma PlainProfileSwap(w: Wire, a: Profile, k: string, v: Tree<Scanned>, l: string, u: Tree<Scanned>)
    requires var (m, n) := (ProfileKeyOf(NameOf(k)), ProfileKeyOf(NameOf(l)));
             (m != n || (m.NoProfile? && n.NoProfile?)) && !m.RestBlock? && !m.RevertBlock? && !n.RestBlock? && !n.RevertBlock?
    ensures Agree(Two(ProfileStep(w), a, k, v, l, u), Two(ProfileStep(w), a, l, u, k, v))
  {
    hide NameOf, ProfileKeyOf, ReadU8, ReadBool, ReadF32, RefOf, Overlay, RestStep, RevertStep, WithReserved;
  }

  lemma BlockProfileSwap(w: Wire, a: Profile, k: string, v: Tree<Scanned>, l: string, u: Tree<Scanned>)
    requires var (m, n) := (ProfileKeyOf(NameOf(k)), ProfileKeyOf(NameOf(l)));
             (m.RestBlock? || m.RevertBlock?) && m != n
    ensures Agree(Two(ProfileStep(w), a, k, v, l, u), Two(ProfileStep(w), a, l, u, k, v))
  {
    hide NameOf, ProfileKeyOf, ReadU8, ReadBool, ReadF32, RefOf, Overlay, RestStep, RevertStep, WithReserved;
  }

  lemma ProfileSwap(w: Wire, a: Profile, k: string, v: Tree<Scanned>, l: string, u: Tree<Scanned>)
    requires CString(k) != CString(l)
    ensures Agree(Two(ProfileStep(w), a, k, v, l, u), Two(ProfileStep(w), a, l, u, k, v))
  {
    hide NameOf, ProfileKeyOf, Two;
    NamesApart(k, l);
    ProfileKeysApart(NameOf(k), NameOf(l));
    var (m, n) := (ProfileKeyOf(NameOf(k)), ProfileKeyOf(NameOf(l)));
    if m.RestBlock? || m.RevertBlock? {
      BlockProfileSwap(w, a, k, v, l, u);
    } else if n.RestBlock? || n.RevertBlock? {
      BlockProfileSwap(w, a, l, u, k, v);
    } else {
      PlainProfileSwap(w, a, k, v, l, u);
    }
  }

  lemma TopKeysApart(m: string, n: string)
    requires Apart(m, n)
    ensures TopKeyOf(m) != TopKeyOf(n) || (TopKeyOf(m).NoTop? && TopKeyOf(n).NoTop?)
  {}

  function WithField(a: GlobalPart, x: FieldPart): GlobalPart
  {
    a.(g := a.g.(rotorRatedV := x.rated, rotorMaxV := x.max, fullField48 := x.full))
  }

  lemma MaskedAround(a: GlobalPart, x: FieldPart, k: GlobalKey, r: Readings)
    ensures Masked(WithField(a, x), k, r) == WithField(Masked(a, k, r), x)
  {}

  /** The global block neither reads nor writes what the field block sets. */
  lemma {:induction false} GlobalAround(w: Wire, a: GlobalPart, x: FieldPart, f: Fields<Scanned>)
    ensures var (o, q) := (Overlay(GlobalStep(w), a, f), Overlay(GlobalStep(w), WithField(a, x), f));
            if o.Refused? then q.Refused? else q == Took(WithField(o.a, x), o.unknown)
    decreases f
  {
    if f.Field? {
      hide NameOf, GlobalKeyOf, ReadAll, GlobalMember, Masked, Accepts, WithField;
      var (m, r) := (NameOf(f.key), ReadAll(w, f.value));
      GlobalEffect(w, a, m, f.value);
      GlobalEffect(w, WithField(a, x), m, f.value);
      MaskedAround(a, x, GlobalKeyOf(m), r);
      GlobalAround(w, Masked(a, GlobalKeyOf(m), r), x, f.rest);
    }
  }

  /** The members that are objects of settings. */
  predicate IsBlock(k: TopKey) { k.PrimBlock? || k.LimitsBlock? || k.GlobalBlock? }

  lemma LimitsGlobalSwap(w: Wire, a: Draft, k: string, v: Tree<Scanned>, l: string, u: Tree<Scanned>)
    requires TopKeyOf(NameOf(k)).LimitsBlock? && TopKeyOf(NameOf(l)).GlobalBlock?
    ensures Agree(Two(TopStep(w), a, k, v, l, u), Two(TopStep(w), a, l, u, k, v))
  {
    hide NameOf, TopKeyOf, Overlay, LimitsStep, GlobalStep;
    if v.TObj? && u.TObj? {
      var o := Overlay(LimitsStep(w), LimitsOf(a), v.fields);
      GlobalAround(w, GlobalOf(a), LimitsOf(a).field, u.fields);
      assert WithField(GlobalOf(a), LimitsOf(a).field) == GlobalOf(a);
      if o.Took? {
        GlobalAround(w, GlobalOf(a), o.a.field, u.fields);
        assert GlobalOf(WithLimits(a, o.a)) == WithField(GlobalOf(a), o.a.field);
      }
    }
  }

  lemma PlainTopSwap(w: Wire, a: Draft, k: string, v: Tree<Scanned>, l: string, u: Tree<Scanned>)
    requires var (m, n) := (TopKeyOf(NameOf(k)), TopKeyOf(NameOf(l)));
             (m != n || (m.NoTop? && n.NoTop?)) && !IsBlock(m) && !IsBlock(n)
    ensures Agree(Two(TopStep(w), a, k, v, l, u), Two(TopStep(w), a, l, u, k, v))
  {
    hide NameOf, TopKeyOf, ReadU8, ReadU16, Overlay, OverlayTable, PrimStep, LimitsStep, GlobalStep;
  }

  lemma PrimBlockSwap(w: Wire, a: Draft, k: string, v: Tree<Scanned>, l: string, u: Tree<Scanned>)
    requires var (m, n) := (TopKeyOf(NameOf(k)), TopKeyOf(NameOf(l)));
             m.PrimBlock? && (n.LimitsBlock? || n.GlobalBlock?)
    ensures Agree(Two(TopStep(w), a, k, v, l, u), Two(TopStep(w), a, l, u, k, v))
  {
    hide NameOf, TopKeyOf, ReadU8, ReadU16, Overlay, OverlayTable, PrimStep, LimitsStep, GlobalStep;
  }

  lemma PrimTopSwap(w: Wire, a: Draft, k: string, v: Tree<Scanned>, l: string, u: Tree<Scanned>)
    requires var (m, n) := (TopKeyOf(NameOf(k)), TopKeyOf(NameOf(l)));
             m.PrimBlock? && !IsBlock(n)
    ensures Agree(Two(TopStep(w), a, k, v, l, u), Two(TopStep(w), a, l, u, k, v))
  {
    hide NameOf, TopKeyOf, ReadU8, ReadU16, Overlay, OverlayTable, PrimStep, LimitsStep, GlobalStep;
  }

  lemma PrimSwapsAll(w: Wire, a: Draft, k: string, v: Tree<Scanned>, l: string, u: Tree<Scanned>)
    requires TopKeyOf(NameOf(k)).PrimBlock? && !TopKeyOf(NameOf(l)).PrimBlock?
    ensures Agree(Two(TopStep(w), a, k, v, l, u), Two(TopStep(w), a, l, u, k, v))
  {
    hide NameOf, TopKeyOf, Two;
    if TopKeyOf(NameOf(l)).LimitsBlock? || TopKeyOf(NameOf(l)).GlobalBlock? {
      PrimBlockSwap(w, a, k, v, l, u);
    } else {
      PrimTopSwap(w, a, k, v, l, u);
    }
  }

  lemma BlockTopSwap(w: Wire, a: Draft, k: string, v: Tree<Scanned>, l: string, u: Tree<Scanned>)
    requires var (m, n) := (TopKeyOf(NameOf(k)), TopKeyOf(NameOf(l)));
             (m.LimitsBlock? || m.GlobalBlock?) && !IsBlock(n)
    ensures Agree(Two(TopStep(w), a, k, v, l, u), Two(TopStep(w), a, l, u, k, v))
  {
    hide NameOf, TopKeyOf, ReadU8, ReadU16, Overlay, OverlayTable, PrimStep, LimitsStep, GlobalStep;
  }

  lemma TopSwap(w: Wire, a: Draft, k: string, v: Tree<Scanned>, l: string, u: Tree<Scanned>)
    requires CString(k) != CString(l)
    ensures Agree(Two(TopStep(w), a, k, v, l, u), Two(TopStep(w), a, l, u, k, v))
  {
    hide NameOf, TopKeyOf, Two;
    NamesApart(k, l);
    TopKeysApart(NameOf(k), NameOf(l));
    var (m, n) := (TopKeyOf(NameOf(k)), TopKeyOf(NameOf(l)));
    if m.PrimBlock? {
      PrimSwapsAll(w, a, k, v, l, u);
    } else if n.PrimBlock? {
      PrimSwapsAll(w, a, l, u, k, v);
    } else if m.LimitsBlock? && n.GlobalBlock? {
      LimitsGlobalSwap(w, a, k, v, l, u);
    } else if n.LimitsBlock? && m.GlobalBlock? {
      LimitsGlobalSwap(w, a, l, u, k, v);
    } else if m.LimitsBlock? || m.GlobalBlock? {
      BlockTopSwap(w, a, k, v, l, u);
    } else if n.LimitsBlock? || n.GlobalBlock? {
      BlockTopSwap(w, a, l, u, k, v);
    } else {
      PlainTopSwap(w, a, k, v, l, u);
    }
  }

  // ---- reordering inside a member -------------------------------------------------------------------

  lemma PrimRespects(w: Wire, a: PrimPart, k: string, v: Tree<Scanned>, u: Tree<Scanned>)
    requires Reordered(v, u)
    ensures Agree(PrimStep(w)(a, k, v), PrimStep(w)(a, k, u))
  {
    hide NameOf, PrimKeyOf, Reordered;
    SameLeaf(v, u);
  }

  lemma FieldRespects(w: Wire, a: FieldPart, k: string, v: Tree<Scanned>, u: Tree<Scanned>)
    requires Reordered(v, u)
    ensures Agree(FieldStep(w)(a, k, v), FieldStep(w)(a, k, u))
  {
    hide NameOf, FieldKeyOf, Reordered;
    SameLeaf(v, u);
  }

  lemma RestRespects(w: Wire, a: RestPart, k: string, v: Tree<Scanned>, u: Tree<Scanned>)
    requires Reordered(v, u)
    ensures Agree(RestStep(w)(a, k, v), RestStep(w)(a, k, u))
  {
    hide NameOf, RestKeyOf, Reordered, RefOf;
    SameLeaf(v, u);
  }

  lemma RevertRespects(w: Wire, a: RevertPart, k: string, v: Tree<Scanned>, u: Tree<Scanned>)
    requires Reordered(v, u)
    ensures Agree(RevertStep(w)(a, k, v), RevertStep(w)(a, k, u))
  {
    hide NameOf, RevertKeyOf, Reordered;
    SameLeaf(v, u);
  }

  lemma GlobalRespects(w: Wire, a: GlobalPart, k: string, v: Tree<Scanned>, u: Tree<Scanned>)
    requires Reordered(v, u)
    ensures Agree(GlobalStep(w)(a, k, v), GlobalStep(w)(a, k, u))
  {
    SameLeaf(v, u);
    assert ReadAll(w, v) == ReadAll(w, u);
    hide NameOf, GlobalKeyOf, GlobalMember, ReadAll, Reordered, Masked, Accepts;
    GlobalEffect(w, a, NameOf(k), v);
    GlobalEffect(w, a, NameOf(k), u);
  }

  lemma PrimOrder(w: Wire)
    ensures Commutes(PrimStep(w)) && Respects(PrimStep(w))
  {
    hide PrimStep, Two, Reordered, CString;
    forall a, k, v, l, u | CString(k) != CString(l)
      ensures Agree(Two(PrimStep(w), a, k, v, l, u), Two(PrimStep(w), a, l, u, k, v))
    {
      PrimSwap(w, a, k, v, l, u);
    }
    forall a, k, v, u | Reordered(v, u) ensures Agree(PrimStep(w)(a, k, v), PrimStep(w)(a, k, u)) {
      PrimRespects(w, a, k, v, u);
    }
  }

  lemma FieldOrder(w: Wire)
    ensures Commutes(FieldStep(w)) && Respects(FieldStep(w))
  {
    hide FieldStep, Two, Reordered, CString;
    forall a, k, v, l, u | CString(k) != CString(l)
      ensures Agree(Two(FieldStep(w), a, k, v, l, u), Two(FieldStep(w), a, l, u, k, v))
    {
      FieldSwap(w, a, k, v, l, u);
    }
    forall a, k, v, u | Reordered(v, u) ensures Agree(FieldStep(w)(a, k, v), FieldStep(w)(a, k, u)) {
      FieldRespects(w, a, k, v, u);
    }
  }

  lemma RestOrder(w: Wire)
    ensures Commutes(RestStep(w)) && Respects(RestStep(w))
  {
    hide RestStep, Two, Reordered, CString;
    forall a, k, v, l, u | CString(k) != CString(l)
      ensures Agree(Two(RestStep(w), a, k, v, l, u), Two(RestStep(w), a, l, u, k, v))
    {
      RestSwap(w, a, k, v, l, u);
    }
    forall a, k, v, u | Reordered(v, u) ensures Agree(RestStep(w)(a, k, v), RestStep(w)(a, k, u)) {
      RestRespects(w, a, k, v, u);
    }
  }

  lemma RevertOrder(w: Wire)
    ensures Commutes(RevertStep(w)) && Respects(RevertStep(w))
  {
    hide RevertStep, Two, Reordered, CString;
    forall a, k, v, l, u | CString(k) != CString(l)
      ensures Agree(Two(RevertStep(w), a, k, v, l, u), Two(RevertStep(w), a, l, u, k, v))
    {
      RevertSwap(w, a, k, v, l, u);
    }
    forall a, k, v, u | Reordered(v, u) ensures Agree(RevertStep(w)(a, k, v), RevertStep(w)(a, k, u)) {
      RevertRespects(w, a, k, v, u);
    }
  }

  lemma GlobalOrder(w: Wire)
    ensures Commutes(GlobalStep(w)) && Respects(GlobalStep(w))
  {
    hide GlobalStep, Two, Reordered, CString;
    forall a, k, v, l, u | CString(k) != CString(l)
      ensures Agree(Two(GlobalStep(w), a, k, v, l, u), Two(GlobalStep(w), a, l, u, k, v))
    {
      GlobalSwap(w, a, k, v, l, u);
    }
    forall a, k, v, u | Reordered(v, u) ensures Agree(GlobalStep(w)(a, k, v), GlobalStep(w)(a, k, u)) {
      GlobalRespects(w, a, k, v, u);
    }
  }

  /** Two objects in one place of a document: reordering them changes nothing there. */
  lemma ObjectsAgree<A(!new)>(step: Laying<A>, a: A, v: Tree<Scanned>, u: Tree<Scanned>)
    requires Commutes(step) && Respects(step) && Reordered(v, u) && v.TObj?
    ensures u.TObj? && Agree(Overlay(step, a, v.fields), Overlay(step, a, u.fields))
  {
    hide Commutes, Respects, Agree;
    OrderIsNothing(step, a, v.fields, u.fields);
  }

  lemma LimitsRespects(w: Wire, a: LimitsPart, k: string, v: Tree<Scanned>, u: Tree<Scanned>)
    requires Reordered(v, u)
    ensures Agree(LimitsStep(w)(a, k, v), LimitsStep(w)(a, k, u))
  {
    hide NameOf, LimitsKeyOf, Reordered, Commutes, Respects, Overlay, FieldStep;
    SameLeaf(v, u);
    if v.TObj? {
      FieldOrder(w);
      ObjectsAgree(FieldStep(w), a.field, v, u);
    }
  }

  lemma ProfileRespects(w: Wire, a: Profile, k: string, v: Tree<Scanned>, u: Tree<Scanned>)
    requires Reordered(v, u)
    ensures Agree(ProfileStep(w)(a, k, v), ProfileStep(w)(a, k, u))
  {
    hide NameOf, ProfileKeyOf, Reordered, Commutes, Respects, Overlay, RestStep, RevertStep, RefOf;
    SameLeaf(v, u);
    if v.TObj? {
      RestOrder(w);
      RevertOrder(w);
      ObjectsAgree(RestStep(w), RestOf(a), v, u);
      ObjectsAgree(RevertStep(w), RevertOf(a), v, u);
    }
  }

  lemma LimitsOrder(w: Wire)
    ensures Commutes(LimitsStep(w)) && Respects(LimitsStep(w))
  {
    hide LimitsStep, Two, Reordered, CString;
    forall a, k, v, l, u | CString(k) != CString(l)
      ensures Agree(Two(LimitsStep(w), a, k, v, l, u), Two(LimitsStep(w), a, l, u, k, v))
    {
      LimitsSwap(w, a, k, v, l, u);
    }
    forall a, k, v, u | Reordered(v, u) ensures Agree(LimitsStep(w)(a, k, v), LimitsStep(w)(a, k, u)) {
      LimitsRespects(w, a, k, v, u);
    }
  }

  lemma ProfileOrder(w: Wire)
    ensures Commutes(ProfileStep(w)) && Respects(ProfileStep(w))
  {
    hide ProfileStep, Two, Reordered, CString;
    forall a, k, v, l, u | CString(k) != CString(l)
      ensures Agree(Two(ProfileStep(w), a, k, v, l, u), Two(ProfileStep(w), a, l, u, k, v))
    {
      ProfileSwap(w, a, k, v, l, u);
    }
    forall a, k, v, u | Reordered(v, u) ensures Agree(ProfileStep(w)(a, k, v), ProfileStep(w)(a, k, u)) {
      ProfileRespects(w, a, k, v, u);
    }
  }

  lemma {:induction false} TablesAgree(w: Wire, t: ProfileTable, i: nat, f: Fields<Scanned>, g: Fields<Scanned>)
    requires DistinctItems(f) && DistinctItems(g) && ItemsOf(f) == ItemsOf(g)
    ensures Agree(OverlayTable(w, t, i, f), OverlayTable(w, t, i, g))
    decreases f
  {
    if f.Field? && g.Field? {
      assert ItemsOf(f)[1..] == ItemsOf(f.rest) && ItemsOf(g)[1..] == ItemsOf(g.rest);
      assert PlainOf(f.value) == ItemsOf(f)[0] == ItemsOf(g)[0] == PlainOf(g.value);
      assert Reordered(f.value, g.value);
      if i < PROFILES && f.value.TObj? {
        hide Reordered, Commutes, Respects, Overlay, ProfileStep, PlainOf;
        ProfileOrder(w);
        ObjectsAgree(ProfileStep(w), t[i], f.value, g.value);
        var o := Overlay(ProfileStep(w), t[i], f.value.fields);
        if o.Took? { TablesAgree(w, t[i := o.a], i + 1, f.rest, g.rest); }
      }
    }
  }

  lemma ArraysAgree(w: Wire, t: ProfileTable, v: Tree<Scanned>, u: Tree<Scanned>)
    requires Reordered(v, u) && v.TArr?
    ensures u.TArr? && Agree(OverlayTable(w, t, 0, v.fields), OverlayTable(w, t, 0, u.fields))
  {
    hide OverlayTable;
    TablesAgree(w, t, 0, v.fields, u.fields);
  }

  lemma TopRespects(w: Wire, a: Draft, k: string, v: Tree<Scanned>, u: Tree<Scanned>)
    requires Reordered(v, u)
    ensures Agree(TopStep(w)(a, k, v), TopStep(w)(a, k, u))
  {
    hide NameOf, TopKeyOf, Reordered, Commutes, Respects, Overlay, OverlayTable, PrimStep, LimitsStep, GlobalStep;
    SameLeaf(v, u);
    if v.TObj? {
      PrimOrder(w);
      LimitsOrder(w);
      GlobalOrder(w);
      ObjectsAgree(PrimStep(w), PrimsOf(a), v, u);
      ObjectsAgree(LimitsStep(w), LimitsOf(a), v, u);
      ObjectsAgree(GlobalStep(w), GlobalOf(a), v, u);
    } else if v.TArr? {
      ArraysAgree(w, a.c.profiles, v, u);
    }
  }

  lemma TopOrder(w: Wire)
    ensures Commutes(TopStep(w)) && Respects(TopStep(w))
  {
    hide TopStep, Two, Reordered, CString;
    forall a, k, v, l, u | CString(k) != CString(l)
      ensures Agree(Two(TopStep(w), a, k, v, l, u), Two(TopStep(w), a, l, u, k, v))
    {
      TopSwap(w, a, k, v, l, u);
    }
    forall a, k, v, u | Reordered(v, u) ensures Agree(TopStep(w)(a, k, v), TopStep(w)(a, k, u)) {
      TopRespects(w, a, k, v, u);
    }
  }

  /** Two documents that differ only in the order of the members of their objects, however
      deep, are both refused or give the same config, the same count of unknown members and
      the same schema, over every base config. */
  lemma OrderMakesNoDifference(w: Wire, base: Config, t: Tree<Scanned>, u: Tree<Scanned>)
    requires Reordered(t, u)
    ensures Agree(Parsed(w, base, t), Parsed(w, base, u))
  {
    hide Reordered, Commutes, Respects, Overlay, TopStep, Resolved;
    SameLeaf(t, u);
    if t.TObj? {
      TopOrder(w);
      ObjectsAgree(TopStep(w), Draft(base, false, false, -1), t, u);
    }
  }
}
