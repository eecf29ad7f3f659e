/** The config document of control/Src/config_doc.c: what each member of it sets, what a
    config is written as, and what comes back. */
module ConfigDoc {
  import opened Words
  import opened JsonNumber
  import opened JsonTree
  import opened ConfigCodec
  import opened DocMembers
  import JsonFormat

  const KEY_MAX: nat := 48
  const NAN_BITS: u32 := 0x7FC0_0000
  const OUT_OF_ENUM: u8 := 255

  /** Floats as text: the token a float gets, none where it is written as null; and the float
      a number on the wire is narrowed to. */
  datatype Wire = Wire(text: u32 -> Option<string>, narrow: (bool, Magnitude) -> u32)

  function Narrowed(w: Wire, n: Scanned): u32 { if n.Number? then w.narrow(n.neg, n.mag) else NAN_BITS }

  predicate IsNaN(bits: u32) { bits % 0x8000_0000 > 0x7F80_0000 }

  // ---- single values ----------------------------------------------------------------------------

  /** A name as strcmp sees it; one that does not fit its buffer matches nothing. */
  function NameOf(key: string): string { if |key| >= KEY_MAX then "" else CString(key) }

  /** An object has a member of this name. */
  predicate Mentions(f: Fields<Scanned>, name: string) { f.Field? && (NameOf(f.key) == name || Mentions(f.rest, name)) }

  /** What of a string value its buffer holds, as strcmp sees it. */
  function Spelled(s: string): string { CString(if |s| < KEY_MAX then s else s[..KEY_MAX - 1]) }

  function ReadF32(w: Wire, v: Tree<Scanned>): Option<u32>
  {
    if v == TWord("null") then Some(NAN_BITS) else if v.TNum? then Some(Narrowed(w, v.n)) else None
  }

  /** The integer a number is, if it is one. */
  function Whole(neg: bool, mag: Magnitude): Option<int>
  {
    match mag
    case Zero => Some(0)
    case Huge => None
    case Finite(d) =>
      var sign := if neg then -1 else 1;
      if d.e >= 0 then Some(sign * (d.m * Pow10(d.e)))
      else if d.m % Pow10(-d.e) == 0 then Some(sign * (d.m / Pow10(-d.e)))
      else None
  }

  function InBounds(x: Option<int>, lo: int, hi: int): (r: Option<int>)
    ensures r.Some? ==> lo <= r.value <= hi
  {
    if x.Some? && lo <= x.value <= hi then x else None
  }

  function ReadInt(v: Tree<Scanned>, lo: int, hi: int): (r: Option<int>)
    ensures r.Some? ==> lo <= r.value <= hi
  {
    if v.TNum? && v.n.Number? then InBounds(Whole(v.n.neg, v.n.mag), lo, hi) else None
  }

  function ReadU8(v: Tree<Scanned>): Option<u8>
  {
    var r := ReadInt(v, 0, 255);
    if r.None? then None else Some(r.value)
  }

  function ReadU16(v: Tree<Scanned>): Option<u16>
  {
    var r := ReadInt(v, 0, 65535);
    if r.None? then None else Some(r.value)
  }

  /** A signed byte in two's complement; null is -1. */
  function ReadI8(v: Tree<Scanned>): Option<u8>
  {
    if v == TWord("null") then Some(255)
    else
      var r := ReadInt(v, -128, 127);
      if r.None? then None else Some(r.value % 256)
  }

  function ReadBool(v: Tree<Scanned>): Option<bool>
  {
    if v == TWord("true") then Some(true) else if v == TWord("false") then Some(false) else None
  }

  function RefName(ref: u8): string
  {
    match ref
    case 1 => "v_bulk"
    case 2 => "v_bulk_cons"
    case 3 => "v_float"
    case 4 => "v_float_cons"
    case 5 => "v_limp"
    case _ => ""
  }

  function RefOf(name: string): Option<u8>
  {
    if name == "v_bulk" then Some(1)
    else if name == "v_bulk_cons" then Some(2)
    else if name == "v_float" then Some(3)
    else if name == "v_float_cons" then Some(4)
    else if name == "v_limp" then Some(5)
    else None
  }

  /** A string names a primitive and leaves the literal alone; a number or null is a literal. */
  function ReadVref(w: Wire, v: Tree<Scanned>, literal: u32): Option<(u8, u32)>
  {
    if v.TStr? then
      var r := RefOf(NameOf(v.s));
      if r.None? then None else Some((r.value, literal))
    else
      var x := ReadF32(w, v);
      if x.None? then None else Some((0, x.value))
  }

  function SourceOf(name: string): u8
  {
    if name == "none" then 0 else if name == "adc_a" then 1 else if name == "adc_b" then 2 else OUT_OF_ENUM
  }

  function ModeOf(name: string): u8 { if name == "hold" then 0 else if name == "zero" then 1 else 2 }

  function ReadSource(v: Tree<Scanned>): Option<u8> { if v.TStr? then Some(SourceOf(Spelled(v.s))) else None }

  function ReadMode(v: Tree<Scanned>): Option<u8> { if v.TStr? then Some(ModeOf(Spelled(v.s))) else None }

  // ---- what the members of each object set --------------------------------------------------------

  function Set<T, A>(o: Option<T>, name: string, put: T -> A): Effect<A>
  {
    if o.None? then Refused(WrongType(name)) else Took(put(o.value), 0)
  }

  function Ignored<A>(a: A): Effect<A> { Took(a, 1) }

  /** An object inside another one: its members change a part of the state. */
  function Nested<A, B>(o: Effect<B>, put: B -> A): Effect<A>
  {
    if o.Refused? then Refused(o.error) else Took(put(o.a), o.unknown)
  }

  datatype PrimPart = PrimPart(p: Primitives, saw: bool)

  datatype PrimKey = VBulk | VBulkCons | VFloat | VFloatCons | VLimp | NoPrim

  function PrimKeyOf(name: string): PrimKey
  {
    if name == "v_bulk" then VBulk
    else if name == "v_bulk_cons" then VBulkCons
    else if name == "v_float" then VFloat
    else if name == "v_float_cons" then VFloatCons
    else if name == "v_limp" then VLimp
    else NoPrim
  }

  function PrimMember(w: Wire, a: PrimPart, name: string, v: Tree<Scanned>): Effect<PrimPart>
  {
    var x := ReadF32(w, v);
    match PrimKeyOf(name)
    case VBulk => Set(x, name, y => a.(p := a.p.(vBulk := y)))
    case VBulkCons => Set(x, name, y => a.(p := a.p.(vBulkCons := y)))
    case VFloat => Set(x, name, y => a.(p := a.p.(vFloat := y)))
    case VFloatCons => Set(x, name, y => a.(p := a.p.(vFloatCons := y)))
    case VLimp => Set(x, name, y => a.(p := a.p.(vLimp := y), saw := true))
    case NoPrim => Ignored(a)
  }

  datatype FieldPart = FieldPart(rated: u32, max: u32, full: bool)

  datatype FieldKey = Rated | MaxV | FullField | NoField

  function FieldKeyOf(name: string): FieldKey
  {
    if name == "rotor_rated_v" then Rated
    else if name == "rotor_v_max" then MaxV
    else if name == "allow_full_field_48v" then FullField
    else NoField
  }

  function FieldMember(w: Wire, a: FieldPart, name: string, v: Tree<Scanned>): Effect<FieldPart>
  {
    match FieldKeyOf(name)
    case Rated => Set(ReadF32(w, v), name, y => a.(rated := y))
    case MaxV => Set(ReadF32(w, v), name, y => a.(max := y))
    case FullField => Set(ReadBool(v), name, y => a.(full := y))
    case NoField => Ignored(a)
  }

  datatype LimitsPart = LimitsPart(l: Limits, field: FieldPart)

  datatype LimitsKey = BatteryC | WiringA | AlternatorA | FieldBlock | NoLimits

  function LimitsKeyOf(name: string): LimitsKey
  {
    if name == "battery_c_limit" then BatteryC
    else if name == "wiring_limit_a" then WiringA
    else if name == "alternator_limit_a" then AlternatorA
    else if name == "field" then FieldBlock
    else NoLimits
  }

  function LimitsMember(w: Wire, a: LimitsPart, name: string, v: Tree<Scanned>): Effect<LimitsPart>
  {
    match LimitsKeyOf(name)
    case BatteryC => Set(ReadF32(w, v), name, y => a.(l := a.l.(batteryC := y)))
    case WiringA => Set(ReadF32(w, v), name, y => a.(l := a.l.(wiringA := y)))
    case AlternatorA => Set(ReadF32(w, v), name, y => a.(l := a.l.(alternatorA := y)))
    case FieldBlock =>
      if v.TObj? then Nested(Overlay(FieldStep(w), a.field, v.fields), y => a.(field := y)) else Refused(WrongJson)
    case NoLimits => Ignored(a)
  }

  datatype GlobalPart = GlobalPart(g: Globals, saw: bool)

  datatype GlobalKey =
    | Cells | BankAh | MaxChargeW | RampWps | TailW | TailHoldS | VclampS | CvHoldMin | ChargeMaxMin | WarmupS
    | WarmupCoolantC | SocTarget | SkipBulkV | SkipBulkSoc | LimpCapW | LimpV | BattTempSrc | RequireBattTemp | NoGlobal

  function GlobalKeyOf(name: string): GlobalKey
  {
    if name == "cells_series" then Cells
    else if name == "bank_capacity_ah" then BankAh
    else if name == "max_charge_power_w" then MaxChargeW
    else if name == "ramp_w_per_s" then RampWps
    else if name == "p_tail_w" then TailW
    else if name == "t_tail_hold_s" then TailHoldS
    else if name == "t_vclamp_s" then VclampS
    else if name == "cv_hold_exit_min" then CvHoldMin
    else if name == "t_charge_max_min" then ChargeMaxMin
    else if name == "warmup_time_s" then WarmupS
    else GlobalKeyOf2(name)
  }

  function GlobalKeyOf2(name: string): GlobalKey
  {
    if name == "warmup_coolant_c" then WarmupCoolantC
    else if name == "soc_target_pct" then SocTarget
    else if name == "skip_bulk_vcell" then SkipBulkV
    else if name == "skip_bulk_soc_pct" then SkipBulkSoc
    else if name == "limp_power_cap_w" then LimpCapW
    else if name == "limp_vcell" then LimpV
    else if name == "batt_temp_src" then BattTempSrc
    else if name == "require_batt_temp" then RequireBattTemp
    else NoGlobal
  }

  function GlobalMember(w: Wire, a: GlobalPart, name: string, v: Tree<Scanned>): Effect<GlobalPart>
  {
    match GlobalKeyOf(name)
    case Cells => Set(ReadU8(v), name, y => a.(g := a.g.(cells := y)))
    case BankAh => Set(ReadF32(w, v), name, y => a.(g := a.g.(bankAh := y)))
    case MaxChargeW => Set(ReadF32(w, v), name, y => a.(g := a.g.(maxChargeW := y)))
    case RampWps => Set(ReadF32(w, v), name, y => a.(g := a.g.(rampWps := y)))
    case TailW => Set(ReadF32(w, v), name, y => a.(g := a.g.(tailW := y)))
    case TailHoldS => Set(ReadU16(v), name, y => a.(g := a.g.(tailHoldS := y)))
    case VclampS => Set(ReadU16(v), name, y => a.(g := a.g.(vclampS := y)))
    case CvHoldMin => Set(ReadU16(v), name, y => a.(g := a.g.(cvHoldMin := y)))
    case ChargeMaxMin => Set(ReadU16(v), name, y => a.(g := a.g.(chargeMaxMin := y)))
    case WarmupS => Set(ReadU16(v), name, y => a.(g := a.g.(warmupS := y)))
    case WarmupCoolantC => Set(ReadF32(w, v), name, y => a.(g := a.g.(warmupCoolantC := y)))
    case SocTarget => Set(ReadI8(v), name, y => a.(g := a.g.(socTarget := y)))
    case SkipBulkV => Set(ReadF32(w, v), name, y => a.(g := a.g.(skipBulkV := y)))
    case SkipBulkSoc => Set(ReadI8(v), name, y => a.(g := a.g.(skipBulkSoc := y)))
    case LimpCapW => Set(ReadF32(w, v), name, y => a.(g := a.g.(limpCapW := y)))
    case LimpV => Set(ReadF32(w, v), name, y => a.(g := a.g.(limpV := y), saw := true))
    case BattTempSrc => Set(ReadSource(v), name, y => a.(g := a.g.(battTempSrc := y)))
    case RequireBattTemp => Set(ReadBool(v), name, y => a.(g := a.g.(requireBattTemp := y)))
    case NoGlobal => Ignored(a)
  }

  datatype RestPart = RestPart(mode: u8, ref: u8, v: u32, cap: u32)

  datatype RestKey = Mode | Voltage | PowerCap | NoRest

  function RestKeyOf(name: string): RestKey
  {
    if name == "mode" then Mode
    else if name == "voltage" then Voltage
    else if name == "power_cap_w" then PowerCap
    else NoRest
  }

  function RestMember(w: Wire, a: RestPart, name: string, v: Tree<Scanned>): Effect<RestPart>
  {
    match RestKeyOf(name)
    case Mode => Set(ReadMode(v), name, y => a.(mode := y))
    case Voltage => Set(ReadVref(w, v, a.v), name, (y: (u8, u32)) => a.(ref := y.0, v := y.1))
    case PowerCap => Set(ReadF32(w, v), name, y => a.(cap := y))
    case NoRest => Ignored(a)
  }

  datatype RevertPart = RevertPart(v: u32, hold: u16, soc: u8, ah: u32)

  datatype RevertKey = VCell | HoldS | SocPct | Ah | NoRevert

  function RevertKeyOf(name: string): RevertKey
  {
    if name == "v_cell" then VCell
    else if name == "hold_s" then HoldS
    else if name == "soc_pct" then SocPct
    else if name == "ah" then Ah
    else NoRevert
  }

  function RevertMember(w: Wire, a: RevertPart, name: string, v: Tree<Scanned>): Effect<RevertPart>
  {
    match RevertKeyOf(name)
    case VCell => Set(ReadF32(w, v), name, y => a.(v := y))
    case HoldS => Set(ReadU16(v), name, y => a.(hold := y))
    case SocPct => Set(ReadI8(v), name, y => a.(soc := y))
    case Ah => Set(ReadF32(w, v), name, y => a.(ah := y))
    case NoRevert => Ignored(a)
  }

  function RestOf(p: Profile): RestPart { RestPart(p.restMode, p.restRef, p.restV, p.restCapW) }

  function WithRest(p: Profile, r: RestPart): Profile
  {
    p.(restMode := r.mode, restRef := r.ref, restV := r.v, restCapW := r.cap)
  }

  function RevertOf(p: Profile): RevertPart { RevertPart(p.revertV, p.revertHoldS, p.socRevert, p.ahRevert) }

  function WithRevert(p: Profile, r: RevertPart): Profile
  {
    p.(revertV := r.v, revertHoldS := r.hold, socRevert := r.soc, ahRevert := r.ah)
  }

  /** The flags with the reserved bit put in its place. */
  function WithReserved(flags: u8, reserved: bool): u8 { flags / 2 * 2 + if reserved then 1 else 0 }

  datatype ProfileKey = Id | Name | Reserved | CvTarget | ExitAtCv | RestBlock | RevertBlock | NoProfile

  function ProfileKeyOf(name: string): ProfileKey
  {
    if name == "id" then Id
    else if name == "name" then Name
    else if name == "reserved" then Reserved
    else if name == "cv_target" then CvTarget
    else if name == "exit_at_cv_entry" then ExitAtCv
    else if name == "rest" then RestBlock
    else if name == "revert" then RevertBlock
    else NoProfile
  }

  function ProfileMember(w: Wire, a: Profile, name: string, v: Tree<Scanned>): Effect<Profile>
  {
    match ProfileKeyOf(name)
    case Id => Set(ReadU8(v), name, y => a.(id := y))
    case Name => Took(a, 0)
    case Reserved => Set(ReadBool(v), name, y => a.(flags := WithReserved(a.flags, y)))
    case CvTarget => Set(ReadVref(w, v, a.cvTargetV), name, (y: (u8, u32)) => a.(cvRef := y.0, cvTargetV := y.1))
    case ExitAtCv => Set(ReadBool(v), name, y => a.(exitAtCv := y))
    case RestBlock =>
      if v.TObj? then Nested(Overlay(RestStep(w), RestOf(a), v.fields), y => WithRest(a, y)) else Refused(WrongJson)
    case RevertBlock =>
      if v.TObj? then Nested(Overlay(RevertStep(w), RevertOf(a), v.fields), y => WithRevert(a, y)) else Refused(WrongJson)
    case NoProfile => Ignored(a)
  }

  /** The profiles from number `i` on, one array element each. */
  function OverlayTable(w: Wire, t: ProfileTable, i: nat, f: Fields<Scanned>): Effect<ProfileTable>
    decreases f
  {
    if f.NoFields? then Took(t, 0)
    else if i >= PROFILES then Refused(WrongType("profiles"))
    else if !f.value.TObj? then Refused(WrongJson)
    else
      match Overlay(ProfileStep(w), t[i], f.value.fields)
      case Refused(e) => Refused(e)
      case Took(p, n) => Then(OverlayTable(w, t[i := p], i + 1, f.rest), n)
  }

  /** The config under change, and what of the document was seen. */
  datatype Draft = Draft(c: Config, sawVLimp: bool, sawLimpVcell: bool, schema: int)

  function PrimsOf(d: Draft): PrimPart { PrimPart(d.c.prim, d.sawVLimp) }

  function WithPrims(d: Draft, a: PrimPart): Draft { d.(c := d.c.(prim := a.p), sawVLimp := a.saw) }

  function LimitsOf(d: Draft): LimitsPart
  {
    LimitsPart(d.c.limits, FieldPart(d.c.globals.rotorRatedV, d.c.globals.rotorMaxV, d.c.globals.fullField48))
  }

  function WithLimits(d: Draft, a: LimitsPart): Draft
  {
    d.(c := d.c.(limits := a.l,
                 globals := d.c.globals.(rotorRatedV := a.field.rated, rotorMaxV := a.field.max, fullField48 := a.field.full)))
  }

  function GlobalOf(d: Draft): GlobalPart { GlobalPart(d.c.globals, d.sawLimpVcell) }

  function WithGlobal(d: Draft, a: GlobalPart): Draft { d.(c := d.c.(globals := a.g), sawLimpVcell := a.saw) }

  datatype TopKey = SchemaVersion | PrimBlock | LimitsBlock | GlobalBlock | Profiles | ActiveProfile | Firmware | NoTop

  function TopKeyOf(name: string): TopKey
  {
    if name == "schema_version" then SchemaVersion
    else if name == "primitives" then PrimBlock
    else if name == "limits" then LimitsBlock
    else if name == "global" then GlobalBlock
    else if name == "profiles" then Profiles
    else if name == "active_profile" then ActiveProfile
    else if name == "fw" then Firmware
    else NoTop
  }

  function TopMember(w: Wire, d: Draft, name: string, v: Tree<Scanned>): Effect<Draft>
  {
    match TopKeyOf(name)
    case SchemaVersion =>
      var x := ReadU16(v);
      if x.None? then Refused(WrongType(name))
      else if x.value != SCHEMA then Refused(WrongSchema)
      else Took(d.(schema := x.value), 0)
    case PrimBlock =>
      if v.TObj? then Nested(Overlay(PrimStep(w), PrimsOf(d), v.fields), a => WithPrims(d, a)) else Refused(WrongJson)
    case LimitsBlock =>
      if v.TObj? then Nested(Overlay(LimitsStep(w), LimitsOf(d), v.fields), a => WithLimits(d, a)) else Refused(WrongJson)
    case GlobalBlock =>
      if v.TObj? then Nested(Overlay(GlobalStep(w), GlobalOf(d), v.fields), a => WithGlobal(d, a)) else Refused(WrongJson)
    case Profiles =>
      if v.TArr? then Nested(OverlayTable(w, d.c.profiles, 0, v.fields), t => d.(c := d.c.(profiles := t))) else Refused(WrongJson)
    case ActiveProfile => Set(ReadU8(v), name, y => d.(c := d.c.(active := y)))
    case Firmware => Took(d, 0)
    case NoTop => Ignored(d)
  }

  function PrimStep(w: Wire): Laying<PrimPart> { (a, key, v) => PrimMember(w, a, NameOf(key), v) }
  function FieldStep(w: Wire): Laying<FieldPart> { (a, key, v) => FieldMember(w, a, NameOf(key), v) }
  function LimitsStep(w: Wire): Laying<LimitsPart> { (a, key, v) => LimitsMember(w, a, NameOf(key), v) }
  function GlobalStep(w: Wire): Laying<GlobalPart> { (a, key, v) => GlobalMember(w, a, NameOf(key), v) }
  function RestStep(w: Wire): Laying<RestPart> { (a, key, v) => RestMember(w, a, NameOf(key), v) }
  function RevertStep(w: Wire): Laying<RevertPart> { (a, key, v) => RevertMember(w, a, NameOf(key), v) }
  function ProfileStep(w: Wire): Laying<Profile> { (a, key, v) => ProfileMember(w, a, NameOf(key), v) }
  function TopStep(w: Wire): Laying<Draft> { (d, key, v) => TopMember(w, d, NameOf(key), v) }

  // ---- the whole document ---------------------------------------------------------------------------

  /** cfg_primitive_value; none stands for its NaN. */
  function Referenced(p: Primitives, ref: u8): Option<u32>
  {
    var x := match ref
             case 1 => p.vBulk
             case 2 => p.vBulkCons
             case 3 => p.vFloat
             case 4 => p.vFloatCons
             case 5 => p.vLimp
             case _ => NAN_BITS;
    if IsNaN(x) then None else Some(x)
  }

  function OrElse(o: Option<u32>, x: u32): u32 { if o.Some? then o.value else x }

  function ResolvedProfile(prims: Primitives, p: Profile): Profile
  {
    p.(cvTargetV := OrElse(Referenced(prims, p.cvRef), p.cvTargetV), restV := OrElse(Referenced(prims, p.restRef), p.restV))
  }

  /** resolve_after_parse */
  function Resolved(d: Draft): Config
  {
    var c := d.c.(profiles := seq(PROFILES, i requires 0 <= i < PROFILES => ResolvedProfile(d.c.prim, d.c.profiles[i])));
    if d.sawVLimp && !d.sawLimpVcell then c.(globals := c.globals.(limpV := c.prim.vLimp)) else c
  }

  datatype Applied = Applied(c: Config, schema: int)

  /** cfg_doc_parse: the config with the document laid over it, how many members were not
      known, and the schema the document claims. */
  function Parsed(w: Wire, base: Config, doc: Tree<Scanned>): Effect<Applied>
  {
    if !doc.TObj? then Refused(WrongJson)
    else Nested(Overlay(TopStep(w), Draft(base, false, false, -1), doc.fields), d => Applied(Resolved(d), d.schema))
  }

  // ---- what a config is written as --------------------------------------------------------------------

  function FloatTree(w: Wire, bits: u32): Tree<string>
  {
    var t := w.text(bits);
    if t.None? then TWord("null") else TNum(t.value)
  }

  function IntTree(x: int): Tree<string> { TNum(JsonFormat.IntegerText(x)) }

  function BoolTree(b: bool): Tree<string> { TWord(if b then "true" else "false") }

  function SignedTree(b: u8): Tree<string>
  {
    if b == 255 then TWord("null") else IntTree(if b < 128 then b else b - 256)
  }

  function VrefTree(w: Wire, ref: u8, literal: u32): Tree<string>
  {
    if 1 <= ref <= 5 then TStr(RefName(ref)) else FloatTree(w, literal)
  }

  function PrimFields(w: Wire, p: Primitives): Fields<string>
  {
    Field("v_bulk", FloatTree(w, p.vBulk),
    Field("v_bulk_cons", FloatTree(w, p.vBulkCons),
    Field("v_float", FloatTree(w, p.vFloat),
    Field("v_float_cons", FloatTree(w, p.vFloatCons),
    Field("v_limp", FloatTree(w, p.vLimp), NoFields)))))
  }

  function FieldFields(w: Wire, g: Globals): Fields<string>
  {
    Field("rotor_rated_v", FloatTree(w, g.rotorRatedV),
    Field("rotor_v_max", FloatTree(w, g.rotorMaxV),
    Field("allow_full_field_48v", BoolTree(g.fullField48), NoFields)))
  }

  function LimitsFields(w: Wire, c: Config): Fields<string>
  {
    Field("battery_c_limit", FloatTree(w, c.limits.batteryC),
    Field("wiring_limit_a", FloatTree(w, c.limits.wiringA),
    Field("alternator_limit_a", FloatTree(w, c.limits.alternatorA),
    Field("field", TObj(FieldFields(w, c.globals)), NoFields))))
  }

  function GlobalFields(w: Wire, g: Globals): Fields<string>
  {
    Field("cells_series", IntTree(g.cells),
    Field("bank_capacity_ah", FloatTree(w, g.bankAh),
    Field("max_charge_power_w", FloatTree(w, g.maxChargeW),
    Field("ramp_w_per_s", FloatTree(w, g.rampWps),
    Field("p_tail_w", FloatTree(w, g.tailW),
    Field("t_tail_hold_s", IntTree(g.tailHoldS),
    Field("t_vclamp_s", IntTree(g.vclampS),
    Field("cv_hold_exit_min", IntTree(g.cvHoldMin),
    Field("t_charge_max_min", IntTree(g.chargeMaxMin),
    Field("warmup_time_s", IntTree(g.warmupS), GlobalFields2(w, g)))))))))))
  }

  function GlobalFields2(w: Wire, g: Globals): Fields<string>
  {
    Field("warmup_coolant_c", FloatTree(w, g.warmupCoolantC),
    Field("soc_target_pct", SignedTree(g.socTarget),
    Field("skip_bulk_vcell", FloatTree(w, g.skipBulkV),
    Field("skip_bulk_soc_pct", SignedTree(g.skipBulkSoc), GlobalFields3(w, g)))))
  }

  function GlobalFields3(w: Wire, g: Globals): Fields<string>
  {
    Field("limp_vcell", FloatTree(w, g.limpV),
    Field("limp_power_cap_w", FloatTree(w, g.limpCapW),
    Field("batt_temp_src", TStr(if g.battTempSrc == 1 then "adc_a" else if g.battTempSrc == 2 then "adc_b" else "none"),
    Field("require_batt_temp", BoolTree(g.requireBattTemp), NoFields))))
  }

  function RestFields(w: Wire, p: Profile): Fields<string>
  {
    Field("mode", TStr(if p.restMode == 1 then "zero" else "hold"),
    Field("voltage", VrefTree(w, p.restRef, p.restV),
    Field("power_cap_w", FloatTree(w, p.restCapW), NoFields)))
  }

  function RevertFields(w: Wire, p: Profile): Fields<string>
  {
    Field("v_cell", FloatTree(w, p.revertV),
    Field("hold_s", IntTree(p.revertHoldS),
    Field("soc_pct", SignedTree(p.socRevert),
    Field("ah", FloatTree(w, p.ahRevert), NoFields))))
  }

  function DisplayName(id: u8): string
  {
    match id
    case 1 => "Bulk, Float Norm"
    case 2 => "Bulk, Float Low (Solar Priority)"
    case 3 => "Bulk, Solar Finish"
    case 4 => "Bulk Conservative, Float Low"
    case 5 => "Bulk, Off"
    case 6 => "Limp Home"
    case 7 => "Fast Charge"
    case _ => ""
  }

  function ProfileFields(w: Wire, p: Profile): Fields<string>
  {
    Field("id", IntTree(p.id),
    Field("name", TStr(DisplayName(p.id)),
    Field("reserved", BoolTree(p.flags % 2 == 1),
    Field("cv_target", VrefTree(w, p.cvRef, p.cvTargetV),
    Field("exit_at_cv_entry", BoolTree(p.exitAtCv), BlockFields(w, p))))))
  }

  function BlockFields(w: Wire, p: Profile): Fields<string>
  {
    Field("rest", TObj(RestFields(w, p)),
    Field("revert", TObj(RevertFields(w, p)), NoFields))
  }

  function TableFields(w: Wire, t: ProfileTable, i: nat): Fields<string>
    requires i <= PROFILES
    decreases PROFILES - i
  {
    if i == PROFILES then NoFields else Field("", TObj(ProfileFields(w, t[i])), TableFields(w, t, i + 1))
  }

  /** cfg_doc_emit: the document of a config, stamped with the firmware version if there
      is one. */
  function DocTree(w: Wire, c: Config, fw: Option<string>): Tree<string>
  {
    TObj(Field("schema_version", IntTree(SCHEMA),
         if fw.Some? then Field("fw", TStr(fw.value), BodyFields(w, c)) else BodyFields(w, c)))
  }

  function BodyFields(w: Wire, c: Config): Fields<string>
  {
    Field("primitives", TObj(PrimFields(w, c.prim)),
    Field("limits", TObj(LimitsFields(w, c)),
    Field("global", TObj(GlobalFields(w, c.globals)),
    Field("profiles", TArr(TableFields(w, c.profiles, 0)),
    Field("active_profile", IntTree(c.active), NoFields)))))
  }
}
