/** Overlaying the members of an object on a state, one after the other, and why their
    order does not matter. */
module DocMembers {
  import opened JsonNumber
  import opened JsonTree

  /** Why a document is refused: the reader stopped, a value is of the wrong type for its key,
      the schema is not ours, or the message around it is not what it should be. */
  datatype DocError = WrongJson | WrongType(key: string) | WrongSchema | WrongMessage

  /** A new state and how many members were ignored on the way. */
  datatype Effect<A> = Took(a: A, unknown: nat) | Refused(error: DocError)

  /** What one member does to the state. */
  type Laying<!A> = (A, string, Tree<Scanned>) -> Effect<A>

  function Then<A>(x: Effect<A>, unknown: nat): Effect<A>
  {
    if x.Refused? then x else Took(x.a, unknown + x.unknown)
  }

  function Overlay<A>(step: Laying<A>, a: A, f: Fields<Scanned>): Effect<A>
  {
    if f.NoFields? then Took(a, 0)
    else
      match step(a, f.key, f.value)
      case Refused(e) => Refused(e)
      case Took(b, n) => Then(Overlay(step, b, f.rest), n)
  }

  // ---- the same document, whatever the order of its members -----------------------------------

  /** A tree whose objects have become maps. */
  datatype Plain = PObj(members: map<string, Plain>) | PArr(items: seq<Plain>) | PLeaf(leaf: Tree<Scanned>)

  function PlainOf(t: Tree<Scanned>): Plain
  {
    match t
    case TObj(f) => PObj(MembersOf(f))
    case TArr(f) => PArr(ItemsOf(f))
    case _ => PLeaf(t)
  }

  function MembersOf(f: Fields<Scanned>): map<string, Plain>
  {
    if f.NoFields? then map[] else MembersOf(f.rest)[f.key := PlainOf(f.value)]
  }

  function ItemsOf(f: Fields<Scanned>): seq<Plain>
  {
    if f.NoFields? then [] else [PlainOf(f.value)] + ItemsOf(f.rest)
  }

  function Names(f: Fields<Scanned>): set<string>
  {
    if f.NoFields? then {} else Names(f.rest) + {CString(f.key)}
  }

  /** No object has two members whose names are the same C string. */
  predicate Distinct(t: Tree<Scanned>)
  {
    match t
    case TObj(f) => DistinctMembers(f)
    case TArr(f) => DistinctItems(f)
    case _ => true
  }

  predicate DistinctMembers(f: Fields<Scanned>)
  {
    f.Field? ==> CString(f.key) !in Names(f.rest) && Distinct(f.value) && DistinctMembers(f.rest)
  }

  predicate DistinctItems(f: Fields<Scanned>)
  {
    f.Field? ==> Distinct(f.value) && DistinctItems(f.rest)
  }

  /** One document, up to the order of the members of its objects. */
  ghost predicate Reordered(t: Tree<Scanned>, u: Tree<Scanned>)
  {
    Distinct(t) && Distinct(u) && PlainOf(t) == PlainOf(u)
  }

  /** Both are refused, or they are the same. */
  predicate Agree<A(==)>(x: Effect<A>, y: Effect<A>) { (x.Refused? && y.Refused?) || x == y }

  function Two<A>(step: Laying<A>, a: A, k: string, v: Tree<Scanned>, l: string, w: Tree<Scanned>): Effect<A>
  {
    match step(a, k, v)
    case Refused(e) => Refused(e)
    case Took(b, n) => Then(step(b, l, w), n)
  }

  /** Members of different names can trade places. */
  ghost predicate Commutes<A(!new)>(step: Laying<A>)
  {
    forall a, k, v, l, w :: CString(k) != CString(l) ==> Agree(Two(step, a, k, v, l, w), Two(step, a, l, w, k, v))
  }

  /** A member does the same however the objects inside it are ordered. */
  ghost predicate Respects<A(!new)>(step: Laying<A>)
  {
    forall a, k, v, w :: Reordered(v, w) ==> Agree(step(a, k, v), step(a, k, w))
  }

  function Find(f: Fields<Scanned>, key: string): Tree<Scanned>
    requires key in MembersOf(f)
  {
    if f.key == key then f.value else Find(f.rest, key)
  }

  function Without(f: Fields<Scanned>, key: string): Fields<Scanned>
    requires key in MembersOf(f)
  {
    if f.key == key then f.rest else Field(f.key, f.value, Without(f.rest, key))
  }

  lemma {:induction false} NamesOfMembers(f: Fields<Scanned>, key: string)
    requires key in MembersOf(f)
    ensures CString(key) in Names(f)
  {
    if f.key != key { NamesOfMembers(f.rest, key); }
  }

  /** Taking a member out of an object leaves the others. */
  lemma {:induction false} TakenOut(f: Fields<Scanned>, key: string)
    requires key in MembersOf(f) && DistinctMembers(f)
    ensures var g := Without(f, key);
            && DistinctMembers(g) && Names(g) == Names(f) - {CString(key)} && MembersOf(g) == MembersOf(f) - {key}
            && Distinct(Find(f, key)) && PlainOf(Find(f, key)) == MembersOf(f)[key]
  {
    if f.key == key {
      if key in MembersOf(f.rest) { NamesOfMembers(f.rest, key); }
    } else {
      TakenOut(f.rest, key);
      NamesOfMembers(f.rest, key);
    }
  }

  /** Any member may come first. */
  lemma {:induction false} MovesToFront<A(!new)>(step: Laying<A>, a: A, f: Fields<Scanned>, key: string)
    requires Commutes(step) && DistinctMembers(f) && key in MembersOf(f)
    ensures Agree(Overlay(step, a, f), Overlay(step, a, Field(key, Find(f, key), Without(f, key))))
    decreases f
  {
    if f.key != key {
      NamesOfMembers(f.rest, key);
      var (v, r) := (Find(f, key), Without(f.rest, key));
      assert Agree(Two(step, a, f.key, f.value, key, v), Two(step, a, key, v, f.key, f.value));
      var x := step(a, f.key, f.value);
      if x.Took? { MovesToFront(step, x.a, f.rest, key); }
      TwoFirst(step, a, f.key, f.value, key, v, r);
      TwoFirst(step, a, key, v, f.key, f.value, r);
    }
  }

  lemma TwoFirst<A>(step: Laying<A>, a: A, k: string, v: Tree<Scanned>, l: string, w: Tree<Scanned>, r: Fields<Scanned>)
    ensures var x := Two(step, a, k, v, l, w);
            Overlay(step, a, Field(k, v, Field(l, w, r))) == if x.Refused? then x else Then(Overlay(step, x.a, r), x.unknown)
  {
    var x := step(a, k, v);
    if x.Took? {
      assert Overlay(step, x.a, Field(l, w, r)) ==
             match step(x.a, l, w)
             case Refused(e) => Refused(e)
             case Took(b, n) => Then(Overlay(step, b, r), n);
    }
  }

  lemma MembersExist(f: Fields<Scanned>)
    ensures f.Field? <==> MembersOf(f) != map[]
  {
    if f.Field? { assert f.key in MembersOf(f); }
  }

  /** Two objects with the same members, in whatever order, overlay alike. */
  lemma {:induction false} OrderIsNothing<A(!new)>(step: Laying<A>, a: A, f: Fields<Scanned>, g: Fields<Scanned>)
    requires Commutes(step) && Respects(step)
    requires DistinctMembers(f) && DistinctMembers(g) && MembersOf(f) == MembersOf(g)
    ensures Agree(Overlay(step, a, f), Overlay(step, a, g))
    decreases f
  {
    if f.NoFields? {
      MembersExist(f);
      MembersExist(g);
    } else {
      var k := f.key;
      assert k in MembersOf(f);
      var (v, r) := (Find(g, k), Without(g, k));
      MovesToFront(step, a, g, k);
      TakenOut(g, k);
      TakenOut(f, k);
      assert Reordered(f.value, v);
      assert Agree(step(a, k, f.value), step(a, k, v));
      var x := step(a, k, f.value);
      if x.Took? { OrderIsNothing(step, x.a, f.rest, r); }
    }
  }
}
