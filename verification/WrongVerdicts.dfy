/** Documents on which the verdict of the compiled form is not that of the document, because schemas
    that share a path are taken for one another; and one that ends in a logic error. */
module WrongVerdicts {
  import opened Wrappers
  import opened Json
  import opened JsonPointer
  import opened Schemas
  import opened Keywords
  import opened Semantics
  import opened Meaning
  import opened Reachability
  import opened CacheWalk
  import opened Compilation
  import opened CompiledForms
  import opened Mistakes
  import opened SampleDocuments
  import opened Validator
  import opened SchemaParser
  import opened JsonSchema

  // ---- What validation returns ----

  /** Whatever the parser makes of the document gives the value this verdict. */
  ghost predicate AllFormsSay(x: Externals, doc: Value, v: Value, accepted: bool) {
    forall g, origin, entries | CompiledForm(x, doc, g, origin, entries) && GraphGuarded(g) && ROOT < |g| ::
      Accepts(x, g, ROOT, v) == accepted
  }

  lemma FormsDecide(x: Externals, doc: Value, v: Value, accepted: bool, r: Validation)
    requires AllFormsSay(x, doc, v, accepted) && Decided(x, doc, v, r)
    ensures if accepted then r.Valid? else r.Invalid?
  {
    hide CompiledForm, GraphGuarded, Accepts;
    var g, origin, entries :| CompiledForm(x, doc, g, origin, entries) && Decides(x, g, v, r);
  }

  method ValidateLeafDocument(x: Externals, doc: Value, ghost nodes: set<Value>, v: Value, ghost accepted: bool)
    returns (r: Validation)
    requires LeafDocument(x, doc, nodes) && AllFormsSay(x, doc, v, accepted) && WellFormed(v)
    ensures if accepted then r.Valid? else r.Invalid?
  {
    hide ChainsEnd, Settles, Guarded, Decided, SchemaAccepts, Readable, LeafDocument, LeafReferences, AllFormsSay,
         Compilable, NoMistake;
    LeafDocumentHas(x, doc, nodes);
    LeafChains(x, doc);
    LeafSettles(x, doc);
    LeafDocumentIsGuarded(x, doc, nodes);
    GuardedIsReadable(x, doc);
    r := ValidateJsonUsingSchema(x, v, doc);
    FormsDecide(x, doc, v, accepted, r);
  }

  // ---- Compiled constraints of small schemas ----

  lemma RootIsItself(x: Externals, doc: Value, g: Graph, origin: seq<Target>, entries: Entries)
    requires CompiledForm(x, doc, g, origin, entries) && ReadReference(doc) == NoReference
    ensures |g| == |origin| && ROOT < |g| && origin[ROOT] == Node(doc, "", {})
    ensures EntriesLinked(x, doc, origin, entries)
  {
    hide EntriesLinked, Compiled, Populated;
  }

  /** The child of a compiled `allOf`, and where it was found. */
  lemma AllOfFound(x: Externals, doc: Value, g: Graph, origin: seq<Target>, entries: Entries, p: Pointer, s: Slot)
    returns (q: Pointer)
    requires CompiledForm(x, doc, g, origin, entries) && p < |g| && p < |origin| && origin[p].Node?
    requires Read(x, origin[p].node).Some? && |Read(x, origin[p].node).value.constraints| > 0
    requires Read(x, origin[p].node).value.constraints[0] == AllOf([s])
    ensures |g[p].constraints| == |Read(x, origin[p].node).value.constraints| && g[p].constraints[0] == AllOf([q])
    ensures 0 < |SlotsOf(x, origin[p])| && SlotsOf(x, origin[p])[0] == s
    ensures FoundAt(x, doc, origin, entries, origin[p], 0, q)
  {
    hide CompiledForm, Read, SlotsOf, FoundAt;
    var n := ConstraintFound(x, doc, g, origin, entries, p, 0);
    var c, d := Read(x, origin[p].node).value.constraints[0], g[p].constraints[0];
    assert Read(x, origin[p].node).value.constraints[..0] == [];
    assert InOrder(c)[0] == s;
    q := InOrder(d)[0];
    assert d == AllOf([q]);
  }

  lemma ChildAccepted(x: Externals, g: Graph, p: Pointer, v: Value, q: Pointer)
    requires GraphGuarded(g) && p < |g| && Accepts(x, g, p, v)
    requires |g[p].constraints| > 0 && g[p].constraints[0] == AllOf([q])
    ensures q < |g| && Accepts(x, g, q, v)
  {
    assert Holds(x, AllOf([q]), v, ChildAccepts(x, g, p, v));
    assert [q][0] == q;
    assert ChildAccepts(x, g, p, v)(q, v);
  }

  lemma QuietFormAccepts(x: Externals, doc: Value, g: Graph, origin: seq<Target>, entries: Entries, p: Pointer,
                         v: Value)
    requires CompiledForm(x, doc, g, origin, entries) && p < |g| && p < |origin| && origin[p].Node?
    requires Read(x, origin[p].node) == Some(Subschema(false, [])) && GraphGuarded(g)
    ensures Accepts(x, g, p, v)
  {
    hide CompiledForm, Read, Walked, Accepts, GraphGuarded;
    CompiledAll(x, doc, g, origin, entries, p);
    assert g[p] == Subschema(false, []);
    NothingSaid(x, g, p, v);
  }

  // ---- What small documents say ----

  function OnMember<C>(name: string, c: C): Constraint<C> { Constraint.Dependencies([], [Named(name, c)]) }

  lemma OneWithin(s: Slot, name: string, f: Flat, nodes: set<Value>)
    requires s.At? ==> s.node in nodes
    ensures ChildrenAmong(AllOf([s]), nodes) && ChildrenAmong(AnyOf([s]), nodes)
    ensures ChildrenAmong(PropertyNames(s), nodes)
    ensures ChildrenAmong(OnMember(name, s), nodes) && ChildrenAmong(Plain(f), nodes)
    ensures ChildrenAmong(Not(s), nodes)
  {
  }

  lemma ReferenceNode(x: Externals, doc: Value, r: Value, key: string, u: Value, nodes: set<Value>)
    requires ReadReference(r) == Reference(None, key) && Resolve(doc, key) == Some(u) && ReadReference(u) == NoReference
    requires Read(x, u).Some? && (forall c <- Read(x, u).value.constraints :: c.PropertyNames? || c.Plain?)
    requires u in nodes
    ensures LeafReference(x, doc, r) && LeafNode(x, doc, r, nodes)
  {
    hide Read, ReadReference, Resolve;
    NotInPlace(x, u);
  }

  lemma ConcreteNode(x: Externals, doc: Value, n: Value, alwaysInvalid: bool, cs: seq<Constraint<Slot>>,
                     nodes: set<Value>)
    requires ReadReference(n) == NoReference && Read(x, n) == Some(Subschema(alwaysInvalid, cs))
    requires forall c <- cs :: ChildrenAmong(c, nodes)
    ensures LeafNode(x, doc, n, nodes)
  {
    hide Read, ReadReference;
  }

  lemma NotInPlace(x: Externals, n: Value)
    requires Read(x, n).Some? && forall c <- Read(x, n).value.constraints :: c.PropertyNames? || c.Plain?
    ensures NoneInPlace(x, n)
  {
    hide Read;
  }

  lemma RootSays(x: Externals, doc: Value)
    requires Guarded(x, doc) && ReadReference(doc) == NoReference
    ensures doc in RankOf(x, doc) && Chase(x, doc, doc, {}, true) == Concrete(doc)
  {
    hide Guarded, NodeRanked, NodeClosed;
  }

  /** A subschema of constraint i says what u says, if it is u or a reference that leads to the leaf u. */
  lemma SlotSays(x: Externals, doc: Value, n: Value, i: nat, s: Slot, u: Value)
    requires Guarded(x, doc) && n in RankOf(x, doc) && Read(x, n).Some? && i < |Read(x, n).value.constraints|
    requires (s in InPlace(Read(x, n).value.constraints[i]) || s in Inside(Read(x, n).value.constraints[i])) && s.At?
    requires if ReadReference(s.node) == NoReference then u == s.node
      else LeafReference(x, doc, s.node) && Resolve(doc, ReadReference(s.node).pointer) == Some(u)
    ensures u in RankOf(x, doc)
    ensures forall w :: Lift(Sub(x, doc))(s, w) == DocumentAccepts(x, doc, u, w)
  {
    hide Guarded, RankOf, Read, InPlace, Inside, Pointers, Chase, Resolve, DocumentAccepts, NoneInPlace;
    SlotsLead(x, doc, n, Read(x, n).value.constraints[i]);
    LeafReferenceEnds(x, doc, s.node);
  }

  lemma OneFlat(x: Externals, doc: Value, n: Value, f: Flat, v: Value)
    requires Guarded(x, doc) && n in RankOf(x, doc) && Read(x, n) == Some(Subschema(false, [Plain(f)]))
    ensures DocumentAccepts(x, doc, n, v) == FlatHolds(x, f, v)
  {
    hide Read, RankOf, Guarded, DocumentAccepts, Sub, Lift, FlatHolds;
    ConstraintsDecide(x, doc, n, v);
    FlatSays(x, f, v, Lift(Sub(x, doc)));
  }

  lemma FlatSays(x: Externals, f: Flat, v: Value, accepts: (Slot, Value) -> bool)
    ensures Holds(x, Plain(f), v, accepts) == FlatHolds(x, f, v)
  {
  }

  lemma OneHolding(x: Externals, s: Slot, v: Value, accepts: (Slot, Value) -> bool)
    ensures accepts(s, v) ==> Holds(x, AllOf([s]), v, accepts) && Holds(x, AnyOf([s]), v, accepts)
  {
    assert [s][0] == s;
  }

  lemma NamesHold(x: Externals, s: Slot, v: Value, accepts: (Slot, Value) -> bool)
    requires v.Object? && forall m <- v.members :: accepts(s, Str(m.key))
    ensures Holds(x, PropertyNames(s), v, accepts)
  {
  }

  // ---- Property names are judged by the enclosing schema ----

  /** A document with one reference r under `allOf`, to a schema u that has one constraint without
      subschemas and lets property names be anything. */
  ghost predicate Keyed(x: Externals, doc: Value, r: Value, key: string, u: Value, names: Value, f: Flat) {
    && Read(x, doc) == Some(Subschema(false, [AllOf([At(r, "/allOf/0")])]))
    && Read(x, u) == Some(Subschema(false, [PropertyNames(At(names, "")), Plain(f)]))
    && u.Object? && Find(u.members, "propertyNames") == Some(names) && Read(x, names) == Some(Subschema(false, []))
    && ReadReference(doc) == NoReference && ReadReference(u) == NoReference && ReadReference(names) == NoReference
    && ReadReference(r) == Reference(None, key) && Resolve(doc, key) == Some(u)
  }

  lemma KeyedAreLeaves(x: Externals, doc: Value, r: Value, key: string, u: Value, names: Value, f: Flat)
    requires Keyed(x, doc, r, key, u, names, f)
    ensures LeafDocument(x, doc, {doc, r, u, names}) && Guarded(x, doc) && LeafReference(x, doc, r)
  {
    hide Read, ReadReference, Resolve, Guarded, Find, ChildrenAmong, LeafNode, LeafReference;
    var nodes := {doc, r, u, names};
    ReferenceNode(x, doc, r, key, u, nodes);
    OneWithin(At(r, "/allOf/0"), "", f, nodes);
    OneWithin(At(names, ""), "", f, nodes);
    ConcreteNode(x, doc, doc, false, Read(x, doc).value.constraints, nodes);
    ConcreteNode(x, doc, u, false, Read(x, u).value.constraints, nodes);
    ConcreteNode(x, doc, names, false, [], nodes);
    LeafDocumentIsGuarded(x, doc, nodes);
  }

  /** The document accepts every object that satisfies the constraint. */
  lemma KeyedAccepts(x: Externals, doc: Value, r: Value, key: string, u: Value, names: Value, f: Flat, v: Value)
    requires Keyed(x, doc, r, key, u, names, f) && Guarded(x, doc) && v.Object? && FlatHolds(x, f, v)
    ensures SchemaAccepts(x, doc, v)
  {
    hide Pointers, Read, ReadReference, Resolve, Chase, RankOf, Guarded, DocumentAccepts, LeafDocument, LeafReference,
         Sub, Lift, FlatHolds, Holds, Find;
    KeyedAreLeaves(x, doc, r, key, u, names, f);
    RootSays(x, doc);
    assert InPlace(AllOf([At(r, "/allOf/0")]))[0] == At(r, "/allOf/0");
    SlotSays(x, doc, doc, 0, At(r, "/allOf/0"), u);
    TargetAcceptsObject(x, doc, u, names, f, v);
    OneHolding(x, At(r, "/allOf/0"), v, Lift(Sub(x, doc)));
    ConstraintsDecide(x, doc, doc, v);
  }

  lemma TargetAcceptsObject(x: Externals, doc: Value, u: Value, names: Value, f: Flat, v: Value)
    requires Guarded(x, doc) && u in RankOf(x, doc) && v.Object? && FlatHolds(x, f, v)
    requires Read(x, u) == Some(Subschema(false, [PropertyNames(At(names, "")), Plain(f)]))
    requires Read(x, names) == Some(Subschema(false, [])) && ReadReference(names) == NoReference
    ensures DocumentAccepts(x, doc, u, v)
  {
    hide Read, ReadReference, RankOf, Guarded, DocumentAccepts, Sub, Lift, FlatHolds, Holds;
    assert Inside(PropertyNames(At(names, "")))[0] == At(names, "");
    SlotSays(x, doc, u, 0, At(names, ""), names);
    forall m <- v.members ensures DocumentAccepts(x, doc, names, Str(m.key)) {
      ConstraintsDecide(x, doc, names, Str(m.key));
    }
    NamesHold(x, At(names, ""), v, Lift(Sub(x, doc)));
    FlatSays(x, f, v, Lift(Sub(x, doc)));
    ConstraintsDecide(x, doc, u, v);
  }

  /** Whatever the parser makes of the document rejects every object with a member whose name, as a
      string, does not satisfy the constraint: it is held against the schema whose names are meant. */
  lemma KeyedIsMisjudged(x: Externals, doc: Value, r: Value, key: string, u: Value, names: Value, f: Flat, v: Value,
                         k: nat)
    requires Keyed(x, doc, r, key, u, names, f)
    requires v.Object? && k < |v.members| && !FlatHolds(x, f, Str(v.members[k].key))
    ensures AllFormsSay(x, doc, v, false)
  {
    hide CompiledForm, GraphGuarded, Accepts, Keyed, FlatHolds;
    forall g, origin, entries | CompiledForm(x, doc, g, origin, entries) && GraphGuarded(g) && ROOT < |g|
      ensures !Accepts(x, g, ROOT, v)
    {
      KeyedFormRejects(x, doc, r, key, u, names, f, v, k, g, origin, entries);
    }
  }

  lemma KeyedFormRejects(x: Externals, doc: Value, r: Value, key: string, u: Value, names: Value, f: Flat, v: Value,
                         k: nat,
                         g: Graph, origin: seq<Target>, entries: Entries)
    requires Keyed(x, doc, r, key, u, names, f) && CompiledForm(x, doc, g, origin, entries) && GraphGuarded(g)
    requires v.Object? && k < |v.members| && !FlatHolds(x, f, Str(v.members[k].key))
    ensures ROOT < |g| && !Accepts(x, g, ROOT, v)
  {
    hide Read, ReadReference, Resolve, CompiledForm, GraphGuarded, Accepts, FoundAt, SlotsOf, EntriesLinked,
         FlatHolds, Find;
    RootIsItself(x, doc, g, origin, entries);
    var q := AllOfFound(x, doc, g, origin, entries, ROOT, At(r, "/allOf/0"));
    ReferenceIsTaken(x, doc, origin, entries, origin[ROOT], 0, q, key, u);
    assert Read(x, u).value.constraints[1] == Plain(f);
    NamesMustFitSchema(x, doc, g, origin, entries, q, names, f, v, k);
    if Accepts(x, g, ROOT, v) { ChildAccepted(x, g, ROOT, v, q); }
  }

  /** {"k": null} */
  const NAMED_VALUE: Value := Object([Member("k", Null)])

  lemma NamesDocumentIs(x: Externals)
    ensures Keyed(x, NAMES_DOCUMENT, TO_DEFINITION, "/definitions/a", KEYED, NAMES, Type({ObjectT}))
  {
    hide Read, ReadReference, Resolve, NAMES_DOCUMENT, TO_DEFINITION, KEYED, NAMES, Find;
    ReferencesAre();
    OthersAreConcrete();
    NamesDocumentReads(x);
    KeyedReads(x);
    KeyedHas();
    QuietNames(x);
    DefinitionResolves();
  }

  /** The document lets property names be anything; it accepts an object that validation rejects. */
  method RejectNamedValue(x: Externals) returns (r: Validation)
    ensures r.Invalid?
    ensures Guarded(x, NAMES_DOCUMENT) && SchemaAccepts(x, NAMES_DOCUMENT, NAMED_VALUE)
  {
    hide Guarded, SchemaAccepts, NAMES_DOCUMENT, TO_DEFINITION, KEYED, NAMES, LeafDocument, AllFormsSay, Keyed;
    ghost var f := Type({ObjectT});
    NamesDocumentIs(x);
    KeyedAreLeaves(x, NAMES_DOCUMENT, TO_DEFINITION, "/definitions/a", KEYED, NAMES, f);
    assert FlatHolds(x, f, NAMED_VALUE) by { assert HasType(NAMED_VALUE, ObjectT); }
    KeyedAccepts(x, NAMES_DOCUMENT, TO_DEFINITION, "/definitions/a", KEYED, NAMES, f, NAMED_VALUE);
    KeyedIsMisjudged(x, NAMES_DOCUMENT, TO_DEFINITION, "/definitions/a", KEYED, NAMES, f, NAMED_VALUE, 0);
    r := ValidateLeafDocument(x, NAMES_DOCUMENT, {NAMES_DOCUMENT, TO_DEFINITION, KEYED, NAMES}, NAMED_VALUE, false);
  }

  // ---- Schemas in `dependencies` are taken for the object that holds them ----

  lemma OneDependent(name: string, s: Slot)
    ensures InPlace(OnMember(name, s)) == [s] && InOrder(OnMember(name, s)) == [s] && Inside(OnMember(name, s)) == []
  {
  }

  /** A document with one reference r under `allOf`, to its `dependencies` object u, which taken for a
      schema says nothing; in it the schema w, which accepts nothing, depends on one name. */
  ghost predicate Dependent(x: Externals, doc: Value, r: Value, u: Value, name: string, w: Value) {
    && Read(x, doc) == Some(Subschema(false, [AllOf([At(r, "/allOf/0")]), OnMember(name, At(w, "/dependencies"))]))
    && Read(x, u) == Some(Subschema(false, [])) && Read(x, w) == Some(Subschema(true, []))
    && ReadReference(doc) == NoReference && ReadReference(u) == NoReference && ReadReference(w) == NoReference
    && ReadReference(r) == Reference(None, "/dependencies") && Resolve(doc, "/dependencies") == Some(u)
  }

  lemma DependentAreLeaves(x: Externals, doc: Value, r: Value, u: Value, name: string, w: Value)
    requires Dependent(x, doc, r, u, name, w)
    ensures LeafDocument(x, doc, {doc, r, u, w}) && Guarded(x, doc)
  {
    hide Read, ReadReference, Resolve, Guarded, OnMember, ChildrenAmong, LeafNode, LeafReference;
    var nodes := {doc, r, u, w};
    ReferenceNode(x, doc, r, "/dependencies", u, nodes);
    OneWithin(At(r, "/allOf/0"), "", UniqueItems, nodes);
    OneWithin(At(w, "/dependencies"), name, UniqueItems, nodes);
    ConcreteNode(x, doc, doc, false, Read(x, doc).value.constraints, nodes);
    ConcreteNode(x, doc, u, false, [], nodes);
    ConcreteNode(x, doc, w, true, [], nodes);
    LeafDocumentIsGuarded(x, doc, nodes);
  }

  /** The document rejects every object that has a member of that name. */
  lemma DependentRejects(x: Externals, doc: Value, r: Value, u: Value, name: string, w: Value, v: Value)
    requires Dependent(x, doc, r, u, name, w) && Guarded(x, doc) && v.Object? && Find(v.members, name).Some?
    ensures !SchemaAccepts(x, doc, v)
  {
    hide Pointers, Read, ReadReference, Resolve, Chase, RankOf, Guarded, DocumentAccepts, LeafDocument, Sub, Lift,
         Find, OnMember, Holds;
    var s := At(w, "/dependencies");
    DependentAreLeaves(x, doc, r, u, name, w);
    RootSays(x, doc);
    OneDependent(name, s);
    SlotSays(x, doc, doc, 1, s, w);
    ConstraintsDecide(x, doc, w, v);
    ConstraintsDecide(x, doc, doc, v);
    DependencyDecides(x, name, s, v, Lift(Sub(x, doc)));
    assert Read(x, doc).value.constraints[1] == OnMember(name, s);
  }

  lemma DependencyDecides(x: Externals, name: string, s: Slot, v: Value, accepts: (Slot, Value) -> bool)
    requires v.Object? && Find(v.members, name).Some?
    ensures Holds(x, OnMember(name, s), v, accepts) ==> accepts(s, v)
  {
    assert OnMember(name, s).schemas[0].name == name && OnMember(name, s).schemas[0].child == s;
  }

  /** Whatever the parser makes of the document accepts everything: w is taken for what the reference to
      `dependencies` has led to, which says nothing. */
  lemma DependentIsMisjudged(x: Externals, doc: Value, r: Value, u: Value, name: string, w: Value, v: Value)
    requires Dependent(x, doc, r, u, name, w)
    ensures AllFormsSay(x, doc, v, true)
  {
    hide CompiledForm, GraphGuarded, Accepts, Dependent;
    forall g, origin, entries | CompiledForm(x, doc, g, origin, entries) && GraphGuarded(g) && ROOT < |g|
      ensures Accepts(x, g, ROOT, v)
    {
      DependentFormAccepts(x, doc, r, u, name, w, v, g, origin, entries);
    }
  }

  lemma DependentFormAccepts(x: Externals, doc: Value, r: Value, u: Value, name: string, w: Value, v: Value,
                             g: Graph, origin: seq<Target>, entries: Entries)
    requires Dependent(x, doc, r, u, name, w) && CompiledForm(x, doc, g, origin, entries) && GraphGuarded(g)
    ensures ROOT < |g| && Accepts(x, g, ROOT, v)
  {
    hide Read, ReadReference, Resolve, CompiledForm, GraphGuarded, Accepts, FoundAt, SlotsOf, EntriesLinked, KeysAt,
         OnMember;
    RootIsItself(x, doc, g, origin, entries);
    var q := AllOfFound(x, doc, g, origin, entries, ROOT, At(r, "/allOf/0"));
    ReferenceIsTaken(x, doc, origin, entries, origin[ROOT], 0, q, "/dependencies", u);
    var p := SecondFound(x, doc, g, origin, entries, ROOT, At(r, "/allOf/0"), name, At(w, "/dependencies"));
    ReferenceIsCached(x, doc, g, origin, entries, ROOT, 0, 1, "/dependencies");
    assert "" + "/dependencies" == "/dependencies";
    HitIsTaken(x, doc, origin, entries, origin[ROOT], 1, p, u);
    QuietFormAccepts(x, doc, g, origin, entries, q, v);
    QuietFormAccepts(x, doc, g, origin, entries, p, v);
    BothAccept(x, g, q, name, p, v);
  }

  /** The schema that depends on a name, and where it was found. */
  lemma SecondFound(x: Externals, doc: Value, g: Graph, origin: seq<Target>, entries: Entries, p: Pointer, s: Slot,
                    name: string, t: Slot)
    returns (q: Pointer)
    requires CompiledForm(x, doc, g, origin, entries) && p < |g| && p < |origin| && origin[p].Node?
    requires Read(x, origin[p].node) == Some(Subschema(false, [AllOf([s]), OnMember(name, t)]))
    ensures |g[p].constraints| == 2 && g[p].constraints[1] == Constraint.Dependencies([], [Named(name, q)])
    ensures !g[p].alwaysInvalid
    ensures 1 < |SlotsOf(x, origin[p])| && SlotsOf(x, origin[p])[1] == t
    ensures FoundAt(x, doc, origin, entries, origin[p], 1, q)
  {
    hide CompiledForm, Read, SlotsOf, FoundAt, OnMember, Walked;
    OneDependent(name, t);
    CompiledAll(x, doc, g, origin, entries, p);
    var cs := [AllOf([s]), OnMember(name, t)];
    var n := ConstraintFound(x, doc, g, origin, entries, p, 1);
    assert cs[..1] == [AllOf([s])];
    AllInOrderNext([], AllOf([s]));
    assert [] + [AllOf([s])] == [AllOf([s])] && InOrder(AllOf([s])) == [s];
    var d := g[p].constraints[1];
    DependencyIs(d, name, t);
    q := InOrder(d)[0];
    assert FoundAt(x, doc, origin, entries, origin[p], n + 0, InOrder(d)[0]);
  }

  lemma DependencyIs(d: Constraint<Pointer>, name: string, t: Slot)
    requires ShapeOf(d) == ShapeOf(OnMember(name, t))
    ensures |InOrder(d)| == 1 && d == Constraint.Dependencies([], [Named(name, InOrder(d)[0])])
  {
    assert Names(OnMember(name, t).schemas) == [name];
    assert |Names(d.schemas)| == 1 && Names(d.schemas)[0] == name;
    assert d.schemas == [Named(name, d.schemas[0].child)];
  }

  lemma BothAccept(x: Externals, g: Graph, q: Pointer, name: string, p: Pointer, v: Value)
    requires GraphGuarded(g) && ROOT < |g| && q < |g| && p < |g| && Accepts(x, g, q, v) && Accepts(x, g, p, v)
    requires !g[ROOT].alwaysInvalid && |g[ROOT].constraints| == 2
    requires g[ROOT].constraints[0] == AllOf([q])
    requires g[ROOT].constraints[1] == Constraint.Dependencies([], [Named(name, p)])
    ensures Accepts(x, g, ROOT, v)
  {
    hide GraphGuarded, Accepts, ChildAccepts, InPlace, Holds;
    var allOf, onName := AllOf([q]), Constraint.Dependencies([], [Named(name, p)]);
    BothInPlace(name, q, p);
    AcceptedInPlace(x, g, ROOT, allOf, q, v);
    AcceptedInPlace(x, g, ROOT, onName, p, v);
    BothHold(x, name, q, p, v, ChildAccepts(x, g, ROOT, v));
    AllHold(x, g, ROOT, v);
  }

  lemma AllHold(x: Externals, g: Graph, p: Pointer, v: Value)
    requires GraphGuarded(g) && p < |g| && !g[p].alwaysInvalid
    requires forall c <- g[p].constraints :: Holds(x, c, v, ChildAccepts(x, g, p, v))
    ensures Accepts(x, g, p, v)
  {
    hide GraphGuarded, Holds, ChildAccepts;
  }

  lemma BothInPlace(name: string, q: Pointer, p: Pointer)
    ensures q in InPlace(AllOf([q])) && p in InPlace(Constraint.Dependencies([], [Named(name, p)]))
  {
    assert InPlace(Constraint.Dependencies([], [Named(name, p)]))[0] == p;
  }

  lemma BothHold(x: Externals, name: string, q: Pointer, p: Pointer, v: Value, accepts: (Pointer, Value) -> bool)
    requires accepts(q, v) && accepts(p, v)
    ensures Holds(x, AllOf([q]), v, accepts) && Holds(x, Constraint.Dependencies([], [Named(name, p)]), v, accepts)
  {
  }

  lemma AcceptedInPlace(x: Externals, g: Graph, p: Pointer, c: Constraint<Pointer>, q: Pointer, v: Value)
    requires GraphGuarded(g) && p < |g| && c in g[p].constraints && q in InPlace(c) && q < |g| && Accepts(x, g, q, v)
    ensures ChildAccepts(x, g, p, v)(q, v)
  {
    hide InPlace, Accepts;
    assert SubschemaRanked(g, GraphRankOf(g), p);
  }

  lemma FalseReads(x: Externals)
    ensures Read(x, Bool(false)) == Some(Subschema(true, []))
  {
  }

  lemma DependenciesDocumentIs(x: Externals)
    ensures Dependent(x, DEPENDENCIES_DOCUMENT, TO_DEPENDENCIES, DEPENDENTS, "a", Bool(false))
  {
    hide Read, ReadReference, Resolve, DEPENDENCIES_DOCUMENT, TO_DEPENDENCIES, DEPENDENTS;
    ReferencesAre();
    OthersAreConcrete();
    DependenciesDocumentReads(x);
    QuietDependents(x);
    DependenciesResolve();
    FalseReads(x);
  }

  /** {"a": 1} */
  const DEPENDENT_VALUE: Value := Object([Member("a", Int(1))])

  /** The document says that nothing may have a member `a`; it rejects an object that validation accepts. */
  method AcceptDependentValue(x: Externals) returns (r: Validation)
    ensures r.Valid?
    ensures Guarded(x, DEPENDENCIES_DOCUMENT) && !SchemaAccepts(x, DEPENDENCIES_DOCUMENT, DEPENDENT_VALUE)
  {
    hide Guarded, SchemaAccepts, DEPENDENCIES_DOCUMENT, TO_DEPENDENCIES, DEPENDENTS, LeafDocument, AllFormsSay,
         Dependent;
    DependenciesDocumentIs(x);
    DependentAreLeaves(x, DEPENDENCIES_DOCUMENT, TO_DEPENDENCIES, DEPENDENTS, "a", Bool(false));
    assert DEPENDENT_VALUE.members[0].key == "a";
    DependentRejects(x, DEPENDENCIES_DOCUMENT, TO_DEPENDENCIES, DEPENDENTS, "a", Bool(false), DEPENDENT_VALUE);
    DependentIsMisjudged(x, DEPENDENCIES_DOCUMENT, TO_DEPENDENCIES, DEPENDENTS, "a", Bool(false), DEPENDENT_VALUE);
    r := ValidateLeafDocument(x, DEPENDENCIES_DOCUMENT,
                              {DEPENDENCIES_DOCUMENT, TO_DEPENDENCIES, DEPENDENTS, Bool(false)}, DEPENDENT_VALUE, true);
  }

  /** On the way the parser mistakes w for u. */
  lemma DependentIsMistaken(x: Externals, doc: Value, r: Value, u: Value, name: string, w: Value)
    requires Dependent(x, doc, r, u, name, w)
    ensures !NoMistake(x, doc)
  {
    hide Read, ReadReference, Resolve, OnMember, NoMistake, Walked, Pointers, SlotsOf;
    var t := Node(doc, "", {});
    RootIsWalked(x, doc);
    OneDependent(name, At(w, "/dependencies"));
    TwoSlots(x, t, AllOf([At(r, "/allOf/0")]), OnMember(name, At(w, "/dependencies")), At(r, "/allOf/0"),
             At(w, "/dependencies"));
    assert "" + "/dependencies" == "/dependencies";
    EarlierReferenceIsMistake(x, doc, t, 0, 1, u);
  }

  lemma RootIsWalked(x: Externals, doc: Value)
    requires ReadReference(doc) == NoReference
    ensures Walked(x, doc, Node(doc, "", {}))
  {
    hide Walked;
    WalkedRoot(x, doc);
  }

  lemma TwoSlots(x: Externals, t: Target, c: Constraint<Slot>, d: Constraint<Slot>, s: Slot, s': Slot)
    requires t.Node? && Read(x, t.node) == Some(Subschema(false, [c, d])) && InOrder(c) == [s] && InOrder(d) == [s']
    ensures SlotsOf(x, t) == [s, s']
  {
    hide Read, InOrder;
    AllInOrderNext([], c);
    AllInOrderNext([c], d);
    assert [] + [c] == [c] && [c] + [d] == [c, d];
  }

  // ---- Where the reference comes later ----

  /** The same, but with the reference under `not`, which is compiled after `dependencies`. */
  ghost predicate Ordered(x: Externals, doc: Value, r: Value, u: Value, name: string, w: Value) {
    && Read(x, doc) == Some(Subschema(false, [OnMember(name, At(w, "/dependencies")), Not(At(r, "/not"))]))
    && Read(x, u) == Some(Subschema(false, [])) && Read(x, w) == Some(Subschema(true, []))
    && ReadReference(doc) == NoReference && ReadReference(u) == NoReference && ReadReference(w) == NoReference
    && ReadReference(r) == Reference(None, "/dependencies") && Resolve(doc, "/dependencies") == Some(u)
  }

  lemma OrderedAreLeaves(x: Externals, doc: Value, r: Value, u: Value, name: string, w: Value)
    requires Ordered(x, doc, r, u, name, w)
    ensures LeafDocument(x, doc, {doc, r, u, w}) && LeafReference(x, doc, r)
  {
    hide Read, ReadReference, Resolve, OnMember, ChildrenAmong, LeafNode, LeafReference;
    var nodes := {doc, r, u, w};
    ReferenceNode(x, doc, r, "/dependencies", u, nodes);
    OneWithin(At(r, "/not"), "", UniqueItems, nodes);
    OneWithin(At(w, "/dependencies"), name, UniqueItems, nodes);
    ConcreteNode(x, doc, doc, false, Read(x, doc).value.constraints, nodes);
    ConcreteNode(x, doc, u, false, [], nodes);
    ConcreteNode(x, doc, w, true, [], nodes);
  }

  lemma OrderedSlots(x: Externals, doc: Value, r: Value, u: Value, name: string, w: Value, t: Target)
    requires Ordered(x, doc, r, u, name, w) && t.Node?
    ensures t.node == doc ==> SlotsOf(x, t) == [At(w, "/dependencies"), At(r, "/not")]
    ensures t.node == u || t.node == w ==> SlotsOf(x, t) == []
  {
    hide Read, OnMember, ReadReference, Resolve;
    OneDependent(name, At(w, "/dependencies"));
    if t.node == doc {
      assert InOrder(Not(At(r, "/not"))) == [At(r, "/not")];
      TwoSlots(x, t, OnMember(name, At(w, "/dependencies")), Not(At(r, "/not")), At(w, "/dependencies"), At(r, "/not"));
    }
  }

  /** The parser comes to the document once, before anything is cached. */
  lemma {:induction false} OrderedWalk(x: Externals, doc: Value, r: Value, u: Value, name: string, w: Value, t: Target,
                                       steps: nat)
    requires Ordered(x, doc, r, u, name, w) && WalkedIn(x, doc, t, steps)
    ensures t == Node(doc, "", {}) || (t.Node? && (t.node == u || t.node == w))
    decreases steps
  {
    hide Read, Resolve, SlotsOf, KeysAt, ReadReference, Pointers, OnMember;
    if steps > 0 {
      var t', k: nat :| WalkedIn(x, doc, t', steps - 1) && ArrivesAt(x, doc, t', k, Made(t));
      OrderedWalk(x, doc, r, u, name, w, t', steps - 1);
      OrderedSlots(x, doc, r, u, name, w, t');
      if k == 1 { OrderedReference(x, doc, r, u, name, w, t'.path + "/not", KeysAt(x, doc, t', k)); }
    }
  }

  lemma OrderedReference(x: Externals, doc: Value, r: Value, u: Value, name: string, w: Value, path: string,
                         keys: set<string>)
    requires Ordered(x, doc, r, u, name, w)
    ensures var a := Arrive(doc, r, path, {}, keys); a.Made? ==> a.target.Node? && a.target.node == u
  {
    hide Read, Resolve, ReadReference, Pointers, OnMember;
    var key := "/dependencies";
    ConcreteArrival(doc, u, key, {} + {key}, keys);
  }

  lemma OrderedWalked(x: Externals, doc: Value, r: Value, u: Value, name: string, w: Value, t: Target)
    requires Ordered(x, doc, r, u, name, w) && Walked(x, doc, t)
    ensures t == Node(doc, "", {}) || (t.Node? && (t.node == u || t.node == w))
  {
    hide WalkedIn, Ordered;
    var steps: nat :| WalkedIn(x, doc, t, steps);
    OrderedWalk(x, doc, r, u, name, w, t, steps);
  }

  lemma NothingCached(x: Externals, doc: Value, t: Target)
    requires t.Node? && t.keys == {}
    ensures KeysAt(x, doc, t, 0) == {}
  {
    hide SlotsOf;
    KeysAtEnds(x, doc, t);
  }

  /** Here nothing is mistaken, although a reference does point to the `dependencies` object. */
  lemma OrderedIsRight(x: Externals, doc: Value, r: Value, u: Value, name: string, w: Value)
    requires Ordered(x, doc, r, u, name, w)
    ensures ChainsEnd(x, doc) && NoMistake(x, doc)
  {
    hide SlotsOf, KeysAt, Walked, ChainsEnd, LeafDocument, Ordered, LeafReferences, NotMistaken;
    OrderedAreLeaves(x, doc, r, u, name, w);
    LeafDocumentHas(x, doc, {doc, r, u, w});
    LeafChains(x, doc);
    forall t, k: nat | Walked(x, doc, t) ensures RightAt(x, doc, t, k) {
      OrderedWalked(x, doc, r, u, name, w, t);
      OrderedSlots(x, doc, r, u, name, w, t);
      if k < |SlotsOf(x, t)| && SlotsOf(x, t)[k].At? { OrderedRightAt(x, doc, r, u, name, w, t, k); }
    }
  }

  lemma OrderedRightAt(x: Externals, doc: Value, r: Value, u: Value, name: string, w: Value, t: Target, k: nat)
    requires Ordered(x, doc, r, u, name, w) && t == Node(doc, "", {}) && Walked(x, doc, t)
    requires SlotsOf(x, t) == [At(w, "/dependencies"), At(r, "/not")] && k < 2
    ensures RightAt(x, doc, t, k)
  {
    hide Read, Resolve, SlotsOf, KeysAt, ReadReference, Pointers, Chase, Walked, LeafReference, OnMember, Placed,
         Size;
    NothingCached(x, doc, t);
    WalkedSlot(x, doc, t, k);
    if k == 1 {
      OrderedAreLeaves(x, doc, r, u, name, w);
      LeafReferenceEnds(x, doc, r);
    }
  }

  lemma OrderedDocumentIs(x: Externals)
    ensures Ordered(x, ORDERED_DOCUMENT, TO_DEPENDENCIES, DEPENDENTS, "a", Bool(false))
  {
    hide Read, ReadReference, Resolve, ORDERED_DOCUMENT, TO_DEPENDENCIES, DEPENDENTS;
    ReferencesAre();
    OthersAreConcrete();
    NestedAreConcrete();
    OrderedDocumentReads(x);
    QuietDependents(x);
    OrderedResolves();
    FalseReads(x);
  }

  /** Two documents with the same `dependencies` and the same reference: what matters is which the parser
      comes to first. */
  lemma OrderDecides(x: Externals)
    ensures !NoMistake(x, DEPENDENCIES_DOCUMENT)
    ensures ChainsEnd(x, ORDERED_DOCUMENT) && NoMistake(x, ORDERED_DOCUMENT)
  {
    hide NoMistake, ChainsEnd, Dependent, Ordered, DEPENDENCIES_DOCUMENT, ORDERED_DOCUMENT, TO_DEPENDENCIES,
         DEPENDENTS;
    DependenciesDocumentIs(x);
    DependentIsMistaken(x, DEPENDENCIES_DOCUMENT, TO_DEPENDENCIES, DEPENDENTS, "a", Bool(false));
    OrderedDocumentIs(x);
    OrderedIsRight(x, ORDERED_DOCUMENT, TO_DEPENDENCIES, DEPENDENTS, "a", Bool(false));
  }

  // ---- Subschemas of the schema for names are taken for those of the enclosing schema ----

  /** A document with one schema a under `allOf`, a reference r to it under `anyOf`, and a schema for names
      with one schema b under `allOf`; a and b have one constraint each, without subschemas. */
  ghost predicate Nested(x: Externals, doc: Value, a: Value, r: Value, names: Value, b: Value, f: Flat, h: Flat) {
    && Read(x, doc) == Some(Subschema(false,
         [AllOf([At(a, "/allOf/0")]), AnyOf([At(r, "/anyOf/0")]), PropertyNames(At(names, ""))]))
    && Read(x, names) == Some(Subschema(false, [AllOf([At(b, "/allOf/0")])]))
    && Read(x, a) == Some(Subschema(false, [Plain(f)])) && Read(x, b) == Some(Subschema(false, [Plain(h)]))
    && ReadReference(doc) == NoReference && ReadReference(names) == NoReference
    && ReadReference(a) == NoReference && ReadReference(b) == NoReference
    && ReadReference(r) == Reference(None, "/allOf/0") && Resolve(doc, "/allOf/0") == Some(a)
  }

  lemma NestedAreLeaves(x: Externals, doc: Value, a: Value, r: Value, names: Value, b: Value, f: Flat, h: Flat)
    requires Nested(x, doc, a, r, names, b, f, h)
    ensures LeafDocument(x, doc, {doc, a, r, names, b}) && Guarded(x, doc) && LeafReference(x, doc, r)
  {
    hide Read, ReadReference, Resolve, Guarded, ChildrenAmong, LeafNode, LeafReference;
    var nodes := {doc, a, r, names, b};
    ReferenceNode(x, doc, r, "/allOf/0", a, nodes);
    OneWithin(At(a, "/allOf/0"), "", f, nodes);
    OneWithin(At(r, "/anyOf/0"), "", f, nodes);
    OneWithin(At(names, ""), "", f, nodes);
    OneWithin(At(b, "/allOf/0"), "", h, nodes);
    ConcreteNode(x, doc, doc, false, Read(x, doc).value.constraints, nodes);
    ConcreteNode(x, doc, a, false, [Plain(f)], nodes);
    ConcreteNode(x, doc, names, false, [AllOf([At(b, "/allOf/0")])], nodes);
    ConcreteNode(x, doc, b, false, [Plain(h)], nodes);
    LeafDocumentIsGuarded(x, doc, nodes);
  }

  /** The document accepts every object that a accepts if b accepts the names of its members. */
  lemma NestedAccepts(x: Externals, doc: Value, a: Value, r: Value, names: Value, b: Value, f: Flat, h: Flat, v: Value)
    requires Nested(x, doc, a, r, names, b, f, h) && Guarded(x, doc)
    requires v.Object? && FlatHolds(x, f, v) && forall m <- v.members :: FlatHolds(x, h, Str(m.key))
    ensures SchemaAccepts(x, doc, v)
  {
    hide Pointers, Read, ReadReference, Resolve, Chase, RankOf, Guarded, DocumentAccepts, LeafDocument, LeafReference,
         Sub, Lift, FlatHolds, Holds;
    NestedAreLeaves(x, doc, a, r, names, b, f, h);
    RootSays(x, doc);
    assert InPlace(AllOf([At(a, "/allOf/0")]))[0] == At(a, "/allOf/0");
    SlotSays(x, doc, doc, 0, At(a, "/allOf/0"), a);
    assert InPlace(AnyOf([At(r, "/anyOf/0")]))[0] == At(r, "/anyOf/0");
    SlotSays(x, doc, doc, 1, At(r, "/anyOf/0"), a);
    assert Inside(PropertyNames(At(names, "")))[0] == At(names, "");
    SlotSays(x, doc, doc, 2, At(names, ""), names);
    assert InPlace(AllOf([At(b, "/allOf/0")]))[0] == At(b, "/allOf/0");
    SlotSays(x, doc, names, 0, At(b, "/allOf/0"), b);
    OneFlat(x, doc, a, f, v);
    forall m <- v.members ensures DocumentAccepts(x, doc, names, Str(m.key)) {
      OneFlat(x, doc, b, h, Str(m.key));
      ConstraintsDecide(x, doc, names, Str(m.key));
      OneHolding(x, At(b, "/allOf/0"), Str(m.key), Lift(Sub(x, doc)));
    }
    OneHolding(x, At(a, "/allOf/0"), v, Lift(Sub(x, doc)));
    OneHolding(x, At(r, "/anyOf/0"), v, Lift(Sub(x, doc)));
    NamesHold(x, At(names, ""), v, Lift(Sub(x, doc)));
    ConstraintsDecide(x, doc, doc, v);
  }

  /** Whatever the parser makes of the document rejects every object with a member whose name, as a
      string, a rejects: the schema for names is compiled at the path of the document, so b is taken for
      what the reference has led to. */
  lemma NestedIsMisjudged(x: Externals, doc: Value, a: Value, r: Value, names: Value, b: Value, f: Flat, h: Flat,
                          v: Value, k: nat)
    requires Nested(x, doc, a, r, names, b, f, h)
    requires v.Object? && k < |v.members| && !FlatHolds(x, f, Str(v.members[k].key))
    ensures AllFormsSay(x, doc, v, false)
  {
    hide CompiledForm, GraphGuarded, Accepts, Nested, FlatHolds;
    forall g, origin, entries | CompiledForm(x, doc, g, origin, entries) && GraphGuarded(g) && ROOT < |g|
      ensures !Accepts(x, g, ROOT, v)
    {
      NestedFormRejects(x, doc, a, r, names, b, f, h, v, k, g, origin, entries);
    }
  }

  lemma OnlyOneIsFollowed(x: Externals, doc: Value, a: Value, r: Value, names: Value, b: Value, f: Flat, h: Flat,
                          pointer: string)
    requires Nested(x, doc, a, r, names, b, f, h) && Followed(x, doc, pointer)
    ensures pointer == "/allOf/0"
  {
    hide ReadReference, Placed, LeafDocument, Read, Resolve;
    NestedAreLeaves(x, doc, a, r, names, b, f, h);
    var v, path :| Placed(x, doc, v, path) && ReadReference(v) == Reference(None, pointer);
    LeafPlacedWithin(x, doc, {doc, a, r, names, b}, v, path);
  }

  /** The schema for names, and what it was made for. */
  lemma NestedNames(x: Externals, doc: Value, a: Value, r: Value, names: Value, b: Value, f: Flat, h: Flat,
                    g: Graph, origin: seq<Target>, entries: Entries)
    returns (p: Pointer)
    requires Nested(x, doc, a, r, names, b, f, h) && CompiledForm(x, doc, g, origin, entries)
    ensures |g| == |origin| && ROOT < |g| && p < |g| && PropertyNames(p) in g[ROOT].constraints
    ensures origin[p].Node? && origin[p].node == names && origin[p].path == "" && "/allOf/0" in origin[p].keys
  {
    hide Read, ReadReference, Resolve, CompiledForm, FoundAt, SlotsOf, EntriesLinked, KeysAt, AllInOrder, InOrder;
    RootIsItself(x, doc, g, origin, entries);
    NestedOrder(At(a, "/allOf/0"), At(r, "/anyOf/0"), At(names, ""));
    var cs := Read(x, doc).value.constraints;
    var m := ConstraintFound(x, doc, g, origin, entries, ROOT, 1);
    var n := ConstraintFound(x, doc, g, origin, entries, ROOT, 2);
    var d := g[ROOT].constraints[2];
    NamesConstraint(d);
    p := d.child;
    assert FoundAt(x, doc, origin, entries, origin[ROOT], n + 0, InOrder(d)[0]);
    assert SlotsOf(x, origin[ROOT])[m + 0] == InOrder(cs[1])[0];
    ReferenceIsCached(x, doc, g, origin, entries, ROOT, 1, 2, "/allOf/0");
    if "" in entries {
      CachedIsFollowed(x, doc, origin, entries, "");
      OnlyOneIsFollowed(x, doc, a, r, names, b, f, h, "");
    }
    NamesAreMade(x, doc, origin, entries, origin[ROOT], 2, names, p);
  }

  lemma NestedOrder(s: Slot, t: Slot, u: Slot)
    ensures var cs := [AllOf([s]), AnyOf([t]), PropertyNames(u)];
      && |AllInOrder(cs[..1])| == 1 && |AllInOrder(cs[..2])| == 2 && InOrder(cs[1]) == [t] && InOrder(cs[2]) == [u]
  {
    var a, b, c := AllOf([s]), AnyOf([t]), PropertyNames(u);
    AllInOrderNext([], a);
    AllInOrderNext([a], b);
    assert [a, b, c][..1] == [a] == [] + [a] && [a, b, c][..2] == [a, b] == [a] + [b];
    assert |InOrder(a)| == 1 && |InOrder(b)| == 1;
  }

  lemma NamesConstraint(d: Constraint<Pointer>)
    requires ShapeOf(d) == Single("propertyNames")
    ensures d.PropertyNames? && InOrder(d) == [d.child]
  {
  }

  lemma CachedIsFollowed(x: Externals, doc: Value, origin: seq<Target>, entries: Entries, key: string)
    requires EntriesLinked(x, doc, origin, entries) && key in entries
    ensures Followed(x, doc, key)
  {
    hide Followed, Resolve, Linked;
    assert EntryLinked(x, doc, origin, entries, key);
  }

  /** Nothing is cached under the empty path, so the schema for names is made, and its keys are all that
      is cached by then. */
  lemma NamesAreMade(x: Externals, doc: Value, origin: seq<Target>, entries: Entries, t: Target, k: nat, names: Value,
                     q: Pointer)
    requires FoundAt(x, doc, origin, entries, t, k, q) && SlotsOf(x, t)[k] == At(names, "")
    requires ReadReference(names) == NoReference && t.path == "" && "" !in entries
    ensures q < |origin| && origin[q] == Node(names, "", KeysAt(x, doc, t, k))
  {
    hide SlotsOf, KeysAt, ReadReference;
    ConcreteArrival(doc, names, "" + "", {}, KeysAt(x, doc, t, k));
    assert KeysAt(x, doc, t, k) + {} == KeysAt(x, doc, t, k) && "" + "" == "";
  }

  lemma NestedFormRejects(x: Externals, doc: Value, a: Value, r: Value, names: Value, b: Value, f: Flat, h: Flat,
                          v: Value, k: nat, g: Graph, origin: seq<Target>, entries: Entries)
    requires Nested(x, doc, a, r, names, b, f, h) && CompiledForm(x, doc, g, origin, entries) && GraphGuarded(g)
    requires v.Object? && k < |v.members| && !FlatHolds(x, f, Str(v.members[k].key))
    ensures ROOT < |g| && !Accepts(x, g, ROOT, v)
  {
    hide Read, ReadReference, Resolve, CompiledForm, GraphGuarded, FoundAt, SlotsOf, EntriesLinked, KeysAt, Accepts,
         FlatHolds;
    var p := NestedNames(x, doc, a, r, names, b, f, h, g, origin, entries);
    RootIsItself(x, doc, g, origin, entries);
    var q := AllOfFound(x, doc, g, origin, entries, p, At(b, "/allOf/0"));
    KeysFromStart(x, doc, origin[p], 0);
    assert "" + "/allOf/0" == "/allOf/0";
    HitIsTaken(x, doc, origin, entries, origin[p], 0, q, a);
    FlatIsKept(x, doc, g, origin, entries, q, f);
    if Accepts(x, g, ROOT, v) {
      NameAccepted(x, g, ROOT, v, p, k);
      ChildAccepted(x, g, p, Str(v.members[k].key), q);
      FlatIsAsked(x, g, q, f, Str(v.members[k].key));
    }
  }

  lemma NameAccepted(x: Externals, g: Graph, p: Pointer, v: Value, q: Pointer, k: nat)
    requires GraphGuarded(g) && p < |g| && q < |g| && PropertyNames(q) in g[p].constraints
    requires v.Object? && k < |v.members| && Accepts(x, g, p, v)
    ensures Accepts(x, g, q, Str(v.members[k].key))
  {
    assert Holds(x, PropertyNames(q), v, ChildAccepts(x, g, p, v));
    assert v.members[k] in v.members;
    assert ChildAccepts(x, g, p, v)(q, Str(v.members[k].key));
  }

  lemma NestedDocumentIs(x: Externals)
    requires x.leafArgument("minLength", Int(1))
    ensures Nested(x, NESTED_DOCUMENT, OBJECTS, TO_FIRST, KEYS, NOT_EMPTY, Type({ObjectT}), Leaf("minLength", Int(1)))
  {
    hide Read, ReadReference, Resolve, NESTED_DOCUMENT, OBJECTS, TO_FIRST, KEYS, NOT_EMPTY;
    ReferencesAre();
    NestedAreConcrete();
    NestedDocumentReads(x);
    ObjectsRead(x);
    KeysRead(x);
    NotEmptyReads(x);
    FirstResolves();
  }

  /** The document asks for an object whose member names are not empty; it accepts one that validation
      rejects. */
  method RejectNestedValue(x: Externals) returns (r: Validation)
    requires x.leafArgument("minLength", Int(1)) && x.leafHolds("minLength", Int(1), Str("k"))
    ensures r.Invalid?
    ensures Guarded(x, NESTED_DOCUMENT) && SchemaAccepts(x, NESTED_DOCUMENT, NAMED_VALUE)
  {
    hide Guarded, SchemaAccepts, NESTED_DOCUMENT, OBJECTS, TO_FIRST, KEYS, NOT_EMPTY, LeafDocument, AllFormsSay,
         Nested;
    ghost var f, h := Type({ObjectT}), Leaf("minLength", Int(1));
    NestedDocumentIs(x);
    NestedAreLeaves(x, NESTED_DOCUMENT, OBJECTS, TO_FIRST, KEYS, NOT_EMPTY, f, h);
    assert FlatHolds(x, f, NAMED_VALUE) by { assert HasType(NAMED_VALUE, ObjectT); }
    NestedAccepts(x, NESTED_DOCUMENT, OBJECTS, TO_FIRST, KEYS, NOT_EMPTY, f, h, NAMED_VALUE);
    NestedIsMisjudged(x, NESTED_DOCUMENT, OBJECTS, TO_FIRST, KEYS, NOT_EMPTY, f, h, NAMED_VALUE, 0);
    r := ValidateLeafDocument(x, NESTED_DOCUMENT, {NESTED_DOCUMENT, OBJECTS, TO_FIRST, KEYS, NOT_EMPTY}, NAMED_VALUE,
                              false);
  }

  // ---- An index that is too large ----

  /** {"$ref": "#/allOf/<n>", "allOf": [{}]} */
  function IndexDocument(n: nat): Value {
    Object([Member("$ref", Str("#/allOf/" + Decimal(n))), Member("allOf", Array([NAMES]))])
  }

  lemma IndexReference(n: nat)
    ensures ReadReference(IndexDocument(n)) == Reference(None, "/allOf" + "/" + Decimal(n))
  {
    hide Decimal;
    var s := "#/allOf/" + Decimal(n);
    assert IndexDocument(n).members[0] == Member("$ref", Str(s));
    assert s[1..] == "/allOf" + "/" + Decimal(n);
    var last := s[1..][|s| - 2];
    assert last == Decimal(n)[|Decimal(n)| - 1] && IsDigit(last);
  }

  lemma IndexResolves(n: nat)
    ensures Resolve(IndexDocument(n), "/allOf" + "/" + Decimal(n)) == if n == 0 then Some(NAMES) else None
    ensures Overflows(IndexDocument(n), "/allOf" + "/" + Decimal(n)) <==> n >= TWO_TO_64
  {
    hide Resolve, Overflows, PlainToken;
    var doc := IndexDocument(n);
    AtEmpty(doc);
    IndexItems(doc.members, Str("#/allOf/" + Decimal(n)));
    PlainAllOf();
    StepDown(doc, "", doc.members, "allOf", Array([NAMES]));
    assert "" + "/" + "allOf" == "/allOf";
    StoulDecimal(n);
    ResolveAppend(doc, "/allOf", Array([NAMES]), Decimal(n));
  }

  lemma PlainAllOf()
    ensures PlainToken("allOf")
  {
  }

  lemma IndexItems(ms: seq<Member>, reference: Value)
    requires ms == [Member("$ref", reference), Member("allOf", Array([NAMES]))]
    ensures Find(ms, "allOf") == Some(Array([NAMES]))
  {
  }

  lemma {:induction false} NothingPlaced(x: Externals, doc: Value, v: Value, path: string, steps: nat)
    requires !Chase(x, doc, doc, {}, true).Concrete?
    ensures !PlacedIn(x, doc, v, path, steps)
    decreases steps
  {
    hide HandsDown, Chase;
    if steps > 0 && PlacedIn(x, doc, v, path, steps) {
      var u, upath :| PlacedIn(x, doc, u, upath, steps - 1) && HandsDown(x, doc, u, upath, v, path);
      NothingPlaced(x, doc, u, upath, steps - 1);
    }
  }

  lemma IndexDocumentLeads(x: Externals, n: nat)
    ensures Chase(x, IndexDocument(n), IndexDocument(n), {}, true) == if n == 0 then Concrete(NAMES) else Broken
  {
    hide Pointers, Resolve, ReadReference, IndexDocument, Decimal, NAMES;
    var doc, key := IndexDocument(n), "/allOf" + "/" + Decimal(n);
    IndexReference(n);
    IndexResolves(n);
    OthersAreConcrete();
    PointerNamed(doc);
    if n == 0 {
      ResolveBelow(doc, key);
      assert Chase(x, doc, NAMES, {} + {key}, true) == Concrete(NAMES);
    }
  }

  lemma IndexDocumentChains(x: Externals, n: nat)
    ensures ChainsEnd(x, IndexDocument(n))
  {
    hide Pointers, ReadReference, Chase, IndexDocument, NAMES, HandsDown, ClosedUnderSteps, Ends;
    var doc := IndexDocument(n);
    IndexDocumentLeads(x, n);
    OthersAreConcrete();
    forall v, path | Placed(x, doc, v, path) ensures Ends(x, doc, v) {
      var steps: nat :| PlacedIn(x, doc, v, path, steps);
      PlacedBelow(x, doc, v, path);
      if n == 0 {
        NamesStepNowhere(x, doc);
        PlacedInWithin(x, doc, {NAMES}, v, path, steps);
        LeafReferenceEnds(x, doc, v);
      } else {
        NothingPlaced(x, doc, v, path, steps);
      }
    }
  }

  lemma NamesStepNowhere(x: Externals, doc: Value)
    ensures ClosedUnderSteps(x, doc, {NAMES})
  {
    hide Read, ReadReference, Resolve, NAMES;
    OthersAreConcrete();
    QuietNames(x);
  }

  lemma IndexZeroIsReadable(x: Externals)
    ensures Readable(x, IndexDocument(0))
  {
    hide Pointers, Resolve, ReadReference, IndexDocument, NAMES, Chase, Read;
    var doc := IndexDocument(0);
    IndexReference(0);
    IndexResolves(0);
    IndexDocumentLeads(x, 0);
    QuietNames(x);
    ResolveBelow(doc, "/allOf" + "/" + Decimal(0));
    assert Closed(x, doc, {NAMES});
  }

  /** How compiling ends says how large the index is. */
  method ParseIndexDocument(x: Externals, n: nat) returns (r: Outcome<()>)
    ensures n >= TWO_TO_64 ==> r.LogicError?
    ensures 0 < n < TWO_TO_64 ==> r.RuntimeError?
    ensures n == 0 ==> r.Ok?
  {
    hide ChainsEnd, Resolve, ReadReference, Overflows, IndexDocument, Decimal, CompiledForm, Readable, Faithful,
         Represents, Pointers;
    IndexReference(n);
    IndexResolves(n);
    IndexDocumentChains(x, n);
    if n == 0 { IndexZeroIsReadable(x); }
    var parser := new SchemaParser(x);
    var parsed, schema, entries := parser.Parse(IndexDocument(n));
    r := parsed;
  }
}
