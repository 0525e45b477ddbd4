/** What becomes of a schema that the parser mistakes for another, on every document; and documents in
    which all references lead to schemas without subschemas of the same value. */
module Mistakes {
  import opened Wrappers
  import opened Json
  import opened JsonPointer
  import opened Schemas
  import opened Keywords
  import opened Semantics
  import opened Reachability
  import opened CacheWalk
  import opened Compilation
  import opened CompiledForms

  // ---- Subschemas found under a key that is meant for another ----

  /** A concrete subschema whose path is cached when the parser comes to it is taken for what the path
      leads to, whatever that is. */
  lemma HitIsTaken(x: Externals, doc: Value, origin: seq<Target>, entries: Entries, t: Target, k: nat, q: Pointer,
                   u: Value)
    requires EntriesLinked(x, doc, origin, entries) && FoundAt(x, doc, origin, entries, t, k, q) && SlotsOf(x, t)[k].At?
    requires ReadReference(SlotsOf(x, t)[k].node) == NoReference
    requires t.path + SlotsOf(x, t)[k].suffix in KeysAt(x, doc, t, k)
    requires Resolve(doc, t.path + SlotsOf(x, t)[k].suffix) == Some(u) && ReadReference(u) == NoReference
    ensures q < |origin| && MadeFor(origin[q], u, t.path + SlotsOf(x, t)[k].suffix)
  {
    hide SlotsOf, KeysAt, Resolve, Followed;
    assert EntryLinked(x, doc, origin, entries, t.path + SlotsOf(x, t)[k].suffix);
  }

  /** A reference leads to what its key is cached for. */
  lemma ReferenceIsTaken(x: Externals, doc: Value, origin: seq<Target>, entries: Entries, t: Target, k: nat, q: Pointer,
                         key: string, u: Value)
    requires EntriesLinked(x, doc, origin, entries) && FoundAt(x, doc, origin, entries, t, k, q) && SlotsOf(x, t)[k].At?
    requires ReadReference(SlotsOf(x, t)[k].node) == Reference(None, key)
    requires Resolve(doc, key) == Some(u) && ReadReference(u) == NoReference
    ensures q < |origin| && MadeFor(origin[q], u, key)
  {
    hide SlotsOf, KeysAt, Resolve, Followed, Arrive, ReadReference;
    assert CacheKey(None, key) == key;
    assert EntryLinked(x, doc, origin, entries, key);
  }

  /** If that is another node, the graph does not represent the document. */
  lemma MistakenHit(x: Externals, doc: Value, g: Graph, origin: seq<Target>, entries: Entries, p: Pointer, k: nat,
                    u: Value)
    requires CompiledForm(x, doc, g, origin, entries) && p < |g| && p < |origin| && origin[p].Node?
    requires k < |SlotsOf(x, origin[p])| && SlotsOf(x, origin[p])[k].At?
    requires ReadReference(SlotsOf(x, origin[p])[k].node) == NoReference && SlotsOf(x, origin[p])[k].node != u
    requires origin[p].path + SlotsOf(x, origin[p])[k].suffix in KeysAt(x, doc, origin[p], k)
    requires Resolve(doc, origin[p].path + SlotsOf(x, origin[p])[k].suffix) == Some(u)
    requires ReadReference(u) == NoReference
    ensures !Represents(x, doc, g, origin)
  {
    hide CompiledForm, Represents, SlotsOf, KeysAt, Resolve, AllInOrder, FoundAt;
    if Represents(x, doc, g, origin) {
      var q := FoundStands(x, doc, g, origin, entries, p, k);
      FormIsLinked(x, doc, g, origin, entries);
      HitIsTaken(x, doc, origin, entries, origin[p], k, q, u);
      ConcreteSlot(x, doc, origin, SlotsOf(x, origin[p])[k], q);
    }
  }

  lemma ConcreteSlot(x: Externals, doc: Value, origin: seq<Target>, s: Slot, q: Pointer)
    requires SlotIs(x, doc, origin, s, q) && s.At? && ReadReference(s.node) == NoReference
    ensures StandsFor(origin[q], s.node)
  {
  }

  /** So it is whenever an earlier subschema of the same node refers to the path of a later one, and the
      path leads elsewhere. */
  lemma EarlierReferenceMisleads(x: Externals, doc: Value, g: Graph, origin: seq<Target>, entries: Entries, p: Pointer,
                                 j: nat, k: nat, u: Value)
    requires CompiledForm(x, doc, g, origin, entries) && p < |g| && p < |origin| && origin[p].Node?
    requires j < k < |SlotsOf(x, origin[p])| && SlotsOf(x, origin[p])[j].At? && SlotsOf(x, origin[p])[k].At?
    requires ReadReference(SlotsOf(x, origin[p])[j].node) ==
      Reference(None, origin[p].path + SlotsOf(x, origin[p])[k].suffix)
    requires ReadReference(SlotsOf(x, origin[p])[k].node) == NoReference && SlotsOf(x, origin[p])[k].node != u
    requires Resolve(doc, origin[p].path + SlotsOf(x, origin[p])[k].suffix) == Some(u)
    requires ReadReference(u) == NoReference
    ensures origin[p].path + SlotsOf(x, origin[p])[k].suffix in KeysAt(x, doc, origin[p], k)
    ensures !Represents(x, doc, g, origin)
  {
    hide CompiledForm, SlotsOf, KeysAt, Resolve, ReadReference, Represents;
    ReferenceIsCached(x, doc, g, origin, entries, p, j, k, origin[p].path + SlotsOf(x, origin[p])[k].suffix);
    MistakenHit(x, doc, g, origin, entries, p, k, u);
  }

  lemma ReferenceIsCached(x: Externals, doc: Value, g: Graph, origin: seq<Target>, entries: Entries, p: Pointer,
                          j: nat, k: nat, key: string)
    requires CompiledForm(x, doc, g, origin, entries) && p < |g| && p < |origin| && origin[p].Node?
    requires j < k <= |SlotsOf(x, origin[p])| && SlotsOf(x, origin[p])[j].At?
    requires ReadReference(SlotsOf(x, origin[p])[j].node) == Reference(None, key)
    ensures key in KeysAt(x, doc, origin[p], k)
  {
    hide CompiledForm, SlotsOf, KeysAt, ReadReference, Walked, Size, Pointers, Placed, Read;
    CompiledAll(x, doc, g, origin, entries, p);
    WalkedSlot(x, doc, origin[p], j);
    KeyIsCachedThen(x, doc, origin[p], j, k);
    assert CacheKey(None, key) == key;
  }

  // ---- Property names ----

  lemma ReadsPropertyNames(x: Externals, node: Value, names: Value)
    requires node.Object? && Find(node.members, "propertyNames") == Some(names) && Read(x, node).Some?
    ensures PropertyNames(At(names, "")) in Read(x, node).value.constraints
  {
    var ms := node.members;
    hide ReadProperties, ReadRequired, ReadText, ReadType, ReadUniqueItems, KeywordsToContains, KeywordsToItems,
         KeywordsToPattern;
    var rs := [ReadProperties(ms), ReadPropertyNames(ms), ReadRequired(ms), ReadText(ms, "title"), ReadType(ms),
               ReadUniqueItems(ms)];
    JoinAllHas(rs, 1, PropertyNames(At(names, "")));
  }

  lemma {:induction false} JoinAllHas(rs: seq<Reading>, k: nat, c: Constraint<Slot>)
    requires k < |rs| && JoinAll(rs).Some?
    requires rs[k].Some? ==> c in rs[k].value
    ensures c in JoinAll(rs).value
  {
    if k > 0 { JoinAllHas(rs[1..], k - 1, c); }
  }

  /** Constraint i of a compiled subschema: what was found for its subschemas, from number n on. */
  lemma ConstraintFound(x: Externals, doc: Value, g: Graph, origin: seq<Target>, entries: Entries, p: Pointer, i: nat)
    returns (n: nat)
    requires CompiledForm(x, doc, g, origin, entries) && p < |g| && p < |origin| && origin[p].Node?
    requires Read(x, origin[p].node).Some? && i < |Read(x, origin[p].node).value.constraints|
    ensures |g[p].constraints| == |Read(x, origin[p].node).value.constraints|
    ensures var c, d := Read(x, origin[p].node).value.constraints[i], g[p].constraints[i];
      && ShapeOf(c) == ShapeOf(d) && |InOrder(c)| == |InOrder(d)| && n + |InOrder(c)| <= |SlotsOf(x, origin[p])|
      && n == |AllInOrder(Read(x, origin[p].node).value.constraints[..i])|
      && forall j :: 0 <= j < |InOrder(c)| ==>
           && SlotsOf(x, origin[p])[n + j] == InOrder(c)[j]
           && FoundAt(x, doc, origin, entries, origin[p], n + j, InOrder(d)[j])
  {
    hide CompiledForm, Read, Walked, ShapeOf, InOrder, FoundAt;
    CompiledAll(x, doc, g, origin, entries, p);
    var cs, ds := Read(x, origin[p].node).value.constraints, g[p].constraints;
    n := |AllInOrder(cs[..i])|;
    SameCount(cs[i], ds[i]);
    SameCounts(cs, ds, i);
    FitsIn(cs, i);
    forall j | 0 <= j < |InOrder(cs[i])|
      ensures SlotsOf(x, origin[p])[n + j] == InOrder(cs[i])[j]
      ensures FoundAt(x, doc, origin, entries, origin[p], n + j, InOrder(ds[i])[j])
    {
      PositionOf(cs, i, j);
      PositionOf(ds, i, j);
      assert FoundAt(x, doc, origin, entries, origin[p], 0 + (n + j), AllInOrder(ds)[n + j]);
    }
  }

  lemma {:induction false} FitsIn<C>(cs: seq<Constraint<C>>, i: nat)
    requires i < |cs|
    ensures |AllInOrder(cs[..i])| + |InOrder(cs[i])| <= |AllInOrder(cs)|
  {
    hide InOrder;
    if |InOrder(cs[i])| > 0 {
      PositionOf(cs, i, |InOrder(cs[i])| - 1);
    } else {
      PrefixIsShorter(cs, i);
    }
  }

  lemma {:induction false} PrefixIsShorter<C>(cs: seq<Constraint<C>>, i: nat)
    requires i <= |cs|
    ensures |AllInOrder(cs[..i])| <= |AllInOrder(cs)|
  {
    hide InOrder;
    if i == |cs| {
      assert cs[..i] == cs;
    } else {
      var m := |cs| - 1;
      assert cs[..m][..i] == cs[..i];
      PrefixIsShorter(cs[..m], i);
    }
  }

  /** Where a reference has led to a schema with `propertyNames`, the parser takes the schema itself
      for the schema of its property names. */
  lemma NamesAreEnclosing(x: Externals, doc: Value, g: Graph, origin: seq<Target>, entries: Entries, p: Pointer,
                          names: Value)
    requires CompiledForm(x, doc, g, origin, entries) && p < |g| && p < |origin| && origin[p].Node?
    requires origin[p].path in origin[p].keys && ReadReference(names) == NoReference
    requires origin[p].node.Object? && Find(origin[p].node.members, "propertyNames") == Some(names)
    ensures PropertyNames(p) in g[p].constraints
  {
    hide CompiledForm, Read, Find, ReadReference, SlotsOf, Walked, AllInOrder, KeysAt;
    var t := origin[p];
    CompiledAll(x, doc, g, origin, entries, p);
    ReadsPropertyNames(x, t.node, names);
    var cs := Read(x, t.node).value.constraints;
    var i :| 0 <= i < |cs| && cs[i] == PropertyNames(At(names, ""));
    var n := ConstraintFound(x, doc, g, origin, entries, p, i);
    assert InOrder(cs[i])[0] == At(names, "");
    KeysFromStart(x, doc, t, n);
    PathIsReused(x, doc, origin, entries, t, n, names, InOrder(g[p].constraints[i])[0]);
    assert g[p].constraints[i] == PropertyNames(p);
  }

  lemma KeysFromStart(x: Externals, doc: Value, t: Target, n: nat)
    requires t.Node? && n <= |SlotsOf(x, t)|
    ensures t.keys <= KeysAt(x, doc, t, n)
  {
    hide SlotsOf;
  }

  lemma PathIsReused(x: Externals, doc: Value, origin: seq<Target>, entries: Entries, t: Target, n: nat, names: Value,
                     q: Pointer)
    requires FoundAt(x, doc, origin, entries, t, n, q) && SlotsOf(x, t)[n] == At(names, "")
    requires ReadReference(names) == NoReference && t.path in KeysAt(x, doc, t, n)
    ensures t.path in entries && q == entries[t.path]
  {
    hide SlotsOf, KeysAt;
    assert t.path + "" == t.path;
  }

  /** So it rejects every object with a member whose name, as a string, it rejects. */
  lemma NamesAreJudgedByEnclosing(x: Externals, doc: Value, g: Graph, origin: seq<Target>, entries: Entries, p: Pointer,
                                  names: Value, v: Value)
    requires CompiledForm(x, doc, g, origin, entries) && p < |g| && p < |origin| && origin[p].Node?
    requires origin[p].path in origin[p].keys && ReadReference(names) == NoReference
    requires origin[p].node.Object? && Find(origin[p].node.members, "propertyNames") == Some(names)
    requires GraphGuarded(g) && v.Object? && Accepts(x, g, p, v)
    ensures forall m <- v.members :: Accepts(x, g, p, Str(m.key))
  {
    hide CompiledForm, Find, ReadReference;
    NamesAreEnclosing(x, doc, g, origin, entries, p, names);
    assert Holds(x, PropertyNames(p), v, ChildAccepts(x, g, p, v));
  }

  // ---- Constraints without subschemas ----

  lemma FlatIsKept(x: Externals, doc: Value, g: Graph, origin: seq<Target>, entries: Entries, p: Pointer, f: Flat)
    requires CompiledForm(x, doc, g, origin, entries) && p < |g| && p < |origin| && origin[p].Node?
    requires Read(x, origin[p].node).Some? && Plain(f) in Read(x, origin[p].node).value.constraints
    ensures Plain(f) in g[p].constraints
  {
    hide CompiledForm, Read, Walked, FoundFrom, ShapeOf, AllInOrder, SlotsOf;
    CompiledAll(x, doc, g, origin, entries, p);
    var cs := Read(x, origin[p].node).value.constraints;
    var i :| 0 <= i < |cs| && cs[i] == Plain(f);
    FlatShape(cs[i], g[p].constraints[i], f);
  }

  lemma FlatShape(c: Constraint<Slot>, d: Constraint<Pointer>, f: Flat)
    requires ShapeOf(c) == ShapeOf(d) && c == Plain(f)
    ensures d == Plain(f)
  {
  }

  lemma FlatIsAsked(x: Externals, g: Graph, p: Pointer, f: Flat, v: Value)
    requires GraphGuarded(g) && p < |g| && Plain(f) in g[p].constraints && Accepts(x, g, p, v)
    ensures FlatHolds(x, f, v)
  {
    hide FlatHolds, GraphGuarded;
    assert Holds(x, Plain(f), v, ChildAccepts(x, g, p, v));
  }

  /** A schema with `propertyNames` to which a reference has led rejects every object with a member
      whose name, as a string, one of its own constraints rejects: whatever is said about names. */
  lemma NamesMustFitSchema(x: Externals, doc: Value, g: Graph, origin: seq<Target>, entries: Entries, p: Pointer,
                           names: Value, f: Flat, v: Value, k: nat)
    requires CompiledForm(x, doc, g, origin, entries) && p < |g| && p < |origin| && origin[p].Node?
    requires origin[p].path in origin[p].keys && ReadReference(names) == NoReference
    requires origin[p].node.Object? && Find(origin[p].node.members, "propertyNames") == Some(names)
    requires Read(x, origin[p].node).Some? && Plain(f) in Read(x, origin[p].node).value.constraints
    requires GraphGuarded(g) && v.Object? && k < |v.members| && !FlatHolds(x, f, Str(v.members[k].key))
    ensures !Accepts(x, g, p, v)
  {
    hide CompiledForm, Find, ReadReference, Read, Accepts, GraphGuarded, FlatHolds;
    if Accepts(x, g, p, v) {
      NamesAreJudgedByEnclosing(x, doc, g, origin, entries, p, names, v);
      FlatIsKept(x, doc, g, origin, entries, p, f);
      assert v.members[k] in v.members;
      FlatIsAsked(x, g, p, f, Str(v.members[k].key));
    }
  }

  // ---- Documents whose references lead to leaves ----

  /** No subschema of n applies to the same value as n. */
  ghost predicate NoneInPlace(x: Externals, n: Value) {
    Read(x, n).Some? ==> forall c <- Read(x, n).value.constraints :: InPlace(c) == []
  }

  /** v is a reference within the document that leads straight to such a schema. */
  ghost predicate LeafReference(x: Externals, doc: Value, v: Value) {
    ReadReference(v).Reference? && ReadReference(v).uri.None? &&
    var u := Resolve(doc, ReadReference(v).pointer);
    u.Some? && ReadReference(u.value) == NoReference && NoneInPlace(x, u.value)
  }

  ghost predicate LeafReferences(x: Externals, doc: Value) {
    && ReadReference(doc) == NoReference
    && forall v, path :: Placed(x, doc, v, path) && ReadReference(v) != NoReference ==> LeafReference(x, doc, v)
  }

  lemma LeafReferenceEnds(x: Externals, doc: Value, v: Value)
    requires Pointers(v) <= Pointers(doc) && (ReadReference(v) == NoReference || LeafReference(x, doc, v))
    ensures Ends(x, doc, v)
    ensures ReadReference(v) == NoReference ==> Chase(x, doc, v, {}, false) == Concrete(v)
    ensures LeafReference(x, doc, v) ==>
      Chase(x, doc, v, {}, false) == Concrete(Resolve(doc, ReadReference(v).pointer).value)
  {
    hide Pointers, Resolve, NoneInPlace;
    if ReadReference(v).Reference? {
      var pointer := ReadReference(v).pointer;
      PointerNamed(v);
      ResolveBelow(doc, pointer);
      assert Chase(x, doc, Resolve(doc, pointer).value, {} + {pointer}, false) == Concrete(Resolve(doc, pointer).value);
    }
  }

  lemma LeafChains(x: Externals, doc: Value)
    requires LeafReferences(x, doc)
    ensures ChainsEnd(x, doc) && Chase(x, doc, doc, {}, true) == Concrete(doc)
  {
    hide Pointers, LeafReference, Placed, Ends;
    forall v, path | Placed(x, doc, v, path) ensures Ends(x, doc, v) {
      PlacedBelow(x, doc, v, path);
      LeafReferenceEnds(x, doc, v);
    }
  }

  function Height(x: Externals, n: Value): nat {
    if Read(x, n).Some? && exists c <- Read(x, n).value.constraints :: InPlace(c) != [] then Size(n) else 0
  }

  function TargetHeight(x: Externals, t: Target): nat { if t.Node? then Height(x, t.node) else 0 }

  /** However references are cached and paths are mistaken there, validation against whatever the
      parser makes of such a document comes to an end. */
  lemma LeafSettles(x: Externals, doc: Value)
    requires LeafReferences(x, doc)
    ensures Settles(x, doc)
  {
    hide CompiledForm, GraphGuarded, LeafReferences;
    forall g, origin, entries | CompiledForm(x, doc, g, origin, entries) ensures GraphGuarded(g) {
      LeafFormIsGuarded(x, doc, g, origin, entries);
    }
  }

  lemma LeafFormIsGuarded(x: Externals, doc: Value, g: Graph, origin: seq<Target>, entries: Entries)
    requires LeafReferences(x, doc) && CompiledForm(x, doc, g, origin, entries)
    ensures GraphGuarded(g)
  {
    hide CompiledForm, LeafReferences, TargetHeight, SubschemaRanked;
    FormIsLinked(x, doc, g, origin, entries);
    var rank: seq<nat> := seq(|g|, p requires 0 <= p < |g| => TargetHeight(x, origin[p]));
    forall p | 0 <= p < |g| ensures SubschemaRanked(g, rank, p) {
      HeightFalls(x, doc, g, origin, entries, rank, p);
    }
    assert GraphRanks(g, rank);
  }

  lemma HeightFalls(x: Externals, doc: Value, g: Graph, origin: seq<Target>, entries: Entries, rank: seq<nat>,
                    p: Pointer)
    requires LeafReferences(x, doc) && CompiledForm(x, doc, g, origin, entries)
    requires |g| == |origin| == |rank| && p < |g|
    requires forall q :: 0 <= q < |g| ==> rank[q] == TargetHeight(x, origin[q])
    ensures SubschemaRanked(g, rank, p)
  {
    hide CompiledForm, LeafReferences, Read, InPlace, Inside, InOrder, TargetHeight, FoundAt, SlotsOf;
    if origin[p].Node? {
      CompiledAll(x, doc, g, origin, entries, p);
      forall d <- g[p].constraints
        ensures (forall q <- InPlace(d) :: q < |g| && rank[q] < rank[p]) && (forall q <- Inside(d) :: q < |g|)
      {
        var i :| 0 <= i < |g[p].constraints| && g[p].constraints[i] == d;
        forall q | q in InPlace(d) ensures q < |g| && rank[q] < rank[p] {
          InPlaceIsLower(x, doc, g, origin, entries, p, i, q);
        }
        forall q | q in Inside(d) ensures q < |g| { InsideIsMade(x, doc, g, origin, entries, p, i, q); }
      }
    } else {
      assert g[p] == Subschema(false, []) by { EmptyIsEmpty(x, doc, g, origin, entries, p); }
    }
  }

  lemma EmptyIsEmpty(x: Externals, doc: Value, g: Graph, origin: seq<Target>, entries: Entries, p: Pointer)
    requires CompiledForm(x, doc, g, origin, entries) && p < |g| && p < |origin| && origin[p].Anything?
    ensures g[p] == Subschema(false, [])
  {
    hide Read, EntriesLinked, RootTarget, Populated, Chase, Partly;
    assert Compiled(x, doc, g, origin, entries, p);
  }

  /** A child of constraint i was found for some subschema. */
  lemma ChildIsFound(x: Externals, doc: Value, g: Graph, origin: seq<Target>, entries: Entries, p: Pointer, i: nat,
                     q: Pointer)
    returns (k: nat)
    requires CompiledForm(x, doc, g, origin, entries) && p < |g| && p < |origin| && origin[p].Node?
    requires Read(x, origin[p].node).Some? && i < |Read(x, origin[p].node).value.constraints|
    requires i < |g[p].constraints| && q in InOrder(g[p].constraints[i])
    ensures FoundAt(x, doc, origin, entries, origin[p], k, q)
  {
    hide CompiledForm, Read, InOrder, ShapeOf, SlotsOf, FoundAt;
    var d := g[p].constraints[i];
    var n := ConstraintFound(x, doc, g, origin, entries, p, i);
    var j :| 0 <= j < |InOrder(d)| && InOrder(d)[j] == q;
    k := n + j;
  }

  lemma InsideIsMade(x: Externals, doc: Value, g: Graph, origin: seq<Target>, entries: Entries, p: Pointer, i: nat,
                     q: Pointer)
    requires CompiledForm(x, doc, g, origin, entries) && p < |g| && p < |origin| && origin[p].Node?
    requires i < |g[p].constraints| && q in Inside(g[p].constraints[i])
    ensures q < |origin|
  {
    hide CompiledForm, Read, InPlace, Inside, InOrder, SlotsOf, SameShapes, FoundFrom, Walked;
    CompiledAll(x, doc, g, origin, entries, p);
    InOrderAre(g[p].constraints[i], q);
    var k := ChildIsFound(x, doc, g, origin, entries, p, i, q);
  }

  lemma InPlaceIsLower(x: Externals, doc: Value, g: Graph, origin: seq<Target>, entries: Entries, p: Pointer, i: nat,
                       q: Pointer)
    requires LeafReferences(x, doc) && CompiledForm(x, doc, g, origin, entries)
    requires p < |g| && p < |origin| && origin[p].Node?
    requires i < |g[p].constraints| && q in InPlace(g[p].constraints[i])
    ensures q < |origin| && TargetHeight(x, origin[q]) < TargetHeight(x, origin[p])
  {
    hide CompiledForm, LeafReferences, Read, InPlace, Inside, InOrder, ShapeOf, SlotsOf, FoundAt, FoundFrom, Walked,
         TargetHeight, Height;
    CompiledAll(x, doc, g, origin, entries, p);
    var c, d := Read(x, origin[p].node).value.constraints[i], g[p].constraints[i];
    SameCount(c, d);
    InOrderAre(d, q);
    var k := ChildIsFound(x, doc, g, origin, entries, p, i, q);
    FoundIsLower(x, doc, g, origin, entries, origin[p], k, q);
    HasHeight(x, origin[p].node, c);
    HeightOf(x, origin[p]);
  }

  lemma HeightOf(x: Externals, t: Target)
    ensures t.Node? ==> TargetHeight(x, t) == Height(x, t.node) && Height(x, t.node) <= Size(t.node)
    ensures t.Anything? ==> TargetHeight(x, t) == 0
    ensures t.Node? && NoneInPlace(x, t.node) ==> TargetHeight(x, t) == 0
  {
    hide Read, InPlace, Size;
  }

  lemma HasHeight(x: Externals, n: Value, c: Constraint<Slot>)
    requires Read(x, n).Some? && c in Read(x, n).value.constraints && |InPlace(c)| > 0
    ensures Height(x, n) == Size(n)
  {
    hide Read, InPlace, Size;
  }

  /** What is found for a subschema is lower than the node is large. */
  lemma FoundIsLower(x: Externals, doc: Value, g: Graph, origin: seq<Target>, entries: Entries, t: Target, k: nat,
                     q: Pointer)
    requires LeafReferences(x, doc) && CompiledForm(x, doc, g, origin, entries)
    requires Walked(x, doc, t) && FoundAt(x, doc, origin, entries, t, k, q)
    ensures q < |origin| && TargetHeight(x, origin[q]) < Size(t.node)
  {
    hide CompiledForm, LeafReferences, Read, SlotsOf, KeysAt, Walked, TargetHeight, Height, Size, Pointers, Placed,
         NoneInPlace, LeafReference;
    FormIsLinked(x, doc, g, origin, entries);
    match SlotsOf(x, t)[k] {
      case EmptySchema =>
        HeightOf(x, Anything);
        SizeIsPositive(t.node);
      case At(v, suffix) =>
        WalkedSlot(x, doc, t, k);
        SizeIsPositive(v);
        if ReadReference(v) == NoReference {
          ConcreteArrival(doc, v, t.path + suffix, {}, KeysAt(x, doc, t, k));
          if t.path + suffix in KeysAt(x, doc, t, k) {
            CachedIsLeaf(x, doc, origin, entries, t.path + suffix);
          } else {
            HeightOf(x, origin[q]);
          }
        } else {
          PlacedIsLeaf(x, doc, v, t.path + suffix);
          CachedIsLeaf(x, doc, origin, entries, CacheKey(ReadReference(v).uri, ReadReference(v).pointer));
        }
    }
  }

  lemma SizeIsPositive(v: Value)
    ensures Size(v) > 0
  {
  }

  lemma PlacedIsLeaf(x: Externals, doc: Value, v: Value, path: string)
    requires LeafReferences(x, doc) && Placed(x, doc, v, path) && ReadReference(v) != NoReference
    ensures LeafReference(x, doc, v) && ReadReference(v).Reference?
  {
    hide Placed, NoneInPlace, Resolve;
  }

  /** Under every key the cache holds a schema without subschemas in place. */
  lemma CachedIsLeaf(x: Externals, doc: Value, origin: seq<Target>, entries: Entries, key: string)
    requires LeafReferences(x, doc) && EntriesLinked(x, doc, origin, entries) && key in entries
    ensures entries[key] < |origin| && TargetHeight(x, origin[entries[key]]) == 0
  {
    hide LeafReferences, Placed, NoneInPlace, Resolve, TargetHeight;
    assert EntryLinked(x, doc, origin, entries, key);
    var v, path :| Placed(x, doc, v, path) && ReadReference(v) == Reference(None, key);
    PlacedIsLeaf(x, doc, v, path);
    HeightOf(x, origin[entries[key]]);
  }

  // ---- The same, given all schema nodes ----

  ghost predicate ClosedUnderSteps(x: Externals, doc: Value, nodes: set<Value>) {
    forall u, upath, v, path :: u in nodes && HandsDown(x, doc, u, upath, v, path) ==> v in nodes
  }

  lemma {:induction false} PlacedInWithin(x: Externals, doc: Value,
                                          nodes: set<Value>, v: Value, path: string, steps: nat)
    requires Chase(x, doc, doc, {}, true).Concrete? && Chase(x, doc, doc, {}, true).node in nodes
    requires ClosedUnderSteps(x, doc, nodes) && PlacedIn(x, doc, v, path, steps)
    ensures v in nodes
    decreases steps
  {
    hide HandsDown, Chase;
    if steps > 0 {
      var u, upath :| PlacedIn(x, doc, u, upath, steps - 1) && HandsDown(x, doc, u, upath, v, path);
      PlacedInWithin(x, doc, nodes, u, upath, steps - 1);
    }
  }

  /** n can be read and has its subschemas among `nodes`, or it is a reference to a leaf among them. */
  ghost predicate LeafNode(x: Externals, doc: Value, n: Value, nodes: set<Value>) {
    if ReadReference(n) == NoReference then
      && Read(x, n).Some?
      && (forall c <- Read(x, n).value.constraints :: ChildrenAmong(c, nodes))
    else
      LeafReference(x, doc, n) && Resolve(doc, ReadReference(n).pointer).value in nodes
  }

  ghost predicate ChildrenAmong(c: Constraint<Slot>, nodes: set<Value>) {
    (forall s <- InPlace(c) :: s.At? ==> s.node in nodes) && (forall s <- Inside(c) :: s.At? ==> s.node in nodes)
  }

  /** These are all schema nodes of the document. */
  ghost predicate LeafDocument(x: Externals, doc: Value, nodes: set<Value>) {
    doc in nodes && ReadReference(doc) == NoReference && forall n <- nodes :: LeafNode(x, doc, n, nodes)
  }

  lemma LeafIsClosed(x: Externals, doc: Value, nodes: set<Value>)
    requires LeafDocument(x, doc, nodes)
    ensures ClosedUnderSteps(x, doc, nodes)
  {
    hide Read, LeafReference, Resolve, LeafNode, Reads;
    forall u, upath, v, path | u in nodes && HandsDown(x, doc, u, upath, v, path) ensures v in nodes {
      assert LeafNode(x, doc, u, nodes);
      if ReadReference(u) == NoReference {
        var s: Slot :| Reads(x, u, s) && s.At? && s.node == v && path == upath + s.suffix;
        SlotStays(x, doc, u, s, nodes);
      } else {
        TargetStays(x, doc, u, nodes);
      }
    }
  }

  lemma SlotStays(x: Externals, doc: Value, n: Value, s: Slot, nodes: set<Value>)
    requires LeafNode(x, doc, n, nodes) && ReadReference(n) == NoReference && Reads(x, n, s) && s.At?
    ensures s.node in nodes
  {
    hide Read, InPlace, Inside;
  }

  lemma TargetStays(x: Externals, doc: Value, n: Value, nodes: set<Value>)
    requires LeafNode(x, doc, n, nodes) && ReadReference(n) != NoReference
    ensures LeafReference(x, doc, n) && Resolve(doc, ReadReference(n).pointer).value in nodes
  {
    hide NoneInPlace, Resolve;
  }

  lemma LeafPlacedWithin(x: Externals, doc: Value, nodes: set<Value>, v: Value, path: string)
    requires LeafDocument(x, doc, nodes) && Placed(x, doc, v, path)
    ensures v in nodes && LeafNode(x, doc, v, nodes)
  {
    hide ClosedUnderSteps, LeafNode;
    LeafIsClosed(x, doc, nodes);
    var steps: nat :| PlacedIn(x, doc, v, path, steps);
    PlacedInWithin(x, doc, nodes, v, path, steps);
  }

  lemma LeafDocumentHas(x: Externals, doc: Value, nodes: set<Value>)
    requires LeafDocument(x, doc, nodes)
    ensures LeafReferences(x, doc)
  {
    hide Placed, Read, LeafReference, LeafNode;
    forall v, path | Placed(x, doc, v, path) && ReadReference(v) != NoReference ensures LeafReference(x, doc, v) {
      LeafPlacedWithin(x, doc, nodes, v, path);
      TargetStays(x, doc, v, nodes);
    }
  }

  /** Such a document can be read, and every cycle in it descends into the value. */
  lemma LeafDocumentIsGuarded(x: Externals, doc: Value, nodes: set<Value>)
    requires LeafDocument(x, doc, nodes)
    ensures Guarded(x, doc)
  {
    hide Pointers, Read, LeafDocument, NodeClosed, Height, NodeRanked, LeafReference;
    LeafDocumentHas(x, doc, nodes);
    LeafChains(x, doc);
    var rank := map n | n in nodes && ReadReference(n) == NoReference && Pointers(n) <= Pointers(doc) :: Height(x, n);
    forall n | n in rank.Keys ensures NodeClosed(x, doc, n, rank.Keys) { LeafNodeRanked(x, doc, nodes, n, rank); }
    HasRoot(x, doc, nodes);
    assert Closed(x, doc, rank.Keys);
    forall n | n in rank.Keys ensures NodeRanked(x, doc, rank, n) { LeafNodeRanked(x, doc, nodes, n, rank); }
    assert Ranks(x, doc, rank);
  }

  lemma HasRoot(x: Externals, doc: Value, nodes: set<Value>)
    requires LeafDocument(x, doc, nodes)
    ensures doc in nodes
  {
  }

  ghost predicate HeightsOf(x: Externals, doc: Value, nodes: set<Value>, rank: map<Value, nat>) {
    && (forall n :: n in rank <==> n in nodes && ReadReference(n) == NoReference && Pointers(n) <= Pointers(doc))
    && (forall n :: n in rank ==> rank[n] == Height(x, n))
  }

  lemma LeafNodeRanked(x: Externals, doc: Value, nodes: set<Value>, n: Value, rank: map<Value, nat>)
    requires LeafDocument(x, doc, nodes) && HeightsOf(x, doc, nodes, rank) && n in rank
    ensures NodeClosed(x, doc, n, rank.Keys)
    ensures Closed(x, doc, rank.Keys) ==> NodeRanked(x, doc, rank, n)
  {
    hide Pointers, Read, LeafDocument, Height, Chase, Inside, InPlace, HeightsOf, Closed, LeadsInto;
    LeafIsRead(x, doc, nodes, n, rank);
    forall c | c in Read(x, n).value.constraints
      ensures forall s <- InPlace(c) :: LeafSlot(x, doc, n, s, rank, true)
      ensures forall s <- Inside(c) :: LeafSlot(x, doc, n, s, rank, false)
    {
      forall s | s in InPlace(c) ensures LeafSlot(x, doc, n, s, rank, true) {
        LeafStep(x, doc, nodes, n, c, s, rank, true);
      }
      forall s | s in Inside(c) ensures LeafSlot(x, doc, n, s, rank, false) {
        LeafStep(x, doc, nodes, n, c, s, rank, false);
      }
    }
  }

  ghost predicate LeafSlot(x: Externals, doc: Value, n: Value, s: Slot, rank: map<Value, nat>, inPlace: bool) {
    && LeadsInto(x, doc, s, rank.Keys)
    && (inPlace && s.At? ==> n in rank && rank[Chase(x, doc, s.node, {}, false).node] < rank[n])
  }

  lemma LeafIsRead(x: Externals, doc: Value, nodes: set<Value>, n: Value, rank: map<Value, nat>)
    requires LeafDocument(x, doc, nodes) && HeightsOf(x, doc, nodes, rank) && n in rank
    ensures n in nodes && Read(x, n).Some? && ReadReference(n) == NoReference && Pointers(n) <= Pointers(doc)
  {
    hide Pointers, Read, LeafReference, Height, ChildrenAmong;
  }

  lemma LeafStep(x: Externals, doc: Value,
                 nodes: set<Value>, n: Value, c: Constraint<Slot>, s: Slot, rank: map<Value, nat>,
                 inPlace: bool)
    requires LeafDocument(x, doc, nodes) && HeightsOf(x, doc, nodes, rank) && n in rank
    requires Read(x, n).Some? && c in Read(x, n).value.constraints
    requires if inPlace then s in InPlace(c) else s in Inside(c)
    ensures LeafSlot(x, doc, n, s, rank, inPlace)
  {
    hide Pointers, Read, LeafDocument, Height, Inside, InPlace, Chase, Size, NoneInPlace, LeafReference;
    LeafIsRead(x, doc, nodes, n, rank);
    if inPlace { HasHeight(x, n, c); }
    if s.At? {
      assert Reads(x, n, s);
      SlotIsBelow(x, n, s);
      SlotIsWithin(x, doc, nodes, n, s);
      LeafReferenceEnds(x, doc, s.node);
      SizeIsPositive(n);
      if ReadReference(s.node) == NoReference {
        HeightOf(x, Node(s.node, "", {}));
      } else {
        var u := TargetIsWithin(x, doc, nodes, s.node);
        HeightOf(x, Node(u, "", {}));
      }
    }
  }

  lemma SlotIsWithin(x: Externals, doc: Value, nodes: set<Value>, n: Value, s: Slot)
    requires LeafDocument(x, doc, nodes) && n in nodes && ReadReference(n) == NoReference && Reads(x, n, s) && s.At?
    ensures s.node in nodes && (ReadReference(s.node) == NoReference || LeafReference(x, doc, s.node))
  {
    hide Reads, Read, LeafReference, LeafNode;
    assert LeafNode(x, doc, n, nodes);
    SlotStays(x, doc, n, s, nodes);
    if ReadReference(s.node) != NoReference { TargetStays(x, doc, s.node, nodes); }
  }

  lemma TargetIsWithin(x: Externals, doc: Value, nodes: set<Value>, v: Value) returns (u: Value)
    requires LeafDocument(x, doc, nodes) && v in nodes && LeafReference(x, doc, v)
    ensures Resolve(doc, ReadReference(v).pointer) == Some(u)
    ensures u in nodes && ReadReference(u) == NoReference && NoneInPlace(x, u) && Pointers(u) <= Pointers(doc)
  {
    hide Read, Resolve, Pointers, NoneInPlace, LeafNode;
    TargetStays(x, doc, v, nodes);
    var pointer := ReadReference(v).pointer;
    u := Resolve(doc, pointer).value;
    ResolveBelow(doc, pointer);
  }

  // ---- Every document in which an earlier reference points to the path of a later subschema ----

  lemma EarlierReferenceIsMistake(x: Externals, doc: Value, t: Target, j: nat, k: nat, u: Value)
    requires Walked(x, doc, t) && t.Node?
    requires j < k < |SlotsOf(x, t)| && SlotsOf(x, t)[j].At? && SlotsOf(x, t)[k].At?
    requires ReadReference(SlotsOf(x, t)[j].node) == Reference(None, t.path + SlotsOf(x, t)[k].suffix)
    requires ReadReference(SlotsOf(x, t)[k].node) == NoReference && SlotsOf(x, t)[k].node != u
    requires Resolve(doc, t.path + SlotsOf(x, t)[k].suffix) == Some(u) && ReadReference(u) == NoReference
    ensures !NoMistake(x, doc)
  {
    hide SlotsOf, KeysAt, Resolve, ReadReference, Walked, Size, Pointers, Placed;
    var key := t.path + SlotsOf(x, t)[k].suffix;
    WalkedSlot(x, doc, t, j);
    KeyIsCachedThen(x, doc, t, j, k);
    assert CacheKey(None, key) == key;
    assert !RightAt(x, doc, t, k);
  }
}
