/** What the parser compiles a document into. */
module CompiledForms {
  import opened Wrappers
  import opened Json
  import opened JsonPointer
  import opened Schemas
  import opened Keywords
  import opened Semantics
  import opened Reachability
  import opened CacheWalk
  import opened Compilation

  type Entries = map<string, Pointer>

  ghost predicate Extends(before: Entries, after: Entries) {
    forall k :: k in before ==> k in after && after[k] == before[k]
  }

  /** A subschema made for this node because a reference with this pointer led to it. */
  ghost predicate MadeFor(t: Target, node: Value, pointer: string) {
    t.Node? && t.node == node && t.path == pointer && pointer in t.keys
  }

  /** Pointer q is what a reference arriving at this node, found at its pointer, has to lead to: a
      subschema made for the node, or what the cache holds for the reference it is. */
  ghost predicate Linked(origin: seq<Target>, entries: Entries, node: Value, path: string, q: Pointer) {
    match ReadReference(node)
    case NoReference => q < |origin| && MadeFor(origin[q], node, path)
    case BadReference => false
    case Reference(uri, pointer) => CacheKey(uri, pointer) in entries && q == entries[CacheKey(uri, pointer)]
  }

  /** A cached key is the pointer of some reference, and links what it points to. */
  ghost predicate EntryLinked(x: Externals, doc: Value, origin: seq<Target>, entries: Entries, k: string)
    requires k in entries
  {
    && entries[k] < |origin|
    && Followed(x, doc, k)
    && Resolve(doc, k).Some?
    && Linked(origin, entries, Resolve(doc, k).value, k, entries[k])
  }

  ghost predicate EntriesLinked(x: Externals, doc: Value, origin: seq<Target>, entries: Entries) {
    forall k :: k in entries ==> EntryLinked(x, doc, origin, entries, k)
  }

  /** Pointer q is what the parser found when it went on from node v like this. */
  ghost predicate Found(origin: seq<Target>, entries: Entries, v: Value, a: Arrival, q: Pointer) {
    && q < |origin|
    && (match a
        case Reused(key, _) => key in entries && q == entries[key]
        case Made(t) => origin[q] == t
        case Failed(_) => false)
    && (ReadReference(v).Reference? ==>
          var key := CacheKey(ReadReference(v).uri, ReadReference(v).pointer);
          key in entries && q == entries[key])
  }

  /** Pointer q is what the parser found for subschema k of the target. */
  ghost predicate FoundAt(x: Externals, doc: Value, origin: seq<Target>, entries: Entries, t: Target, k: nat,
                          q: Pointer) {
    t.Node? && k < |SlotsOf(x, t)| && q < |origin| &&
    match SlotsOf(x, t)[k]
    case EmptySchema => q == EMPTY
    case At(v, suffix) => Found(origin, entries, v, Arrive(doc, v, t.path + suffix, {}, KeysAt(x, doc, t, k)), q)
  }

  /** These are what it found for the subschemas from number k on. */
  ghost predicate FoundFrom(x: Externals, doc: Value, origin: seq<Target>, entries: Entries, t: Target, k: nat,
                            qs: seq<Pointer>)
  {
    forall j :: 0 <= j < |qs| ==> FoundAt(x, doc, origin, entries, t, k + j, qs[j])
  }

  ghost predicate SameShapes(cs: seq<Constraint<Slot>>, ds: seq<Constraint<Pointer>>, n: nat) {
    n <= |cs| && n <= |ds| && forall i :: 0 <= i < n ==> ShapeOf(cs[i]) == ShapeOf(ds[i])
  }

  /** The first n constraints of the target have been compiled. */
  ghost predicate Partly(x: Externals, doc: Value, origin: seq<Target>, entries: Entries, t: Target,
                         g: Subschema<Pointer>, n: nat)
  {
    && t.Node? && Read(x, t.node).Some?
    && Read(x, t.node).value.alwaysInvalid == g.alwaysInvalid
    && |g.constraints| == n
    && SameShapes(Read(x, t.node).value.constraints, g.constraints, n)
    && FoundFrom(x, doc, origin, entries, t, 0, AllInOrder(g.constraints))
  }

  /** Subschema p has been compiled from the node it was made for. */
  ghost predicate Compiled(x: Externals, doc: Value, g: Graph, origin: seq<Target>, entries: Entries, p: Pointer)
    requires |g| == |origin| && p < |g|
  {
    match origin[p]
    case Anything => g[p] == Subschema(false, [])
    case Node(n, path, keys) =>
      && Walked(x, doc, origin[p])
      && Read(x, n).Some?
      && (path in keys ==> path in entries && entries[path] == p)
      && Partly(x, doc, origin, entries, origin[p], g[p], |Read(x, n).value.constraints|)
  }

  ghost predicate AllCompiled(x: Externals, doc: Value, g: Graph, origin: seq<Target>, entries: Entries) {
    |g| == |origin| && forall p :: 0 <= p < |g| ==> Compiled(x, doc, g, origin, entries, p)
  }

  /** The graph is what the parser compiles the document into, leaving these cache entries. */
  ghost predicate CompiledForm(x: Externals, doc: Value, g: Graph, origin: seq<Target>, entries: Entries) {
    && AllCompiled(x, doc, g, origin, entries)
    && EMPTY < |g| && origin[EMPTY] == Anything
    && Chase(x, doc, doc, {}, true).Concrete? && origin[ROOT] == RootTarget(x, doc)
    && EntriesLinked(x, doc, origin, entries)
    && entries.Keys == Populated(x, doc, RootTarget(x, doc))
  }

  // ---- What has been found stays found ----

  lemma LinkedStays(origin: seq<Target>, entries: Entries, longer: seq<Target>, more: Entries,
                    node: Value, path: string, q: Pointer)
    requires Linked(origin, entries, node, path, q) && origin <= longer && Extends(entries, more)
    ensures Linked(longer, more, node, path, q)
  {
  }

  lemma EntryStays(x: Externals, doc: Value, origin: seq<Target>, entries: Entries, longer: seq<Target>, more: Entries,
                   k: string)
    requires k in entries && EntryLinked(x, doc, origin, entries, k) && origin <= longer && Extends(entries, more)
    ensures k in more && EntryLinked(x, doc, longer, more, k)
  {
    hide Linked, Followed, Resolve;
    LinkedStays(origin, entries, longer, more, Resolve(doc, k).value, k, entries[k]);
  }

  lemma FoundStays(x: Externals, doc: Value, origin: seq<Target>, entries: Entries, longer: seq<Target>, more: Entries,
                   t: Target, k: nat, qs: seq<Pointer>)
    requires FoundFrom(x, doc, origin, entries, t, k, qs) && origin <= longer && Extends(entries, more)
    ensures FoundFrom(x, doc, longer, more, t, k, qs)
  {
    hide Arrive, KeysAt, SlotsOf, ReadReference;
    forall j | 0 <= j < |qs| ensures FoundAt(x, doc, longer, more, t, k + j, qs[j]) {
      assert FoundAt(x, doc, origin, entries, t, k + j, qs[j]);
    }
  }

  lemma PartlyStays(x: Externals, doc: Value, origin: seq<Target>, entries: Entries, longer: seq<Target>, more: Entries,
                    t: Target, g: Subschema<Pointer>, n: nat)
    requires Partly(x, doc, origin, entries, t, g, n) && origin <= longer && Extends(entries, more)
    ensures Partly(x, doc, longer, more, t, g, n)
  {
    hide FoundFrom, Read, SameShapes;
    FoundStays(x, doc, origin, entries, longer, more, t, 0, AllInOrder(g.constraints));
  }

  lemma CompiledStays(x: Externals, doc: Value, g: Graph, origin: seq<Target>, entries: Entries,
                      bigger: Graph, longer: seq<Target>, more: Entries, p: Pointer)
    requires |g| == |origin| && |bigger| == |longer| && p < |g| && p < |bigger|
    requires Compiled(x, doc, g, origin, entries, p) && bigger[p] == g[p]
    requires origin <= longer && Extends(entries, more)
    ensures Compiled(x, doc, bigger, longer, more, p)
  {
    hide Partly, Walked, Read;
    if origin[p].Node? {
      PartlyStays(x, doc, origin, entries, longer, more, origin[p], g[p],
                  |Read(x, origin[p].node).value.constraints|);
    }
  }

  // ---- Adding what was found next ----

  lemma FoundMore(x: Externals, doc: Value, origin: seq<Target>, entries: Entries, longer: seq<Target>, more: Entries,
                  t: Target, k: nat, qs: seq<Pointer>, rs: seq<Pointer>)
    requires FoundFrom(x, doc, origin, entries, t, k, qs) && origin <= longer && Extends(entries, more)
    requires FoundFrom(x, doc, longer, more, t, k + |qs|, rs)
    ensures FoundFrom(x, doc, longer, more, t, k, qs + rs)
  {
    hide FoundAt;
    FoundStays(x, doc, origin, entries, longer, more, t, k, qs);
    forall j | 0 <= j < |qs + rs| ensures FoundAt(x, doc, longer, more, t, k + j, (qs + rs)[j]) {
      if j >= |qs| { assert FoundAt(x, doc, longer, more, t, k + |qs| + (j - |qs|), rs[j - |qs|]); }
    }
  }

  lemma AllInOrderNext<C>(cs: seq<Constraint<C>>, c: Constraint<C>)
    ensures AllInOrder(cs + [c]) == AllInOrder(cs) + InOrder(c)
  {
    assert (cs + [c])[..|cs|] == cs;
  }

  /** One more constraint has been compiled, and added. */
  lemma PartlyNext(x: Externals, doc: Value, origin: seq<Target>, entries: Entries, longer: seq<Target>, more: Entries,
                   t: Target, g: Subschema<Pointer>, n: nat, d: Constraint<Pointer>)
    requires Partly(x, doc, origin, entries, t, g, n) && origin <= longer && Extends(entries, more)
    requires n < |Read(x, t.node).value.constraints| && ShapeOf(Read(x, t.node).value.constraints[n]) == ShapeOf(d)
    requires FoundFrom(x, doc, longer, more, t, |AllInOrder(g.constraints)|, InOrder(d))
    ensures Partly(x, doc, longer, more, t, Subschema(g.alwaysInvalid, g.constraints + [d]), n + 1)
  {
    hide FoundFrom, Read, InOrder, AllInOrder, ShapeOf;
    FoundMore(x, doc, origin, entries, longer, more, t, 0, AllInOrder(g.constraints), InOrder(d));
    AllInOrderNext(g.constraints, d);
  }

  // ---- Positions ----

  /** Constraints of the same shape have as many subschemas. */
  lemma SameCount<C, D>(c: Constraint<C>, d: Constraint<D>)
    requires ShapeOf(c) == ShapeOf(d)
    ensures |InOrder(c)| == |InOrder(d)| && |InPlace(c)| == |InPlace(d)| && |Inside(c)| == |Inside(d)|
  {
    if c.Dependencies? { assert |Names(c.schemas)| == |Names(d.schemas)|; }
    if c.Properties? {
      assert |Names(c.named)| == |Names(d.named)| && |Names(c.patterns)| == |Names(d.patterns)|;
    }
  }

  lemma {:induction false} SameCounts(cs: seq<Constraint<Slot>>, ds: seq<Constraint<Pointer>>, n: nat)
    requires SameShapes(cs, ds, n)
    ensures |AllInOrder(cs[..n])| == |AllInOrder(ds[..n])|
  {
    hide ShapeOf, InOrder, AllInOrder;
    if n == 0 {
      NoneInOrder<Slot>();
      NoneInOrder<Pointer>();
      assert cs[..0] == [] && ds[..0] == [];
    } else {
      SameCounts(cs, ds, n - 1);
      assert cs[..n] == cs[..n - 1] + [cs[n - 1]] && ds[..n] == ds[..n - 1] + [ds[n - 1]];
      AllInOrderNext(cs[..n - 1], cs[n - 1]);
      AllInOrderNext(ds[..n - 1], ds[n - 1]);
      SameCount(cs[n - 1], ds[n - 1]);
    }
  }

  lemma NoneInOrder<C>()
    ensures AllInOrder<C>([]) == []
  {
  }

  /** Where the subschemas of constraint i are among those of all constraints. */
  lemma {:induction false} PositionOf<C>(cs: seq<Constraint<C>>, i: nat, j: nat)
    requires i < |cs| && j < |InOrder(cs[i])|
    ensures |AllInOrder(cs[..i])| + j < |AllInOrder(cs)|
    ensures AllInOrder(cs)[|AllInOrder(cs[..i])| + j] == InOrder(cs[i])[j]
  {
    hide InOrder;
    var n := |cs| - 1;
    assert cs == cs[..n] + [cs[n]];
    AllInOrderNext(cs[..n], cs[n]);
    if i < n {
      assert cs[..n][..i] == cs[..i];
      PositionOf(cs[..n], i, j);
    }
  }

  // ---- Cached keys ----

  /** Where the chain of references that starts at it ends, a cached key stands for that end. */
  lemma {:induction false} LinkLeads(x: Externals, doc: Value, origin: seq<Target>, entries: Entries, k: string,
                                     seen: set<string>)
    requires EntriesLinked(x, doc, origin, entries) && k in entries
    requires Resolve(doc, k).Some? && Pointers(Resolve(doc, k).value) <= Pointers(doc)
    requires Chase(x, doc, Resolve(doc, k).value, seen, false).Concrete?
    ensures entries[k] < |origin|
    ensures StandsFor(origin[entries[k]], Chase(x, doc, Resolve(doc, k).value, seen, false).node)
    decreases Pointers(doc) - seen
  {
    hide Pointers, Resolve, Followed;
    assert EntryLinked(x, doc, origin, entries, k);
    var node := Resolve(doc, k).value;
    if ReadReference(node).Reference? {
      var pointer := ReadReference(node).pointer;
      assert CacheKey(None, pointer) == pointer;
      PointerNamed(node);
      ResolveBelow(doc, pointer);
      LinkLeads(x, doc, origin, entries, pointer, seen + {pointer});
    }
  }

  lemma ReferenceIsRight(x: Externals, doc: Value, origin: seq<Target>, entries: Entries, v: Value, q: Pointer)
    requires EntriesLinked(x, doc, origin, entries) && ReadReference(v).Reference?
    requires Pointers(v) <= Pointers(doc) && Chase(x, doc, v, {}, false).Concrete?
    requires CacheKey(ReadReference(v).uri, ReadReference(v).pointer) in entries
    requires q == entries[CacheKey(ReadReference(v).uri, ReadReference(v).pointer)]
    ensures q < |origin| && StandsFor(origin[q], Chase(x, doc, v, {}, false).node)
  {
    hide Pointers, Resolve, EntriesLinked;
    var key := ReadReference(v).pointer;
    assert CacheKey(None, key) == key;
    PointerNamed(v);
    ResolveBelow(doc, key);
    assert {} + {key} == {key};
    LinkLeads(x, doc, origin, entries, key, {key});
  }

  /** What is found for a node that is not mistaken for another is right. */
  lemma FoundIsRight(x: Externals, doc: Value, origin: seq<Target>, entries: Entries, t: Target, k: nat, q: Pointer)
    requires EntriesLinked(x, doc, origin, entries) && EMPTY < |origin| && origin[EMPTY] == Anything
    requires Walked(x, doc, t) && RightAt(x, doc, t, k) && FoundAt(x, doc, origin, entries, t, k, q)
    ensures SlotIs(x, doc, origin, SlotsOf(x, t)[k], q)
  {
    hide Pointers, Resolve, Walked, SlotsOf, KeysAt, EntriesLinked;
    var s := SlotsOf(x, t)[k];
    if s.At? {
      WalkedSlot(x, doc, t, k);
      if ReadReference(s.node) == NoReference {
        ConcreteIsRight(x, doc, origin, entries, s, t.path + s.suffix, KeysAt(x, doc, t, k), q);
      } else {
        ReferenceIsRight(x, doc, origin, entries, s.node, q);
      }
    }
  }

  lemma ConcreteIsRight(x: Externals, doc: Value, origin: seq<Target>, entries: Entries, s: Slot, path: string,
                        keys: set<string>, q: Pointer)
    requires EntriesLinked(x, doc, origin, entries) && s.At? && ReadReference(s.node) == NoReference
    requires Pointers(s.node) <= Pointers(doc) && NotMistaken(x, doc, s.node, path, keys)
    requires Found(origin, entries, s.node, Arrive(doc, s.node, path, {}, keys), q)
    ensures SlotIs(x, doc, origin, s, q)
  {
    hide Pointers, Resolve, EntriesLinked;
    if path in keys { LinkLeads(x, doc, origin, entries, path, {}); }
  }

  // ---- What must be readable ----

  /** Whatever compiling comes to belongs to every closed set of schema nodes. */
  lemma {:induction false} PlacedInNeeded(x: Externals, doc: Value, v: Value, path: string, steps: nat)
    requires ChainsEnd(x, doc) && PlacedIn(x, doc, v, path, steps)
    ensures SlotNeeded(x, doc, At(v, ""))
    decreases steps
  {
    hide Pointers, Resolve, Chase, Reads, SlotNeeded, Needed, ReadReference, Size;
    assert Placed(x, doc, v, path);
    if steps == 0 {
      RootNeeded(x, doc, v);
    } else {
      var u, upath :| PlacedIn(x, doc, u, upath, steps - 1) && HandsDown(x, doc, u, upath, v, path);
      PlacedInNeeded(x, doc, u, upath, steps - 1);
      assert Placed(x, doc, u, upath);
      if ReadReference(u) == NoReference {
        var s: Slot :| Reads(x, u, s) && s.At? && s.node == v && path == upath + s.suffix;
        ConcreteNeeded(x, doc, u);
        ReadNeeded(x, doc, u, s);
      } else {
        assert Ends(x, doc, u);
        FollowNeeded(x, doc, u, path);
      }
    }
  }

  lemma ReadNeeded(x: Externals, doc: Value, u: Value, s: Slot)
    requires Needed(x, doc, u) && Reads(x, u, s) && s.At?
    ensures SlotNeeded(x, doc, At(s.node, ""))
  {
    hide Needed, SlotNeeded, Read, InPlace, Inside;
    var c :| c in Read(x, u).value.constraints && (s in InPlace(c) || s in Inside(c));
    ChildrenNeeded(x, doc, u, c, s);
    SuffixIrrelevant(x, doc, s);
  }

  lemma RootNeeded(x: Externals, doc: Value, v: Value)
    requires Chase(x, doc, doc, {}, true) == Concrete(v)
    ensures SlotNeeded(x, doc, At(v, ""))
  {
    ChaseBelow(x, doc, doc, {}, true);
  }

  lemma SuffixIrrelevant(x: Externals, doc: Value, s: Slot)
    requires s.At? && SlotNeeded(x, doc, s)
    ensures SlotNeeded(x, doc, At(s.node, ""))
  {
    hide Closed, Chase;
    forall nodes | Closed(x, doc, nodes) ensures LeadsInto(x, doc, At(s.node, ""), nodes) {
      assert LeadsInto(x, doc, s, nodes);
    }
  }

  lemma ConcreteNeeded(x: Externals, doc: Value, v: Value)
    requires SlotNeeded(x, doc, At(v, "")) && ReadReference(v) == NoReference
    ensures Needed(x, doc, v)
  {
    forall nodes | Closed(x, doc, nodes) ensures v in nodes {
      assert LeadsInto(x, doc, At(v, ""), nodes);
    }
  }

  /** Following a reference within the document does not change where the chain ends. */
  lemma FollowChase(x: Externals, doc: Value, v: Value, pointer: string, seen: set<string>)
    requires Ends(x, doc, v) && !Chase(x, doc, v, seen, false).Cyclic?
    requires ReadReference(v) == Reference(None, pointer) && Resolve(doc, pointer).Some?
    ensures pointer in Pointers(doc) && pointer !in seen
    ensures Pointers(Resolve(doc, pointer).value) <= Pointers(doc)
    ensures Chase(x, doc, Resolve(doc, pointer).value, {}, false) == Chase(x, doc, v, {}, false)
    ensures !Chase(x, doc, Resolve(doc, pointer).value, seen + {pointer}, false).Cyclic?
  {
    hide Pointers, Resolve;
    PointerNamed(v);
    ResolveBelow(doc, pointer);
    assert {} + {pointer} == {pointer};
    ChaseForgets(x, doc, Resolve(doc, pointer).value, {pointer}, {}, false);
  }

  lemma FollowNeeded(x: Externals, doc: Value, v: Value, pointer: string)
    requires Ends(x, doc, v) && SlotNeeded(x, doc, At(v, ""))
    requires ReadReference(v) == Reference(None, pointer) && Resolve(doc, pointer).Some?
    ensures SlotNeeded(x, doc, At(Resolve(doc, pointer).value, ""))
  {
    hide Chase, Pointers, Closed, Resolve;
    FollowChase(x, doc, v, pointer, {});
    forall nodes | Closed(x, doc, nodes) ensures LeadsInto(x, doc, At(Resolve(doc, pointer).value, ""), nodes) {
      assert LeadsInto(x, doc, At(v, ""), nodes);
    }
  }

  lemma PlacedNeeded(x: Externals, doc: Value, v: Value, path: string)
    requires ChainsEnd(x, doc) && Placed(x, doc, v, path)
    ensures SlotNeeded(x, doc, At(v, ""))
    ensures ReadReference(v) == NoReference ==> Needed(x, doc, v)
  {
    var steps: nat :| PlacedIn(x, doc, v, path, steps);
    PlacedInNeeded(x, doc, v, path, steps);
    if ReadReference(v) == NoReference { ConcreteNeeded(x, doc, v); }
  }

  /** In a readable document, whatever compiling comes to can be read, and every reference resolves. */
  lemma PlacedIsReadable(x: Externals, doc: Value, v: Value, path: string)
    requires ChainsEnd(x, doc) && Placed(x, doc, v, path) && Readable(x, doc)
    ensures Pointers(v) <= Pointers(doc) && Chase(x, doc, v, {}, false).Concrete?
    ensures ReadReference(v) == NoReference ==> Read(x, v).Some?
  {
    hide Chase, Read, Pointers;
    PlacedNeeded(x, doc, v, path);
    var nodes :| Closed(x, doc, nodes);
    assert LeadsInto(x, doc, At(v, ""), nodes);
    if ReadReference(v) == NoReference { assert NodeClosed(x, doc, v, nodes); }
  }

  /** In a readable document the parser comes to nothing that makes it fail. */
  lemma ReadableIsCompilable(x: Externals, doc: Value)
    requires ChainsEnd(x, doc) && Readable(x, doc)
    ensures Compilable(x, doc)
  {
    hide ChainsEnd, Readable, Walked, ArrivesAt, Occurs, Read;
    RootConcrete(x, doc);
    forall t | Walked(x, doc, t) ensures t.Node? && Read(x, t.node).Some? {
      WalkedPlaced(x, doc, t);
      PlacedIsReadable(x, doc, t.node, t.path);
    }
    forall a | Occurs(x, doc, a) ensures !a.Failed? {
      OccursReadable(x, doc, a);
    }
  }

  lemma RootConcrete(x: Externals, doc: Value)
    requires Readable(x, doc)
    ensures Chase(x, doc, doc, {}, true).Concrete?
  {
    hide Chase, NodeClosed;
  }

  lemma OccursReadable(x: Externals, doc: Value, a: Arrival)
    requires ChainsEnd(x, doc) && Readable(x, doc) && Occurs(x, doc, a)
    ensures !a.Failed?
  {
    hide ChainsEnd, Readable, Walked, SlotsOf, KeysAt, Arrive, Placed, Pointers, Chase, Size;
    var t, k: nat :| Walked(x, doc, t) && ArrivesAt(x, doc, t, k, a);
    WalkedPlaced(x, doc, t);
    WalkedSlot(x, doc, t, k);
    var s := SlotsOf(x, t)[k];
    PlacedIsReadable(x, doc, s.node, t.path + s.suffix);
    NotFailed(x, doc, s.node, t.path + s.suffix, {}, KeysAt(x, doc, t, k));
  }

  /** A chain of references that ends at a concrete node does not make the parser fail. */
  lemma {:induction false} NotFailed(x: Externals, doc: Value, v: Value, path: string,
                                     followed: set<string>, keys: set<string>)
    requires Pointers(v) <= Pointers(doc) && Chase(x, doc, v, followed, false).Concrete?
    ensures !Arrive(doc, v, path, followed, keys).Failed?
    decreases Pointers(doc) - followed
  {
    hide Pointers, Resolve;
    if ReadReference(v).Reference? {
      var pointer := ReadReference(v).pointer;
      PointerNamed(v);
      ResolveBelow(doc, pointer);
      NotFailed(x, doc, Resolve(doc, pointer).value, pointer, followed + {pointer}, keys);
    }
  }

  // ---- Compiled forms ----

  /** A subschema was made for every target the parser comes to. */
  lemma {:induction false} AllMade(x: Externals, doc: Value, g: Graph, origin: seq<Target>, entries: Entries,
                                   t: Target, steps: nat)
    requires CompiledForm(x, doc, g, origin, entries) && WalkedIn(x, doc, t, steps)
    ensures exists p :: 0 <= p < |origin| && origin[p] == t
    decreases steps
  {
    hide CompiledForm, ArrivesAt;
    if steps == 0 {
      RootMade(x, doc, g, origin, entries);
    } else {
      var u, k: nat :| WalkedIn(x, doc, u, steps - 1) && ArrivesAt(x, doc, u, k, Made(t));
      AllMade(x, doc, g, origin, entries, u, steps - 1);
      var p :| 0 <= p < |origin| && origin[p] == u;
      var q := MadeNext(x, doc, g, origin, entries, p, k, t);
    }
  }

  lemma RootMade(x: Externals, doc: Value, g: Graph, origin: seq<Target>, entries: Entries)
    requires CompiledForm(x, doc, g, origin, entries)
    ensures ROOT < |origin| && origin[ROOT] == RootTarget(x, doc)
  {
    hide Compiled, EntriesLinked, RootTarget, Populated;
  }

  lemma MadeNext(x: Externals, doc: Value, g: Graph, origin: seq<Target>, entries: Entries, p: Pointer, k: nat,
                 t: Target)
    returns (q: Pointer)
    requires CompiledForm(x, doc, g, origin, entries) && p < |origin| && ArrivesAt(x, doc, origin[p], k, Made(t))
    ensures q < |origin| && origin[q] == t
  {
    FormIsLinked(x, doc, g, origin, entries);
    HasSlots(x, doc, origin[p], k, Made(t));
    hide CompiledForm, ArrivesAt, SlotsOf, KeysAt;
    q := ChildFound(x, doc, g, origin, entries, p, k);
    FoundMade(x, doc, origin, entries, origin[p], k, t, q);
  }

  lemma HasSlots(x: Externals, doc: Value, t: Target, k: nat, a: Arrival)
    requires ArrivesAt(x, doc, t, k, a)
    ensures t.Node? && k < |SlotsOf(x, t)|
  {
    hide KeysAt, Arrive;
  }

  lemma FoundMade(x: Externals, doc: Value, origin: seq<Target>, entries: Entries, u: Target, k: nat, t: Target,
                  q: Pointer)
    requires FoundAt(x, doc, origin, entries, u, k, q) && ArrivesAt(x, doc, u, k, Made(t))
    ensures q < |origin| && origin[q] == t
  {
    hide Arrive, KeysAt, SlotsOf, ReadReference;
  }

  /** All constraints of a compiled subschema. */
  lemma CompiledAll(x: Externals, doc: Value, g: Graph, origin: seq<Target>, entries: Entries, p: Pointer)
    requires CompiledForm(x, doc, g, origin, entries) && p < |g| && origin[p].Node?
    ensures |g| == |origin| && Walked(x, doc, origin[p]) && Read(x, origin[p].node).Some?
    ensures g[p].alwaysInvalid == Read(x, origin[p].node).value.alwaysInvalid
    ensures |g[p].constraints| == |Read(x, origin[p].node).value.constraints|
    ensures SameShapes(Read(x, origin[p].node).value.constraints, g[p].constraints, |g[p].constraints|)
    ensures |AllInOrder(g[p].constraints)| == |SlotsOf(x, origin[p])|
    ensures FoundFrom(x, doc, origin, entries, origin[p], 0, AllInOrder(g[p].constraints))
    ensures origin[p].path in origin[p].keys ==> origin[p].path in entries && entries[origin[p].path] == p
  {
    hide Read, Walked, EntriesLinked, RootTarget, Populated, FoundFrom, SameShapes, AllInOrder, Chase;
    assert Compiled(x, doc, g, origin, entries, p);
    var cs, ds := Read(x, origin[p].node).value.constraints, g[p].constraints;
    SameCounts(cs, ds, |ds|);
    assert cs[..|ds|] == cs && ds[..|ds|] == ds;
  }

  /** The child pointer for subschema k, and what it was found to be. */
  lemma ChildFound(x: Externals, doc: Value, g: Graph, origin: seq<Target>, entries: Entries, p: Pointer, k: nat)
    returns (q: Pointer)
    requires CompiledForm(x, doc, g, origin, entries) && p < |g| && origin[p].Node? && k < |SlotsOf(x, origin[p])|
    ensures |AllInOrder(g[p].constraints)| == |SlotsOf(x, origin[p])| && q == AllInOrder(g[p].constraints)[k]
    ensures FoundAt(x, doc, origin, entries, origin[p], k, q)
  {
    hide CompiledForm, Read, Walked, SlotsOf, AllInOrder, SameShapes, FoundAt;
    CompiledAll(x, doc, g, origin, entries, p);
    q := AllInOrder(g[p].constraints)[k];
    assert FoundAt(x, doc, origin, entries, origin[p], 0 + k, q);
  }

  /** The document is compiled as soon as there is a compiled form. */
  lemma FormIsCompilable(x: Externals, doc: Value, g: Graph, origin: seq<Target>, entries: Entries)
    requires CompiledForm(x, doc, g, origin, entries)
    ensures Compilable(x, doc)
  {
    hide Walked, Occurs, Read, Compiled, EntriesLinked, RootTarget, Populated;
    forall t | Walked(x, doc, t) ensures t.Node? && Read(x, t.node).Some? {
      var p := MadeSomewhere(x, doc, g, origin, entries, t);
      CompiledAll(x, doc, g, origin, entries, p);
    }
    forall a | Occurs(x, doc, a) ensures !a.Failed? {
      OccursFound(x, doc, g, origin, entries, a);
    }
  }

  lemma MadeSomewhere(x: Externals, doc: Value, g: Graph, origin: seq<Target>, entries: Entries, t: Target)
    returns (p: Pointer)
    requires CompiledForm(x, doc, g, origin, entries) && Walked(x, doc, t)
    ensures p < |g| && |g| == |origin| && origin[p] == t && t.Node?
  {
    hide WalkedIn, Compiled, EntriesLinked, RootTarget, Populated;
    var steps: nat :| WalkedIn(x, doc, t, steps);
    AllMade(x, doc, g, origin, entries, t, steps);
    WalkedPlaced(x, doc, t);
    p :| 0 <= p < |origin| && origin[p] == t;
  }

  lemma OccursFound(x: Externals, doc: Value, g: Graph, origin: seq<Target>, entries: Entries, a: Arrival)
    requires CompiledForm(x, doc, g, origin, entries) && Occurs(x, doc, a)
    ensures !a.Failed?
  {
    hide Walked, CompiledForm, Arrive, KeysAt, SlotsOf, ReadReference;
    var t, k: nat :| Walked(x, doc, t) && ArrivesAt(x, doc, t, k, a);
    var p := MadeSomewhere(x, doc, g, origin, entries, t);
    var q := ChildFound(x, doc, g, origin, entries, p, k);
  }

  // ---- When the graph represents the document ----

  /** Every subschema of a constraint has a place in the order in which they are compiled, and
      constraints of one shape have the same places. */
  lemma InPlaceIs<C, D>(c: Constraint<C>, d: Constraint<D>, k: nat) returns (j: nat)
    requires ShapeOf(c) == ShapeOf(d) && k < |InPlace(c)|
    ensures |InPlace(c)| == |InPlace(d)| && |InOrder(c)| == |InOrder(d)| && j < |InOrder(c)|
    ensures InOrder(c)[j] == InPlace(c)[k] && InOrder(d)[j] == InPlace(d)[k]
  {
    SameCount(c, d);
    j := k;
  }

  lemma InsideIs<C, D>(c: Constraint<C>, d: Constraint<D>, k: nat) returns (j: nat)
    requires ShapeOf(c) == ShapeOf(d) && k < |Inside(c)|
    ensures |Inside(c)| == |Inside(d)| && |InOrder(c)| == |InOrder(d)| && j < |InOrder(c)|
    ensures InOrder(c)[j] == Inside(c)[k] && InOrder(d)[j] == Inside(d)[k]
  {
    hide InOrder, Inside, InPlace, ShapeOf, Optionally;
    SameCount(c, d);
    SameTuple(c, d);
    OrderOf(c);
    OrderOf(d);
    if c.LinearItems? {
      j := if k < |c.children| then |Optionally(c.additional)| + k else k - |c.children|;
    } else {
      j := |InPlace(c)| + k;
    }
  }

  /** Tuples compile their additional subschema first. */
  lemma OrderOf<C>(c: Constraint<C>)
    ensures !c.LinearItems? ==> InOrder(c) == InPlace(c) + Inside(c)
    ensures c.LinearItems? ==> InOrder(c) == Optionally(c.additional) + c.children
    ensures c.LinearItems? ==> Inside(c) == c.children + Optionally(c.additional) && InPlace(c) == []
  {
  }

  lemma SameTuple<C, D>(c: Constraint<C>, d: Constraint<D>)
    requires ShapeOf(c) == ShapeOf(d)
    ensures c.LinearItems? <==> d.LinearItems?
    ensures c.LinearItems? ==>
      |c.children| == |d.children| && |Optionally(c.additional)| == |Optionally(d.additional)|
  {
  }

  lemma SlotsInOrderAre(x: Externals, doc: Value, origin: seq<Target>, c: Constraint<Slot>, d: Constraint<Pointer>)
    requires ShapeOf(c) == ShapeOf(d) && SlotsAre(x, doc, origin, InOrder(c), InOrder(d))
    ensures ConstraintIs(x, doc, origin, c, d)
  {
    hide SlotIs, InOrder, InPlace, Inside, ShapeOf;
    SameCount(c, d);
    forall k | 0 <= k < |InPlace(c)| ensures SlotIs(x, doc, origin, InPlace(c)[k], InPlace(d)[k]) {
      var j := InPlaceIs(c, d, k);
    }
    forall k | 0 <= k < |Inside(c)| ensures SlotIs(x, doc, origin, Inside(c)[k], Inside(d)[k]) {
      var j := InsideIs(c, d, k);
    }
  }

  /** If nothing under the target is mistaken, its subschema is complete. */
  lemma RightIsComplete(x: Externals, doc: Value, g: Graph, origin: seq<Target>, entries: Entries, p: Pointer)
    requires ChainsEnd(x, doc) && CompiledForm(x, doc, g, origin, entries) && p < |g| && |g| == |origin|
    requires forall k: nat :: RightAt(x, doc, origin[p], k)
    ensures Complete(x, doc, g, origin, p)
  {
    hide ChainsEnd, Read, Walked, EntriesLinked, RootTarget, Populated, Needed, ConstraintIs, RightAt, Partly,
         AllInOrder;
    assert Compiled(x, doc, g, origin, entries, p);
    if origin[p].Node? {
      CompiledAll(x, doc, g, origin, entries, p);
      WalkedPlaced(x, doc, origin[p]);
      PlacedNeeded(x, doc, origin[p].node, origin[p].path);
      forall i | 0 <= i < |g[p].constraints|
        ensures ConstraintIs(x, doc, origin, Read(x, origin[p].node).value.constraints[i], g[p].constraints[i])
      {
        RightConstraint(x, doc, g, origin, entries, p, i);
      }
    }
  }

  lemma RightConstraint(x: Externals, doc: Value, g: Graph, origin: seq<Target>, entries: Entries, p: Pointer, i: nat)
    requires CompiledForm(x, doc, g, origin, entries) && p < |g| && |g| == |origin| && origin[p].Node?
    requires forall k: nat :: RightAt(x, doc, origin[p], k)
    requires Read(x, origin[p].node).Some?
    requires i < |g[p].constraints| && i < |Read(x, origin[p].node).value.constraints|
    ensures ConstraintIs(x, doc, origin, Read(x, origin[p].node).value.constraints[i], g[p].constraints[i])
  {
    hide Read, Walked, CompiledForm, RightAt, AllInOrder, InOrder, ShapeOf, SlotIs, ConstraintIs, FoundAt;
    CompiledAll(x, doc, g, origin, entries, p);
    FormIsLinked(x, doc, g, origin, entries);
    var cs, ds := Read(x, origin[p].node).value.constraints, g[p].constraints;
    SameCount(cs[i], ds[i]);
    SameCounts(cs, ds, i);
    var n := |AllInOrder(cs[..i])|;
    forall j | 0 <= j < |InOrder(cs[i])| ensures SlotIs(x, doc, origin, InOrder(cs[i])[j], InOrder(ds[i])[j]) {
      PositionOf(cs, i, j);
      PositionOf(ds, i, j);
      assert FoundAt(x, doc, origin, entries, origin[p], 0 + (n + j), AllInOrder(ds)[n + j]);
      FoundIsRight(x, doc, origin, entries, origin[p], n + j, AllInOrder(ds)[n + j]);
    }
    SlotsInOrderAre(x, doc, origin, cs[i], ds[i]);
  }

  lemma FormIsLinked(x: Externals, doc: Value, g: Graph, origin: seq<Target>, entries: Entries)
    requires CompiledForm(x, doc, g, origin, entries)
    ensures EntriesLinked(x, doc, origin, entries)
    ensures |g| == |origin| && EMPTY < |origin| && origin[EMPTY] == Anything
  {
    hide EntriesLinked, Compiled;
  }

  /** If no node is ever mistaken for another, the graph represents the document. */
  lemma RightForm(x: Externals, doc: Value, g: Graph, origin: seq<Target>, entries: Entries)
    requires ChainsEnd(x, doc) && NoMistake(x, doc) && CompiledForm(x, doc, g, origin, entries)
    ensures Represents(x, doc, g, origin)
  {
    hide ChainsEnd, EntriesLinked, Read, Chase, Complete, Compiled, RightAt, Walked, Populated, RootPath;
    forall p | 0 <= p < |g| ensures Complete(x, doc, g, origin, p) {
      if origin[p].Node? { CompiledAll(x, doc, g, origin, entries, p); }
      NothingToTheRight(x, doc, origin[p]);
      RightIsComplete(x, doc, g, origin, entries, p);
    }
  }

  lemma NothingToTheRight(x: Externals, doc: Value, t: Target)
    ensures t.Anything? ==> forall k: nat :: RightAt(x, doc, t, k)
  {
  }

  /** If the graph represents the document, what is found stands for what the subschema leads to. */
  lemma FoundStands(x: Externals, doc: Value, g: Graph, origin: seq<Target>, entries: Entries, p: Pointer, k: nat)
    returns (q: Pointer)
    requires CompiledForm(x, doc, g, origin, entries) && Represents(x, doc, g, origin)
    requires p < |g| && origin[p].Node? && k < |SlotsOf(x, origin[p])|
    ensures FoundAt(x, doc, origin, entries, origin[p], k, q) && SlotIs(x, doc, origin, SlotsOf(x, origin[p])[k], q)
  {
    hide Read, CompiledForm, Complete, InOrder, InPlace, Inside, ShapeOf, SlotIs, FoundAt, Needed;
    q := ChildFound(x, doc, g, origin, entries, p, k);
    CompiledAll(x, doc, g, origin, entries, p);
    assert Complete(x, doc, g, origin, p);
    CompleteSays(x, doc, g, origin, p);
    var cs, ds := Read(x, origin[p].node).value.constraints, g[p].constraints;
    var i, j := WhereIs(cs, k);
    SameCount(cs[i], ds[i]);
    SameCounts(cs, ds, i);
    PositionOf(cs, i, j);
    PositionOf(ds, i, j);
    assert ConstraintIs(x, doc, origin, cs[i], ds[i]);
    InOrderIs(x, doc, origin, cs[i], ds[i], j);
  }

  /** The constraint that has subschema k, and where in it. */
  lemma {:induction false} WhereIs<C>(cs: seq<Constraint<C>>, k: nat) returns (i: nat, j: nat)
    requires k < |AllInOrder(cs)|
    ensures i < |cs| && j < |InOrder(cs[i])| && k == |AllInOrder(cs[..i])| + j
  {
    hide InOrder;
    var n := |cs| - 1;
    if k < |AllInOrder(cs[..n])| {
      i, j := WhereIs(cs[..n], k);
      assert cs[..n][..i] == cs[..i];
    } else {
      i, j := n, k - |AllInOrder(cs[..n])|;
    }
  }

  lemma PlaceIs<C, D>(c: Constraint<C>, d: Constraint<D>, j: nat) returns (inPlace: bool, k: nat)
    requires ShapeOf(c) == ShapeOf(d) && j < |InOrder(c)|
    ensures |InPlace(c)| == |InPlace(d)| && |Inside(c)| == |Inside(d)| && |InOrder(c)| == |InOrder(d)|
    ensures inPlace ==> k < |InPlace(c)| && InOrder(c)[j] == InPlace(c)[k] && InOrder(d)[j] == InPlace(d)[k]
    ensures !inPlace ==> k < |Inside(c)| && InOrder(c)[j] == Inside(c)[k] && InOrder(d)[j] == Inside(d)[k]
  {
    hide InOrder, Inside, InPlace, ShapeOf, Optionally;
    SameCount(c, d);
    SameTuple(c, d);
    OrderOf(c);
    OrderOf(d);
    if c.LinearItems? {
      var n := |Optionally(c.additional)|;
      inPlace, k := false, if j < n then |c.children| + j else j - n;
    } else if j < |InPlace(c)| {
      inPlace, k := true, j;
    } else {
      inPlace, k := false, j - |InPlace(c)|;
    }
  }

  lemma InOrderIs(x: Externals, doc: Value, origin: seq<Target>, c: Constraint<Slot>, d: Constraint<Pointer>, j: nat)
    requires ConstraintIs(x, doc, origin, c, d) && j < |InOrder(c)| == |InOrder(d)|
    ensures SlotIs(x, doc, origin, InOrder(c)[j], InOrder(d)[j])
  {
    hide SlotIs, InOrder, InPlace, Inside, ShapeOf;
    var inPlace, k := PlaceIs(c, d, j);
  }

  /** If the graph represents the document, no node has been mistaken for another. */
  lemma FormIsRight(x: Externals, doc: Value, g: Graph, origin: seq<Target>, entries: Entries)
    requires ChainsEnd(x, doc) && CompiledForm(x, doc, g, origin, entries) && Represents(x, doc, g, origin)
    ensures NoMistake(x, doc)
  {
    hide ChainsEnd, CompiledForm, Represents, Walked, RightAt;
    CompiledIsReadable(x, doc, g, origin);
    forall t, k: nat | Walked(x, doc, t) ensures RightAt(x, doc, t, k) {
      var p := MadeSomewhere(x, doc, g, origin, entries, t);
      RightWhere(x, doc, g, origin, entries, p, k);
    }
  }

  lemma RightWhere(x: Externals, doc: Value, g: Graph, origin: seq<Target>, entries: Entries, p: Pointer, k: nat)
    requires ChainsEnd(x, doc) && CompiledForm(x, doc, g, origin, entries) && Represents(x, doc, g, origin)
    requires Readable(x, doc) && p < |g| && |g| == |origin| && Walked(x, doc, origin[p])
    ensures RightAt(x, doc, origin[p], k)
  {
    hide ChainsEnd, CompiledForm, Represents, Readable, Walked, SlotsOf, KeysAt, NotMistaken;
    var t := origin[p];
    if t.Node? && k < |SlotsOf(x, t)| && SlotsOf(x, t)[k].At? {
      var s := SlotsOf(x, t)[k];
      WalkedSlot(x, doc, t, k);
      PlacedIsReadable(x, doc, s.node, t.path + s.suffix);
      var q := FoundStands(x, doc, g, origin, entries, p, k);
      FormIsLinked(x, doc, g, origin, entries);
      StandsIsRight(x, doc, origin, entries, s, t.path + s.suffix, KeysAt(x, doc, t, k), q);
    }
  }

  lemma StandsIsRight(x: Externals, doc: Value, origin: seq<Target>, entries: Entries, s: Slot, path: string,
                      keys: set<string>, q: Pointer)
    requires ChainsEnd(x, doc) && Readable(x, doc) && EntriesLinked(x, doc, origin, entries)
    requires s.At? && Pointers(s.node) <= Pointers(doc) && Chase(x, doc, s.node, {}, false).Concrete?
    requires SlotIs(x, doc, origin, s, q) && Found(origin, entries, s.node, Arrive(doc, s.node, path, {}, keys), q)
    ensures NotMistaken(x, doc, s.node, path, keys)
  {
    hide ChainsEnd, Readable, Pointers, Resolve, EntriesLinked;
    if ReadReference(s.node) == NoReference && path in keys {
      CachedLeads(x, doc, origin, entries, path);
      LinkLeads(x, doc, origin, entries, path, {});
    }
  }

  /** In a readable document the chain of references that starts at a cached key ends. */
  lemma CachedLeads(x: Externals, doc: Value, origin: seq<Target>, entries: Entries, k: string)
    requires ChainsEnd(x, doc) && Readable(x, doc) && EntriesLinked(x, doc, origin, entries) && k in entries
    ensures Resolve(doc, k).Some? && Pointers(Resolve(doc, k).value) <= Pointers(doc)
    ensures Chase(x, doc, Resolve(doc, k).value, {}, false).Concrete?
  {
    hide Pointers, Resolve, Placed, Readable, Chase, Linked;
    assert EntryLinked(x, doc, origin, entries, k);
    var v, path :| Placed(x, doc, v, path) && ReadReference(v) == Reference(None, k);
    PlacedIsReadable(x, doc, v, path);
    assert Ends(x, doc, v);
    FollowChase(x, doc, v, k, {});
  }

  /** What the parser makes of a document represents it exactly if, on its way, it never mistakes a
      node for another. */
  lemma RepresentsExactly(x: Externals, doc: Value, g: Graph, origin: seq<Target>, entries: Entries)
    requires ChainsEnd(x, doc) && CompiledForm(x, doc, g, origin, entries)
    ensures Represents(x, doc, g, origin) <==> NoMistake(x, doc)
  {
    hide ChainsEnd, CompiledForm, Represents, NoMistake;
    if NoMistake(x, doc) { RightForm(x, doc, g, origin, entries); }
    if Represents(x, doc, g, origin) { FormIsRight(x, doc, g, origin, entries); }
  }

  /** If no reference to another document has a look-alike key, every cached key leads to a concrete node. */
  lemma {:induction false} CachedIsConcrete(x: Externals, doc: Value, origin: seq<Target>, entries: Entries, k: string,
                                            seen: set<string>)
    requires Unmixed(x, doc) && EntriesLinked(x, doc, origin, entries) && k in entries
    requires Resolve(doc, k).Some? && Pointers(Resolve(doc, k).value) <= Pointers(doc)
    requires !Chase(x, doc, Resolve(doc, k).value, seen, false).Cyclic?
    ensures Chase(x, doc, Resolve(doc, k).value, seen, false).Concrete?
    decreases Pointers(doc) - seen
  {
    hide Pointers, Resolve, Placed;
    assert EntryLinked(x, doc, origin, entries, k);
    var node := Resolve(doc, k).value;
    if ReadReference(node).Reference? {
      FollowedIsPlaced(x, doc, k);
      var pointer := ReadReference(node).pointer;
      assert EntryLinked(x, doc, origin, entries, CacheKey(ReadReference(node).uri, pointer));
      assert ReadReference(node).uri.None?;
      PointerNamed(node);
      ResolveBelow(doc, pointer);
      CachedIsConcrete(x, doc, origin, entries, pointer, seen + {pointer});
    }
  }

  /** What a pointer that is followed leads to is placed at that pointer. */
  lemma FollowedIsPlaced(x: Externals, doc: Value, k: string)
    requires Followed(x, doc, k) && Resolve(doc, k).Some?
    ensures Placed(x, doc, Resolve(doc, k).value, k)
  {
    hide Resolve, Placed;
    var v, path :| Placed(x, doc, v, path) && ReadReference(v) == Reference(None, k);
    PlacedTarget(x, doc, v, path, k);
  }

  lemma FaithfulReference(x: Externals, doc: Value, origin: seq<Target>, entries: Entries, v: Value, path: string)
    requires ChainsEnd(x, doc) && Unmixed(x, doc) && EntriesLinked(x, doc, origin, entries)
    requires Placed(x, doc, v, path) && ReadReference(v).Reference?
    requires CacheKey(ReadReference(v).uri, ReadReference(v).pointer) in entries
    ensures Pointers(v) <= Pointers(doc) && Chase(x, doc, v, {}, false).Concrete?
  {
    hide Pointers, Resolve, Placed, Followed;
    var key := CacheKey(ReadReference(v).uri, ReadReference(v).pointer);
    assert EntryLinked(x, doc, origin, entries, key);
    assert ReadReference(v) == Reference(None, key);
    assert Ends(x, doc, v);
    FollowChase(x, doc, v, key, {});
    CachedIsConcrete(x, doc, origin, entries, key, {});
  }

  lemma FaithfulNode(x: Externals, doc: Value, origin: seq<Target>, entries: Entries, v: Value, path: string,
                     keys: set<string>, q: Pointer)
    requires ChainsEnd(x, doc) && Faithful(x, doc) && EntriesLinked(x, doc, origin, entries)
    requires Placed(x, doc, v, path) && Found(origin, entries, v, Arrive(doc, v, path, {}, keys), q)
    ensures NotMistaken(x, doc, v, path, keys)
  {
    hide ChainsEnd, Pointers, Resolve, Placed, Followed, Unmixed;
    PlacedBelow(x, doc, v, path);
    if ReadReference(v) == NoReference {
      if path in keys { assert EntryLinked(x, doc, origin, entries, path); }
    } else {
      FaithfulReference(x, doc, origin, entries, v, path);
    }
  }

  /** Where paths are faithful, no mistake is made. */
  lemma FaithfulForm(x: Externals, doc: Value, g: Graph, origin: seq<Target>, entries: Entries)
    requires ChainsEnd(x, doc) && Faithful(x, doc) && CompiledForm(x, doc, g, origin, entries)
    ensures NoMistake(x, doc) && Represents(x, doc, g, origin)
  {
    hide ChainsEnd, Faithful, CompiledForm, Represents, Walked, SlotsOf, KeysAt, NotMistaken, Arrive, Placed;
    FormIsLinked(x, doc, g, origin, entries);
    forall t, k: nat | Walked(x, doc, t) ensures RightAt(x, doc, t, k) {
      if t.Node? && k < |SlotsOf(x, t)| && SlotsOf(x, t)[k].At? {
        var p := MadeSomewhere(x, doc, g, origin, entries, t);
        var q := ChildFound(x, doc, g, origin, entries, p, k);
        WalkedSlot(x, doc, t, k);
        FaithfulNode(x, doc, origin, entries, SlotsOf(x, t)[k].node, t.path + SlotsOf(x, t)[k].suffix,
                     KeysAt(x, doc, t, k), q);
      }
    }
    RightForm(x, doc, g, origin, entries);
  }

  /** A document that is represented can be read. */
  lemma CompiledIsReadable(x: Externals, doc: Value, g: Graph, origin: seq<Target>)
    requires Represents(x, doc, g, origin)
    ensures Readable(x, doc)
  {
    hide Pointers, Chase, Complete;
    var nodes := set p | 0 <= p < |origin| && origin[p].Node? && Pointers(origin[p].node) <= Pointers(doc) ::
      origin[p].node;
    ChaseBelow(x, doc, doc, {}, true);
    forall n | n in nodes ensures NodeClosed(x, doc, n, nodes) {
      var p :| 0 <= p < |origin| && origin[p].Node? && Pointers(origin[p].node) <= Pointers(doc) && origin[p].node == n;
      CompiledNodeIsClosed(x, doc, g, origin, p, nodes);
    }
    assert Closed(x, doc, nodes);
  }

  ghost predicate HasAllNodes(doc: Value, origin: seq<Target>, nodes: set<Value>) {
    forall p :: 0 <= p < |origin| && origin[p].Node? && Pointers(origin[p].node) <= Pointers(doc) ==>
      origin[p].node in nodes
  }

  lemma CompiledNodeIsClosed(x: Externals, doc: Value, g: Graph, origin: seq<Target>, p: Pointer, nodes: set<Value>)
    requires |g| == |origin| && p < |g| && Complete(x, doc, g, origin, p) && HasAllNodes(doc, origin, nodes)
    requires origin[p].Node? && Pointers(origin[p].node) <= Pointers(doc)
    ensures NodeClosed(x, doc, origin[p].node, nodes)
  {
    hide Pointers, Read, ConstraintIs, HasAllNodes, InPlace, Inside, Needed, LeadsInto;
    var cs := Read(x, origin[p].node).value.constraints;
    forall c | c in cs
      ensures forall s <- InPlace(c) :: LeadsInto(x, doc, s, nodes)
      ensures forall s <- Inside(c) :: LeadsInto(x, doc, s, nodes)
    {
      var i :| 0 <= i < |cs| && cs[i] == c;
      CompiledLeadsInto(x, doc, origin, c, g[p].constraints[i], nodes);
    }
  }

  lemma CompiledLeadsInto(x: Externals, doc: Value, origin: seq<Target>, c: Constraint<Slot>, d: Constraint<Pointer>,
                          nodes: set<Value>)
    requires ConstraintIs(x, doc, origin, c, d) && HasAllNodes(doc, origin, nodes)
    ensures forall s | s in InPlace(c) || s in Inside(c) :: LeadsInto(x, doc, s, nodes)
  {
    hide Pointers, Chase, ConstraintIs, InPlace, Inside;
    forall s | s in InPlace(c) || s in Inside(c) ensures LeadsInto(x, doc, s, nodes) {
      var q := CompiledSlot(x, doc, origin, c, d, s);
      if s.At? { ChaseBelow(x, doc, s.node, {}, false); }
    }
  }

  lemma CompiledSlot(x: Externals, doc: Value, origin: seq<Target>, c: Constraint<Slot>, d: Constraint<Pointer>,
                     s: Slot) returns (q: Pointer)
    requires ConstraintIs(x, doc, origin, c, d) && (s in InPlace(c) || s in Inside(c))
    ensures SlotIs(x, doc, origin, s, q)
  {
    hide SlotIs, InPlace, Inside, ShapeOf;
    if s in InPlace(c) {
      var k :| 0 <= k < |InPlace(c)| && InPlace(c)[k] == s;
      q := InPlace(d)[k];
    } else {
      var k :| 0 <= k < |Inside(c)| && Inside(c)[k] == s;
      q := Inside(d)[k];
    }
  }

  /** Validation against what the parser makes of the document comes to an end. */
  ghost predicate Settles(x: Externals, doc: Value) {
    forall g, origin, entries :: CompiledForm(x, doc, g, origin, entries) ==> GraphGuarded(g)
  }

  lemma RightSettles(x: Externals, doc: Value)
    requires ChainsEnd(x, doc) && NoMistake(x, doc) && (Readable(x, doc) ==> Guarded(x, doc))
    ensures Settles(x, doc)
  {
    hide ChainsEnd, NoMistake, CompiledForm, Readable, Guarded, GraphGuarded, Represents;
    forall g, origin, entries | CompiledForm(x, doc, g, origin, entries) ensures GraphGuarded(g) {
      RightForm(x, doc, g, origin, entries);
      CompiledIsReadable(x, doc, g, origin);
      GraphIsGuarded(x, doc, g, origin);
    }
  }
}
