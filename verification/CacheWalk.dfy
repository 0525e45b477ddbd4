/** In which order the parser comes to the subschemas of a document, and which keys its cache holds
    each time. */
module CacheWalk {
  import opened Wrappers
  import opened Json
  import opened JsonPointer
  import opened Schemas
  import opened Keywords
  import opened Reachability

  // ---- Order ----

  /** The subschemas of a constraint in the order in which they are compiled. */
  function InOrder<C>(c: Constraint<C>): seq<C> {
    match c
    case LinearItems(cs, additional) => Optionally(additional) + cs
    case _ => InPlace(c) + Inside(c)
  }

  function AllInOrder<C>(cs: seq<Constraint<C>>): seq<C> {
    if cs == [] then [] else AllInOrder(cs[..|cs| - 1]) + InOrder(cs[|cs| - 1])
  }

  function SlotsOf(x: Externals, t: Target): seq<Slot> {
    if t.Node? && Read(x, t.node).Some? then AllInOrder(Read(x, t.node).value.constraints) else []
  }

  // ---- What the parser does with one node ----

  /** It reuses what is cached under a key, or makes a subschema for a target, or fails; `keys` are
      cached then. */
  datatype Arrival = Reused(key: string, keys: set<string>) | Made(target: Target) | Failed(keys: set<string>)

  function KeysThen(a: Arrival): set<string> {
    match a
    case Reused(_, keys) => keys
    case Made(t) => if t.Node? then t.keys else {}
    case Failed(keys) => keys
  }

  /** How the parser goes on from node v, having followed some pointers, when `keys` are cached. */
  function Arrive(doc: Value, v: Value, path: string, followed: set<string>, keys: set<string>): (a: Arrival)
    ensures keys + followed <= KeysThen(a)
    ensures ReadReference(v).Reference? ==> CacheKey(ReadReference(v).uri, ReadReference(v).pointer) in KeysThen(a)
    ensures a.Made? ==> a.target.Node? && ReadReference(a.target.node) == NoReference
    ensures a.Made? && ReadReference(v) == NoReference ==> a.target == Node(v, path, keys + followed)
    ensures a.Made? && ReadReference(v).Reference? ==>
      exists pointer <- Pointers(doc) - (keys + followed) :: pointer in a.target.keys
    decreases Pointers(doc) - followed
  {
    match ReadReference(v)
    case NoReference => if path in keys then Reused(path, keys + followed) else Made(Node(v, path, keys + followed))
    case BadReference => Failed(keys + followed)
    case Reference(uri, pointer) =>
      var key := CacheKey(uri, pointer);
      if key in keys then
        Reused(key, keys + followed)
      else if uri.None? && pointer in Pointers(doc) - followed && Resolve(doc, pointer).Some? then
        Arrive(doc, Resolve(doc, pointer).value, pointer, followed + {pointer}, keys)
      else
        Failed(keys + followed + {key})
  }

  lemma ConcreteArrival(doc: Value, node: Value, path: string, followed: set<string>, keys: set<string>)
    requires ReadReference(node) == NoReference
    ensures Arrive(doc, node, path, followed, keys) ==
      if path in keys then Reused(path, keys + followed) else Made(Node(node, path, keys + followed))
  {
  }

  lemma ReferenceIsReused(doc: Value, node: Value, path: string, followed: set<string>, keys: set<string>)
    requires ReadReference(node).Reference?
    requires CacheKey(ReadReference(node).uri, ReadReference(node).pointer) in keys
    ensures Arrive(doc, node, path, followed, keys) ==
      Reused(CacheKey(ReadReference(node).uri, ReadReference(node).pointer), keys + followed)
  {
  }

  // ---- The walk ----

  /** The keys that are cached once a target has been populated. */
  function Populated(x: Externals, doc: Value, t: Target): (keys: set<string>)
    requires t.Node?
    ensures t.keys <= keys
    decreases Pointers(doc) - t.keys, Size(t.node), 2, 0
  {
    WalkSlots(x, doc, t, SlotsOf(x, t))
  }

  /** The same after the first subschemas of the target, in order. */
  function WalkSlots(x: Externals, doc: Value, t: Target, ss: seq<Slot>): (keys: set<string>)
    requires t.Node?
    ensures t.keys <= keys
    decreases Pointers(doc) - t.keys, Size(t.node), 1, |ss|
  {
    if ss == [] then t.keys else WalkSlot(x, doc, t, ss[|ss| - 1], WalkSlots(x, doc, t, ss[..|ss| - 1]))
  }

  function WalkSlot(x: Externals, doc: Value, t: Target, s: Slot, keys: set<string>): (more: set<string>)
    requires t.Node?
    ensures keys <= more
    decreases Pointers(doc) - keys, Size(t.node), 0, 0
  {
    if s.At? && Size(s.node) < Size(t.node) then
      var a := Arrive(doc, s.node, t.path + s.suffix, {}, keys);
      if a.Made? then
        assert ReadReference(s.node).Reference? ==> Pointers(doc) - a.target.keys < Pointers(doc) - keys;
        Populated(x, doc, a.target)
      else KeysThen(a)
    else keys
  }

  function KeysAfter(x: Externals, doc: Value, a: Arrival): set<string> {
    if a.Made? && a.target.Node? then Populated(x, doc, a.target) else KeysThen(a)
  }

  /** The keys that are cached when the parser comes to subschema k of the target. */
  function KeysAt(x: Externals, doc: Value, t: Target, k: nat): set<string>
    requires t.Node? && k <= |SlotsOf(x, t)|
  {
    WalkSlots(x, doc, t, SlotsOf(x, t)[..k])
  }

  /** What it does there. */
  ghost predicate ArrivesAt(x: Externals, doc: Value, t: Target, k: nat, a: Arrival) {
    && k < |SlotsOf(x, t)| && SlotsOf(x, t)[k].At?
    && a == Arrive(doc, SlotsOf(x, t)[k].node, t.path + SlotsOf(x, t)[k].suffix, {}, KeysAt(x, doc, t, k))
  }

  /** The target of the root subschema: where the references that start at the root end. */
  function RootTarget(x: Externals, doc: Value): Target {
    var end := Chase(x, doc, doc, {}, true);
    if end.Concrete? then Node(end.node, RootPath(x, doc, doc, {}, ""), {}) else Anything
  }

  ghost predicate WalkedIn(x: Externals, doc: Value, t: Target, steps: nat)
    decreases steps
  {
    if steps == 0 then t.Node? && t == RootTarget(x, doc)
    else exists u, k: nat :: WalkedIn(x, doc, u, steps - 1) && ArrivesAt(x, doc, u, k, Made(t))
  }

  /** The parser comes to populate a subschema for this target, unless it fails before. */
  ghost predicate Walked(x: Externals, doc: Value, t: Target) {
    exists steps: nat :: WalkedIn(x, doc, t, steps)
  }

  /** It comes to this while it populates some subschema. */
  ghost predicate Occurs(x: Externals, doc: Value, a: Arrival) {
    exists t, k: nat :: Walked(x, doc, t) && ArrivesAt(x, doc, t, k, a)
  }

  /** Nothing the parser comes to makes it fail: every target can be read, every reference that is not
      cached can be followed. */
  ghost predicate Compilable(x: Externals, doc: Value) {
    && Chase(x, doc, doc, {}, true).Concrete?
    && (forall t :: Walked(x, doc, t) ==> Read(x, t.node).Some?)
    && (forall a :: Occurs(x, doc, a) ==> !a.Failed?)
  }

  lemma OccursMade(x: Externals, doc: Value, a: Arrival)
    requires Occurs(x, doc, a) && a.Made?
    ensures Walked(x, doc, a.target)
  {
    hide ArrivesAt;
    var t, k: nat :| Walked(x, doc, t) && ArrivesAt(x, doc, t, k, a);
    var steps: nat :| WalkedIn(x, doc, t, steps);
    assert WalkedIn(x, doc, a.target, steps + 1);
  }

  lemma WalkedRoot(x: Externals, doc: Value)
    requires Chase(x, doc, doc, {}, true).Concrete?
    ensures Walked(x, doc, RootTarget(x, doc))
  {
    assert WalkedIn(x, doc, RootTarget(x, doc), 0);
  }

  lemma WalkedIsConcrete(x: Externals, doc: Value, t: Target)
    requires Walked(x, doc, t)
    ensures t.Node? && ReadReference(t.node) == NoReference
  {
    var steps: nat :| WalkedIn(x, doc, t, steps);
    if steps == 0 { ChaseBelow(x, doc, doc, {}, true); }
  }

  // ---- Subschemas in order ----

  lemma {:induction false} AllInOrderHas<C>(cs: seq<Constraint<C>>, k: nat) returns (i: nat)
    requires k < |AllInOrder(cs)|
    ensures i < |cs| && AllInOrder(cs)[k] in InOrder(cs[i])
  {
    var rest := cs[..|cs| - 1];
    if k < |AllInOrder(rest)| {
      i := AllInOrderHas(rest, k);
    } else {
      i := |cs| - 1;
      assert AllInOrder(cs)[k] == InOrder(cs[i])[k - |AllInOrder(rest)|];
    }
  }

  lemma InOrderAre<C>(c: Constraint<C>, s: C)
    ensures s in InOrder(c) <==> s in InPlace(c) || s in Inside(c)
  {
  }

  lemma SlotIsRead(x: Externals, t: Target, k: nat)
    requires k < |SlotsOf(x, t)|
    ensures Reads(x, t.node, SlotsOf(x, t)[k])
  {
    hide Read, InOrder, InPlace, Inside;
    var cs := Read(x, t.node).value.constraints;
    var i := AllInOrderHas(cs, k);
    InOrderAre(cs[i], SlotsOf(x, t)[k]);
  }

  // ---- What is walked is placed ----

  lemma {:induction false} ArrivesPlaced(x: Externals, doc: Value, v: Value, path: string,
                                         followed: set<string>, keys: set<string>)
    requires Placed(x, doc, v, path) && Arrive(doc, v, path, followed, keys).Made?
    ensures var t := Arrive(doc, v, path, followed, keys).target; t.Node? && Placed(x, doc, t.node, t.path)
    decreases Pointers(doc) - followed
  {
    hide Placed, Pointers, Resolve;
    if ReadReference(v).Reference? {
      var pointer := ReadReference(v).pointer;
      PlacedTarget(x, doc, v, path, pointer);
      ArrivesPlaced(x, doc, Resolve(doc, pointer).value, pointer, followed + {pointer}, keys);
    }
  }

  lemma SlotIsPlaced(x: Externals, doc: Value, t: Target, k: nat)
    requires t.Node? && Placed(x, doc, t.node, t.path) && ReadReference(t.node) == NoReference
    requires k < |SlotsOf(x, t)| && SlotsOf(x, t)[k].At?
    ensures var s := SlotsOf(x, t)[k];
      Placed(x, doc, s.node, t.path + s.suffix) && Pointers(s.node) <= Pointers(doc) && Size(s.node) < Size(t.node)
  {
    hide Placed, Pointers, SlotsOf, Reads, Size;
    var s := SlotsOf(x, t)[k];
    SlotIsRead(x, t, k);
    PlacedSlot(x, doc, t.node, t.path, s);
    PlacedBelow(x, doc, s.node, t.path + s.suffix);
    SlotIsBelow(x, t.node, s);
  }

  lemma {:induction false} WalkedIsPlaced(x: Externals, doc: Value, t: Target, steps: nat)
    requires WalkedIn(x, doc, t, steps)
    ensures t.Node? && Placed(x, doc, t.node, t.path) && ReadReference(t.node) == NoReference
    decreases steps
  {
    hide Placed, ArrivesAt, RootPath, Chase;
    assert Walked(x, doc, t);
    WalkedIsConcrete(x, doc, t);
    if steps == 0 {
      PlacedRoot(x, doc);
    } else {
      var u, k: nat :| WalkedIn(x, doc, u, steps - 1) && ArrivesAt(x, doc, u, k, Made(t));
      WalkedIsPlaced(x, doc, u, steps - 1);
      MadeIsPlaced(x, doc, u, k, t);
    }
  }

  lemma MadeIsPlaced(x: Externals, doc: Value, u: Target, k: nat, t: Target)
    requires u.Node? && Placed(x, doc, u.node, u.path) && ReadReference(u.node) == NoReference
    requires ArrivesAt(x, doc, u, k, Made(t))
    ensures t.Node? && Placed(x, doc, t.node, t.path)
  {
    hide Placed, SlotsOf, KeysAt, Arrive, Size, Pointers;
    SlotIsPlaced(x, doc, u, k);
    var s := SlotsOf(x, u)[k];
    ArrivesPlaced(x, doc, s.node, u.path + s.suffix, {}, KeysAt(x, doc, u, k));
  }

  lemma WalkedPlaced(x: Externals, doc: Value, t: Target)
    requires Walked(x, doc, t)
    ensures t.Node? && Placed(x, doc, t.node, t.path) && ReadReference(t.node) == NoReference
  {
    hide WalkedIn, Placed;
    var steps: nat :| WalkedIn(x, doc, t, steps);
    WalkedIsPlaced(x, doc, t, steps);
  }

  /** What is known of a subschema that the walk comes to. */
  lemma WalkedSlot(x: Externals, doc: Value, t: Target, k: nat)
    requires Walked(x, doc, t) && k < |SlotsOf(x, t)| && SlotsOf(x, t)[k].At?
    ensures var s := SlotsOf(x, t)[k];
      Placed(x, doc, s.node, t.path + s.suffix) && Pointers(s.node) <= Pointers(doc) && Size(s.node) < Size(t.node)
  {
    hide Walked, Placed, SlotsOf, Pointers, Size;
    WalkedPlaced(x, doc, t);
    SlotIsPlaced(x, doc, t, k);
  }

  // ---- Keys on the way ----

  lemma KeysAtEnds(x: Externals, doc: Value, t: Target)
    requires t.Node?
    ensures KeysAt(x, doc, t, 0) == t.keys && KeysAt(x, doc, t, |SlotsOf(x, t)|) == Populated(x, doc, t)
  {
    hide SlotsOf;
    assert SlotsOf(x, t)[..|SlotsOf(x, t)|] == SlotsOf(x, t);
  }

  lemma KeysAtNext(x: Externals, doc: Value, t: Target, k: nat)
    requires t.Node? && k < |SlotsOf(x, t)|
    ensures KeysAt(x, doc, t, k + 1) == WalkSlot(x, doc, t, SlotsOf(x, t)[k], KeysAt(x, doc, t, k))
  {
    hide SlotsOf, WalkSlot;
    assert SlotsOf(x, t)[..k + 1][..k] == SlotsOf(x, t)[..k];
  }

  lemma SlotWalked(x: Externals, doc: Value, t: Target, s: Slot, keys: set<string>)
    requires t.Node?
    ensures s.EmptySchema? ==> WalkSlot(x, doc, t, s, keys) == keys
    ensures s.At? && Size(s.node) < Size(t.node) ==>
      WalkSlot(x, doc, t, s, keys) == KeysAfter(x, doc, Arrive(doc, s.node, t.path + s.suffix, {}, keys))
  {
    hide Arrive, Populated, Size;
  }

  lemma {:induction false} KeysGrow(x: Externals, doc: Value, t: Target, j: nat, k: nat)
    requires t.Node? && j <= k <= |SlotsOf(x, t)|
    ensures KeysAt(x, doc, t, j) <= KeysAt(x, doc, t, k)
  {
    hide SlotsOf, KeysAt, WalkSlot;
    if j < k {
      KeysGrow(x, doc, t, j, k - 1);
      KeysAtNext(x, doc, t, k - 1);
    }
  }

  /** Once the walk has come to a reference, its key is cached. */
  lemma KeyIsCachedThen(x: Externals, doc: Value, t: Target, j: nat, k: nat)
    requires t.Node? && j < k <= |SlotsOf(x, t)| && SlotsOf(x, t)[j].At?
    requires Size(SlotsOf(x, t)[j].node) < Size(t.node) && ReadReference(SlotsOf(x, t)[j].node).Reference?
    ensures var r := ReadReference(SlotsOf(x, t)[j].node); CacheKey(r.uri, r.pointer) in KeysAt(x, doc, t, k)
  {
    hide SlotsOf, KeysAt, WalkSlot, Populated, Size, ReadReference;
    var s := SlotsOf(x, t)[j];
    KeysAtNext(x, doc, t, j);
    SlotWalked(x, doc, t, s, KeysAt(x, doc, t, j));
    KeysGrow(x, doc, t, j + 1, k);
  }

  // ---- When every hit is right ----

  /** The chain of references that starts at this key, taken for a pointer, ends at v. */
  ghost predicate LeadsTo(x: Externals, doc: Value, key: string, v: Value) {
    && Resolve(doc, key).Some? && Pointers(Resolve(doc, key).value) <= Pointers(doc)
    && Chase(x, doc, Resolve(doc, key).value, {}, false) == Concrete(v)
  }

  /** A node the walk comes to is not mistaken for another: if it is concrete and its path is cached,
      that path leads to it; if it is a reference, it leads to a concrete node of the document. */
  ghost predicate NotMistaken(x: Externals, doc: Value, v: Value, path: string, keys: set<string>) {
    if ReadReference(v) == NoReference then path in keys ==> LeadsTo(x, doc, path, v)
    else Pointers(v) <= Pointers(doc) && Chase(x, doc, v, {}, false).Concrete?
  }

  ghost predicate RightAt(x: Externals, doc: Value, t: Target, k: nat) {
    t.Node? && k < |SlotsOf(x, t)| && SlotsOf(x, t)[k].At? ==>
      NotMistaken(x, doc, SlotsOf(x, t)[k].node, t.path + SlotsOf(x, t)[k].suffix, KeysAt(x, doc, t, k))
  }

  /** No node is ever mistaken for another. */
  ghost predicate NoMistake(x: Externals, doc: Value) {
    forall t, k: nat :: Walked(x, doc, t) ==> RightAt(x, doc, t, k)
  }
}
