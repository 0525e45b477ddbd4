/** The state of the schema parser between any two of its steps, and what each step keeps. */
module ParserState {
  import opened Wrappers
  import opened Json
  import opened JsonPointer
  import opened Schemas
  import opened Keywords
  import opened Semantics
  import opened Reachability
  import opened CacheWalk
  import opened Compilation
  import opened CompiledForms
  import opened Weights

  // ---- Size of the result ----

  /** No schema that compiling comes to has more than n schema nodes. */
  ghost predicate NoneLarger(x: Externals, doc: Value, n: nat) {
    forall v, path :: Placed(x, doc, v, path) ==> SchemaNodes(x, v) <= n
  }

  lemma SizeIsEnough(x: Externals, doc: Value)
    ensures NoneLarger(x, doc, Size(doc))
  {
    hide Placed, SchemaNodes, Size, Pointers;
    forall v, path | Placed(x, doc, v, path) ensures SchemaNodes(x, v) <= Size(doc) {
      PlacedBelow(x, doc, v, path);
      SchemaNodesFit(x, v);
    }
  }

  ghost function LeastBound(x: Externals, doc: Value, n: nat): (r: nat)
    requires NoneLarger(x, doc, n)
    ensures r <= n && NoneLarger(x, doc, r) && (r > 0 ==> !NoneLarger(x, doc, r - 1))
  {
    if n > 0 && NoneLarger(x, doc, n - 1) then LeastBound(x, doc, n - 1) else n
  }

  /** The number of schema nodes in the largest schema that compiling comes to. */
  ghost function LargestSchema(x: Externals, doc: Value): (n: nat)
    ensures n <= Size(doc) && NoneLarger(x, doc, n) && (n > 0 ==> !NoneLarger(x, doc, n - 1))
  {
    SizeIsEnough(x, doc);
    LeastBound(x, doc, Size(doc))
  }

  /** Subschemas made so far, less a largest schema for every cached pointer. */
  ghost function Spent(x: Externals, doc: Value, g: Graph, entries: Entries): int {
    |g| - |entries| * LargestSchema(x, doc)
  }

  lemma SpentMore(x: Externals, doc: Value, g: Graph, h: Graph, entries: Entries)
    ensures Spent(x, doc, h, entries) == Spent(x, doc, g, entries) + |h| - |g|
  {
    hide LargestSchema;
  }

  lemma NothingCached(x: Externals, doc: Value, g: Graph)
    ensures Spent(x, doc, g, map[]) == |g|
  {
    hide LargestSchema;
    ZeroTimes(LargestSchema(x, doc));
  }

  lemma ZeroTimes(n: nat)
    ensures 0 * n == 0
  {
  }

  lemma {:induction false} KeysCount(keys: seq<string>)
    requires Distinct(keys)
    ensures |(set k <- keys)| == |keys|
  {
    if keys != [] {
      var rest := keys[..|keys| - 1];
      KeysCount(rest);
      assert (set k <- keys) == (set k <- rest) + {keys[|keys| - 1]};
    }
  }

  lemma KeysAdded(before: Entries, after: Entries, keys: seq<string>)
    requires Distinct(keys) && AllNew(before, keys) && after.Keys == before.Keys + (set k <- keys)
    ensures |after| == |before| + |keys|
  {
    var added := set k <- keys;
    KeysCount(keys);
    assert before.Keys !! added;
    hide Distinct, AllNew;
    assert |before.Keys + added| == |before.Keys| + |added|;
    assert |after| == |after.Keys| && |before| == |before.Keys|;
  }

  lemma SpentIs(x: Externals, doc: Value, g: Graph, entries: Entries)
    ensures Spent(x, doc, g, entries) == |g| - |entries| * LargestSchema(x, doc)
  {
    hide LargestSchema;
  }

  lemma CachedMore(x: Externals, doc: Value, g: Graph, before: Entries, after: Entries, keys: nat)
    requires |after| == |before| + keys
    ensures Spent(x, doc, g, after) <= Spent(x, doc, g, before) - if keys == 0 then 0 else LargestSchema(x, doc)
  {
    hide *;
    SpentIs(x, doc, g, before);
    SpentIs(x, doc, g, after);
    Products(|before|, keys, LargestSchema(x, doc));
  }

  lemma Products(a: nat, b: nat, size: nat)
    ensures (a + b) * size >= a * size + if b == 0 then 0 else size
  {
    assert (a + b) * size == a * size + b * size;
  }

  /** Each cached pointer, and the root, accounts for at most one largest schema. */
  lemma SpentBound(x: Externals, doc: Value, g: Graph, entries: Entries)
    requires entries.Keys <= Pointers(doc) && Spent(x, doc, g, entries) <= 1 + LargestSchema(x, doc)
    ensures |g| <= 1 + LargestSchema(x, doc) * (1 + |Pointers(doc)|)
  {
    hide *;
    SpentIs(x, doc, g, entries);
    Fewer(entries.Keys, Pointers(doc));
    assert |entries| == |entries.Keys|;
    BoundFromSpent(|g|, |entries|, |Pointers(doc)|, LargestSchema(x, doc));
  }

  lemma RootBound(x: Externals, doc: Value, g: Graph, more: Graph, entries: Entries, node: Value, path: string)
    requires |g| == 2 && Spent(x, doc, more, entries) <= Spent(x, doc, g, map[]) + SchemaNodes(x, node) - 1
    requires Placed(x, doc, node, path) && entries.Keys <= Pointers(doc)
    ensures |more| <= 1 + LargestSchema(x, doc) * (1 + |Pointers(doc)|)
  {
    hide *;
    NothingCached(x, doc, g);
    SchemaIsSmall(x, doc, node, path);
    SpentBound(x, doc, more, entries);
  }

  lemma BoundFromSpent(made: nat, keys: nat, pointers: nat, most: nat)
    requires keys <= pointers && made - keys * most <= 1 + most
    ensures made <= 1 + most * (1 + pointers)
  {
    assert keys * most + (pointers - keys) * most == pointers * most;
    assert most * (1 + pointers) == most + pointers * most;
  }

  lemma {:induction false} Fewer(a: set<string>, b: set<string>)
    requires a <= b
    ensures |a| <= |b|
  {
    if k :| k in a { Fewer(a - {k}, b - {k}); }
  }

  lemma NextSlot(x: Externals, bound: nat, ss: seq<Slot>, i: nat)
    requires i < |ss|
    ensures SlotsNodes(x, bound, ss[i..]) == SlotNodes(x, bound, ss[i]) + SlotsNodes(x, bound, ss[i + 1..])
  {
    assert ss[i..][1..] == ss[i + 1..];
  }

  lemma NextConstraint(x: Externals, bound: nat, cs: seq<Constraint<Slot>>, i: nat)
    requires i < |cs|
    ensures ConstraintsNodes(x, bound, cs[i..]) ==
      ConstraintNodes(x, bound, cs[i]) + ConstraintsNodes(x, bound, cs[i + 1..])
  {
    assert cs[i..][1..] == cs[i + 1..];
  }

  lemma SchemaIsSmall(x: Externals, doc: Value, v: Value, path: string)
    requires Placed(x, doc, v, path)
    ensures SchemaNodes(x, v) <= LargestSchema(x, doc)
  {
    hide Placed, SchemaNodes;
  }

  lemma CountedBelow(x: Externals, n: Value)
    requires ReadReference(n) == NoReference && Read(x, n).Some?
    ensures SchemaNodes(x, n) == 1 + ConstraintsNodes(x, Size(n), Read(x, n).value.constraints)
  {
    hide Read, ConstraintsNodes, Size;
  }

  // ---- The invariant ----

  /** Between any two steps of the parser every subschema has been compiled, except those it is still
      populating, and every cached key links what it points to. */
  ghost predicate Consistent(x: Externals, doc: Value, g: Graph, origin: seq<Target>, entries: Entries,
                             open: set<Pointer>) {
    && |g| == |origin| && EMPTY < |g| && EMPTY !in open
    && origin[EMPTY] == Anything
    && (forall p :: 0 <= p < |g| && p !in open ==> Compiled(x, doc, g, origin, entries, p))
    && (forall p <- open :: p < |g|)
    && EntriesLinked(x, doc, origin, entries)
  }

  lemma ConsistentBounds(x: Externals, doc: Value, g: Graph, origin: seq<Target>, entries: Entries, open: set<Pointer>)
    requires Consistent(x, doc, g, origin, entries, open)
    ensures |g| == |origin| && EMPTY < |g| && |g| !in open
    ensures forall p <- open :: p < |g| && p != EMPTY
    ensures forall k :: k in entries ==> entries[k] < |origin|
    ensures entries.Keys <= Pointers(doc)
  {
    hide Pointers, Followed, Linked, Compiled, Resolve;
    forall k | k in entries ensures entries[k] < |origin| && k in Pointers(doc) {
      assert EntryLinked(x, doc, origin, entries, k);
      FollowedInDocument(x, doc, k);
    }
  }

  /** Only an open subschema has changed. */
  lemma ConsistentStays(x: Externals, doc: Value, g: Graph, origin: seq<Target>, entries: Entries, open: set<Pointer>,
                        more: Graph, p: Pointer)
    requires Consistent(x, doc, g, origin, entries, open) && p in open
    requires |more| == |g| && forall q :: 0 <= q < |g| && q != p ==> more[q] == g[q]
    ensures Consistent(x, doc, more, origin, entries, open)
  {
    hide Compiled, EntriesLinked;
    forall q | 0 <= q < |more| && q !in open ensures Compiled(x, doc, more, origin, entries, q) {
      CompiledStays(x, doc, g, origin, entries, more, origin, entries, q);
    }
  }

  /** A fresh subschema to be populated keeps the rest consistent. */
  lemma ConsistentCreate(x: Externals, doc: Value, g: Graph, origin: seq<Target>, entries: Entries, open: set<Pointer>,
                         target: Target)
    requires Consistent(x, doc, g, origin, entries, open)
    ensures Consistent(x, doc, g + [Subschema(false, [])], origin + [target], entries, open + {|g|})
  {
    hide Compiled, EntryLinked;
    var more, longer := g + [Subschema(false, [])], origin + [target];
    forall q | 0 <= q < |more| && q !in open + {|g|} ensures Compiled(x, doc, more, longer, entries, q) {
      CompiledStays(x, doc, g, origin, entries, more, longer, entries, q);
    }
    forall k | k in entries ensures EntryLinked(x, doc, longer, entries, k) {
      EntryStays(x, doc, origin, entries, longer, entries, k);
    }
  }

  /** A subschema whose node has been fully compiled is no longer open. */
  lemma ConsistentClose(x: Externals, doc: Value, g: Graph, origin: seq<Target>, entries: Entries,
                        open: set<Pointer>, p: Pointer)
    requires Consistent(x, doc, g, origin, entries, open) && p < |g|
    requires Compiled(x, doc, g, origin, entries, p)
    ensures Consistent(x, doc, g, origin, entries, open - {p})
  {
    hide Compiled, EntriesLinked;
  }

  // ---- Following references ----

  function KeySet(keys: seq<string>): set<string> { set k <- keys }

  lemma KeySetMore(keys: seq<string>, key: string)
    ensures KeySet(keys + [key]) == KeySet(keys) + {key} && KeySet([]) == {}
  {
  }

  /** Key i of the chain points to a reference to the next key; the last key points to the node. */
  ghost predicate ChainStep(doc: Value, keys: seq<string>, node: Value, path: string, i: nat)
    requires i < |keys|
  {
    && Resolve(doc, keys[i]).Some?
    && if i == |keys| - 1 then Resolve(doc, keys[i]).value == node && path == keys[i]
       else ReadReference(Resolve(doc, keys[i]).value) == Reference(None, keys[i + 1])
  }

  /** What is known when `makeOrReuseSchema` arrives at a node, having followed the pointers `newKeys`:
      the walk comes here. */
  ghost predicate Arrived(x: Externals, doc: Value, node: Value, path: string, newKeys: seq<string>, entries: Entries) {
    && Placed(x, doc, node, path)
    && Pointers(node) <= Pointers(doc)
    && !Chase(x, doc, node, KeySet(newKeys), false).Cyclic?
    && Distinct(newKeys) && AllNew(entries, newKeys)
    && (forall i :: 0 <= i < |newKeys| ==> ChainStep(doc, newKeys, node, path, i))
    && (forall k <- newKeys :: Followed(x, doc, k))
    && Occurs(x, doc, Arrive(doc, node, path, KeySet(newKeys), entries.Keys))
  }

  /** The subschemas of the target from number i on. */
  ghost predicate SlotsAt(x: Externals, t: Target, i: nat, ss: seq<Slot>) {
    i + |ss| <= |SlotsOf(x, t)| && forall j :: 0 <= j < |ss| ==> SlotsOf(x, t)[i + j] == ss[j]
  }

  /** The walk has come to these subschemas of the target. */
  ghost predicate Awaits(x: Externals, doc: Value, t: Target, i: nat, ss: seq<Slot>, keys: set<string>) {
    t.Node? && Walked(x, doc, t) && SlotsAt(x, t, i, ss) && keys == KeysAt(x, doc, t, i)
  }

  /** A subschema of a node has been arrived at without following any reference. */
  lemma ArrivedAtSlot(x: Externals, doc: Value, t: Target, i: nat, s: Slot, entries: Entries)
    requires ChainsEnd(x, doc) && Awaits(x, doc, t, i, [s], entries.Keys) && s.At?
    ensures Arrived(x, doc, s.node, t.path + s.suffix, [], entries)
    ensures Size(s.node) < Size(t.node)
  {
    hide Placed, Walked, SlotsOf, KeysAt, Pointers, Size, Chase, Arrive;
    assert [s][0] == s;
    WalkedSlot(x, doc, t, i);
    assert Ends(x, doc, s.node);
    assert KeySet([]) == {};
    assert ArrivesAt(x, doc, t, i, Arrive(doc, s.node, t.path + s.suffix, {}, entries.Keys));
  }

  /** Following a reference within the document: the target has been arrived at. */
  lemma Follow(x: Externals, doc: Value, node: Value, path: string, newKeys: seq<string>, entries: Entries,
               pointer: string)
    requires ChainsEnd(x, doc) && Arrived(x, doc, node, path, newKeys, entries)
    requires ReadReference(node) == Reference(None, pointer) && Resolve(doc, pointer).Some? && pointer !in entries
    ensures Arrive(doc, node, path, KeySet(newKeys), entries.Keys) ==
      Arrive(doc, Resolve(doc, pointer).value, pointer, KeySet(newKeys + [pointer]), entries.Keys)
    ensures Arrived(x, doc, Resolve(doc, pointer).value, pointer, newKeys + [pointer], entries)
    ensures pointer in Pointers(doc) && pointer !in newKeys
  {
    hide Placed, Pointers, Resolve, Chase, ReadReference, Occurs, Arrive;
    var target := Resolve(doc, pointer).value;
    PlacedTarget(x, doc, node, path, pointer);
    assert Ends(x, doc, node);
    FollowChase(x, doc, node, pointer, KeySet(newKeys));
    KeySetMore(newKeys, pointer);
    OneMoreNew(newKeys, entries, pointer);
    assert Followed(x, doc, pointer);
    OneMoreStep(doc, newKeys, node, path, pointer);
    ArriveOn(doc, node, path, KeySet(newKeys), entries.Keys, pointer);
  }

  lemma ArriveOn(doc: Value, node: Value, path: string, followed: set<string>, keys: set<string>, pointer: string)
    requires ReadReference(node) == Reference(None, pointer) && pointer !in keys
    requires pointer in Pointers(doc) - followed && Resolve(doc, pointer).Some?
    ensures Arrive(doc, node, path, followed, keys) ==
      Arrive(doc, Resolve(doc, pointer).value, pointer, followed + {pointer}, keys)
  {
    hide Pointers, Resolve, ReadReference;
    assert CacheKey(None, pointer) == pointer;
  }

  lemma OneMoreNew(keys: seq<string>, entries: Entries, key: string)
    requires Distinct(keys) && AllNew(entries, keys) && key !in keys && key !in entries
    ensures Distinct(keys + [key]) && AllNew(entries, keys + [key])
  {
  }

  lemma OneMoreStep(doc: Value, keys: seq<string>, node: Value, path: string, pointer: string)
    requires forall i :: 0 <= i < |keys| ==> ChainStep(doc, keys, node, path, i)
    requires ReadReference(node) == Reference(None, pointer) && Resolve(doc, pointer).Some?
    ensures forall i :: 0 <= i < |keys| + 1 ==>
      ChainStep(doc, keys + [pointer], Resolve(doc, pointer).value, pointer, i)
  {
    hide Resolve, ReadReference;
    forall i | 0 <= i < |keys| + 1 ensures ChainStep(doc, keys + [pointer], Resolve(doc, pointer).value, pointer, i) {
      if i < |keys| { assert ChainStep(doc, keys, node, path, i); }
    }
  }

  lemma FewerToFollow(doc: Value, entries: Entries, newKeys: seq<string>, pointer: string)
    requires pointer in Pointers(doc) && pointer !in entries && pointer !in newKeys
    ensures Pointers(doc) - entries.Keys - KeySet(newKeys + [pointer]) <
      Pointers(doc) - entries.Keys - KeySet(newKeys)
  {
    KeySetMore(newKeys, pointer);
    assert pointer in Pointers(doc) - entries.Keys - KeySet(newKeys);
  }

  /** A path that was followed is the pointer of the last reference, and is not cached. */
  lemma PathIsLast(x: Externals, doc: Value, node: Value, path: string, newKeys: seq<string>, entries: Entries)
    requires Arrived(x, doc, node, path, newKeys, entries)
    ensures newKeys != [] ==> path in newKeys && path in KeySet(newKeys) && path !in entries
  {
    hide Placed, Chase, Pointers, Occurs;
    if newKeys != [] { assert ChainStep(doc, newKeys, node, path, |newKeys| - 1); }
  }

  lemma KeysAreNew(x: Externals, doc: Value, node: Value, path: string, newKeys: seq<string>, entries: Entries)
    requires Arrived(x, doc, node, path, newKeys, entries)
    ensures Distinct(newKeys) && AllNew(entries, newKeys)
  {
  }

  /** Caching the pointers that were followed, for what the last one links, keeps all links. */
  lemma ConsistentCached(x: Externals, doc: Value, g: Graph, origin: seq<Target>, before: Entries, after: Entries,
                         open: set<Pointer>, node: Value, path: string, newKeys: seq<string>, p: Pointer)
    requires Consistent(x, doc, g, origin, before, open) && Arrived(x, doc, node, path, newKeys, before)
    requires p < |origin| && (newKeys != [] ==> Linked(origin, before, node, path, p))
    requires after.Keys == before.Keys + KeySet(newKeys)
    requires forall k :: k in after ==> after[k] == if k in before then before[k] else p
    ensures Consistent(x, doc, g, origin, after, open)
    ensures Extends(before, after) && forall k <- newKeys :: k in after && after[k] == p
  {
    hide Compiled, Arrived, EntryLinked, Linked;
    KeysAreNew(x, doc, node, path, newKeys, before);
    forall q | 0 <= q < |g| && q !in open ensures Compiled(x, doc, g, origin, after, q) {
      CompiledStays(x, doc, g, origin, before, g, origin, after, q);
    }
    forall k | k in after ensures EntryLinked(x, doc, origin, after, k) {
      if k in before {
        EntryStays(x, doc, origin, before, origin, after, k);
      } else {
        var i :| 0 <= i < |newKeys| && newKeys[i] == k;
        NewKeyLinked(x, doc, origin, before, after, node, path, newKeys, p, i);
      }
    }
  }

  lemma NewKeyLinked(x: Externals, doc: Value, origin: seq<Target>, before: Entries, after: Entries,
                     node: Value, path: string, newKeys: seq<string>, p: Pointer, i: nat)
    requires Arrived(x, doc, node, path, newKeys, before) && Extends(before, after)
    requires p < |origin| && Linked(origin, before, node, path, p)
    requires i < |newKeys| && forall k <- newKeys :: k in after && after[k] == p
    ensures EntryLinked(x, doc, origin, after, newKeys[i])
  {
    hide Placed, Chase, Pointers, Followed, Resolve, Occurs;
    assert ChainStep(doc, newKeys, node, path, i);
    if i == |newKeys| - 1 {
      LinkedStays(origin, before, origin, after, node, path, p);
    } else {
      assert newKeys[i + 1] in after;
    }
  }

  // ---- What exceptions mean ----

  /** Resolving some pointer of the document meets an index that `std::stoul` cannot represent. */
  ghost predicate SomeIndexTooLarge(doc: Value) {
    exists pointer <- Pointers(doc) :: Overflows(doc, pointer)
  }

  /** Whoever arrives at a reference that cannot be followed has found that the document cannot be
      compiled. */
  lemma ArrivedBroken(x: Externals, doc: Value, node: Value, path: string, newKeys: seq<string>, entries: Entries)
    requires Arrived(x, doc, node, path, newKeys, entries)
    requires ReadReference(node).BadReference? || (ReadReference(node).Reference? &&
      CacheKey(ReadReference(node).uri, ReadReference(node).pointer) !in entries &&
      (ReadReference(node).uri.Some? || Resolve(doc, ReadReference(node).pointer).None?))
    ensures !Compilable(x, doc)
  {
    hide Placed, Pointers, Occurs, Resolve;
  }

  lemma ArrivedOverflows(x: Externals, doc: Value, node: Value, path: string, newKeys: seq<string>, entries: Entries,
                         pointer: string)
    requires Arrived(x, doc, node, path, newKeys, entries) && pointer !in entries
    requires ReadReference(node) == Reference(None, pointer) && Overflows(doc, pointer)
    ensures !Compilable(x, doc) && SomeIndexTooLarge(doc)
  {
    hide Pointers, Placed, Occurs, Resolve, Overflows, Arrive;
    assert CacheKey(None, pointer) == pointer;
    OverflowsFails(doc, pointer);
    ArrivedBroken(x, doc, node, path, newKeys, entries);
    PointerNamed(node);
  }

  // ---- Constraints ----

  lemma AwaitsParts(x: Externals, doc: Value, t: Target, i: nat, ss: seq<Slot>, ts: seq<Slot>, keys: set<string>)
    requires Awaits(x, doc, t, i, ss + ts, keys)
    ensures Awaits(x, doc, t, i, ss, keys) && SlotsAt(x, t, i + |ss|, ts)
  {
    hide SlotsOf, KeysAt, Walked;
    forall j | 0 <= j < |ss| ensures SlotsOf(x, t)[i + j] == ss[j] {
      assert (ss + ts)[j] == ss[j];
    }
    forall j | 0 <= j < |ts| ensures SlotsOf(x, t)[i + |ss| + j] == ts[j] {
      assert (ss + ts)[|ss| + j] == ts[j];
      assert SlotsOf(x, t)[i + (|ss| + j)] == ts[j];
    }
  }

  lemma SlotsAtParts(x: Externals, t: Target, i: nat, ss: seq<Slot>, ts: seq<Slot>)
    requires SlotsAt(x, t, i, ss + ts)
    ensures SlotsAt(x, t, i, ss) && SlotsAt(x, t, i + |ss|, ts)
  {
    hide SlotsOf;
    forall j | 0 <= j < |ss| ensures SlotsOf(x, t)[i + j] == ss[j] {
      assert (ss + ts)[j] == ss[j];
    }
    forall j | 0 <= j < |ts| ensures SlotsOf(x, t)[i + |ss| + j] == ts[j] {
      assert (ss + ts)[|ss| + j] == ts[j];
      assert SlotsOf(x, t)[i + (|ss| + j)] == ts[j];
    }
  }

  /** One subschema has been compiled. */
  lemma SlotIsFound(x: Externals, doc: Value, origin: seq<Target>, entries: Entries, t: Target, i: nat, s: Slot,
                    keys: set<string>, more: set<string>, q: Pointer)
    requires Awaits(x, doc, t, i, [s], keys) && EMPTY < |origin|
    requires s.EmptySchema? ==> q == EMPTY && more == keys
    requires s.At? ==> Size(s.node) < Size(t.node)
    requires s.At? ==>
      var a := Arrive(doc, s.node, t.path + s.suffix, {}, keys);
      Found(origin, entries, s.node, a, q) && more == KeysAfter(x, doc, a)
    ensures FoundFrom(x, doc, origin, entries, t, i, [q])
    ensures i + 1 <= |SlotsOf(x, t)| && more == KeysAt(x, doc, t, i + 1)
  {
    hide Walked, SlotsOf, KeysAt, Size, Arrive, WalkSlot, ReadReference;
    assert [s][0] == s;
    KeysAtNext(x, doc, t, i);
    SlotWalked(x, doc, t, s, keys);
    assert FoundAt(x, doc, origin, entries, t, i, q);
  }

  function WithNames(names: seq<string>, ps: seq<Pointer>): (r: seq<Named<Pointer>>)
    requires |ps| == |names|
    ensures Names(r) == names && Children(r) == ps
  {
    seq(|names|, k requires 0 <= k < |names| => Named(names[k], ps[k]))
  }

  lemma SlotAwaits(x: Externals, doc: Value, origin: seq<Target>, entries: Entries, t: Target, i: nat,
                   ps: seq<Pointer>, ss: seq<Slot>)
    requires FoundTo(x, doc, origin, entries, t, i, ps) && Walked(x, doc, t) && SlotsAt(x, t, i, ss) && |ps| < |ss|
    ensures Awaits(x, doc, t, i + |ps|, [ss[|ps|]], entries.Keys)
  {
    hide SlotsOf, KeysAt, Walked, FoundFrom;
    assert SlotsOf(x, t)[i + |ps|] == ss[|ps|];
  }

  lemma AwaitsSlots(x: Externals, doc: Value, t: Target, i: nat, ss: seq<Slot>, keys: set<string>)
    requires Awaits(x, doc, t, i, ss, keys)
    ensures SlotsAt(x, t, i, ss)
  {
    hide SlotsOf, KeysAt, Walked, SlotsAt;
  }

  lemma ConditionalParts(c: Constraint<Slot>, i: Pointer, t: Option<Pointer>, e: Option<Pointer>)
    requires c.Conditional?
    ensures InOrder(c) == [c.ifChild] + (Optionally(c.thenChild) + Optionally(c.elseChild))
    ensures InOrder(Conditional(i, t, e)) == [i] + Optionally(t) + Optionally(e)
  {
  }

  lemma TupleParts(c: Constraint<Slot>, ps: seq<Pointer>, a: Option<Pointer>)
    requires c.LinearItems?
    ensures InOrder(c) == Optionally(c.additional) + c.children
    ensures InOrder(LinearItems(ps, a)) == Optionally(a) + ps
  {
  }

  lemma PropertiesParts(c: Constraint<Slot>, ns: seq<Named<Pointer>>, ps: seq<Named<Pointer>>, a: Option<Pointer>)
    requires c.Properties?
    ensures InOrder(c) == Children(c.named) + (Children(c.patterns) + Optionally(c.additional))
    ensures InOrder(Properties(ns, ps, a)) == Children(ns) + Children(ps) + Optionally(a)
  {
    hide Children, Optionally;
    Regrouped(Children(c.named), Children(c.patterns), Optionally(c.additional));
  }

  lemma Regrouped(a: seq<Slot>, b: seq<Slot>, c: seq<Slot>)
    ensures [] + (a + b + c) == a + (b + c) && [] + (a + b + c) == a + b + c
  {
  }

  lemma PropertiesShape(c: Constraint<Slot>, ns: seq<Named<Pointer>>, ps: seq<Named<Pointer>>, a: Option<Pointer>)
    requires c.Properties? && Names(ns) == Names(c.named) && Names(ps) == Names(c.patterns)
    requires a.Some? <==> c.additional.Some?
    ensures ShapeOf(c) == ShapeOf(Properties(ns, ps, a))
  {
  }

  /** The walk has come past the first n constraints of the target. */
  ghost predicate WalkedTo(x: Externals, doc: Value, t: Target, n: nat, keys: set<string>) {
    && t.Node? && Read(x, t.node).Some? && n <= |Read(x, t.node).value.constraints|
    && |AllInOrder(Read(x, t.node).value.constraints[..n])| <= |SlotsOf(x, t)|
    && keys == KeysAt(x, doc, t, |AllInOrder(Read(x, t.node).value.constraints[..n])|)
  }

  /** Then the subschemas of constraint n are next. */
  lemma ConstraintIsNext(x: Externals, doc: Value, t: Target, n: nat, keys: set<string>) returns (i: nat)
    requires Walked(x, doc, t) && WalkedTo(x, doc, t, n, keys) && n < |Read(x, t.node).value.constraints|
    ensures i == |AllInOrder(Read(x, t.node).value.constraints[..n])|
    ensures Awaits(x, doc, t, i, InOrder(Read(x, t.node).value.constraints[n]), keys)
  {
    hide Walked, Read, InOrder, KeysAt;
    var cs := Read(x, t.node).value.constraints;
    i := |AllInOrder(cs[..n])|;
    Counted(cs, n);
    forall j | 0 <= j < |InOrder(cs[n])| ensures SlotsOf(x, t)[i + j] == InOrder(cs[n])[j] {
      PositionOf(cs, n, j);
    }
  }

  /** Once they have been found, the walk has come past one more constraint, and it has been compiled. */
  lemma ConstraintIsDone(x: Externals, doc: Value, origin: seq<Target>, entries: Entries, longer: seq<Target>,
                         more: Entries, t: Target, g: Subschema<Pointer>, n: nat, i: nat, d: Constraint<Pointer>)
    requires Partly(x, doc, origin, entries, t, g, n) && origin <= longer && Extends(entries, more)
    requires n < |Read(x, t.node).value.constraints| && ShapeOf(Read(x, t.node).value.constraints[n]) == ShapeOf(d)
    requires i == |AllInOrder(Read(x, t.node).value.constraints[..n])|
    requires FoundTo(x, doc, longer, more, t, i, InOrder(d))
    ensures Partly(x, doc, longer, more, t, Subschema(g.alwaysInvalid, g.constraints + [d]), n + 1)
    ensures WalkedTo(x, doc, t, n + 1, more.Keys)
  {
    hide Read, InOrder, KeysAt, SlotsOf, FoundFrom, ShapeOf, AllInOrder;
    var cs := Read(x, t.node).value.constraints;
    SameCounts(cs, g.constraints, n);
    assert g.constraints[..n] == g.constraints;
    PartlyNext(x, doc, origin, entries, longer, more, t, g, n, d);
    SameCount(cs[n], d);
    assert cs[..n + 1] == cs[..n] + [cs[n]];
    AllInOrderNext(cs[..n], cs[n]);
  }

  lemma {:induction false} Counted<C>(cs: seq<Constraint<C>>, n: nat)
    requires n < |cs|
    ensures |AllInOrder(cs[..n])| + |InOrder(cs[n])| <= |AllInOrder(cs)|
  {
    hide InOrder;
    var m := |cs| - 1;
    assert cs == cs[..m] + [cs[m]];
    AllInOrderNext(cs[..m], cs[m]);
    if n < m {
      assert cs[..m][..n] == cs[..n];
      Counted(cs[..m], n);
    }
  }

  /** These have been found for the subschemas of the target from number i on, and the walk has come
      past them. */
  ghost predicate FoundTo(x: Externals, doc: Value, origin: seq<Target>, entries: Entries, t: Target, i: nat,
                          qs: seq<Pointer>)
  {
    && t.Node? && FoundFrom(x, doc, origin, entries, t, i, qs)
    && i + |qs| <= |SlotsOf(x, t)| && entries.Keys == KeysAt(x, doc, t, i + |qs|)
  }

  lemma FoundNothing(x: Externals, doc: Value, origin: seq<Target>, entries: Entries, t: Target, i: nat, ss: seq<Slot>)
    requires Awaits(x, doc, t, i, ss, entries.Keys)
    ensures FoundTo(x, doc, origin, entries, t, i, [])
  {
    hide SlotsOf, KeysAt, Walked;
  }

  lemma FoundThen(x: Externals, doc: Value, origin: seq<Target>, entries: Entries, longer: seq<Target>, more: Entries,
                  t: Target, i: nat, qs: seq<Pointer>, rs: seq<Pointer>)
    requires FoundTo(x, doc, origin, entries, t, i, qs) && origin <= longer && Extends(entries, more)
    requires FoundTo(x, doc, longer, more, t, i + |qs|, rs)
    ensures FoundTo(x, doc, longer, more, t, i, qs + rs)
  {
    hide SlotsOf, KeysAt, FoundFrom;
    FoundMore(x, doc, origin, entries, longer, more, t, i, qs, rs);
  }

  /** After some of its subschemas the target awaits the following ones. */
  lemma AwaitsNext(x: Externals, doc: Value, origin: seq<Target>, entries: Entries, t: Target, i: nat,
                   qs: seq<Pointer>, ss: seq<Slot>)
    requires FoundTo(x, doc, origin, entries, t, i, qs) && Walked(x, doc, t) && SlotsAt(x, t, i + |qs|, ss)
    ensures Awaits(x, doc, t, i + |qs|, ss, entries.Keys)
  {
    hide SlotsOf, KeysAt, Walked, FoundFrom;
  }

  // ---- Cache entries ----

  lemma ExtendsThen(a: Entries, b: Entries, c: Entries)
    requires Extends(a, b) && Extends(b, c)
    ensures Extends(a, c)
  {
  }

  /** Nothing that was there has changed; something may have been added. */
  ghost predicate Grew(g: Graph, origin: seq<Target>, entries: Entries, more: Graph, longer: seq<Target>,
                       after: Entries) {
    g <= more && origin <= longer && entries.Keys <= after.Keys && Extends(entries, after)
  }

  lemma GrewThen(g0: Graph, o0: seq<Target>, e0: Entries, g1: Graph, o1: seq<Target>, e1: Entries,
                 g2: Graph, o2: seq<Target>, e2: Entries)
    requires Grew(g0, o0, e0, g1, o1, e1) && Grew(g1, o1, e1, g2, o2, e2)
    ensures Grew(g0, o0, e0, g2, o2, e2)
    ensures o0 <= o1 <= o2 && e0.Keys <= e1.Keys <= e2.Keys && Extends(e1, e2)
  {
  }

  lemma GrewNothing(g: Graph, origin: seq<Target>, entries: Entries)
    ensures Grew(g, origin, entries, g, origin, entries)
  {
  }

  /** A subschema that is made is new. */
  ghost predicate Anew(a: Arrival, origin: seq<Target>, q: Pointer) { a.Made? ==> q == |origin| }

  lemma ConditionalNodes(x: Externals, bound: nat, c: Constraint<Slot>)
    requires c.Conditional?
    ensures ConstraintNodes(x, bound, c) ==
      SlotNodes(x, bound, c.ifChild) + OptionalNodes(x, bound, c.thenChild) + OptionalNodes(x, bound, c.elseChild)
  {
  }

  lemma PropertiesNodes(x: Externals, bound: nat, c: Constraint<Slot>)
    requires c.Properties?
    ensures ConstraintNodes(x, bound, c) == SlotsNodes(x, bound, Children(c.named)) +
      SlotsNodes(x, bound, Children(c.patterns)) + OptionalNodes(x, bound, c.additional)
  {
  }

  lemma ExtendsNothing(a: Entries)
    ensures Extends(a, a)
  {
  }

  lemma StillCached(keys: seq<string>, before: Entries, after: Entries, p: Pointer)
    requires Extends(before, after) && forall k <- keys :: k in before && before[k] == p
    ensures forall k <- keys :: k in after && after[k] == p
  {
  }

  lemma NewIsLinked(origin: seq<Target>, entries: Entries, node: Value, path: string, newKeys: seq<string>, p: Pointer)
    requires ReadReference(node) == NoReference && p < |origin| && origin[p].Node?
    requires origin[p].node == node && origin[p].path == path && (newKeys != [] ==> path in origin[p].keys)
    ensures newKeys != [] ==> Linked(origin, entries, node, path, p)
  {
  }

  lemma ReferenceIsLinked(origin: seq<Target>, entries: Entries, node: Value, path: string)
    requires ReadReference(node).Reference?
    requires CacheKey(ReadReference(node).uri, ReadReference(node).pointer) in entries
    ensures Linked(origin, entries, node, path, entries[CacheKey(ReadReference(node).uri, ReadReference(node).pointer)])
  {
  }

  // ---- Beginning and end ----

  /** A concrete node whose path is not cached is walked, and its schema is no larger than the largest. */
  lemma ArrivedIsWalked(x: Externals, doc: Value, node: Value, path: string, newKeys: seq<string>, entries: Entries)
    requires Arrived(x, doc, node, path, newKeys, entries) && ReadReference(node) == NoReference && path !in entries
    ensures Walked(x, doc, Node(node, path, entries.Keys + KeySet(newKeys)))
    ensures SchemaNodes(x, node) <= LargestSchema(x, doc)
  {
    hide Placed, Occurs, Walked;
    SchemaIsSmall(x, doc, node, path);
    OccursMade(x, doc, Arrive(doc, node, path, KeySet(newKeys), entries.Keys));
  }

  /** The key under which the cache is asked for a node. */
  predicate IsKeyOf(node: Value, path: string, key: string) {
    match ReadReference(node)
    case NoReference => key == path
    case BadReference => false
    case Reference(uri, pointer) => key == CacheKey(uri, pointer)
  }

  lemma CachedIsLinked(x: Externals, doc: Value, origin: seq<Target>, entries: Entries, node: Value, path: string,
                       newKeys: seq<string>, key: string)
    requires Arrived(x, doc, node, path, newKeys, entries) && key in entries && IsKeyOf(node, path, key)
    ensures newKeys != [] ==> Linked(origin, entries, node, path, entries[key])
  {
    hide Arrived;
    PathIsLast(x, doc, node, path, newKeys, entries);
    if ReadReference(node).Reference? { ReferenceIsLinked(origin, entries, node, path); }
  }

  /** A subschema that is cached for the path of a concrete node, or for a reference, is found. */
  lemma ReusedIsFound(x: Externals, doc: Value, origin: seq<Target>, before: Entries, after: Entries, node: Value,
                      path: string, newKeys: seq<string>, key: string)
    requires Extends(before, after) && after.Keys == before.Keys + KeySet(newKeys)
    requires key in before && before[key] < |origin|
    requires IsKeyOf(node, path, key)
    ensures var a := Arrive(doc, node, path, KeySet(newKeys), before.Keys);
      a.Reused? && Found(origin, after, node, a, before[key]) && after.Keys == KeysAfter(x, doc, a)
  {
    hide KeySet, ReadReference, Populated;
    if ReadReference(node) == NoReference {
      ConcreteArrival(doc, node, path, KeySet(newKeys), before.Keys);
    } else {
      ReferenceIsReused(doc, node, path, KeySet(newKeys), before.Keys);
    }
  }

  /** So is a new subschema for a concrete node. */
  lemma MadeIsFound(x: Externals, doc: Value, origin: seq<Target>, keys: set<string>, after: Entries, node: Value,
                    path: string, newKeys: seq<string>, q: Pointer)
    requires ReadReference(node) == NoReference && path !in keys && q < |origin|
    requires var t := Node(node, path, keys + KeySet(newKeys)); origin[q] == t && after.Keys == Populated(x, doc, t)
    ensures var a := Arrive(doc, node, path, KeySet(newKeys), keys);
      a.Made? && Found(origin, after, node, a, q) && after.Keys == KeysAfter(x, doc, a)
  {
    hide KeySet, ReadReference, Populated;
    ConcreteArrival(doc, node, path, KeySet(newKeys), keys);
  }

  /** A reference that is followed finds what its target finds. */
  lemma FollowedIsFound(origin: seq<Target>, entries: Entries, node: Value, target: Value, a: Arrival, pointer: string,
                        q: Pointer)
    requires Found(origin, entries, target, a, q) && ReadReference(node) == Reference(None, pointer)
    requires pointer in entries && q == entries[pointer]
    ensures Found(origin, entries, node, a, q)
  {
    assert CacheKey(None, pointer) == pointer;
  }

  /** Once the keys are cached, so is the path that was followed last; no other was before. */
  lemma PathIsCached(newKeys: seq<string>, path: string, before: Entries, after: Entries, p: Pointer)
    requires path !in before && after.Keys == before.Keys + KeySet(newKeys)
    requires forall k <- newKeys :: k in after && after[k] == p
    ensures path in after ==> after[path] == p
  {
  }

  lemma NothingPartly(x: Externals, doc: Value, origin: seq<Target>, entries: Entries, t: Target)
    requires t.Node? && Read(x, t.node).Some?
    ensures Partly(x, doc, origin, entries, t, Subschema(Read(x, t.node).value.alwaysInvalid, []), 0)
    ensures AllInOrder<Slot>([]) == []
  {
    hide Read;
  }

  lemma ConstraintsNone(x: Externals, bound: nat, cs: seq<Constraint<Slot>>)
    ensures ConstraintsNodes(x, bound, cs[|cs|..]) == 0
  {
  }

  lemma PopulatedIsCompiled(x: Externals, doc: Value, g: Graph, origin: seq<Target>, entries: Entries,
                            open: set<Pointer>, t: Target, p: Pointer)
    requires Consistent(x, doc, g, origin, entries, open) && Walked(x, doc, t) && t.Node? && Read(x, t.node).Some?
    requires p < |g| && p < |origin| && origin[p] == t
    requires t.path in t.keys ==> t.path in entries && entries[t.path] == p
    requires Partly(x, doc, origin, entries, t, g[p], |Read(x, t.node).value.constraints|)
    ensures Consistent(x, doc, g, origin, entries, open - {p})
  {
    hide Partly, Walked, Read, Consistent;
    ConsistentBounds(x, doc, g, origin, entries, open);
    ConsistentClose(x, doc, g, origin, entries, open, p);
  }

  lemma UnreadIsNotCompilable(x: Externals, doc: Value, t: Target)
    requires Walked(x, doc, t) && t.Node? && Read(x, t.node).None?
    ensures !Compilable(x, doc)
  {
    hide Walked, Read, Occurs, Chase;
  }

  lemma WalkBegins(x: Externals, doc: Value, t: Target)
    requires t.Node? && Read(x, t.node).Some?
    ensures WalkedTo(x, doc, t, 0, t.keys)
  {
    hide Read, Populated;
    KeysAtEnds(x, doc, t);
  }

  lemma WalkEnds(x: Externals, doc: Value, t: Target, keys: set<string>)
    requires t.Node? && Read(x, t.node).Some? && WalkedTo(x, doc, t, |Read(x, t.node).value.constraints|, keys)
    ensures keys == Populated(x, doc, t)
  {
    hide Read, Populated;
    var cs := Read(x, t.node).value.constraints;
    assert cs[..|cs|] == cs;
    KeysAtEnds(x, doc, t);
  }

  lemma PopulationBegins(x: Externals, doc: Value, origin: seq<Target>, entries: Entries, t: Target)
    requires t.Node? && Read(x, t.node).Some?
    ensures Partly(x, doc, origin, entries, t, Subschema(Read(x, t.node).value.alwaysInvalid, []), 0)
    ensures WalkedTo(x, doc, t, 0, t.keys)
  {
    hide Partly, WalkedTo, Read;
    NothingPartly(x, doc, origin, entries, t);
    WalkBegins(x, doc, t);
  }

  /** All constraints are compiled, so the subschema is. */
  lemma PopulationEnds(x: Externals, doc: Value, g: Graph, origin: seq<Target>, before: Entries, entries: Entries,
                       open: set<Pointer>, t: Target, p: Pointer)
    requires Consistent(x, doc, g, origin, entries, open) && Walked(x, doc, t) && t.Node? && Read(x, t.node).Some?
    requires p < |g| && p < |origin| && origin[p] == t && Extends(before, entries)
    requires t.path in t.keys ==> t.path in before && before[t.path] == p
    requires Partly(x, doc, origin, entries, t, g[p], |Read(x, t.node).value.constraints|)
    requires WalkedTo(x, doc, t, |Read(x, t.node).value.constraints|, entries.Keys)
    ensures Consistent(x, doc, g, origin, entries, open - {p})
    ensures entries.Keys == Populated(x, doc, t)
  {
    hide Partly, Walked, Read, Consistent, WalkedTo, Populated;
    WalkEnds(x, doc, t, entries.Keys);
    PopulatedIsCompiled(x, doc, g, origin, entries, open, t, p);
  }

  lemma OnlyRootOpen(x: Externals, doc: Value, g: Graph, origin: seq<Target>)
    requires g == [Subschema(false, []), Subschema(false, [])] && origin == [RootTarget(x, doc), Anything]
    ensures Consistent(x, doc, g, origin, map[], {ROOT})
  {
    hide RootTarget;
  }

  lemma NothingOpen(x: Externals, doc: Value, g: Graph, origin: seq<Target>, entries: Entries)
    requires Consistent(x, doc, g, origin, entries, {}) && origin[ROOT] == RootTarget(x, doc)
    requires Chase(x, doc, doc, {}, true).Concrete? && entries.Keys == Populated(x, doc, RootTarget(x, doc))
    ensures CompiledForm(x, doc, g, origin, entries)
  {
    hide Compiled, EntriesLinked, RootTarget, Chase, Populated;
  }
}
