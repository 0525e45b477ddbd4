/** The schema parser: compiles a document into a `Schema`, reusing what its cache knows. */
module SchemaParser {
  import opened Wrappers
  import opened Json
  import opened JsonPointer
  import opened Schemas
  import opened Keywords
  import opened Semantics
  import opened Reachability
  import opened CacheWalk
  import opened Compilation
  import opened CompiledForms
  import opened Weights
  import opened ParserState

  // ---- The root ----

  /** What is known while the references that start at the root are followed, `seen` so far. */
  ghost predicate RootArrived(x: Externals, doc: Value, node: Value, path: string, seen: set<string>) {
    && Pointers(node) <= Pointers(doc)
    && !Chase(x, doc, node, seen, true).Cyclic?
    && Chase(x, doc, node, seen, true) == Chase(x, doc, doc, {}, true)
    && (Chase(x, doc, doc, {}, true).Concrete? ==> RootPath(x, doc, node, seen, path) == RootPath(x, doc, doc, {}, ""))
  }

  /** The reference is one that is followed within the document when it stands at the root. */
  predicate StaysWithin(x: Externals, r: Reference) {
    r.Reference? && (r.uri.Some? ==> !IsAbsolute(r.uri.value) && !x.isUrn(r.uri.value))
  }

  lemma FollowFromRoot(x: Externals, doc: Value, node: Value, path: string, seen: set<string>)
    requires RootArrived(x, doc, node, path, seen) && ReadReference(node).Reference?
    ensures
      var ref := ReadReference(node);
      if !StaysWithin(x, ref) || Resolve(doc, ref.pointer).None? then
        !Compilable(x, doc)
      else
        && ref.pointer in Pointers(doc) && ref.pointer !in seen
        && RootArrived(x, doc, Resolve(doc, ref.pointer).value, ref.pointer, seen + {ref.pointer})
  {
    hide Pointers, Resolve, Read, IsAbsolute, Walked, Occurs;
    var ref := ReadReference(node);
    PointerNamed(node);
    if Resolve(doc, ref.pointer).Some? { ResolveBelow(doc, ref.pointer); }
  }

  lemma RootOverflows(x: Externals, doc: Value, node: Value, path: string, seen: set<string>)
    requires RootArrived(x, doc, node, path, seen)
    requires ReadReference(node).Reference? && Overflows(doc, ReadReference(node).pointer)
    ensures Resolve(doc, ReadReference(node).pointer).None? && SomeIndexTooLarge(doc)
  {
    hide Pointers;
    OverflowsFails(doc, ReadReference(node).pointer);
    PointerNamed(node);
  }

  lemma RootBroken(x: Externals, doc: Value, node: Value, path: string, seen: set<string>)
    requires RootArrived(x, doc, node, path, seen) && ReadReference(node).BadReference?
    ensures !Compilable(x, doc)
  {
  }

  lemma StartsAtRoot(x: Externals, doc: Value)
    requires ChainsEnd(x, doc)
    ensures RootArrived(x, doc, doc, "", {})
  {
    hide Chase, RootPath, Pointers, Placed;
  }

  lemma RootReached(x: Externals, doc: Value, node: Value, path: string, seen: set<string>)
    requires RootArrived(x, doc, node, path, seen) && ReadReference(node) == NoReference
    ensures Chase(x, doc, doc, {}, true) == Concrete(node)
    ensures RootTarget(x, doc) == Node(node, path, {}) && Walked(x, doc, RootTarget(x, doc))
  {
    WalkedRoot(x, doc);
  }

  lemma RootIsConcrete(x: Externals, doc: Value)
    requires RootTarget(x, doc).Node?
    ensures Chase(x, doc, doc, {}, true).Concrete?
  {
    hide Chase;
  }

  /** `isUriAbsolute`: the text "://" occurs somewhere. */
  method IsAbsoluteUri(uri: string) returns (absolute: bool)
    ensures absolute == IsAbsolute(uri)
  {
    for k := 0 to |uri| + 1
      invariant forall j :: 0 <= j < k ==> !("://" <= uri[j..])
    {
      if "://" <= uri[k..] { return true; }
    }
    return false;
  }

  // ---- The parser ----

  class SchemaParser {
    const x: Externals

    constructor (x: Externals)
      ensures this.x == x
    {
      this.x := x;
    }

    ghost predicate Inv(doc: Value, schema: Schema, cache: SchemaCache, open: set<Pointer>)
      reads schema, cache
    {
      Consistent(x, doc, schema.subschemas, schema.origin, cache.entries, open)
    }

    /** A subschema for the target, the concrete node found at `path`, is being populated. */
    ghost predicate Compiling(doc: Value, schema: Schema, cache: SchemaCache, node: Value, path: string, t: Target,
                              open: set<Pointer>)
      reads schema, cache
    {
      && ChainsEnd(x, doc) && Inv(doc, schema, cache, open)
      && t.Node? && t.node == node && t.path == path && Walked(x, doc, t)
    }

    /** Nothing that was there has changed, and at most so many subschemas have been added, those not
        counted that new cache entries account for. */
    twostate predicate Advanced(doc: Value, schema: Schema, cache: SchemaCache, open: set<Pointer>, added: nat)
      reads schema, cache
    {
      && Inv(doc, schema, cache, open)
      && Grew(old(schema.subschemas), old(schema.origin), old(cache.entries), schema.subschemas, schema.origin,
              cache.entries)
      && SpentAtMost(doc, schema, cache, added)
    }

    twostate predicate Kept(schema: Schema, cache: SchemaCache)
      reads schema, cache
    {
      && old(schema.origin) <= schema.origin
      && old(cache.entries.Keys) <= cache.entries.Keys
      && Extends(old(cache.entries), cache.entries)
    }

    twostate predicate SpentAtMost(doc: Value, schema: Schema, cache: SchemaCache, added: int)
      reads schema, cache
    {
      Spent(x, doc, schema.subschemas, cache.entries) <= old(Spent(x, doc, schema.subschemas, cache.entries)) + added
    }

    /** An exception means that the document cannot be compiled; a logic error, that a reference has an
        index too large for `std::stoul`. */
    ghost predicate ThrownRightly<T>(doc: Value, r: Outcome<T>) {
      && (!r.Ok? ==> !Compilable(x, doc))
      && (r.LogicError? ==> SomeIndexTooLarge(doc))
    }

    /** The result is what was to be found, on arriving like this, and the walk has come past it. */
    ghost predicate CameTo(doc: Value, schema: Schema, cache: SchemaCache, node: Value, a: Arrival, q: Pointer)
      reads schema, cache
    {
      Found(schema.origin, cache.entries, node, a, q) && cache.entries.Keys == KeysAfter(x, doc, a)
    }

    /** The pointers that were followed are cached for the result. */
    ghost predicate CachedFor(cache: SchemaCache, newKeys: seq<string>, q: Pointer)
      reads cache
    {
      forall k <- newKeys :: k in cache.entries && cache.entries[k] == q
    }

    /** A reference within the document that is not cached and does not resolve. */
    ghost predicate FailsAt(doc: Value, entries: Entries, node: Value) {
      && ReadReference(node).Reference? && ReadReference(node).uri.None?
      && ReadReference(node).pointer !in entries && Resolve(doc, ReadReference(node).pointer).None?
    }

    /** `makeOrReuseSchema`: a pointer to what is cached for the path of a concrete node or for a
        reference, or to a new subschema for the concrete node at the end of the chain of references
        that starts here.  `newKeys` are the pointers followed so far; they are cached for the result. */
    method MakeOrReuseSchema(schema: Schema, cache: SchemaCache, doc: Value, node: Value, path: string,
                             newKeys: seq<string>, ghost open: set<Pointer>)
      returns (r: Outcome<Pointer>)
      requires ChainsEnd(x, doc) && Inv(doc, schema, cache, open)
      requires Arrived(x, doc, node, path, newKeys, cache.entries)
      modifies schema, cache
      ensures ThrownRightly(doc, r)
      ensures FailsAt(doc, old(cache.entries), node) ==>
        r == if Overflows(doc, ReadReference(node).pointer) then LogicError else RuntimeError
      ensures r.Ok? ==> Advanced(doc, schema, cache, open, if newKeys == [] then SchemaNodes(x, node) else 0)
      ensures r.Ok? ==> CachedFor(cache, newKeys, r.value)
      ensures var a := Arrive(doc, node, path, KeySet(newKeys), old(cache.entries.Keys));
        r.Ok? ==> CameTo(doc, schema, cache, node, a, r.value) && Anew(a, old(schema.origin), r.value)
      decreases Pointers(doc) - cache.entries.Keys - KeySet(newKeys), Size(node), 11
    {
      hide Spent, ChainsEnd, Consistent, Arrived, Pointers, Size, Compilable, ReadReference, Resolve, SchemaNodes,
           Overflows, SomeIndexTooLarge, Arrive, Populated, Found;
      if ReadReference(node) == NoReference {
        r := ReuseOrPopulate(schema, cache, doc, node, path, newKeys, open);
        return;
      }
      if ReadReference(node).BadReference? {
        ArrivedBroken(x, doc, node, path, newKeys, cache.entries);
        return RuntimeError;
      }
      r := MakeOrReuseReferenced(schema, cache, doc, node, path, newKeys, open);
    }

    /** The part of `makeOrReuseSchema` that deals with references. */
    method MakeOrReuseReferenced(schema: Schema, cache: SchemaCache, doc: Value, node: Value, path: string,
                                 newKeys: seq<string>, ghost open: set<Pointer>)
      returns (r: Outcome<Pointer>)
      requires ChainsEnd(x, doc) && Inv(doc, schema, cache, open)
      requires Arrived(x, doc, node, path, newKeys, cache.entries) && ReadReference(node).Reference?
      modifies schema, cache
      ensures ThrownRightly(doc, r)
      ensures FailsAt(doc, old(cache.entries), node) ==>
        r == if Overflows(doc, ReadReference(node).pointer) then LogicError else RuntimeError
      ensures r.Ok? ==> Advanced(doc, schema, cache, open, 0)
      ensures r.Ok? ==> CachedFor(cache, newKeys, r.value)
      ensures var a := Arrive(doc, node, path, KeySet(newKeys), old(cache.entries.Keys));
        r.Ok? ==> CameTo(doc, schema, cache, node, a, r.value) && Anew(a, old(schema.origin), r.value)
      decreases Pointers(doc) - cache.entries.Keys - KeySet(newKeys), Size(node), 10
    {
      hide Spent, ChainsEnd, Consistent, Arrived, Pointers, Size, Compilable, ReadReference, Resolve, SchemaNodes,
           Overflows, SomeIndexTooLarge, Linked, LargestSchema, Placed, Arrive, KeysAfter, Found, Extends, KeySet,
           CameTo, CachedFor;
      var uri, pointer := ReadReference(node).uri, ReadReference(node).pointer;
      var key := CacheKey(uri, pointer);
      if key in cache.entries {
        var q := ReuseCached(schema, cache, doc, node, path, newKeys, key, open);
        return Ok(q);
      }
      if uri.Some? {
        ArrivedBroken(x, doc, node, path, newKeys, cache.entries);
        return RuntimeError;
      }
      hide Anew, ThrownRightly, Advanced;
      r := FollowReference(schema, cache, doc, node, path, pointer, newKeys, open);
    }

    /** What is cached under a key, the path of a concrete node or the key of a reference; the pointers
        followed so far are cached for it too. */
    method ReuseCached(ghost schema: Schema, cache: SchemaCache, ghost doc: Value, ghost node: Value,
                       ghost path: string,
                       newKeys: seq<string>, key: string, ghost open: set<Pointer>)
      returns (q: Pointer)
      requires Inv(doc, schema, cache, open) && Arrived(x, doc, node, path, newKeys, cache.entries)
      requires key in cache.entries && IsKeyOf(node, path, key)
      modifies cache
      ensures q == old(cache.entries[key]) && Advanced(doc, schema, cache, open, 0) && CachedFor(cache, newKeys, q)
      ensures var a := Arrive(doc, node, path, KeySet(newKeys), old(cache.entries.Keys));
        a.Reused? && CameTo(doc, schema, cache, node, a, q)
    {
      hide Spent, Consistent, Arrived, ReadReference, Arrive, KeysAfter, Found, KeySet, Linked, LargestSchema;
      ghost var before := cache.entries;
      ConsistentBounds(x, doc, schema.subschemas, schema.origin, cache.entries, open);
      CachedIsLinked(x, doc, schema.origin, cache.entries, node, path, newKeys, key);
      q := cache.entries[key];
      CacheKeys(schema, cache, doc, node, path, newKeys, q, open);
      ReusedIsFound(x, doc, schema.origin, before, cache.entries, node, path, newKeys, key);
    }

    /** A reference within the document that is not cached: resolves it and goes on from there. */
    method FollowReference(schema: Schema, cache: SchemaCache, doc: Value, ghost node: Value, ghost path: string,
                           pointer: string, newKeys: seq<string>, ghost open: set<Pointer>)
      returns (r: Outcome<Pointer>)
      requires ChainsEnd(x, doc) && Inv(doc, schema, cache, open)
      requires Arrived(x, doc, node, path, newKeys, cache.entries)
      requires ReadReference(node) == Reference(None, pointer) && pointer !in cache.entries
      modifies schema, cache
      ensures ThrownRightly(doc, r)
      ensures Resolve(doc, pointer).None? ==> r == if Overflows(doc, pointer) then LogicError else RuntimeError
      ensures r.Ok? ==> Advanced(doc, schema, cache, open, 0)
      ensures r.Ok? ==> CachedFor(cache, newKeys, r.value)
      ensures var a := Arrive(doc, node, path, KeySet(newKeys), old(cache.entries.Keys));
        r.Ok? ==> CameTo(doc, schema, cache, node, a, r.value) && Anew(a, old(schema.origin), r.value)
      decreases Pointers(doc) - cache.entries.Keys - KeySet(newKeys), Size(node), 9
    {
      hide Spent, ChainsEnd, Consistent, Arrived, Pointers, Size, Compilable, ReadReference, Resolve, SchemaNodes,
           Overflows, SomeIndexTooLarge, Linked, LargestSchema, Placed, Arrive, KeysAfter, KeySet, Found, Extends;
      assert CacheKey(None, pointer) == pointer;
      if Overflows(doc, pointer) {
        ArrivedOverflows(x, doc, node, path, newKeys, cache.entries, pointer);
        return LogicError;
      }
      if Resolve(doc, pointer).None? {
        ArrivedBroken(x, doc, node, path, newKeys, cache.entries);
        return RuntimeError;
      }
      Follow(x, doc, node, path, newKeys, cache.entries, pointer);
      FewerToFollow(doc, cache.entries, newKeys, pointer);
      r := MakeOrReuseSchema(schema, cache, doc, Resolve(doc, pointer).value, pointer, newKeys + [pointer], open);
      assert pointer in newKeys + [pointer];
      if r.Ok? {
        FollowedIsFound(schema.origin, cache.entries, node, Resolve(doc, pointer).value,
                        Arrive(doc, node, path, KeySet(newKeys), old(cache.entries.Keys)), pointer, r.value);
      }
    }

    /** The end of a chain of references: reuses the subschema cached for its path, if any; otherwise
        creates one, caches it before it is populated, and populates it. */
    method ReuseOrPopulate(schema: Schema, cache: SchemaCache, doc: Value, node: Value, path: string,
                           newKeys: seq<string>, ghost open: set<Pointer>)
      returns (r: Outcome<Pointer>)
      requires ChainsEnd(x, doc) && Inv(doc, schema, cache, open)
      requires Arrived(x, doc, node, path, newKeys, cache.entries) && ReadReference(node) == NoReference
      modifies schema, cache
      ensures ThrownRightly(doc, r)
      ensures r.Ok? ==> Advanced(doc, schema, cache, open, if newKeys == [] then SchemaNodes(x, node) else 0)
      ensures r.Ok? ==> CachedFor(cache, newKeys, r.value)
      ensures path in old(cache.entries) ==>
        newKeys == [] && r == Ok(old(cache.entries[path])) && schema.subschemas == old(schema.subschemas)
      ensures var a := Arrive(doc, node, path, KeySet(newKeys), old(cache.entries.Keys));
        r.Ok? ==> CameTo(doc, schema, cache, node, a, r.value) && Anew(a, old(schema.origin), r.value)
      decreases Pointers(doc) - cache.entries.Keys - KeySet(newKeys), Size(node), 8
    {
      hide Spent, ChainsEnd, Consistent, Arrived, Pointers, Size, Compilable, ReadReference, SchemaNodes, Arrive,
           Populated, KeysAfter, Found, Extends, KeySet, Linked, SomeIndexTooLarge, LargestSchema;
      PathIsLast(x, doc, node, path, newKeys, cache.entries);
      ghost var before := cache.entries;
      if path in cache.entries {
        var q := ReuseCached(schema, cache, doc, node, path, newKeys, path, open);
        return Ok(q);
      }
      r := CreateAndPopulate(schema, cache, doc, node, path, newKeys, open);
      if r.Ok? {
        MadeIsFound(x, doc, schema.origin, before.Keys, cache.entries, node, path, newKeys, r.value);
      }
    }

    /** The new subschema is cached before it is populated, so that references back to it are found. */
    method CreateAndPopulate(schema: Schema, cache: SchemaCache, doc: Value, node: Value, path: string,
                             newKeys: seq<string>, ghost open: set<Pointer>)
      returns (r: Outcome<Pointer>)
      requires ChainsEnd(x, doc) && Inv(doc, schema, cache, open)
      requires Arrived(x, doc, node, path, newKeys, cache.entries) && ReadReference(node) == NoReference
      requires path !in cache.entries
      modifies schema, cache
      ensures ThrownRightly(doc, r)
      ensures r.Ok? ==> Advanced(doc, schema, cache, open, if newKeys == [] then SchemaNodes(x, node) else 0)
      ensures r.Ok? ==> CachedFor(cache, newKeys, r.value)
      ensures r.Ok? ==> r.value == |old(schema.origin)| < |schema.origin|
      ensures var t := Node(node, path, old(cache.entries.Keys) + KeySet(newKeys));
        r.Ok? ==> schema.origin[r.value] == t && cache.entries.Keys == Populated(x, doc, t)
      decreases Pointers(doc) - cache.entries.Keys - KeySet(newKeys), Size(node), 7
    {
      hide Spent, ChainsEnd, Consistent, Arrived, Pointers, Size, Compilable, ReadReference, SchemaNodes, Extends,
           Linked, Placed, Walked, LargestSchema, SomeIndexTooLarge, Populated, KeySet;
      ghost var t := Node(node, path, cache.entries.Keys + KeySet(newKeys));
      ConsistentBounds(x, doc, schema.subschemas, schema.origin, cache.entries, open);
      ConsistentCreate(x, doc, schema.subschemas, schema.origin, cache.entries, open, t);
      PathIsLast(x, doc, node, path, newKeys, cache.entries);
      ArrivedIsWalked(x, doc, node, path, newKeys, cache.entries);
      ghost var g := schema.subschemas;
      var p := schema.CreateSubschema(t);
      SpentMore(x, doc, g, schema.subschemas, cache.entries);
      NewIsLinked(schema.origin, cache.entries, node, path, newKeys, p);
      ghost var before := cache.entries;
      CacheKeys(schema, cache, doc, node, path, newKeys, p, open + {p});
      ghost var after := cache.entries;
      PathIsCached(newKeys, path, before, after, p);
      var _ :- PopulateSchema(schema, cache, doc, node, path, p, t, open + {p});
      assert open + {p} - {p} == open;
      ExtendsThen(before, after, cache.entries);
      StillCached(newKeys, after, cache.entries, p);
      return Ok(p);
    }

    /** `updateSchemaCache`: registers the pointers followed so far for the subschema they lead to.
        None of them has been cached before, so this never throws. */
    method CacheKeys(ghost schema: Schema, cache: SchemaCache, ghost doc: Value, ghost node: Value, ghost path: string,
                     newKeys: seq<string>, p: Pointer, ghost open: set<Pointer>)
      requires Inv(doc, schema, cache, open) && Arrived(x, doc, node, path, newKeys, cache.entries)
      requires p < |schema.origin| && (newKeys != [] ==> Linked(schema.origin, cache.entries, node, path, p))
      modifies cache
      ensures Inv(doc, schema, cache, open)
      ensures cache.entries.Keys == old(cache.entries.Keys) + KeySet(newKeys)
      ensures Extends(old(cache.entries), cache.entries)
      ensures forall k <- newKeys :: k in cache.entries && cache.entries[k] == p
      ensures Spent(x, doc, schema.subschemas, cache.entries) <=
        old(Spent(x, doc, schema.subschemas, cache.entries)) - if newKeys == [] then 0 else LargestSchema(x, doc)
    {
      hide Spent, ChainsEnd, Consistent, Arrived, Pointers, Size, Linked;
      ghost var before := cache.entries;
      KeysAreNew(x, doc, node, path, newKeys, before);
      var updated := cache.Update(newKeys, p);
      assert updated.Ok?;
      ConsistentCached(x, doc, schema.subschemas, schema.origin, before, cache.entries, open, node, path, newKeys, p);
      KeysAdded(before, cache.entries, newKeys);
      CachedMore(x, doc, schema.subschemas, before, cache.entries, |newKeys|);
    }

    /** `populateSchema`: reads the node's keywords and adds one constraint after the other. */
    method PopulateSchema(schema: Schema, cache: SchemaCache, doc: Value, node: Value, path: string, p: Pointer,
                          ghost t: Target, ghost open: set<Pointer>)
      returns (r: Outcome<()>)
      requires Compiling(doc, schema, cache, node, path, t, open) && t.keys == cache.entries.Keys
      requires p in open && p < |schema.subschemas| && schema.subschemas[p] == Subschema(false, [])
      requires p < |schema.origin| && schema.origin[p] == t
      requires path in t.keys ==> path in cache.entries && cache.entries[path] == p
      modifies schema, cache
      ensures ThrownRightly(doc, r)
      ensures r.Ok? ==> Inv(doc, schema, cache, open - {p}) && Kept(schema, cache) && OthersKept(schema, p)
      ensures r.Ok? ==> SpentAtMost(doc, schema, cache, SchemaNodes(x, node) - 1)
      ensures r.Ok? ==> cache.entries.Keys == Populated(x, doc, t)
      decreases Pointers(doc) - cache.entries.Keys, Size(node), 6
    {
      hide Spent, ChainsEnd, Consistent, Walked, Read, Pointers, Size, ReadReference, ConstraintsNodes, SchemaNodes,
           Partly, Extends, SomeIndexTooLarge, LargestSchema, Populated, WalkedTo, Compilable, RootTarget;
      var read := Read(x, node);
      if read.None? {
        UnreadIsNotCompilable(x, doc, t);
        return RuntimeError;
      }
      var s := read.value;
      ghost var before := cache.entries;
      ConsistentBounds(x, doc, schema.subschemas, schema.origin, cache.entries, open);
      WalkedIsConcrete(x, doc, t);
      if s.alwaysInvalid { RejectAll(schema, cache, doc, p, open); }
      PopulationBegins(x, doc, schema.origin, cache.entries, t);
      var _ :- AddConstraints(schema, cache, doc, node, path, p, s, t, open);
      CountedBelow(x, node);
      PopulationEnds(x, doc, schema.subschemas, schema.origin, before, cache.entries, open, t, p);
      return Ok(());
    }

    /** The schema is `false`. */
    method RejectAll(schema: Schema, ghost cache: SchemaCache, ghost doc: Value, p: Pointer, ghost open: set<Pointer>)
      requires Inv(doc, schema, cache, open) && p in open && p < |schema.subschemas|
      requires schema.subschemas[p] == Subschema(false, []) && p != EMPTY
      modifies schema
      ensures Inv(doc, schema, cache, open) && schema.origin == old(schema.origin)
      ensures schema.subschemas == old(schema.subschemas)[p := Subschema(true, [])]
      ensures SpentAtMost(doc, schema, cache, 0)
    {
      hide Spent, Consistent;
      ghost var g := schema.subschemas;
      var updated := schema.SetAlwaysInvalid(p, true);
      SpentMore(x, doc, g, schema.subschemas, cache.entries);
      ConsistentStays(x, doc, g, schema.origin, cache.entries, open, schema.subschemas, p);
    }

    /** Only subschema p may have changed. */
    twostate predicate OthersKept(schema: Schema, p: Pointer)
      reads schema
    {
      && |old(schema.subschemas)| <= |schema.subschemas|
      && forall q :: 0 <= q < |old(schema.subschemas)| && q != p ==> schema.subschemas[q] == old(schema.subschemas[q])
    }

    /** Compiles all constraints of the node, one after the other. */
    method AddConstraints(schema: Schema, cache: SchemaCache, doc: Value, node: Value, path: string, p: Pointer,
                          s: Subschema<Slot>, ghost t: Target, ghost open: set<Pointer>)
      returns (r: Outcome<()>)
      requires Compiling(doc, schema, cache, node, path, t, open)
      requires Read(x, node) == Some(s) && p in open && p < |schema.subschemas|
      requires WalkedTo(x, doc, t, 0, cache.entries.Keys)
      requires Partly(x, doc, schema.origin, cache.entries, t, schema.subschemas[p], 0)
      modifies schema, cache
      ensures ThrownRightly(doc, r)
      ensures r.Ok? ==> Inv(doc, schema, cache, open) && Kept(schema, cache) && OthersKept(schema, p)
      ensures r.Ok? ==> SpentAtMost(doc, schema, cache, ConstraintsNodes(x, Size(node), s.constraints))
      ensures r.Ok? ==> p < |schema.subschemas| &&
                        Partly(x, doc, schema.origin, cache.entries, t, schema.subschemas[p], |s.constraints|)
      ensures r.Ok? ==> WalkedTo(x, doc, t, |s.constraints|, cache.entries.Keys)
      decreases Pointers(doc) - cache.entries.Keys, Size(node), 5, 1
    {
      hide Spent, ChainsEnd, Consistent, Walked, Read, Pointers, Size, ReadReference, ConstraintsNodes, SchemaNodes,
           Partly, Extends, SomeIndexTooLarge, LargestSchema, Populated, WalkedTo, Compilable;
      ghost var before := cache.entries;
      ExtendsNothing(before);
      for i := 0 to |s.constraints|
        invariant Inv(doc, schema, cache, open) && Kept(schema, cache) && OthersKept(schema, p)
        invariant Spent(x, doc, schema.subschemas, cache.entries) +
                  ConstraintsNodes(x, Size(node), s.constraints[i..]) <=
          old(Spent(x, doc, schema.subschemas, cache.entries)) + ConstraintsNodes(x, Size(node), s.constraints)
        invariant p < |schema.subschemas|
        invariant Partly(x, doc, schema.origin, cache.entries, t, schema.subschemas[p], i)
        invariant WalkedTo(x, doc, t, i, cache.entries.Keys)
      {
        ghost var entries := cache.entries;
        NextConstraint(x, Size(node), s.constraints, i);
        var _ :- AddConstraint(schema, cache, doc, node, path, p, s, i, t, open);
        ExtendsThen(before, entries, cache.entries);
      }
      ConstraintsNone(x, Size(node), s.constraints);
      return Ok(());
    }

    /** Compiles constraint i of the node and adds it to the subschema. */
    method AddConstraint(schema: Schema, cache: SchemaCache, doc: Value, node: Value, path: string, p: Pointer,
                         s: Subschema<Slot>, i: nat, ghost t: Target, ghost open: set<Pointer>)
      returns (r: Outcome<()>)
      requires Compiling(doc, schema, cache, node, path, t, open)
      requires Read(x, node) == Some(s) && i < |s.constraints|
      requires p in open && p < |schema.subschemas| && WalkedTo(x, doc, t, i, cache.entries.Keys)
      requires Partly(x, doc, schema.origin, cache.entries, t, schema.subschemas[p], i)
      modifies schema, cache
      ensures ThrownRightly(doc, r)
      ensures r.Ok? ==> Inv(doc, schema, cache, open) && Kept(schema, cache) && OthersKept(schema, p)
      ensures r.Ok? ==> SpentAtMost(doc, schema, cache, ConstraintNodes(x, Size(node), s.constraints[i]))
      ensures r.Ok? ==> p < |schema.subschemas| &&
                        Partly(x, doc, schema.origin, cache.entries, t, schema.subschemas[p], i + 1)
      ensures r.Ok? ==> WalkedTo(x, doc, t, i + 1, cache.entries.Keys)
      decreases Pointers(doc) - cache.entries.Keys, Size(node), 5, 0
    {
      hide Spent, ChainsEnd, Consistent, Walked, Read, Pointers, Size, Compilable, ReadReference, ConstraintNodes,
           Partly, SomeIndexTooLarge, LargestSchema, SlotNodes, SlotsOf, KeysAt, InOrder, AllInOrder, ShapeOf,
           WalkedTo, FoundTo, Awaits;
      ghost var origin, entries, g := schema.origin, cache.entries, schema.subschemas[p];
      ghost var from := ConstraintIsNext(x, doc, t, i, cache.entries.Keys);
      var c :- MakeConstraint(schema, cache, doc, node, path, s.constraints[i], t, from, open);
      ghost var h := schema.subschemas;
      ConsistentBounds(x, doc, h, schema.origin, cache.entries, open);
      var added := schema.AddConstraintToSubschema(c, p);
      assert added.Ok?;
      SpentMore(x, doc, h, schema.subschemas, cache.entries);
      ConsistentStays(x, doc, h, schema.origin, cache.entries, open, schema.subschemas, p);
      ConstraintIsDone(x, doc, origin, entries, schema.origin, cache.entries, t, g, i, from, c);
      return Ok(());
    }

    /** The `make...Constraint` functions: for the constraint read, whose subschemas are those of the
        target from number i on, a constraint of the same shape with what was found for them. */
    method MakeConstraint(schema: Schema, cache: SchemaCache, doc: Value, node: Value, path: string,
                          c: Constraint<Slot>, ghost t: Target, ghost i: nat, ghost open: set<Pointer>)
      returns (r: Outcome<Constraint<Pointer>>)
      requires Compiling(doc, schema, cache, node, path, t, open)
      requires Awaits(x, doc, t, i, InOrder(c), cache.entries.Keys)
      modifies schema, cache
      ensures ThrownRightly(doc, r)
      ensures r.Ok? ==> Advanced(doc, schema, cache, open, ConstraintNodes(x, Size(node), c))
      ensures r.Ok? ==> ShapeOf(c) == ShapeOf(r.value)
      ensures r.Ok? ==> FoundTo(x, doc, schema.origin, cache.entries, t, i, InOrder(r.value))
      decreases Pointers(doc) - cache.entries.Keys, Size(node), 4
    {
      hide Spent, ChainsEnd, Consistent, Walked, Pointers, Size, Compilable, ReadReference, ConstraintNodes, SlotsOf,
           KeysAt, FoundTo, Awaits, SomeIndexTooLarge;
      match c
      case AllOf(cs) => r := MakeCombinator(schema, cache, doc, node, path, c, t, i, open);
      case AnyOf(cs) => r := MakeCombinator(schema, cache, doc, node, path, c, t, i, open);
      case OneOf(cs) => r := MakeCombinator(schema, cache, doc, node, path, c, t, i, open);
      case Conditional(_, _, _) => r := MakeConditionalConstraint(schema, cache, doc, node, path, c, t, i, open);
      case Dependencies(_, _) => r := MakeDependenciesConstraint(schema, cache, doc, node, path, c, t, i, open);
      case LinearItems(_, _) => r := MakeLinearItemsConstraint(schema, cache, doc, node, path, c, t, i, open);
      case Properties(_, _, _) => r := MakePropertiesConstraint(schema, cache, doc, node, path, c, t, i, open);
      case Plain(f) =>
        FoundNothing(x, doc, schema.origin, cache.entries, t, i, InOrder(c));
        return Ok(Plain(f));
      case _ => r := MakeSingle(schema, cache, doc, node, path, c, t, i, open);
    }

    /** `allOf`, `anyOf` and `oneOf`. */
    method MakeCombinator(schema: Schema, cache: SchemaCache, doc: Value, node: Value, path: string,
                          c: Constraint<Slot>, ghost t: Target, ghost i: nat, ghost open: set<Pointer>)
      returns (r: Outcome<Constraint<Pointer>>)
      requires Compiling(doc, schema, cache, node, path, t, open)
      requires (c.AllOf? || c.AnyOf? || c.OneOf?) && Awaits(x, doc, t, i, InOrder(c), cache.entries.Keys)
      modifies schema, cache
      ensures ThrownRightly(doc, r)
      ensures r.Ok? ==> Advanced(doc, schema, cache, open, ConstraintNodes(x, Size(node), c))
      ensures r.Ok? ==> ShapeOf(c) == ShapeOf(r.value)
      ensures r.Ok? ==> FoundTo(x, doc, schema.origin, cache.entries, t, i, InOrder(r.value))
      decreases Pointers(doc) - cache.entries.Keys, Size(node), 3
    {
      hide Spent, ChainsEnd, Consistent, Walked, Pointers, Size, Compilable, ReadReference, SlotsOf, KeysAt, FoundTo,
           Awaits, SomeIndexTooLarge, SlotsNodes, SlotNodes, OptionalNodes;
      assert InOrder(c) == c.children;
      var ps :- MakeChildren(schema, cache, doc, node, path, c.children, t, i, open);
      var d := if c.AllOf? then AllOf(ps) else if c.AnyOf? then AnyOf(ps) else OneOf(ps);
      assert InOrder(d) == ps;
      return Ok(d);
    }

    /** `not`, `contains`, the single form of `items`, and `propertyNames`. */
    method MakeSingle(schema: Schema, cache: SchemaCache, doc: Value, node: Value, path: string,
                      c: Constraint<Slot>, ghost t: Target, ghost i: nat, ghost open: set<Pointer>)
      returns (r: Outcome<Constraint<Pointer>>)
      requires Compiling(doc, schema, cache, node, path, t, open)
      requires (c.Not? || c.Contains? || c.SingularItems? || c.PropertyNames?)
      requires Awaits(x, doc, t, i, InOrder(c), cache.entries.Keys)
      modifies schema, cache
      ensures ThrownRightly(doc, r)
      ensures r.Ok? ==> Advanced(doc, schema, cache, open, ConstraintNodes(x, Size(node), c))
      ensures r.Ok? ==> ShapeOf(c) == ShapeOf(r.value)
      ensures r.Ok? ==> FoundTo(x, doc, schema.origin, cache.entries, t, i, InOrder(r.value))
      decreases Pointers(doc) - cache.entries.Keys, Size(node), 3
    {
      hide Spent, ChainsEnd, Consistent, Walked, Pointers, Size, Compilable, ReadReference, SlotsOf, KeysAt, FoundTo,
           Awaits, SomeIndexTooLarge, SlotsNodes, SlotNodes, OptionalNodes;
      assert InOrder(c) == [c.child];
      var q :- MakeChild(schema, cache, doc, node, path, c.child, t, i, open);
      var d := if c.Not? then Not(q) else if c.Contains? then Contains(q)
               else if c.SingularItems? then SingularItems(q) else PropertyNames(q);
      assert InOrder(d) == [q];
      return Ok(d);
    }

    /** `if`, `then` and `else`. */
    method MakeConditionalConstraint(schema: Schema, cache: SchemaCache, doc: Value, node: Value, path: string,
                                     c: Constraint<Slot>, ghost t: Target, ghost i: nat, ghost open: set<Pointer>)
      returns (r: Outcome<Constraint<Pointer>>)
      requires Compiling(doc, schema, cache, node, path, t, open)
      requires c.Conditional? && Awaits(x, doc, t, i, InOrder(c), cache.entries.Keys)
      modifies schema, cache
      ensures ThrownRightly(doc, r)
      ensures r.Ok? ==> Advanced(doc, schema, cache, open, ConstraintNodes(x, Size(node), c))
      ensures r.Ok? ==> ShapeOf(c) == ShapeOf(r.value)
      ensures r.Ok? ==> FoundTo(x, doc, schema.origin, cache.entries, t, i, InOrder(r.value))
      decreases Pointers(doc) - cache.entries.Keys, Size(node), 3
    {
      hide Spent, ChainsEnd, Consistent, Walked, Pointers, Size, Compilable, ReadReference, SlotsOf, KeysAt, FoundTo,
           Awaits, SomeIndexTooLarge, SlotsNodes, SlotNodes, OptionalNodes, Grew, Extends, InOrder, InPlace, Inside,
           Optionally, ConstraintNodes, SlotsAt;
      ConditionalNodes(x, Size(node), c);
      ghost var g0, o0, e0 := schema.subschemas, schema.origin, cache.entries;
      GrewNothing(g0, o0, e0);
      ConditionalParts(c, 0, None, None);
      AwaitsParts(x, doc, t, i, [c.ifChild], Optionally(c.thenChild) + Optionally(c.elseChild), e0.Keys);
      SlotsAtParts(x, t, i + 1, Optionally(c.thenChild), Optionally(c.elseChild));
      var a :- MakeChild(schema, cache, doc, node, path, c.ifChild, t, i, open);
      ghost var g1, o1, e1 := schema.subschemas, schema.origin, cache.entries;
      GrewThen(g0, o0, e0, g0, o0, e0, g1, o1, e1);
      AwaitsNext(x, doc, o1, e1, t, i, [a], Optionally(c.thenChild));
      var b :- MakeOptional(schema, cache, doc, node, path, c.thenChild, t, i + 1, open);
      ghost var g2, o2, e2 := schema.subschemas, schema.origin, cache.entries;
      GrewThen(g0, o0, e0, g1, o1, e1, g2, o2, e2);
      FoundThen(x, doc, o1, e1, o2, e2, t, i, [a], Optionally(b));
      AwaitsNext(x, doc, o2, e2, t, i, [a] + Optionally(b), Optionally(c.elseChild));
      var d :- MakeOptional(schema, cache, doc, node, path, c.elseChild, t, i + |[a] + Optionally(b)|, open);
      GrewThen(g0, o0, e0, g2, o2, e2, schema.subschemas, schema.origin, cache.entries);
      FoundThen(x, doc, o2, e2, schema.origin, cache.entries, t, i, [a] + Optionally(b), Optionally(d));
      ConditionalParts(c, a, b, d);
      return Ok(Conditional(a, b, d));
    }

    /** `dependencies`. */
    method MakeDependenciesConstraint(schema: Schema, cache: SchemaCache, doc: Value, node: Value, path: string,
                                      c: Constraint<Slot>, ghost t: Target, ghost i: nat, ghost open: set<Pointer>)
      returns (r: Outcome<Constraint<Pointer>>)
      requires Compiling(doc, schema, cache, node, path, t, open)
      requires c.Dependencies? && Awaits(x, doc, t, i, InOrder(c), cache.entries.Keys)
      modifies schema, cache
      ensures ThrownRightly(doc, r)
      ensures r.Ok? ==> Advanced(doc, schema, cache, open, ConstraintNodes(x, Size(node), c))
      ensures r.Ok? ==> ShapeOf(c) == ShapeOf(r.value)
      ensures r.Ok? ==> FoundTo(x, doc, schema.origin, cache.entries, t, i, InOrder(r.value))
      decreases Pointers(doc) - cache.entries.Keys, Size(node), 3
    {
      hide Spent, ChainsEnd, Consistent, Walked, Pointers, Size, Compilable, ReadReference, SlotsOf, KeysAt, FoundTo,
           Awaits, SomeIndexTooLarge, SlotsNodes, SlotNodes, OptionalNodes;
      assert InOrder(c) == Children(c.schemas);
      var ss :- MakeNamed(schema, cache, doc, node, path, c.schemas, t, i, open);
      assert InOrder(Constraint.Dependencies(c.properties, ss)) == Children(ss);
      return Ok(Constraint.Dependencies(c.properties, ss));
    }

    /** The array form of `items`, with `additionalItems`, which is compiled first. */
    method MakeLinearItemsConstraint(schema: Schema, cache: SchemaCache, doc: Value, node: Value, path: string,
                                     c: Constraint<Slot>, ghost t: Target, ghost i: nat, ghost open: set<Pointer>)
      returns (r: Outcome<Constraint<Pointer>>)
      requires Compiling(doc, schema, cache, node, path, t, open)
      requires c.LinearItems? && Awaits(x, doc, t, i, InOrder(c), cache.entries.Keys)
      modifies schema, cache
      ensures ThrownRightly(doc, r)
      ensures r.Ok? ==> Advanced(doc, schema, cache, open, ConstraintNodes(x, Size(node), c))
      ensures r.Ok? ==> ShapeOf(c) == ShapeOf(r.value)
      ensures r.Ok? ==> FoundTo(x, doc, schema.origin, cache.entries, t, i, InOrder(r.value))
      decreases Pointers(doc) - cache.entries.Keys, Size(node), 3
    {
      hide Spent, ChainsEnd, Consistent, Walked, Pointers, Size, Compilable, ReadReference, SlotsOf, KeysAt, FoundTo,
           Awaits, SomeIndexTooLarge, SlotsNodes, SlotNodes, OptionalNodes, Grew, Extends, InOrder, InPlace, Inside,
           Optionally, SlotsAt;
      ghost var g0, o0, e0 := schema.subschemas, schema.origin, cache.entries;
      GrewNothing(g0, o0, e0);
      TupleParts(c, [], None);
      AwaitsParts(x, doc, t, i, Optionally(c.additional), c.children, e0.Keys);
      var a :- MakeOptional(schema, cache, doc, node, path, c.additional, t, i, open);
      ghost var g1, o1, e1 := schema.subschemas, schema.origin, cache.entries;
      GrewThen(g0, o0, e0, g0, o0, e0, g1, o1, e1);
      AwaitsNext(x, doc, o1, e1, t, i, Optionally(a), c.children);
      var ps :- MakeChildren(schema, cache, doc, node, path, c.children, t, i + |Optionally(a)|, open);
      GrewThen(g0, o0, e0, g1, o1, e1, schema.subschemas, schema.origin, cache.entries);
      FoundThen(x, doc, o1, e1, schema.origin, cache.entries, t, i, Optionally(a), ps);
      TupleParts(c, ps, a);
      return Ok(LinearItems(ps, a));
    }

    /** `properties`, `patternProperties` and `additionalProperties`. */
    method MakePropertiesConstraint(schema: Schema, cache: SchemaCache, doc: Value, node: Value, path: string,
                                    c: Constraint<Slot>, ghost t: Target, ghost i: nat, ghost open: set<Pointer>)
      returns (r: Outcome<Constraint<Pointer>>)
      requires Compiling(doc, schema, cache, node, path, t, open)
      requires c.Properties? && Awaits(x, doc, t, i, InOrder(c), cache.entries.Keys)
      modifies schema, cache
      ensures ThrownRightly(doc, r)
      ensures r.Ok? ==> Advanced(doc, schema, cache, open, ConstraintNodes(x, Size(node), c))
      ensures r.Ok? ==> ShapeOf(c) == ShapeOf(r.value)
      ensures r.Ok? ==> FoundTo(x, doc, schema.origin, cache.entries, t, i, InOrder(r.value))
      decreases Pointers(doc) - cache.entries.Keys, Size(node), 3
    {
      hide Spent, ChainsEnd, Consistent, Walked, Pointers, Size, Compilable, ReadReference, SlotsOf, KeysAt, FoundTo,
           Awaits, SomeIndexTooLarge, SlotsNodes, SlotNodes, OptionalNodes, Grew, Extends, InOrder, InPlace, Inside,
           Optionally, ConstraintNodes, SlotsAt, Children, Names, ShapeOf;
      PropertiesNodes(x, Size(node), c);
      ghost var g0, o0, e0 := schema.subschemas, schema.origin, cache.entries;
      GrewNothing(g0, o0, e0);
      PropertiesParts(c, [], [], None);
      AwaitsParts(x, doc, t, i, Children(c.named), Children(c.patterns) + Optionally(c.additional), e0.Keys);
      SlotsAtParts(x, t, i + |Children(c.named)|, Children(c.patterns), Optionally(c.additional));
      var ns :- MakeNamed(schema, cache, doc, node, path, c.named, t, i, open);
      ghost var g1, o1, e1 := schema.subschemas, schema.origin, cache.entries;
      GrewThen(g0, o0, e0, g0, o0, e0, g1, o1, e1);
      AwaitsNext(x, doc, o1, e1, t, i, Children(ns), Children(c.patterns));
      var ps :- MakeNamed(schema, cache, doc, node, path, c.patterns, t, i + |Children(ns)|, open);
      ghost var g2, o2, e2 := schema.subschemas, schema.origin, cache.entries;
      GrewThen(g0, o0, e0, g1, o1, e1, g2, o2, e2);
      FoundThen(x, doc, o1, e1, o2, e2, t, i, Children(ns), Children(ps));
      AwaitsNext(x, doc, o2, e2, t, i, Children(ns) + Children(ps), Optionally(c.additional));
      var a :- MakeOptional(schema, cache, doc, node, path, c.additional, t, i + |Children(ns) + Children(ps)|, open);
      GrewThen(g0, o0, e0, g2, o2, e2, schema.subschemas, schema.origin, cache.entries);
      FoundThen(x, doc, o2, e2, schema.origin, cache.entries, t, i, Children(ns) + Children(ps), Optionally(a));
      PropertiesParts(c, ns, ps, a);
      PropertiesShape(c, ns, ps, a);
      return Ok(Properties(ns, ps, a));
    }

    /** One subschema of a node: what is cached for its path, if it is concrete and something is;
        what its reference leads to; otherwise a new subschema of its own. */
    method MakeChild(schema: Schema, cache: SchemaCache, doc: Value, node: Value, path: string, s: Slot,
                     ghost t: Target, ghost i: nat, ghost open: set<Pointer>)
      returns (r: Outcome<Pointer>)
      requires Compiling(doc, schema, cache, node, path, t, open) && Awaits(x, doc, t, i, [s], cache.entries.Keys)
      modifies schema, cache
      ensures ThrownRightly(doc, r)
      ensures r.Ok? ==> Advanced(doc, schema, cache, open, SlotNodes(x, Size(node), s))
      ensures r.Ok? ==> FoundTo(x, doc, schema.origin, cache.entries, t, i, [r.value])
      ensures r.Ok? && s.At? ==>
        Anew(Arrive(doc, s.node, path + s.suffix, {}, old(cache.entries.Keys)), old(schema.origin), r.value)
      decreases Pointers(doc) - cache.entries.Keys, Size(node), 0
    {
      hide Spent, ChainsEnd, Consistent, Walked, Arrived, Pointers, Size, Compilable, ReadReference, SchemaNodes,
           SlotsOf, KeysAt, Awaits, FoundFrom, Found, KeysAfter, Arrive, SomeIndexTooLarge;
      ConsistentBounds(x, doc, schema.subschemas, schema.origin, cache.entries, open);
      ghost var keys := cache.entries.Keys;
      if s.EmptySchema? {
        SlotIsFound(x, doc, schema.origin, cache.entries, t, i, s, keys, keys, EMPTY);
        return Ok(EMPTY);
      }
      ArrivedAtSlot(x, doc, t, i, s, cache.entries);
      assert KeySet([]) == {};
      r := MakeOrReuseSchema(schema, cache, doc, s.node, path + s.suffix, [], open);
      if r.Ok? {
        ConsistentBounds(x, doc, schema.subschemas, schema.origin, cache.entries, open);
        SlotIsFound(x, doc, schema.origin, cache.entries, t, i, s, keys, cache.entries.Keys, r.value);
      }
    }

    method MakeOptional(schema: Schema, cache: SchemaCache, doc: Value, node: Value, path: string, s: Option<Slot>,
                        ghost t: Target, ghost i: nat, ghost open: set<Pointer>)
      returns (r: Outcome<Option<Pointer>>)
      requires Compiling(doc, schema, cache, node, path, t, open)
      requires Awaits(x, doc, t, i, Optionally(s), cache.entries.Keys)
      modifies schema, cache
      ensures ThrownRightly(doc, r)
      ensures r.Ok? ==> Advanced(doc, schema, cache, open, OptionalNodes(x, Size(node), s))
      ensures r.Ok? ==> (r.value.Some? <==> s.Some?) && |Optionally(r.value)| == |Optionally(s)|
      ensures r.Ok? ==> FoundTo(x, doc, schema.origin, cache.entries, t, i, Optionally(r.value))
      decreases Pointers(doc) - cache.entries.Keys, Size(node), 1
    {
      hide Spent, ChainsEnd, Consistent, Walked, Pointers, Size, Compilable, ReadReference, SlotsOf, KeysAt, Awaits,
           FoundTo, SlotNodes, SomeIndexTooLarge;
      if s.None? {
        FoundNothing(x, doc, schema.origin, cache.entries, t, i, []);
        return Ok(None);
      }
      var q :- MakeChild(schema, cache, doc, node, path, s.value, t, i, open);
      return Ok(Some(q));
    }

    method MakeChildren(schema: Schema, cache: SchemaCache, doc: Value, node: Value, path: string, ss: seq<Slot>,
                        ghost t: Target, ghost i: nat, ghost open: set<Pointer>)
      returns (r: Outcome<seq<Pointer>>)
      requires Compiling(doc, schema, cache, node, path, t, open) && Awaits(x, doc, t, i, ss, cache.entries.Keys)
      modifies schema, cache
      ensures ThrownRightly(doc, r)
      ensures r.Ok? ==> Advanced(doc, schema, cache, open, SlotsNodes(x, Size(node), ss))
      ensures r.Ok? ==> |r.value| == |ss| && FoundTo(x, doc, schema.origin, cache.entries, t, i, r.value)
      decreases Pointers(doc) - cache.entries.Keys, Size(node), 1
    {
      hide Spent, ChainsEnd, Consistent, Walked, Pointers, Size, Compilable, ReadReference, SlotsOf, KeysAt, Awaits,
           FoundTo, SlotNodes, SlotsNodes, SomeIndexTooLarge, SlotsAt;
      var ps: seq<Pointer> := [];
      FoundNothing(x, doc, schema.origin, cache.entries, t, i, ss);
      AwaitsSlots(x, doc, t, i, ss, cache.entries.Keys);
      for k := 0 to |ss|
        invariant Inv(doc, schema, cache, open) && old(schema.subschemas) <= schema.subschemas && Kept(schema, cache)
        invariant Spent(x, doc, schema.subschemas, cache.entries) + SlotsNodes(x, Size(node), ss[k..]) <=
          old(Spent(x, doc, schema.subschemas, cache.entries)) + SlotsNodes(x, Size(node), ss)
        invariant |ps| == k && FoundTo(x, doc, schema.origin, cache.entries, t, i, ps)
      {
        ghost var origin, entries := schema.origin, cache.entries;
        NextSlot(x, Size(node), ss, k);
        SlotAwaits(x, doc, origin, entries, t, i, ps, ss);
        var q :- MakeChild(schema, cache, doc, node, path, ss[k], t, i + k, open);
        FoundThen(x, doc, origin, entries, schema.origin, cache.entries, t, i, ps, [q]);
        ps := ps + [q];
      }
      return Ok(ps);
    }

    method MakeNamed(schema: Schema, cache: SchemaCache, doc: Value, node: Value, path: string, ss: seq<Named<Slot>>,
                     ghost t: Target, ghost i: nat, ghost open: set<Pointer>)
      returns (r: Outcome<seq<Named<Pointer>>>)
      requires Compiling(doc, schema, cache, node, path, t, open)
      requires Awaits(x, doc, t, i, Children(ss), cache.entries.Keys)
      modifies schema, cache
      ensures ThrownRightly(doc, r)
      ensures r.Ok? ==> Advanced(doc, schema, cache, open, SlotsNodes(x, Size(node), Children(ss)))
      ensures r.Ok? ==> Names(r.value) == Names(ss) && |Children(r.value)| == |Children(ss)|
      ensures r.Ok? ==> FoundTo(x, doc, schema.origin, cache.entries, t, i, Children(r.value))
      decreases Pointers(doc) - cache.entries.Keys, Size(node), 2
    {
      hide Spent, ChainsEnd, Consistent, Walked, Pointers, Size, Compilable, ReadReference, SlotsOf, KeysAt, Awaits,
           FoundTo, SlotsNodes, SomeIndexTooLarge;
      var ps :- MakeChildren(schema, cache, doc, node, path, Children(ss), t, i, open);
      return Ok(WithNames(Names(ss), ps));
    }

    /** Populates the root subschema from the node that the references at the root lead to. */
    method PopulateRoot(schema: Schema, cache: SchemaCache, doc: Value, node: Value, path: string)
      returns (r: Outcome<()>)
      requires ChainsEnd(x, doc) && RootTarget(x, doc) == Node(node, path, {}) && Walked(x, doc, RootTarget(x, doc))
      requires schema.subschemas == [Subschema(false, []), Subschema(false, [])]
      requires schema.origin == [RootTarget(x, doc), Anything] && cache.entries == map[]
      modifies schema, cache
      ensures ThrownRightly(doc, r)
      ensures r.Ok? ==> CompiledForm(x, doc, schema.subschemas, schema.origin, cache.entries)
      ensures r.Ok? ==> |schema.subschemas| <= 1 + LargestSchema(x, doc) * (1 + |Pointers(doc)|)
    {
      hide Spent, ChainsEnd, Consistent, Walked, Populated, Pointers, Size, Compilable, ReadReference, CompiledForm,
           Placed, RootTarget, SomeIndexTooLarge, SchemaNodes, LargestSchema;
      ghost var g := schema.subschemas;
      OnlyRootOpen(x, doc, schema.subschemas, schema.origin);
      var _ :- PopulateSchema(schema, cache, doc, node, path, ROOT, RootTarget(x, doc), {ROOT});
      assert {ROOT} - {ROOT} == {};
      WalkedPlaced(x, doc, RootTarget(x, doc));
      ConsistentBounds(x, doc, schema.subschemas, schema.origin, cache.entries, {});
      RootBound(x, doc, g, schema.subschemas, cache.entries, node, path);
      RootIsConcrete(x, doc);
      NothingOpen(x, doc, schema.subschemas, schema.origin, cache.entries);
      return Ok(());
    }

    /** `resolveThenPopulateSchema`: follows the references at the root, without caching them, and
        populates the root subschema from the node they lead to. */
    method ResolveThenPopulate(schema: Schema, cache: SchemaCache, doc: Value, node: Value, path: string,
                               ghost seen: set<string>)
      returns (r: Outcome<()>)
      requires ChainsEnd(x, doc) && RootArrived(x, doc, node, path, seen)
      requires schema.subschemas == [Subschema(false, []), Subschema(false, [])]
      requires schema.origin == [RootTarget(x, doc), Anything] && cache.entries == map[]
      modifies schema, cache
      ensures ThrownRightly(doc, r)
      ensures StaysWithin(x, ReadReference(node)) && Resolve(doc, ReadReference(node).pointer).None? ==>
        r == if Overflows(doc, ReadReference(node).pointer) then LogicError else RuntimeError
      ensures r.Ok? ==> CompiledForm(x, doc, schema.subschemas, schema.origin, cache.entries)
      ensures r.Ok? ==> |schema.subschemas| <= 1 + LargestSchema(x, doc) * (1 + |Pointers(doc)|)
      decreases Pointers(doc) - seen
    {
      hide Spent, ChainsEnd, Consistent, Walked, Populated, Pointers, Size, Compilable, ReadReference, Resolve,
           RootArrived, IsAbsolute, CompiledForm, Placed, RootTarget, Overflows, SomeIndexTooLarge, SchemaNodes,
           LargestSchema;
      if ReadReference(node) == NoReference {
        RootReached(x, doc, node, path, seen);
        r := PopulateRoot(schema, cache, doc, node, path);
        return;
      }
      if ReadReference(node).BadReference? {
        RootBroken(x, doc, node, path, seen);
        return RuntimeError;
      }
      var uri, pointer := ReadReference(node).uri, ReadReference(node).pointer;
      FollowFromRoot(x, doc, node, path, seen);
      if uri.Some? {
        var absolute := IsAbsoluteUri(uri.value);
        if absolute || x.isUrn(uri.value) { return RuntimeError; }
      }
      if Overflows(doc, pointer) {
        RootOverflows(x, doc, node, path, seen);
        return LogicError;
      }
      if Resolve(doc, pointer).None? { return RuntimeError; }
      r := ResolveThenPopulate(schema, cache, doc, Resolve(doc, pointer).value, pointer, seen + {pointer});
    }

    /** The public `populateSchema`: compiles a document into a fresh schema.  If chains of references
        come to an end, so does compiling; it makes at most one copy of the largest schema for every
        pointer and one more.  It fails exactly on documents that cannot be compiled, and never on those
        that can be read.  The result represents the document exactly if no node was mistaken for
        another on the way. */
    method Parse(doc: Value) returns (r: Outcome<()>, schema: Schema, ghost entries: Entries)
      requires ChainsEnd(x, doc)
      ensures fresh(schema)
      ensures r.Ok? <==> Compilable(x, doc)
      ensures Readable(x, doc) ==> r.Ok?
      ensures r.LogicError? ==> SomeIndexTooLarge(doc)
      ensures StaysWithin(x, ReadReference(doc)) && Resolve(doc, ReadReference(doc).pointer).None? ==>
        r == if Overflows(doc, ReadReference(doc).pointer) then LogicError else RuntimeError
      ensures r.Ok? ==> CompiledForm(x, doc, schema.subschemas, schema.origin, entries)
      ensures r.Ok? ==> |schema.subschemas| <= 1 + LargestSchema(x, doc) * (1 + |Pointers(doc)|)
      ensures r.Ok? ==> (Represents(x, doc, schema.subschemas, schema.origin) <==> NoMistake(x, doc))
      ensures r.Ok? && NoMistake(x, doc) ==> Readable(x, doc)
      ensures r.Ok? && Faithful(x, doc) ==> NoMistake(x, doc)
    {
      hide Pointers, Readable, Compilable, ReadReference, Resolve, CompiledForm, RootTarget, Overflows,
           SomeIndexTooLarge, LargestSchema, NoMistake, Represents, ChainsEnd, RootPath, Chase, Faithful;
      schema := new Schema(RootTarget(x, doc));
      var cache := new SchemaCache();
      StartsAtRoot(x, doc);
      r := ResolveThenPopulate(schema, cache, doc, doc, "", {});
      entries := cache.entries;
      if Readable(x, doc) { ReadableIsCompilable(x, doc); }
      if r.Ok? {
        FormIsCompilable(x, doc, schema.subschemas, schema.origin, entries);
        RepresentsExactly(x, doc, schema.subschemas, schema.origin, entries);
        if NoMistake(x, doc) { CompiledIsReadable(x, doc, schema.subschemas, schema.origin); }
        if Faithful(x, doc) { FaithfulForm(x, doc, schema.subschemas, schema.origin, entries); }
      }
    }
  }
}
