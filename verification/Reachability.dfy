/** The schema nodes that compiling a document can come to, and the paths at which it finds them. */
module Reachability {
  import opened Wrappers
  import opened Json
  import opened JsonPointer
  import opened Schemas
  import opened Keywords
  import opened Semantics

  /** s is one of the subschemas read from n. */
  ghost predicate Reads(x: Externals, n: Value, s: Slot) {
    Read(x, n).Some? && exists c <- Read(x, n).value.constraints :: s in InPlace(c) || s in Inside(c)
  }

  /** From node u at `upath`, one step leads to node v at `path`: u is a reference within the document
      to v, or v is a subschema of u. */
  ghost predicate HandsDown(x: Externals, doc: Value, u: Value, upath: string, v: Value, path: string) {
    if ReadReference(u) == NoReference then
      exists s: Slot :: Reads(x, u, s) && s.At? && s.node == v && path == upath + s.suffix
    else
      ReadReference(u) == Reference(None, path) && Resolve(doc, path) == Some(v)
  }

  /** The path at which the chain of references from the root ends. */
  function RootPath(x: Externals, doc: Value, node: Value, seen: set<string>, path: string): string
    requires Pointers(node) <= Pointers(doc)
    decreases Pointers(doc) - seen
  {
    if ReadReference(node).Reference? && Chase(x, doc, node, seen, true).Concrete? then
      var pointer := ReadReference(node).pointer;
      ResolveBelow(doc, pointer);
      RootPath(x, doc, Resolve(doc, pointer).value, seen + {pointer}, pointer)
    else path
  }

  ghost predicate PlacedIn(x: Externals, doc: Value, v: Value, path: string, steps: nat)
    decreases steps
  {
    if steps == 0 then
      Chase(x, doc, doc, {}, true) == Concrete(v) && path == RootPath(x, doc, doc, {}, "")
    else
      exists u, upath :: PlacedIn(x, doc, u, upath, steps - 1) && HandsDown(x, doc, u, upath, v, path)
  }

  /** Compiling can come to node v at this path, starting where the references at the root end. */
  ghost predicate Placed(x: Externals, doc: Value, v: Value, path: string) {
    exists steps: nat :: PlacedIn(x, doc, v, path, steps)
  }

  lemma PlacedRoot(x: Externals, doc: Value)
    requires Chase(x, doc, doc, {}, true).Concrete?
    ensures Placed(x, doc, Chase(x, doc, doc, {}, true).node, RootPath(x, doc, doc, {}, ""))
  {
    assert PlacedIn(x, doc, Chase(x, doc, doc, {}, true).node, RootPath(x, doc, doc, {}, ""), 0);
  }

  lemma PlacedNext(x: Externals, doc: Value, u: Value, upath: string, v: Value, path: string)
    requires Placed(x, doc, u, upath) && HandsDown(x, doc, u, upath, v, path)
    ensures Placed(x, doc, v, path)
  {
    hide HandsDown;
    var steps: nat :| PlacedIn(x, doc, u, upath, steps);
    assert PlacedIn(x, doc, v, path, steps + 1);
  }

  lemma PlacedSlot(x: Externals, doc: Value, u: Value, upath: string, s: Slot)
    requires Placed(x, doc, u, upath) && ReadReference(u) == NoReference && Reads(x, u, s) && s.At?
    ensures Placed(x, doc, s.node, upath + s.suffix)
  {
    hide Reads, Placed;
    PlacedNext(x, doc, u, upath, s.node, upath + s.suffix);
  }

  lemma PlacedTarget(x: Externals, doc: Value, u: Value, upath: string, pointer: string)
    requires Placed(x, doc, u, upath) && ReadReference(u) == Reference(None, pointer) && Resolve(doc, pointer).Some?
    ensures Placed(x, doc, Resolve(doc, pointer).value, pointer)
  {
    hide Placed;
    PlacedNext(x, doc, u, upath, Resolve(doc, pointer).value, pointer);
  }

  lemma SlotIsBelow(x: Externals, n: Value, s: Slot)
    requires Reads(x, n, s)
    ensures SlotBelow(s, n)
  {
    hide Read, Below;
    ReadBelow(x, n);
  }

  /** Nothing but parts of the document is ever come to. */
  lemma {:induction false} PlacedInBelow(x: Externals, doc: Value, v: Value, path: string, steps: nat)
    requires PlacedIn(x, doc, v, path, steps)
    ensures Pointers(v) <= Pointers(doc) && Size(v) <= Size(doc)
    decreases steps
  {
    hide Pointers, Size, Resolve, Reads, Chase, ReadReference, RootPath;
    if steps == 0 {
      ChaseBelow(x, doc, doc, {}, true);
    } else {
      var u, upath :| PlacedIn(x, doc, u, upath, steps - 1) && HandsDown(x, doc, u, upath, v, path);
      PlacedInBelow(x, doc, u, upath, steps - 1);
      if ReadReference(u) == NoReference {
        var s: Slot :| Reads(x, u, s) && s.At? && s.node == v && path == upath + s.suffix;
        SlotIsBelow(x, u, s);
      } else {
        ResolveBelow(doc, path);
      }
    }
  }

  lemma PlacedBelow(x: Externals, doc: Value, v: Value, path: string)
    requires Placed(x, doc, v, path)
    ensures Pointers(v) <= Pointers(doc) && Size(v) <= Size(doc)
  {
    var steps: nat :| PlacedIn(x, doc, v, path, steps);
    PlacedInBelow(x, doc, v, path, steps);
  }

  lemma {:induction false} ChaseBelow(x: Externals, doc: Value, node: Value, seen: set<string>, atRoot: bool)
    requires Pointers(node) <= Pointers(doc) && Chase(x, doc, node, seen, atRoot).Concrete?
    ensures var end := Chase(x, doc, node, seen, atRoot).node;
      && Pointers(end) <= Pointers(doc) && ReadReference(end) == NoReference
      && (Size(node) <= Size(doc) ==> Size(end) <= Size(doc))
    decreases Pointers(doc) - seen
  {
    hide Pointers, Resolve, Size;
    if ReadReference(node).Reference? {
      var pointer := ReadReference(node).pointer;
      PointerNamed(node);
      ResolveBelow(doc, pointer);
      ChaseBelow(x, doc, Resolve(doc, pointer).value, seen + {pointer}, atRoot);
    }
  }

  lemma PointerNamed(node: Value)
    requires ReadReference(node).Reference?
    ensures ReadReference(node).pointer in Pointers(node)
  {
  }

  // ---- Conditions on documents ----

  /** Some reference that compiling can come to points within the document with this pointer. */
  ghost predicate Followed(x: Externals, doc: Value, pointer: string) {
    exists v, path :: Placed(x, doc, v, path) && ReadReference(v) == Reference(None, pointer)
  }

  /** The chain of references that starts at v comes to an end. */
  ghost predicate Ends(x: Externals, doc: Value, v: Value) {
    Pointers(v) <= Pointers(doc) && !Chase(x, doc, v, {}, false).Cyclic?
  }

  /** Every chain of references that is come to ends, at a concrete node or at a broken reference. */
  ghost predicate ChainsEnd(x: Externals, doc: Value) {
    && !Chase(x, doc, doc, {}, true).Cyclic?
    && forall v, path :: Placed(x, doc, v, path) ==> Ends(x, doc, v)
  }

  /** No reference to another document has a cache key that is spelled like a pointer. */
  ghost predicate Unmixed(x: Externals, doc: Value) {
    forall v, path :: Placed(x, doc, v, path) && ReadReference(v).Reference? && ReadReference(v).uri.Some? ==>
      !Followed(x, doc, CacheKey(ReadReference(v).uri, ReadReference(v).pointer))
  }

  /** Wherever the path at which a schema is found is also the pointer of some reference, it leads to
      that schema. */
  ghost predicate PathsLead(x: Externals, doc: Value) {
    forall v, path :: Placed(x, doc, v, path) && ReadReference(v) == NoReference && Followed(x, doc, path) ==>
      Resolve(doc, path) == Some(v)
  }

  /** What the source relies on without checking it, for its cache keys to tell schemas apart. */
  ghost predicate Faithful(x: Externals, doc: Value) {
    Unmixed(x, doc) && PathsLead(x, doc)
  }

  lemma FollowedInDocument(x: Externals, doc: Value, pointer: string)
    requires Followed(x, doc, pointer)
    ensures pointer in Pointers(doc)
  {
    hide Placed, Pointers;
    var v, path :| Placed(x, doc, v, path) && ReadReference(v) == Reference(None, pointer);
    PlacedBelow(x, doc, v, path);
    PointerNamed(v);
  }
}
