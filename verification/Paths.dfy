/** The paths the parser builds by concatenating names, and a condition on names under which they lead
    to their schemas. */
module Paths {
  import opened Wrappers
  import opened Json
  import opened JsonPointer
  import opened Schemas
  import opened Keywords
  import opened Semantics
  import opened Reachability

  /** From wherever `node` is found, appending the suffix leads to `child`. */
  ghost predicate Leads(node: Value, suffix: string, child: Value) {
    forall doc, path :: Resolve(doc, path) == Some(node) ==> Resolve(doc, path + suffix) == Some(child)
  }

  lemma StepLeads(node: Value, token: string, child: Value)
    requires PlainToken(token) && Step(node, token) == Some(child)
    ensures Leads(node, "/" + token, child)
  {
    forall doc, path | Resolve(doc, path) == Some(node) ensures Resolve(doc, path + ("/" + token)) == Some(child) {
      ResolveAppend(doc, path, node, token);
      assert path + ("/" + token) == path + "/" + token;
    }
  }

  lemma ThenLeads(a: Value, s: string, b: Value, t: string, c: Value)
    requires Leads(a, s, b) && Leads(b, t, c)
    ensures Leads(a, s + t, c)
  {
    forall doc, path | Resolve(doc, path) == Some(a) ensures Resolve(doc, path + (s + t)) == Some(c) {
      assert Resolve(doc, path + s) == Some(b);
      assert path + (s + t) == (path + s) + t;
    }
  }

  /** A schema object whose arrays of subschemas have indices that fit, and whose properties have
      names that need no escaping. */
  ghost predicate PlainNode(n: Value) {
    n.Object? ==>
      && (forall key | HoldsElements(key) && Find(n.members, key).Some? ::
            |AsArray(Find(n.members, key).value)| <= TWO_TO_64)
      && (forall key | HoldsEntries(key) && key != "dependencies" && Find(n.members, key).Some? ::
            PlainEntries(AsObject(Find(n.members, key).value)))
  }

  ghost predicate PlainEntries(members: seq<Member>) {
    DistinctKeys(members) && forall k :: 0 <= k < |members| ==> PlainToken(members[k].key)
  }

  /** `propertyNames` is found at the path of its node, schemas in `dependencies` at a common path. */
  predicate SharesPath(s: Slot) { s.At? && (s.suffix == "" || s.suffix == "/dependencies") }

  lemma SubschemaKeywordIsPlain(key: string)
    requires HoldsSubschema(key)
    ensures PlainToken(key)
  {
  }

  lemma OtherKeywordIsPlain(key: string)
    requires HoldsElements(key) || HoldsEntries(key)
    ensures PlainToken(key)
  {
  }

  lemma KeywordLeads(n: Value, key: string)
    requires n.Object? && Find(n.members, key).Some?
    requires HoldsSubschema(key) || HoldsElements(key) || HoldsEntries(key)
    ensures Leads(n, "/" + key, Find(n.members, key).value)
  {
    hide Leads, HoldsSubschema, HoldsElements, HoldsEntries, PlainToken;
    if HoldsSubschema(key) { SubschemaKeywordIsPlain(key); } else { OtherKeywordIsPlain(key); }
    StepLeads(n, key, Find(n.members, key).value);
  }

  /** The suffix of a slot leads from its node to its subschema. */
  lemma WrittenLeads(n: Value, place: Place, s: Slot)
    requires PlainNode(n) && Written(n, place, s) && !SharesPath(s)
    ensures Leads(n, s.suffix, s.node)
  {
    hide Leads, HoldsSubschema, HoldsElements, HoldsEntries;
    KeywordLeads(n, place.key);
    match place
    case AtKeyword(key) =>
    case AtElement(key, k) => ElementLeads(n, key, Find(n.members, key).value, k);
    case AtEntry(key, k) => EntryLeads(n, key, Find(n.members, key).value, k);
  }

  lemma ElementLeads(n: Value, key: string, u: Value, k: nat)
    requires Leads(n, "/" + key, u) && u.Array? && k < |u.items| <= TWO_TO_64
    ensures Leads(n, "/" + key + "/" + Decimal(k), u.items[k])
  {
    hide Leads;
    StoulDecimal(k);
    StepLeads(u, Decimal(k), u.items[k]);
    ThenLeads(n, "/" + key, u, "/" + Decimal(k), u.items[k]);
    assert "/" + key + ("/" + Decimal(k)) == "/" + key + "/" + Decimal(k);
  }

  lemma EntryLeads(n: Value, key: string, u: Value, k: nat)
    requires Leads(n, "/" + key, u) && u.Object? && k < |u.members| && PlainEntries(u.members)
    ensures Leads(n, "/" + key + "/" + u.members[k].key, u.members[k].value)
  {
    hide Leads;
    var name := u.members[k].key;
    FindAt(u.members, k);
    StepLeads(u, name, u.members[k].value);
    ThenLeads(n, "/" + key, u, "/" + name, u.members[k].value);
    assert "/" + key + ("/" + name) == "/" + key + "/" + name;
  }

  lemma ReadsLeads(x: Externals, n: Value, s: Slot)
    requires PlainNode(n) && Reads(x, n, s) && s.At? && !SharesPath(s)
    ensures Leads(n, s.suffix, s.node)
  {
    hide Read, Written, PlainNode, Leads;
    ReadWritten(x, n);
    assert SlotWritten(n, s);
    var place :| Written(n, place, s);
    WrittenLeads(n, place, s);
  }

  /** A schema without subschemas. */
  ghost predicate Childless(x: Externals, v: Value) {
    forall s: Slot :: Reads(x, v, s) ==> s.EmptySchema?
  }

  /** Slot s of the node found at `path` shares its path, and is a concrete schema. */
  ghost predicate SharedSlot(x: Externals, doc: Value, u: Value, path: string, s: Slot) {
    && Placed(x, doc, u, path) && ReadReference(u) == NoReference
    && Reads(x, u, s) && SharesPath(s) && ReadReference(s.node) == NoReference
  }

  ghost predicate PlainSlot(x: Externals, doc: Value, u: Value, path: string, s: Slot) {
    SharedSlot(x, doc, u, path, s) ==> Childless(x, s.node) && !Followed(x, doc, path + s.suffix)
  }

  /** A document without escaping or look-alike remote references, in which schemas for property names
      and schemas in `dependencies` have no subschemas, and no reference points to a schema that has the
      former or to a `dependencies` object that has the latter. */
  ghost predicate PlainDocument(x: Externals, doc: Value) {
    && Unmixed(x, doc)
    && (forall v, path :: Placed(x, doc, v, path) && ReadReference(v) == NoReference ==> PlainNode(v))
    && (forall v, path, s :: PlainSlot(x, doc, v, path, s))
  }

  lemma {:induction false} RootPathLeads(x: Externals, doc: Value, node: Value, seen: set<string>, path: string)
    requires Pointers(node) <= Pointers(doc) && Resolve(doc, path) == Some(node)
    requires Chase(x, doc, node, seen, true).Concrete?
    ensures Resolve(doc, RootPath(x, doc, node, seen, path)) == Some(Chase(x, doc, node, seen, true).node)
    decreases Pointers(doc) - seen
  {
    hide Pointers, Resolve;
    if ReadReference(node).Reference? {
      var pointer := ReadReference(node).pointer;
      PointerNamed(node);
      ResolveBelow(doc, pointer);
      RootPathLeads(x, doc, Resolve(doc, pointer).value, seen + {pointer}, pointer);
    }
  }

  /** The schema v found at `path` shares its path with others. */
  ghost predicate Shared(x: Externals, doc: Value, v: Value, path: string) {
    exists u, upath, s :: SharedSlot(x, doc, u, upath, s) && s.node == v && upath + s.suffix == path
  }

  /** In a plain document the path of a schema leads to it, unless the schema shares its path. */
  lemma {:induction false} PlainLeads(x: Externals, doc: Value, v: Value, path: string, steps: nat)
    requires PlainDocument(x, doc) && PlacedIn(x, doc, v, path, steps) && ReadReference(v) == NoReference
    ensures Resolve(doc, path) == Some(v) || (Shared(x, doc, v, path) && Childless(x, v))
    decreases steps
  {
    hide Resolve, Pointers, Chase, Reads, PlainNode, Followed;
    if steps == 0 {
      PlainRoot(x, doc);
    } else {
      var u, upath :| PlacedIn(x, doc, u, upath, steps - 1) && HandsDown(x, doc, u, upath, v, path);
      assert Placed(x, doc, u, upath);
      if ReadReference(u) == NoReference {
        var s: Slot :| Reads(x, u, s) && s.At? && s.node == v && path == upath + s.suffix;
        PlainLeads(x, doc, u, upath, steps - 1);
        if SharesPath(s) {
          assert PlainSlot(x, doc, u, upath, s);
          assert SharedSlot(x, doc, u, upath, s);
        } else {
          ReadsLeads(x, u, s);
        }
      }
    }
  }

  lemma PlainRoot(x: Externals, doc: Value)
    requires Chase(x, doc, doc, {}, true).Concrete?
    ensures Resolve(doc, RootPath(x, doc, doc, {}, "")) == Some(Chase(x, doc, doc, {}, true).node)
  {
    RootPathLeads(x, doc, doc, {}, "");
  }

  /** Plain documents have faithful paths. */
  lemma PlainIsFaithful(x: Externals, doc: Value)
    requires PlainDocument(x, doc)
    ensures Faithful(x, doc)
  {
    hide Resolve, PlacedIn, Followed, PlainNode, Childless, Unmixed;
    forall v, path | Placed(x, doc, v, path) && ReadReference(v) == NoReference && Followed(x, doc, path)
      ensures Resolve(doc, path) == Some(v)
    {
      var steps: nat :| PlacedIn(x, doc, v, path, steps);
      PlainLeads(x, doc, v, path, steps);
      if Shared(x, doc, v, path) {
        var u, upath, s :| SharedSlot(x, doc, u, upath, s) && s.node == v && upath + s.suffix == path;
        assert PlainSlot(x, doc, u, upath, s);
      }
    }
  }
}
