/** What a document says, keyword by keyword, without constraints, slots or paths. */
module Meaning {
  import opened Wrappers
  import opened Json
  import opened JsonPointer
  import opened Schemas
  import opened Keywords
  import opened Semantics
  import opened Agreement

  /** sub(s, w): what schema node s of the document, references followed, says of w. */
  type Verdicts = (Value, Value) -> bool

  /** What counts as true or false: also the text of either. */
  predicate IsTrue(u: Value) { u == Bool(true) || u == Str("true") }
  predicate IsFalse(u: Value) { u == Bool(false) || u == Str("false") }

  /** A schema takes an empty object for an empty array. */
  ghost predicate AllOfSays(ms: seq<Member>, v: Value, sub: Verdicts) {
    var u := Find(ms, "allOf");
    u.Some? && u.value.Array? ==> forall s <- u.value.items :: sub(s, v)
  }

  ghost predicate AnyOfSays(ms: seq<Member>, v: Value, sub: Verdicts) {
    var u := Find(ms, "anyOf");
    u.Some? ==> u.value.Array? && exists s <- u.value.items :: sub(s, v)
  }

  ghost predicate OneOfSays(ms: seq<Member>, v: Value, sub: Verdicts) {
    var u := Find(ms, "oneOf");
    u.Some? ==> u.value.Array? && exists k :: 0 <= k < |u.value.items| && JustThis(u.value.items, k, v, sub)
  }

  ghost predicate JustThis(items: seq<Value>, k: nat, v: Value, sub: Verdicts)
    requires k < |items|
  {
    forall j :: 0 <= j < |items| ==> (sub(items[j], v) <==> j == k)
  }

  ghost predicate NotSays(ms: seq<Member>, v: Value, sub: Verdicts) {
    var u := Find(ms, "not");
    u.Some? ==> !sub(u.value, v)
  }

  /** Without `if`, `then` and `else` say nothing. */
  ghost predicate IfSays(ms: seq<Member>, v: Value, sub: Verdicts) {
    var u, t, e := Find(ms, "if"), Find(ms, "then"), Find(ms, "else");
    u.Some? ==> if sub(u.value, v) then t.Some? ==> sub(t.value, v) else e.Some? ==> sub(e.value, v)
  }

  /** An empty array in place of a single schema says nothing. */
  ghost predicate SingleSays(u: Value, w: Value, sub: Verdicts) {
    u == Array([]) || sub(u, w)
  }

  ghost predicate ContainsSays(ms: seq<Member>, v: Value, sub: Verdicts) {
    var u := Find(ms, "contains");
    u.Some? && v.Array? ==> exists k :: 0 <= k < |v.items| && SingleSays(u.value, v.items[k], sub)
  }

  ghost predicate AdditionalSays(u: Option<Value>, w: Value, sub: Verdicts) {
    u.Some? ==> IsTrue(u.value) || (!IsFalse(u.value) && sub(u.value, w))
  }

  ghost predicate ItemsSay(ms: seq<Member>, v: Value, sub: Verdicts) {
    var u := Find(ms, "items");
    u.Some? && v.Array? ==> forall k :: 0 <= k < |v.items| ==>
      if u.value.Array? then
        if k < |u.value.items| then sub(u.value.items[k], v.items[k])
        else AdditionalSays(Find(ms, "additionalItems"), v.items[k], sub)
      else SingleSays(u.value, v.items[k], sub)
  }

  ghost predicate PropertiesSay(x: Externals, ms: seq<Member>, v: Value, sub: Verdicts) {
    v.Object? ==> forall m <- v.members :: PropertySays(x, ms, m, sub)
  }

  /** An entry of a keyword that holds an object of schemas. */
  ghost predicate HasEntry(ms: seq<Member>, keyword: string, e: Member) {
    var u := Find(ms, keyword);
    u.Some? && u.value.Object? && e in u.value.members
  }

  /** Every schema of that name, every schema whose pattern is found in the name, and only if there
      is neither the additional one. */
  ghost predicate PropertySays(x: Externals, ms: seq<Member>, m: Member, sub: Verdicts) {
    && (forall e :: HasEntry(ms, "properties", e) && e.key == m.key ==> sub(e.value, m.value))
    && (forall e :: HasEntry(ms, "patternProperties", e) && x.regexSearch(e.key, m.key) ==> sub(e.value, m.value))
    && ((exists e :: HasEntry(ms, "properties", e) && e.key == m.key)
        || (exists e :: HasEntry(ms, "patternProperties", e) && x.regexSearch(e.key, m.key))
        || AdditionalSays(Find(ms, "additionalProperties"), m.value, sub))
  }

  ghost predicate PropertyNamesSays(ms: seq<Member>, v: Value, sub: Verdicts) {
    var u := Find(ms, "propertyNames");
    u.Some? && v.Object? ==> forall m <- v.members :: sub(u.value, Str(m.key))
  }

  ghost predicate DependenciesSay(ms: seq<Member>, v: Value, sub: Verdicts) {
    var u := Find(ms, "dependencies");
    u.Some? && u.value.Object? && v.Object? ==> forall d <- u.value.members :: DependencySays(d, v, sub)
  }

  ghost predicate DependencySays(d: Member, v: Value, sub: Verdicts)
    requires v.Object?
  {
    Find(v.members, d.key).Some? ==>
      if d.value.Array? then forall n :: Str(n) in d.value.items ==> Find(v.members, n).Some?
      else d.value == Object([]) || sub(d.value, v)
  }

  ghost predicate ConstSays(ms: seq<Member>, v: Value) {
    var u := Find(ms, "const");
    u.Some? ==> EqualTo(u.value, v)
  }

  ghost predicate EnumSays(ms: seq<Member>, v: Value) {
    var u := Find(ms, "enum");
    u.Some? ==> u.value.Array? && exists a <- u.value.items :: EqualTo(a, v)
  }

  ghost predicate RequiredSays(ms: seq<Member>, v: Value) {
    var u := Find(ms, "required");
    u.Some? && u.value.Array? && v.Object? ==> forall n :: Str(n) in u.value.items ==> Find(v.members, n).Some?
  }

  /** The kinds of values that go by a name. */
  predicate IsKind(name: string, v: Value) {
    || name == "any"
    || (name == "array" && v.Array?) || (name == "boolean" && v.Bool?)
    || (name == "integer" && v.Int?) || (name == "null" && v.Null?)
    || (name == "number" && (v.Int? || v.Double?)) || (name == "object" && v.Object?)
    || (name == "string" && v.Str?)
  }

  /** One of the names fits. */
  ghost predicate TypeSays(ms: seq<Member>, v: Value) {
    var u := Find(ms, "type");
    u.Some? ==>
      || (u.value.Str? && IsKind(u.value.s, v))
      || (u.value.Array? && exists t <- u.value.items :: t.Str? && IsKind(t.s, v))
  }

  ghost predicate UniqueItemsSays(ms: seq<Member>, v: Value) {
    var u := Find(ms, "uniqueItems");
    u.Some? && IsTrue(u.value) && v.Array? ==>
      forall i, j :: 0 <= i < j < |v.items| ==> !EqualTo(v.items[i], v.items[j])
  }

  ghost predicate LeafSays(x: Externals, ms: seq<Member>, keyword: string, v: Value) {
    var u := Find(ms, keyword);
    u.Some? ==> x.leafHolds(keyword, u.value, v)
  }

  ghost predicate BoundsSay(x: Externals, ms: seq<Member>, v: Value) {
    && LeafSays(x, ms, "maximum", v) && LeafSays(x, ms, "exclusiveMaximum", v)
    && LeafSays(x, ms, "minimum", v) && LeafSays(x, ms, "exclusiveMinimum", v)
    && LeafSays(x, ms, "multipleOf", v)
    && LeafSays(x, ms, "maxLength", v) && LeafSays(x, ms, "minLength", v)
    && LeafSays(x, ms, "maxItems", v) && LeafSays(x, ms, "minItems", v)
    && LeafSays(x, ms, "maxProperties", v) && LeafSays(x, ms, "minProperties", v)
  }

  /** Everything the members of a schema object say of v. */
  ghost predicate SchemaSays(x: Externals, ms: seq<Member>, v: Value, sub: Verdicts) {
    && AllOfSays(ms, v, sub) && AnyOfSays(ms, v, sub) && OneOfSays(ms, v, sub)
    && NotSays(ms, v, sub) && IfSays(ms, v, sub)
    && ContainsSays(ms, v, sub) && ItemsSay(ms, v, sub)
    && PropertiesSay(x, ms, v, sub) && PropertyNamesSays(ms, v, sub) && DependenciesSay(ms, v, sub)
    && ConstSays(ms, v) && EnumSays(ms, v) && RequiredSays(ms, v) && TypeSays(ms, v) && UniqueItemsSays(ms, v)
    && LeafSays(x, ms, "pattern", v) && BoundsSay(x, ms, v)
  }

  /** The verdict of the node a schema node leads to. */
  ghost predicate Follows(x: Externals, doc: Value, s: Value, w: Value)
    requires Guarded(x, doc)
  {
    LeadsInto(x, doc, At(s, ""), RankOf(x, doc).Keys) && DocumentAccepts(x, doc, Chase(x, doc, s, {}, false).node, w)
  }

  ghost function Sub(x: Externals, doc: Value): Verdicts
    requires Guarded(x, doc)
  {
    (s: Value, w: Value) => Follows(x, doc, s, w)
  }

  // ---- Constraints read from keywords say what the keywords say ----

  ghost function Lift(sub: Verdicts): (Slot, Value) -> bool {
    (s: Slot, w: Value) => s.EmptySchema? || sub(s.node, w)
  }

  ghost predicate Holding(x: Externals, r: Reading, v: Value, sub: Verdicts)
    requires r.Some?
  {
    forall c <- r.value :: Holds(x, c, v, Lift(sub))
  }

  lemma OneHolds(x: Externals, r: Reading, c: Constraint<Slot>, v: Value, sub: Verdicts)
    requires r == Some([c])
    ensures Holding(x, r, v, sub) <==> Holds(x, c, v, Lift(sub))
  {
    hide Holds;
    assert forall d <- r.value :: d == c;
    assert c in r.value;
  }

  /** A reading says of v just what `said` says. */
  ghost predicate Says(x: Externals, r: Reading, v: Value, sub: Verdicts, said: bool) {
    r.Some? ==> (Holding(x, r, v, sub) <==> said)
  }

  lemma AllOfIsSaid(x: Externals, ms: seq<Member>, v: Value, sub: Verdicts)
    ensures Says(x, ReadAllOf(ms), v, sub, AllOfSays(ms, v, sub))
  {
    var r, u := ReadAllOf(ms), Find(ms, "allOf");
    if u.Some? && r.Some? {
      var items, slots := AsArray(u.value), Elements(AsArray(u.value), "/allOf");
      assert items == if u.value.Array? then u.value.items else [];
      OneHolds(x, r, AllOf(slots), v, sub);
      assert forall k :: 0 <= k < |items| ==> Lift(sub)(slots[k], v) == sub(items[k], v);
    }
  }

  lemma AnyOfIsSaid(x: Externals, ms: seq<Member>, v: Value, sub: Verdicts)
    ensures Says(x, ReadAnyOf(ms), v, sub, AnyOfSays(ms, v, sub))
  {
    var r, u := ReadAnyOf(ms), Find(ms, "anyOf");
    if u.Some? && r.Some? {
      var items, slots := AsArray(u.value), Elements(AsArray(u.value), "/anyOf");
      assert items == if u.value.Array? then u.value.items else [];
      OneHolds(x, r, AnyOf(slots), v, sub);
      assert forall k :: 0 <= k < |items| ==> Lift(sub)(slots[k], v) == sub(items[k], v);
    }
  }

  lemma OneOfIsSaid(x: Externals, ms: seq<Member>, v: Value, sub: Verdicts)
    ensures Says(x, ReadOneOf(ms), v, sub, OneOfSays(ms, v, sub))
  {
    var r, u := ReadOneOf(ms), Find(ms, "oneOf");
    if u.Some? && r.Some? {
      var items, slots := u.value.items, Elements(u.value.items, "/oneOf");
      OneHolds(x, r, OneOf(slots), v, sub);
      assert forall k :: 0 <= k < |items| ==> Lift(sub)(slots[k], v) == sub(items[k], v);
      forall k | 0 <= k < |items| ensures JustThis(items, k, v, sub) <==> OnlyOne(slots, k, v, Lift(sub)) {
        if OnlyOne(slots, k, v, Lift(sub)) {
          forall j | 0 <= j < |items| ensures sub(items[j], v) <==> j == k {
            assert Lift(sub)(slots[j], v) == sub(items[j], v);
          }
        }
      }
    }
  }

  lemma NotIsSaid(x: Externals, ms: seq<Member>, v: Value, sub: Verdicts)
    ensures Says(x, ReadNot(ms), v, sub, NotSays(ms, v, sub))
  {
    var r, u := ReadNot(ms), Find(ms, "not");
    if u.Some? && r.Some? { OneHolds(x, r, Not(At(u.value, "/not")), v, sub); }
  }

  lemma IfIsSaid(x: Externals, ms: seq<Member>, v: Value, sub: Verdicts)
    ensures Says(x, ReadConditional(ms), v, sub, IfSays(ms, v, sub))
  {
    var r, u := ReadConditional(ms), Find(ms, "if");
    if u.Some? {
      OneHolds(x, r, Conditional(At(u.value, "/if"), Branch(Find(ms, "then"), "/then"),
                                 Branch(Find(ms, "else"), "/else")), v, sub);
    }
  }

  lemma SingleIsSaid(u: Value, suffix: string, w: Value, sub: Verdicts)
    requires ReadSingle(u, suffix).Some?
    ensures Lift(sub)(ReadSingle(u, suffix).value, w) == SingleSays(u, w, sub)
  {
  }

  lemma ContainsIsSaid(x: Externals, ms: seq<Member>, v: Value, sub: Verdicts)
    ensures Says(x, ReadContains(ms), v, sub, ContainsSays(ms, v, sub))
  {
    var r, u := ReadContains(ms), Find(ms, "contains");
    if u.Some? && r.Some? {
      var s := ReadSingle(u.value, "/contains").value;
      OneHolds(x, r, Contains(s), v, sub);
      if v.Array? {
        forall k | 0 <= k < |v.items| ensures Lift(sub)(s, v.items[k]) == SingleSays(u.value, v.items[k], sub) {
          SingleIsSaid(u.value, "/contains", v.items[k], sub);
        }
      }
    }
  }

  lemma ItemsAreSaid(x: Externals, ms: seq<Member>, v: Value, sub: Verdicts)
    ensures Says(x, ReadItems(ms), v, sub, ItemsSay(ms, v, sub))
  {
    var u := Find(ms, "items");
    if u.Some? && ReadItems(ms).Some? {
      if u.value.Array? {
        TupleIsSaid(x, ms, v, sub);
      } else {
        var s := ReadSingle(u.value, "/items").value;
        OneHolds(x, ReadItems(ms), SingularItems(s), v, sub);
        if v.Array? {
          forall k | 0 <= k < |v.items| ensures Lift(sub)(s, v.items[k]) == SingleSays(u.value, v.items[k], sub) {
            SingleIsSaid(u.value, "/items", v.items[k], sub);
          }
        }
      }
    }
  }

  lemma TupleIsSaid(x: Externals, ms: seq<Member>, v: Value, sub: Verdicts)
    requires Find(ms, "items").Some? && Find(ms, "items").value.Array? && ReadItems(ms).Some?
    ensures Says(x, ReadItems(ms), v, sub, ItemsSay(ms, v, sub))
  {
    hide Find, Elements, ItemHolds, AdditionalSays, ReadAdditionalItems;
    var items, rest := Find(ms, "items").value.items, Find(ms, "additionalItems");
    var slots, additional := Elements(items, "/items"), ReadAdditionalItems(rest).value;
    OneHolds(x, ReadItems(ms), LinearItems(slots, additional), v, sub);
    if v.Array? {
      forall k | 0 <= k < |v.items|
        ensures ItemHolds(slots, additional, k, v.items[k], Lift(sub)) ==
          (if k < |items| then sub(items[k], v.items[k]) else AdditionalSays(rest, v.items[k], sub))
      {
        ItemIsSaid(items, rest, k, v.items[k], sub);
      }
    }
  }

  lemma ItemIsSaid(items: seq<Value>, rest: Option<Value>, k: nat, item: Value, sub: Verdicts)
    requires ReadAdditionalItems(rest).Some?
    ensures ItemHolds(Elements(items, "/items"), ReadAdditionalItems(rest).value, k, item, Lift(sub)) ==
      (if k < |items| then sub(items[k], item) else AdditionalSays(rest, item, sub))
  {
    hide Elements;
  }

  lemma PropertyIsSaid(x: Externals, ms: seq<Member>, m: Member, sub: Verdicts)
    requires ReadAdditionalProperties(Find(ms, "additionalProperties")).Some?
    ensures MemberHolds(x, NamedElements(MembersIfPresent(Find(ms, "properties")), "/properties"),
                        NamedElements(MembersIfPresent(Find(ms, "patternProperties")), "/patternProperties"),
                        ReadAdditionalProperties(Find(ms, "additionalProperties")).value, m, Lift(sub))
      == PropertySays(x, ms, m, sub)
  {
    hide Find, MembersIfPresent, HasEntry, NamedHolds, PatternsHold, Matched, NamedElements;
    var named, patterns := MembersIfPresent(Find(ms, "properties")), MembersIfPresent(Find(ms, "patternProperties"));
    var ns, ps := NamedElements(named, "/properties"), NamedElements(patterns, "/patternProperties");
    EntriesAre(ms, "properties");
    EntriesAre(ms, "patternProperties");
    NamedAreSaid(ms, named, ns, m, sub);
    PatternsAreSaid(x, ms, patterns, ps, m, sub);
    MatchedAre(x, named, patterns, ns, ps, m.key);
    AdditionalIsSaid(Find(ms, "additionalProperties"), m.value, sub);
  }

  lemma MatchedAre(x: Externals, named: seq<Member>, patterns: seq<Member>, ns: seq<Named<Slot>>, ps: seq<Named<Slot>>,
                   key: string)
    requires |ns| == |named| && forall k :: 0 <= k < |named| ==> ns[k].name == named[k].key
    requires |ps| == |patterns| && forall k :: 0 <= k < |patterns| ==> ps[k].name == patterns[k].key
    ensures Matched(x, ns, ps, key) <==>
      (exists k :: 0 <= k < |named| && named[k].key == key) ||
      (exists k :: 0 <= k < |patterns| && x.regexSearch(patterns[k].key, key))
  {
  }

  lemma AdditionalIsSaid(u: Option<Value>, w: Value, sub: Verdicts)
    requires ReadAdditionalProperties(u).Some?
    ensures var a := ReadAdditionalProperties(u).value; a.Some? && Lift(sub)(a.value, w) <==> AdditionalSays(u, w, sub)
  {
  }

  lemma EntriesAre(ms: seq<Member>, keyword: string)
    ensures forall e :: HasEntry(ms, keyword, e) <==> e in MembersIfPresent(Find(ms, keyword))
  {
    hide Find;
  }

  lemma NamedAreSaid(ms: seq<Member>, named: seq<Member>, ns: seq<Named<Slot>>, m: Member, sub: Verdicts)
    requires forall e :: HasEntry(ms, "properties", e) <==> e in named
    requires |ns| == |named| && forall k :: 0 <= k < |named| ==>
      ns[k].name == named[k].key && ns[k].child.At? && ns[k].child.node == named[k].value
    ensures NamedHolds(ns, m, Lift(sub)) <==>
      forall e :: HasEntry(ms, "properties", e) && e.key == m.key ==> sub(e.value, m.value)
    ensures (exists k :: 0 <= k < |named| && named[k].key == m.key) <==>
      exists e :: HasEntry(ms, "properties", e) && e.key == m.key
  {
    hide HasEntry;
    assert NamedHolds(ns, m, Lift(sub)) <==>
      forall k :: 0 <= k < |named| && named[k].key == m.key ==> sub(named[k].value, m.value);
    assert forall k :: 0 <= k < |named| ==> HasEntry(ms, "properties", named[k]);
  }

  lemma PatternsAreSaid(x: Externals, ms: seq<Member>, patterns: seq<Member>, ps: seq<Named<Slot>>, m: Member,
                        sub: Verdicts)
    requires forall e :: HasEntry(ms, "patternProperties", e) <==> e in patterns
    requires |ps| == |patterns| && forall k :: 0 <= k < |patterns| ==>
      ps[k].name == patterns[k].key && ps[k].child.At? && ps[k].child.node == patterns[k].value
    ensures PatternsHold(x, ps, m, Lift(sub)) <==>
      forall e :: HasEntry(ms, "patternProperties", e) && x.regexSearch(e.key, m.key) ==> sub(e.value, m.value)
    ensures (exists k :: 0 <= k < |patterns| && x.regexSearch(patterns[k].key, m.key)) <==>
      exists e :: HasEntry(ms, "patternProperties", e) && x.regexSearch(e.key, m.key)
  {
    hide HasEntry;
    assert PatternsHold(x, ps, m, Lift(sub)) <==>
      forall k :: 0 <= k < |patterns| && x.regexSearch(patterns[k].key, m.key) ==> sub(patterns[k].value, m.value);
    assert forall k :: 0 <= k < |patterns| ==> HasEntry(ms, "patternProperties", patterns[k]);
  }

  lemma PropertiesAreSaid(x: Externals, ms: seq<Member>, v: Value, sub: Verdicts)
    ensures Says(x, ReadProperties(ms), v, sub, PropertiesSay(x, ms, v, sub))
  {
    hide MemberHolds, PropertySays, NamedElements, MembersIfPresent, Find, ReadAdditionalProperties;
    var named, patterns, rest := Find(ms, "properties"), Find(ms, "patternProperties"), Find(ms,
        "additionalProperties");
    if named.None? && patterns.None? && rest.None? {
      NoPropertiesSaid(x, ms, v, sub);
      NothingHolds(x, v, sub);
    } else if ReadProperties(ms).Some? {
      OneHolds(x, ReadProperties(ms), Properties(NamedElements(MembersIfPresent(named), "/properties"),
                                                 NamedElements(MembersIfPresent(patterns), "/patternProperties"),
                                                 ReadAdditionalProperties(rest).value), v, sub);
      if v.Object? {
        forall m | m in v.members { PropertyIsSaid(x, ms, m, sub); }
      }
    }
  }

  lemma NoPropertiesSaid(x: Externals, ms: seq<Member>, v: Value, sub: Verdicts)
    requires Find(ms, "properties").None? && Find(ms, "patternProperties").None?
    requires Find(ms, "additionalProperties").None?
    ensures PropertiesSay(x, ms, v, sub)
  {
    hide Find;
    if v.Object? {
      forall m | m in v.members ensures PropertySays(x, ms, m, sub) {
        assert forall e :: !HasEntry(ms, "properties", e) && !HasEntry(ms, "patternProperties", e);
      }
    }
  }

  lemma PropertyNamesAreSaid(x: Externals, ms: seq<Member>, v: Value, sub: Verdicts)
    ensures Says(x, ReadPropertyNames(ms), v, sub, PropertyNamesSays(ms, v, sub))
  {
    var u := Find(ms, "propertyNames");
    if u.Some? {
      OneHolds(x, ReadPropertyNames(ms), PropertyNames(At(u.value, "")), v, sub);
      assert v.Object? ==> forall m <- v.members :: Lift(sub)(At(u.value, ""), Str(m.key)) == sub(u.value, Str(m.key));
    }
  }

  ghost predicate PropertyDependencyHolds(p: Dependency, ms: seq<Member>) {
    Find(ms, p.name).Some? ==> forall n <- p.needs :: Find(ms, n).Some?
  }

  /** A member of `dependencies`, as a list of names. */
  ghost predicate NamesNeeded(d: Member, ms: seq<Member>) {
    MaybeArray(d.value) && Find(ms, d.key).Some? ==> forall n :: Str(n) in AsArray(d.value) ==> Find(ms, n).Some?
  }

  /** A member of `dependencies`, as a schema. */
  ghost predicate SchemaNeeded(d: Member, v: Value, sub: Verdicts)
    requires v.Object?
  {
    !MaybeArray(d.value) && Find(v.members, d.key).Some? ==> sub(d.value, v)
  }

  ghost predicate SchemaDependencyHolds(s: Named<Slot>, v: Value, sub: Verdicts)
    requires v.Object?
  {
    Find(v.members, s.name).Some? ==> Lift(sub)(s.child, v)
  }

  lemma {:induction false} PropertyDependenciesSay(members: seq<Member>, ms: seq<Member>)
    requires DependenciesReadable(members)
    ensures (forall p <- PropertyDependencies(members) :: PropertyDependencyHolds(p, ms)) <==>
      forall d <- members :: NamesNeeded(d, ms)
  {
    if members != [] {
      var d := members[0];
      assert members == [d] + members[1..];
      PropertyDependenciesSay(members[1..], ms);
      if MaybeArray(d.value) {
        var p := Dependency(d.key, NameSet(AsArray(d.value)));
        assert PropertyDependencyHolds(p, ms) <==> NamesNeeded(d, ms);
        assert p in PropertyDependencies(members);
      }
      hide PropertyDependencyHolds;
      assert forall p :: p in PropertyDependencies(members[1..]) ==> p in PropertyDependencies(members);
      assert forall e <- members :: e == d || e in members[1..];
    }
  }

  lemma {:induction false} SchemaDependenciesSay(members: seq<Member>, v: Value, sub: Verdicts)
    requires v.Object?
    ensures (forall s <- SchemaDependencies(members) :: SchemaDependencyHolds(s, v, sub)) <==>
      forall d <- members :: SchemaNeeded(d, v, sub)
  {
    if members != [] {
      var d := members[0];
      assert members == [d] + members[1..];
      SchemaDependenciesSay(members[1..], v, sub);
      if !MaybeArray(d.value) {
        var s := Named(d.key, At(d.value, "/dependencies"));
        assert SchemaDependencyHolds(s, v, sub) <==> SchemaNeeded(d, v, sub);
        assert s in SchemaDependencies(members);
      }
      hide SchemaDependencyHolds;
      assert forall s :: s in SchemaDependencies(members[1..]) ==> s in SchemaDependencies(members);
      assert forall e <- members :: e == d || e in members[1..];
    }
  }

  lemma DependenciesAreSaid(x: Externals, ms: seq<Member>, v: Value, sub: Verdicts)
    ensures Says(x, ReadDependencies(ms), v, sub, DependenciesSay(ms, v, sub))
  {
    hide Find, Holds, DependencySays, NamesNeeded, SchemaNeeded, PropertyDependencyHolds, SchemaDependencyHolds,
         PropertyDependencies, SchemaDependencies, DependenciesReadable;
    var r := ReadDependencies(ms);
    if Find(ms, "dependencies").Some? && r.Some? {
      var members := AsObject(Find(ms, "dependencies").value);
      var ps, ss := PropertyDependencies(members), SchemaDependencies(members);
      OneHolds(x, r, Constraint.Dependencies(ps, ss), v, sub);
      if v.Object? {
        PropertyDependenciesSay(members, v.members);
        SchemaDependenciesSay(members, v, sub);
        DependenciesApart(x, ps, ss, v, sub);
        forall d | d in members
          ensures DependencySays(d, v, sub) <==> NamesNeeded(d, v.members) && SchemaNeeded(d, v, sub)
        {
          DependencyIsSaid(d, v, sub);
        }
      } else {
        NothingDepends(x, ps, ss, v, sub);
      }
    }
  }

  lemma NothingDepends(x: Externals, ps: seq<Dependency>, ss: seq<Named<Slot>>, v: Value, sub: Verdicts)
    requires !v.Object?
    ensures Holds(x, Constraint.Dependencies(ps, ss), v, Lift(sub))
  {
  }

  lemma DependencyIsSaid(d: Member, v: Value, sub: Verdicts)
    requires v.Object?
    ensures DependencySays(d, v, sub) <==> NamesNeeded(d, v.members) && SchemaNeeded(d, v, sub)
  {
    hide Find;
  }

  lemma DependenciesApart(x: Externals, ps: seq<Dependency>, ss: seq<Named<Slot>>, v: Value, sub: Verdicts)
    requires v.Object?
    ensures Holds(x, Constraint.Dependencies(ps, ss), v, Lift(sub)) <==>
      (forall p <- ps :: PropertyDependencyHolds(p, v.members)) && (forall s <- ss :: SchemaDependencyHolds(s, v, sub))
  {
    assert forall k :: 0 <= k < |ss| ==> ss[k] in ss;
  }

  lemma FlatHeld(x: Externals, r: Reading, f: Flat, v: Value, sub: Verdicts)
    requires r == FlatOne(f)
    ensures Holding(x, r, v, sub) <==> FlatHolds(x, f, v)
  {
    OneHolds(x, r, Plain(f), v, sub);
  }

  lemma ConstIsSaid(x: Externals, ms: seq<Member>, v: Value, sub: Verdicts)
    ensures Says(x, ReadConst(ms), v, sub, ConstSays(ms, v))
  {
    var u := Find(ms, "const");
    if u.Some? { FlatHeld(x, ReadConst(ms), Const(u.value), v, sub); }
  }

  lemma EnumIsSaid(x: Externals, ms: seq<Member>, v: Value, sub: Verdicts)
    ensures Says(x, ReadEnum(ms), v, sub, EnumSays(ms, v))
  {
    var u := Find(ms, "enum");
    if u.Some? && u.value.Array? { FlatHeld(x, ReadEnum(ms), Enum(u.value.items), v, sub); }
  }

  lemma RequiredIsSaid(x: Externals, ms: seq<Member>, v: Value, sub: Verdicts)
    ensures Says(x, ReadRequired(ms), v, sub, RequiredSays(ms, v))
  {
    var r, u := ReadRequired(ms), Find(ms, "required");
    if u.Some? && r.Some? {
      var names := NameSet(u.value.items);
      FlatHeld(x, r, Required(names), v, sub);
      assert forall n :: n in names <==> Str(n) in u.value.items;
    }
  }

  lemma TypeIsSaid(x: Externals, ms: seq<Member>, v: Value, sub: Verdicts)
    ensures Says(x, ReadType(ms), v, sub, TypeSays(ms, v))
  {
    var r, u := ReadType(ms), Find(ms, "type");
    if u.Some? && r.Some? {
      if u.value.Array? {
        var items := u.value.items;
        var types := set k | 0 <= k < |items| :: TypeNamed(items[k].s).value;
        FlatHeld(x, r, Type(types), v, sub);
        NamedTypes(items, types, v);
      } else {
        TypeIsKind(u.value.s, v);
        FlatHeld(x, r, Type({TypeNamed(u.value.s).value}), v, sub);
      }
    }
  }

  lemma TypeIsKind(name: string, v: Value)
    requires TypeNamed(name).Some?
    ensures HasType(v, TypeNamed(name).value) <==> IsKind(name, v)
  {
  }

  lemma NamedTypes(items: seq<Value>, types: set<JsonType>, v: Value)
    requires AllTypeNames(items) && types == set k | 0 <= k < |items| :: TypeNamed(items[k].s).value
    ensures (exists t <- types :: HasType(v, t)) <==> exists t <- items :: t.Str? && IsKind(t.s, v)
  {
    hide TypeNamed, HasType, IsKind;
    forall k | 0 <= k < |items|
      ensures TypeNamed(items[k].s).value in types
      ensures HasType(v, TypeNamed(items[k].s).value) <==> IsKind(items[k].s, v)
    {
      TypeIsKind(items[k].s, v);
    }
  }

  lemma UniqueItemsIsSaid(x: Externals, ms: seq<Member>, v: Value, sub: Verdicts)
    ensures Says(x, ReadUniqueItems(ms), v, sub, UniqueItemsSays(ms, v))
  {
    var r, u := ReadUniqueItems(ms), Find(ms, "uniqueItems");
    if u.Some? && r.Some? && AsBool(u.value) { FlatHeld(x, r, UniqueItems, v, sub); }
  }

  lemma LeafIsSaid(x: Externals, ms: seq<Member>, keyword: string, v: Value, sub: Verdicts)
    ensures Says(x, ReadLeaf(x, ms, keyword), v, sub, LeafSays(x, ms, keyword, v))
  {
    var r, u := ReadLeaf(x, ms, keyword), Find(ms, keyword);
    if u.Some? && r.Some? { FlatHeld(x, r, Leaf(keyword, u.value), v, sub); }
  }

  lemma JoinHolds(x: Externals, a: Reading, b: Reading, v: Value, sub: Verdicts, saidA: bool, saidB: bool)
    requires Says(x, a, v, sub, saidA) && Says(x, b, v, sub, saidB)
    ensures Says(x, Join(a, b), v, sub, saidA && saidB)
  {
    hide Holds;
    assert a.Some? && b.Some? ==> forall c :: c in Join(a, b).value <==> c in a.value || c in b.value;
  }

  lemma {:induction false} LeavesAreSaid(x: Externals, ms: seq<Member>, keywords: seq<string>, v: Value, sub: Verdicts)
    ensures Says(x, ReadLeaves(x, ms, keywords), v, sub, forall k <- keywords :: LeafSays(x, ms, k, v))
  {
    hide Says, LeafSays, ReadLeaf;
    if keywords == [] {
      NothingHolds(x, v, sub);
    } else {
      var rest := keywords[1..];
      LeafIsSaid(x, ms, keywords[0], v, sub);
      LeavesAreSaid(x, ms, rest, v, sub);
      JoinHolds(x, ReadLeaf(x, ms, keywords[0]), ReadLeaves(x, ms, rest), v, sub,
                LeafSays(x, ms, keywords[0], v), forall k <- rest :: LeafSays(x, ms, k, v));
      assert keywords == [keywords[0]] + rest;
    }
  }

  lemma NothingHolds(x: Externals, v: Value, sub: Verdicts)
    ensures Says(x, Nothing(), v, sub, true)
  {
  }

  lemma TextIsSaid(x: Externals, ms: seq<Member>, v: Value, sub: Verdicts)
    ensures Says(x, ReadText(ms, "title"), v, sub, true) && Says(x, ReadText(ms, "description"), v, sub, true)
    ensures Says(x, ReadDivisibleBy(ms), v, sub, true) && Says(x, ReadId(ms), v, sub, true)
  {
  }

  /** The conjunction of what each reading says. */
  ghost predicate AllSay(x: Externals, rs: seq<Reading>, v: Value, sub: Verdicts, said: seq<bool>)
    requires |rs| == |said|
  {
    forall k :: 0 <= k < |rs| ==> Says(x, rs[k], v, sub, said[k])
  }

  ghost predicate All(said: seq<bool>) {
    forall k :: 0 <= k < |said| ==> said[k]
  }

  lemma AllOfTail(said: seq<bool>)
    requires said != []
    ensures All(said) <==> said[0] && All(said[1..])
  {
    if All(said[1..]) && said[0] {
      forall k | 0 <= k < |said| ensures said[k] {
        assert k > 0 ==> said[1..][k - 1];
      }
    }
  }

  lemma {:induction false} JoinAllHolds(x: Externals, rs: seq<Reading>, v: Value, sub: Verdicts, said: seq<bool>)
    requires |rs| == |said| && AllSay(x, rs, v, sub, said)
    ensures Says(x, JoinAll(rs), v, sub, All(said))
  {
    hide Says;
    if rs == [] {
      NothingHolds(x, v, sub);
    } else {
      AllOfTail(said);
      assert AllSay(x, rs[1..], v, sub, said[1..]);
      JoinAllHolds(x, rs[1..], v, sub, said[1..]);
      JoinHolds(x, rs[0], JoinAll(rs[1..]), v, sub, said[0], All(said[1..]));
    }
  }

  /** What is read from the members of a schema object says what the members say. */
  lemma ReadSays(x: Externals, ms: seq<Member>, v: Value, sub: Verdicts)
    ensures Says(x, ReadKeywords(x, ms), v, sub, SchemaSays(x, ms, v, sub))
  {
    hide Says, AllOfSays, AnyOfSays, OneOfSays, NotSays, IfSays, ContainsSays, ItemsSay, PropertiesSay,
         PropertyNamesSays, DependenciesSay, ConstSays, EnumSays, RequiredSays, TypeSays, UniqueItemsSays, LeafSays,
         BoundsSay, KeywordsToContains, KeywordsToItems, KeywordsToPattern, KeywordsToUniqueItems;
    var a := ToContainsSays(x, ms, v, sub);
    var b := ToItemsSays(x, ms, v, sub);
    var c := ToPatternSays(x, ms, v, sub);
    var d := ToUniqueItemsSays(x, ms, v, sub);
    JoinHolds(x, KeywordsToPattern(x, ms), KeywordsToUniqueItems(ms), v, sub, c, d);
    JoinHolds(x, KeywordsToItems(ms), Join(KeywordsToPattern(x, ms), KeywordsToUniqueItems(ms)), v, sub, b, c && d);
    JoinHolds(x, KeywordsToContains(ms), Join(KeywordsToItems(ms),
                                              Join(KeywordsToPattern(x, ms), KeywordsToUniqueItems(ms))),
              v, sub, a, b && c && d);
  }

  lemma FiveSay(x: Externals, a: Reading, b: Reading, c: Reading, d: Reading, e: Reading, v: Value, sub: Verdicts,
                saidA: bool, saidB: bool, saidC: bool, saidD: bool, saidE: bool)
    requires Says(x, a, v, sub, saidA) && Says(x, b, v, sub, saidB) && Says(x, c, v, sub, saidC)
    requires Says(x, d, v, sub, saidD) && Says(x, e, v, sub, saidE)
    ensures Says(x, JoinAll([a, b, c, d, e]), v, sub, saidA && saidB && saidC && saidD && saidE)
  {
    hide Says, JoinAll;
    var all := [saidA, saidB, saidC, saidD, saidE];
    JoinAllHolds(x, [a, b, c, d, e], v, sub, all);
    assert All(all) ==> all[0] && all[1] && all[2] && all[3] && all[4];
  }

  lemma SixSay(x: Externals, a: Reading, b: Reading, c: Reading, d: Reading, e: Reading, f: Reading, v: Value,
               sub: Verdicts,
               saidA: bool, saidB: bool, saidC: bool, saidD: bool, saidE: bool, saidF: bool)
    requires Says(x, a, v, sub, saidA) && Says(x, b, v, sub, saidB) && Says(x, c, v, sub, saidC)
    requires Says(x, d, v, sub, saidD) && Says(x, e, v, sub, saidE) && Says(x, f, v, sub, saidF)
    ensures Says(x, JoinAll([a, b, c, d, e, f]), v, sub, saidA && saidB && saidC && saidD && saidE && saidF)
  {
    hide Says, JoinAll;
    var all := [saidA, saidB, saidC, saidD, saidE, saidF];
    JoinAllHolds(x, [a, b, c, d, e, f], v, sub, all);
    assert All(all) ==> all[0] && all[1] && all[2] && all[3] && all[4] && all[5];
  }

  lemma ToContainsSays(x: Externals, ms: seq<Member>, v: Value, sub: Verdicts) returns (said: bool)
    ensures said <==> AllOfSays(ms, v, sub) && AnyOfSays(ms, v, sub) && ConstSays(ms, v) && ContainsSays(ms, v, sub)
    ensures Says(x, KeywordsToContains(ms), v, sub, said)
  {
    hide Says, AllOfSays, AnyOfSays, ConstSays, ContainsSays, ReadId, ReadAllOf, ReadAnyOf, ReadConst, ReadContains,
         JoinAll;
    TextIsSaid(x, ms, v, sub);
    AllOfIsSaid(x, ms, v, sub);
    AnyOfIsSaid(x, ms, v, sub);
    ConstIsSaid(x, ms, v, sub);
    ContainsIsSaid(x, ms, v, sub);
    FiveSay(x, ReadId(ms), ReadAllOf(ms), ReadAnyOf(ms), ReadConst(ms), ReadContains(ms), v, sub,
            true, AllOfSays(ms, v, sub), AnyOfSays(ms, v, sub), ConstSays(ms, v), ContainsSays(ms, v, sub));
    said := AllOfSays(ms, v, sub) && AnyOfSays(ms, v, sub) && ConstSays(ms, v) && ContainsSays(ms, v, sub);
  }

  lemma ToItemsSays(x: Externals, ms: seq<Member>, v: Value, sub: Verdicts) returns (said: bool)
    ensures said <==> DependenciesSay(ms, v, sub) && EnumSays(ms, v) && ItemsSay(ms, v, sub)
    ensures Says(x, KeywordsToItems(ms), v, sub, said)
  {
    hide Says, DependenciesSay, EnumSays, ItemsSay, ReadDependencies, ReadText, ReadDivisibleBy, ReadEnum, ReadItems,
         JoinAll;
    DependenciesAreSaid(x, ms, v, sub);
    TextIsSaid(x, ms, v, sub);
    EnumIsSaid(x, ms, v, sub);
    ItemsAreSaid(x, ms, v, sub);
    FiveSay(x, ReadDependencies(ms), ReadText(ms, "description"), ReadDivisibleBy(ms), ReadEnum(ms), ReadItems(ms), v,
            sub,
            DependenciesSay(ms, v, sub), true, true, EnumSays(ms, v), ItemsSay(ms, v, sub));
    said := DependenciesSay(ms, v, sub) && EnumSays(ms, v) && ItemsSay(ms, v, sub);
  }

  lemma BoundsAre(x: Externals, ms: seq<Member>, v: Value)
    ensures BoundsSay(x, ms, v) <==> forall k <- BOUNDS :: LeafSays(x, ms, k, v)
  {
    hide LeafSays;
    assert BOUNDS[0] == "exclusiveMaximum" && BOUNDS[1] == "maximum" && BOUNDS[2] == "maxItems";
    assert BOUNDS[3] == "maxLength" && BOUNDS[4] == "maxProperties" && BOUNDS[5] == "exclusiveMinimum";
    assert BOUNDS[6] == "minimum" && BOUNDS[7] == "minItems" && BOUNDS[8] == "minLength";
    assert BOUNDS[9] == "minProperties" && BOUNDS[10] == "multipleOf";
  }

  lemma ToPatternSays(x: Externals, ms: seq<Member>, v: Value, sub: Verdicts) returns (said: bool)
    ensures said <==>
      (IfSays(ms, v, sub) && BoundsSay(x, ms, v) && NotSays(ms, v, sub) && OneOfSays(ms, v, sub) &&
       LeafSays(x, ms, "pattern", v))
    ensures Says(x, KeywordsToPattern(x, ms), v, sub, said)
  {
    hide Says, IfSays, LeafSays, NotSays, OneOfSays, ReadConditional, ReadLeaves, ReadNot, ReadOneOf, ReadLeaf,
         JoinAll, BOUNDS, BoundsSay;
    IfIsSaid(x, ms, v, sub);
    LeavesAreSaid(x, ms, BOUNDS, v, sub);
    BoundsAre(x, ms, v);
    NotIsSaid(x, ms, v, sub);
    OneOfIsSaid(x, ms, v, sub);
    LeafIsSaid(x, ms, "pattern", v, sub);
    FiveSay(x, ReadConditional(ms), ReadLeaves(x, ms, BOUNDS), ReadNot(ms), ReadOneOf(ms), ReadLeaf(x, ms, "pattern"),
            v, sub,
            IfSays(ms, v, sub), BoundsSay(x, ms, v), NotSays(ms, v, sub), OneOfSays(ms, v, sub), LeafSays(x, ms,
                "pattern", v));
    said := IfSays(ms, v, sub) && BoundsSay(x, ms, v) && NotSays(ms, v, sub) && OneOfSays(ms, v, sub) &&
      LeafSays(x, ms, "pattern", v);
  }

  lemma ToUniqueItemsSays(x: Externals, ms: seq<Member>, v: Value, sub: Verdicts) returns (said: bool)
    ensures said <==>
      (PropertiesSay(x, ms, v, sub) && PropertyNamesSays(ms, v, sub) && RequiredSays(ms, v) && TypeSays(ms, v) &&
       UniqueItemsSays(ms, v))
    ensures Says(x, KeywordsToUniqueItems(ms), v, sub, said)
  {
    hide Says, PropertiesSay, PropertyNamesSays, RequiredSays, TypeSays, UniqueItemsSays, ReadProperties,
         ReadPropertyNames, ReadRequired, ReadText, ReadType, ReadUniqueItems, JoinAll;
    PropertiesAreSaid(x, ms, v, sub);
    PropertyNamesAreSaid(x, ms, v, sub);
    RequiredIsSaid(x, ms, v, sub);
    TextIsSaid(x, ms, v, sub);
    TypeIsSaid(x, ms, v, sub);
    UniqueItemsIsSaid(x, ms, v, sub);
    SixSay(x, ReadProperties(ms), ReadPropertyNames(ms), ReadRequired(ms), ReadText(ms, "title"), ReadType(ms),
           ReadUniqueItems(ms),
           v, sub, PropertiesSay(x, ms, v, sub), PropertyNamesSays(ms, v, sub), RequiredSays(ms, v), true, TypeSays(ms,
               v),
           UniqueItemsSays(ms, v));
    said := PropertiesSay(x, ms, v, sub) && PropertyNamesSays(ms, v, sub) && RequiredSays(ms, v) && TypeSays(ms, v) &&
      UniqueItemsSays(ms, v);
  }

  // ---- The verdict of the document ----

  /** The bounds that make the verdicts of a document well founded never bite. */
  lemma SlotsAgree(x: Externals, doc: Value, n: Value, v: Value, c: Constraint<Slot>)
    requires Guarded(x, doc) && n in RankOf(x, doc)
    requires Read(x, n).Some? && c in Read(x, n).value.constraints
    ensures Agree(c, c, v, SlotAccepts(x, doc, n, v), Lift(Sub(x, doc)))
  {
    hide Read, SlotAccepts, Lift, Sub, InPlace, Inside, Chase, Pointers, Guarded, Size, RankOf, LeadsInto;
    SlotsLead(x, doc, n, c);
    var a, b := SlotAccepts(x, doc, n, v), Lift(Sub(x, doc));
    forall k | 0 <= k < |InPlace(c)| ensures AgreeInPlace(c, c, v, a, b, k) {
      SlotAgrees(x, doc, n, v, InPlace(c)[k], v);
    }
    forall k | 0 <= k < |Inside(c)| ensures AgreeInside(c, c, v, a, b, k) {
      forall w | Size(w) < Size(v) ensures a(Inside(c)[k], w) == b(Inside(c)[k], w) {
        SlotAgrees(x, doc, n, v, Inside(c)[k], w);
      }
    }
  }

  lemma SlotAgrees(x: Externals, doc: Value, n: Value, v: Value, s: Slot, w: Value)
    requires Guarded(x, doc) && n in RankOf(x, doc) && LeadsInto(x, doc, s, RankOf(x, doc).Keys)
    requires Size(w) < Size(v) || (w == v &&
      (s.At? ==> RankOf(x, doc)[Chase(x, doc, s.node, {}, false).node] < RankOf(x, doc)[n]))
    ensures SlotAccepts(x, doc, n, v)(s, w) == Lift(Sub(x, doc))(s, w)
  {
    hide Read, DocumentAccepts, Chase, Pointers, Guarded, Size, RankOf;
  }

  lemma SlotsLead(x: Externals, doc: Value, n: Value, c: Constraint<Slot>)
    requires Guarded(x, doc) && n in RankOf(x, doc)
    requires Read(x, n).Some? && c in Read(x, n).value.constraints
    ensures forall s | s in InPlace(c) || s in Inside(c) :: LeadsInto(x, doc, s, RankOf(x, doc).Keys)
    ensures forall s <- InPlace(c) :: s.At? ==>
      RankOf(x, doc)[Chase(x, doc, s.node, {}, false).node] < RankOf(x, doc)[n]
  {
    hide Read, InPlace, Inside, Chase, Pointers, Size;
    assert NodeClosed(x, doc, n, RankOf(x, doc).Keys) && NodeRanked(x, doc, RankOf(x, doc), n);
  }

  lemma DomainReads(x: Externals, doc: Value, n: Value)
    requires Guarded(x, doc) && n in RankOf(x, doc)
    ensures Read(x, n).Some?
  {
    assert NodeClosed(x, doc, n, RankOf(x, doc).Keys);
  }

  /** The verdict of a schema node, by its constraints but without the bounds. */
  lemma ConstraintsDecide(x: Externals, doc: Value, n: Value, v: Value)
    requires Guarded(x, doc) && n in RankOf(x, doc)
    ensures Read(x, n).Some?
    ensures DocumentAccepts(x, doc, n, v) <==>
      !Read(x, n).value.alwaysInvalid && forall c <- Read(x, n).value.constraints :: Holds(x, c, v, Lift(Sub(x, doc)))
  {
    hide Agree, Holds, Read, Chase, Pointers, Guarded, Ranks, Closed, NodeClosed, Size, SlotAccepts, Sub, RankOf;
    DomainReads(x, doc, n);
    forall c | c in Read(x, n).value.constraints
      ensures Holds(x, c, v, SlotAccepts(x, doc, n, v)) == Holds(x, c, v, Lift(Sub(x, doc)))
    {
      SlotsAgree(x, doc, n, v, c);
      HoldTogether(x, c, c, v, SlotAccepts(x, doc, n, v), Lift(Sub(x, doc)));
    }
  }

  /** The verdict of a schema node is what its keywords say, subschemas and references followed;
      `true` accepts everything and `false` nothing. */
  lemma DocumentMeaning(x: Externals, doc: Value, n: Value, v: Value)
    requires Guarded(x, doc) && n in RankOf(x, doc)
    ensures DocumentAccepts(x, doc, n, v) <==> if n.Object? then SchemaSays(x, n.members, v, Sub(x, doc)) else IsTrue(n)
  {
    hide SchemaSays, Holds, ReadKeywords, Says, Holding, DocumentAccepts, RankOf;
    var sub := Sub(x, doc);
    ConstraintsDecide(x, doc, n, v);
    if n.Object? {
      ReadSays(x, n.members, v, sub);
      SaysHolding(x, ReadKeywords(x, n.members), v, sub, SchemaSays(x, n.members, v, sub));
    }
  }

  lemma SaysHolding(x: Externals, r: Reading, v: Value, sub: Verdicts, said: bool)
    requires Says(x, r, v, sub, said) && r.Some?
    ensures said <==> forall c <- r.value :: Holds(x, c, v, Lift(sub))
  {
  }

  /** What is accepted is of the kind that `type` names. */
  lemma TypeIsAsked(x: Externals, doc: Value, n: Value, v: Value)
    requires Guarded(x, doc) && n in RankOf(x, doc) && n.Object? && DocumentAccepts(x, doc, n, v)
    ensures var u := Find(n.members, "type");
      && (u == Some(Str("array")) ==> v.Array?) && (u == Some(Str("boolean")) ==> v.Bool?)
      && (u == Some(Str("integer")) ==> v.Int?) && (u == Some(Str("null")) ==> v.Null?)
      && (u == Some(Str("number")) ==> v.Int? || v.Double?) && (u == Some(Str("object")) ==> v.Object?)
      && (u == Some(Str("string")) ==> v.Str?)
    ensures var u := Find(n.members, "type");
      u.Some? && u.value.Array? ==> exists t <- u.value.items :: t.Str? && IsKind(t.s, v)
  {
    hide SchemaSays, TypeSays, RankOf, Guarded, DocumentAccepts, Sub;
    DocumentMeaning(x, doc, n, v);
    SchemaSaysType(x, n.members, v, Sub(x, doc));
    KindsAre(n.members, v);
  }

  lemma SchemaSaysType(x: Externals, ms: seq<Member>, v: Value, sub: Verdicts)
    requires SchemaSays(x, ms, v, sub)
    ensures TypeSays(ms, v)
  {
    hide TypeSays, AllOfSays, AnyOfSays, OneOfSays, NotSays, IfSays, ContainsSays, ItemsSay, PropertiesSay,
         PropertyNamesSays, DependenciesSay, ConstSays, EnumSays, RequiredSays, UniqueItemsSays, LeafSays, BoundsSay;
  }

  lemma KindsAre(ms: seq<Member>, v: Value)
    requires TypeSays(ms, v)
    ensures var u := Find(ms, "type");
      && (u == Some(Str("array")) ==> v.Array?) && (u == Some(Str("boolean")) ==> v.Bool?)
      && (u == Some(Str("integer")) ==> v.Int?) && (u == Some(Str("null")) ==> v.Null?)
      && (u == Some(Str("number")) ==> v.Int? || v.Double?) && (u == Some(Str("object")) ==> v.Object?)
      && (u == Some(Str("string")) ==> v.Str?)
    ensures var u := Find(ms, "type");
      u.Some? && u.value.Array? ==> exists t <- u.value.items :: t.Str? && IsKind(t.s, v)
  {
    hide Find;
  }
}
