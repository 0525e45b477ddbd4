/** Reading one schema node of a document: its JSON Reference, or its keywords in the order in
    which `populateSchema` looks for them (Draft 7, no custom constraint builders). */
module Keywords {
  import opened Wrappers
  import opened Json
  import opened JsonPointer
  import opened Strings
  import opened Schemas

  /** What lies outside the model: regular expressions, checks on single values, URNs. */
  datatype Externals = Externals(
    regexSearch: (string, string) -> bool,
    leafArgument: (string, Value) -> bool,
    leafHolds: (string, Value, Value) -> bool,
    isUrn: string -> bool)

  /** A subschema as written: the shared empty schema, or a node of the document together with
      what the parser appends to the path of the enclosing node. */
  datatype Slot = EmptySchema | At(node: Value, suffix: string)

  // ---- Coercions the adapters allow ----

  predicate IsEmptyContainer(v: Value) { v == Array([]) || v == Object([]) }
  predicate MaybeArray(v: Value) { v.Array? || v == Object([]) }
  predicate MaybeObject(v: Value) { v.Object? || v == Array([]) }
  predicate MaybeBool(v: Value) { v.Bool? || v == Str("true") || v == Str("false") }
  predicate MaybeString(v: Value) { v.Str? || v.Bool? || IsNumber(v) || IsEmptyContainer(v) }
  predicate AsBool(v: Value) { v == Bool(true) || v == Str("true") }
  function AsArray(v: Value): seq<Value> { if v.Array? then v.items else [] }
  function AsObject(v: Value): seq<Member> { if v.Object? then v.members else [] }

  // ---- JSON References ----

  datatype Reference = NoReference | BadReference | Reference(uri: Option<string>, pointer: string)

  /** `extractJsonReference`, `getJsonReferenceUri` and `getJsonReferencePointer`. */
  function ReadReference(node: Value): Reference {
    if !node.Object? then NoReference else
      match Find(node.members, "$ref")
      case None => NoReference
      case Some(Str(s)) =>
        var hash := IndexFrom(s, '#', 0);
        if hash == |s| then Reference(Some(s), "")
        else Reference(if hash == 0 then None else Some(s[..hash]), TrimSlashes(s[hash + 1..]))
      case Some(_) => BadReference
  }

  /** All pointers named by references anywhere in a value. */
  function Pointers(v: Value): set<string> {
    var own := match ReadReference(v) case Reference(_, pointer) => {pointer} case _ => {};
    match v
    case Array(items) => set k, p | 0 <= k < |items| && p in Pointers(items[k]) :: p
    case Object(members) =>
      own + set k, p | 0 <= k < |members| && p in Pointers(members[k].value) :: p
    case _ => {}
  }

  /** The key under which the target of a reference is looked up in the cache. */
  function CacheKey(uri: Option<string>, pointer: string): string {
    if uri.Some? then uri.value + pointer else pointer
  }

  /** Strictly inside: smaller, and with no other references. */
  ghost predicate Below(x: Value, n: Value) {
    Size(x) < Size(n) && Pointers(x) <= Pointers(n)
  }

  lemma FindBelow(n: Value, key: string)
    requires n.Object? && Find(n.members, key).Some?
    ensures Below(Find(n.members, key).value, n)
  {
    var x := Find(n.members, key).value;
    var k :| 0 <= k < |n.members| && n.members[k] == Member(key, x);
    assert Pointers(n.members[k].value) <= Pointers(n);
  }

  lemma ItemBelow(n: Value, k: nat)
    requires n.Array? && k < |n.items|
    ensures Below(n.items[k], n)
  {
  }

  lemma MemberBelow(n: Value, k: nat)
    requires n.Object? && k < |n.members|
    ensures Below(n.members[k].value, n)
  {
  }

  lemma {:induction false} ResolveBelow(doc: Value, pointer: string)
    requires Resolve(doc, pointer).Some?
    ensures Pointers(Resolve(doc, pointer).value) <= Pointers(doc)
    decreases |pointer|
  {
    if pointer != "" {
      var next := IndexFrom(pointer, '/', 1);
      var token := Token(pointer[1..next]).value;
      if token == "" {
        ResolveBelow(doc, pointer[next..]);
      } else {
        var child := Step(doc, token).value;
        if doc.Array? {
          ItemBelow(doc, Stoul(token).n);
        } else {
          FindBelow(doc, token);
        }
        ResolveBelow(child, pointer[next..]);
      }
    }
  }

  // ---- Following references ----

  datatype Chased = Concrete(node: Value) | Broken | Cyclic

  predicate IsAbsolute(uri: string) {
    exists k :: 0 <= k <= |uri| && "://" <= uri[k..]
  }

  /** Where a chain of references ends.  References to other documents break the chain, because
      no fetch function is given; at the root only absolute URIs and URNs count as such.  `seen`
      holds the pointers already followed: meeting one again means the chain never ends. */
  function Chase(x: Externals, doc: Value, node: Value, seen: set<string>, atRoot: bool): Chased
    requires Pointers(node) <= Pointers(doc)
    decreases Pointers(doc) - seen
  {
    match ReadReference(node)
    case NoReference => Concrete(node)
    case BadReference => Broken
    case Reference(uri, pointer) =>
      if uri.Some? && !(atRoot && !IsAbsolute(uri.value) && !x.isUrn(uri.value)) then Broken
      else if pointer in seen then Cyclic
      else if Resolve(doc, pointer).None? then Broken
      else
        ResolveBelow(doc, pointer);
        Chase(x, doc, Resolve(doc, pointer).value, seen + {pointer}, atRoot)
  }

  lemma {:induction false} ChaseForgets(x: Externals, doc: Value, node: Value,
                                        seen: set<string>, fewer: set<string>, atRoot: bool)
    requires Pointers(node) <= Pointers(doc) && fewer <= seen
    requires !Chase(x, doc, node, seen, atRoot).Cyclic?
    ensures Chase(x, doc, node, fewer, atRoot) == Chase(x, doc, node, seen, atRoot)
    decreases Pointers(doc) - seen
  {
    match ReadReference(node)
    case Reference(uri, pointer) =>
      if Resolve(doc, pointer).Some? && pointer !in seen {
        ResolveBelow(doc, pointer);
        if !(uri.Some? && !(atRoot && !IsAbsolute(uri.value) && !x.isUrn(uri.value))) {
          ChaseForgets(x, doc, Resolve(doc, pointer).value, seen + {pointer}, fewer + {pointer}, atRoot);
        }
      }
    case _ =>
  }

  // ---- Keywords ----

  type Reading = Option<seq<Constraint<Slot>>>

  function Join(a: Reading, b: Reading): Reading {
    if a.Some? && b.Some? then Some(a.value + b.value) else None
  }

  function One(c: Constraint<Slot>): Reading { Some([c]) }
  function Nothing(): Reading { Some([]) }

  /** The elements of an array, each at its index below `suffix`. */
  function Elements(items: seq<Value>, suffix: string): (r: seq<Slot>)
    ensures |r| == |items|
    ensures forall k :: 0 <= k < |items| ==> r[k] == At(items[k], suffix + "/" + Decimal(k))
  {
    seq(|items|, k requires 0 <= k < |items| => At(items[k], suffix + "/" + Decimal(k)))
  }

  /** The members of an object, each at its name below `suffix`. */
  function NamedElements(members: seq<Member>, suffix: string): (r: seq<Named<Slot>>)
    ensures |r| == |members|
    ensures forall k :: 0 <= k < |members| ==>
      r[k] == Named(members[k].key, At(members[k].value, suffix + "/" + members[k].key))
  {
    seq(|members|, k requires 0 <= k < |members| =>
      Named(members[k].key, At(members[k].value, suffix + "/" + members[k].key)))
  }

  predicate AllSchemaLike(items: seq<Value>) {
    forall k :: 0 <= k < |items| ==> MaybeObject(items[k]) || items[k].Bool?
  }

  function ReadAllOf(ms: seq<Member>): Reading {
    match Find(ms, "allOf")
    case None => Nothing()
    case Some(v) =>
      if MaybeArray(v) && AllSchemaLike(AsArray(v)) then One(AllOf(Elements(AsArray(v), "/allOf"))) else None
  }

  function ReadAnyOf(ms: seq<Member>): Reading {
    match Find(ms, "anyOf")
    case None => Nothing()
    case Some(v) =>
      if MaybeArray(v) && AllSchemaLike(AsArray(v)) then One(AnyOf(Elements(AsArray(v), "/anyOf"))) else None
  }

  function ReadOneOf(ms: seq<Member>): Reading {
    match Find(ms, "oneOf")
    case None => Nothing()
    case Some(v) => if v.Array? then One(OneOf(Elements(v.items, "/oneOf"))) else None
  }

  function ReadNot(ms: seq<Member>): Reading {
    match Find(ms, "not")
    case None => Nothing()
    case Some(v) => if MaybeObject(v) || MaybeBool(v) then One(Not(At(v, "/not"))) else None
  }

  function Branch(v: Option<Value>, suffix: string): Option<Slot> {
    if v.Some? then Some(At(v.value, suffix)) else None
  }

  function ReadConditional(ms: seq<Member>): Reading {
    match Find(ms, "if")
    case None => Nothing()
    case Some(v) =>
      One(Conditional(At(v, "/if"), Branch(Find(ms, "then"), "/then"), Branch(Find(ms, "else"), "/else")))
  }

  /** `contains` and the single form of `items`: an empty array counts as the empty schema. */
  function ReadSingle(v: Value, suffix: string): Option<Slot> {
    if v.Object? || MaybeBool(v) then Some(At(v, suffix))
    else if MaybeObject(v) then Some(EmptySchema)
    else None
  }

  function ReadContains(ms: seq<Member>): Reading {
    match Find(ms, "contains")
    case None => Nothing()
    case Some(v) =>
      var s := ReadSingle(v, "/contains");
      if s.Some? then One(Contains(s.value)) else None
  }

  function ReadItems(ms: seq<Member>): Reading {
    match Find(ms, "items")
    case None => Nothing()
    case Some(Array(items)) =>
      var additional := ReadAdditionalItems(Find(ms, "additionalItems"));
      if additional.Some? then One(LinearItems(Elements(items, "/items"), additional.value)) else None
    case Some(v) =>
      var s := ReadSingle(v, "/items");
      if s.Some? then One(SingularItems(s.value)) else None
  }

  /** Absent and true mean the empty schema, false means no subschema at all. */
  function ReadAdditionalItems(v: Option<Value>): Option<Option<Slot>> {
    match v
    case None => Some(Some(EmptySchema))
    case Some(a) =>
      if MaybeBool(a) then Some(if AsBool(a) then Some(EmptySchema) else None)
      else if MaybeObject(a) then Some(Some(At(a, "/additionalItems")))
      else None
  }

  function ReadAdditionalProperties(v: Option<Value>): Option<Option<Slot>> {
    match v
    case None => Some(Some(EmptySchema))
    case Some(a) =>
      if MaybeBool(a) then Some(if AsBool(a) then Some(EmptySchema) else None)
      else if a.Object? then Some(Some(At(a, "/additionalProperties")))
      else None
  }

  predicate ObjectIfPresent(v: Option<Value>) { v.Some? ==> v.value.Object? }

  function MembersIfPresent(v: Option<Value>): seq<Member> {
    if v.Some? then AsObject(v.value) else []
  }

  function ReadProperties(ms: seq<Member>): Reading {
    var named, patterns, rest := Find(ms, "properties"), Find(ms, "patternProperties"), Find(ms,
        "additionalProperties");
    if named.None? && patterns.None? && rest.None? then Nothing()
    else
      var additional := ReadAdditionalProperties(rest);
      if ObjectIfPresent(named) && ObjectIfPresent(patterns) && additional.Some? then
        One(Properties(NamedElements(MembersIfPresent(named), "/properties"),
                       NamedElements(MembersIfPresent(patterns), "/patternProperties"),
                       additional.value))
      else None
  }

  /** The path handed down for `propertyNames` is the path of the enclosing schema itself. */
  function ReadPropertyNames(ms: seq<Member>): Reading {
    match Find(ms, "propertyNames")
    case None => Nothing()
    case Some(v) => One(PropertyNames(At(v, "")))
  }

  predicate AllStrings(items: seq<Value>) {
    forall k :: 0 <= k < |items| ==> items[k].Str?
  }

  predicate StringLess(a: string, b: string) {
    if b == "" then false
    else if a == "" then true
    else if a[0] == b[0] then StringLess(a[1..], b[1..])
    else a[0] < b[0]
  }

  /** Insertion into a `std::set<std::string>`, listed in iteration order. */
  function InsertName(s: string, sorted: seq<string>): (r: seq<string>)
    ensures forall t :: t in r <==> t == s || t in sorted
  {
    if sorted == [] then [s]
    else if sorted[0] == s then sorted
    else if StringLess(s, sorted[0]) then [s] + sorted
    else [sorted[0]] + InsertName(s, sorted[1..])
  }

  function NameSet(items: seq<Value>): (r: seq<string>)
    requires AllStrings(items)
    ensures forall t :: t in r <==> Str(t) in items
  {
    if items == [] then [] else
      var last := items[|items| - 1];
      assert items == items[..|items| - 1] + [last];
      InsertName(last.s, NameSet(items[..|items| - 1]))
  }

  /** Arrays (and the empty object) list names; other objects and booleans are schemas, all of
      them at the path of `dependencies` itself. */
  function ReadDependencies(ms: seq<Member>): Reading {
    match Find(ms, "dependencies")
    case None => Nothing()
    case Some(v) =>
      if !MaybeObject(v) || !DependenciesReadable(AsObject(v)) then None
      else One(Dependencies(PropertyDependencies(AsObject(v)), SchemaDependencies(AsObject(v))))
  }

  predicate DependenciesReadable(members: seq<Member>) {
    forall k :: 0 <= k < |members| ==> var v := members[k].value;
      if MaybeArray(v) then AllStrings(AsArray(v)) else v.Object? || MaybeBool(v)
  }

  function PropertyDependencies(members: seq<Member>): seq<Dependency>
    requires DependenciesReadable(members)
  {
    if members == [] then [] else
      var rest := PropertyDependencies(members[1..]);
      var v := members[0].value;
      if MaybeArray(v) then [Dependency(members[0].key, NameSet(AsArray(v)))] + rest else rest
  }

  function SchemaDependencies(members: seq<Member>): (r: seq<Named<Slot>>)
    ensures forall s <- r :: exists m <- members :: s == Named(m.key, At(m.value, "/dependencies"))
  {
    if members == [] then [] else
      var rest := SchemaDependencies(members[1..]);
      if MaybeArray(members[0].value) then rest
      else [Named(members[0].key, At(members[0].value, "/dependencies"))] + rest
  }

  function FlatOne(f: Flat): Reading { One(Plain(f)) }

  /** At most one constraint, and it has no subschemas. */
  predicate IsFlat(r: Reading) {
    r.Some? ==> r.value == [] || (|r.value| == 1 && r.value[0].Plain?)
  }

  function ReadConst(ms: seq<Member>): (r: Reading)
    ensures IsFlat(r)
  {
    match Find(ms, "const") case None => Nothing() case Some(v) => FlatOne(Const(v))
  }

  function ReadText(ms: seq<Member>, keyword: string): (r: Reading)
    ensures IsFlat(r)
  {
    match Find(ms, keyword)
    case None => Nothing()
    case Some(v) => if MaybeString(v) then Nothing() else None
  }

  function ReadDivisibleBy(ms: seq<Member>): (r: Reading)
    ensures IsFlat(r)
  {
    if Find(ms, "divisibleBy").None? then Nothing() else None
  }

  function ReadEnum(ms: seq<Member>): (r: Reading)
    ensures IsFlat(r)
  {
    match Find(ms, "enum")
    case None => Nothing()
    case Some(v) => if v.Array? then FlatOne(Enum(v.items)) else None
  }

  function ReadLeaf(x: Externals, ms: seq<Member>, keyword: string): (r: Reading)
    ensures IsFlat(r)
  {
    match Find(ms, keyword)
    case None => Nothing()
    case Some(v) => if x.leafArgument(keyword, v) then FlatOne(Leaf(keyword, v)) else None
  }

  function ReadLeaves(x: Externals, ms: seq<Member>, keywords: seq<string>): Reading {
    if keywords == [] then Nothing()
    else Join(ReadLeaf(x, ms, keywords[0]), ReadLeaves(x, ms, keywords[1..]))
  }

  const BOUNDS: seq<string> := [
    "exclusiveMaximum", "maximum", "maxItems", "maxLength", "maxProperties",
    "exclusiveMinimum", "minimum", "minItems", "minLength", "minProperties", "multipleOf"]

  function ReadRequired(ms: seq<Member>): (r: Reading)
    ensures IsFlat(r)
  {
    match Find(ms, "required")
    case None => Nothing()
    case Some(v) => if v.Array? && AllStrings(v.items) then FlatOne(Required(NameSet(v.items))) else None
  }

  function TypeNamed(s: string): Option<JsonType> {
    if s == "any" then Some(AnyT)
    else if s == "array" then Some(ArrayT)
    else if s == "boolean" then Some(BooleanT)
    else if s == "integer" then Some(IntegerT)
    else if s == "null" then Some(NullT)
    else if s == "number" then Some(NumberT)
    else if s == "object" then Some(ObjectT)
    else if s == "string" then Some(StringT)
    else None
  }

  predicate AllTypeNames(items: seq<Value>) {
    forall k :: 0 <= k < |items| ==> items[k].Str? && TypeNamed(items[k].s).Some?
  }

  /** An empty `type` array is rejected: it converts to a string first. */
  function ReadType(ms: seq<Member>): (r: Reading)
    ensures IsFlat(r)
  {
    match Find(ms, "type")
    case None => Nothing()
    case Some(Str(s)) =>
      var t := TypeNamed(s);
      if t.Some? then FlatOne(Type({t.value})) else None
    case Some(Array(items)) =>
      if items != [] && AllTypeNames(items) then
        FlatOne(Type(set k | 0 <= k < |items| :: TypeNamed(items[k].s).value))
      else None
    case Some(_) => None
  }

  function ReadUniqueItems(ms: seq<Member>): (r: Reading)
    ensures IsFlat(r)
  {
    match Find(ms, "uniqueItems")
    case None => Nothing()
    case Some(v) =>
      if !MaybeBool(v) then None else if AsBool(v) then FlatOne(UniqueItems) else Nothing()
  }

  /** A string `id` would change the resolution scope, which is not part of this model. */
  function ReadId(ms: seq<Member>): (r: Reading)
    ensures IsFlat(r)
  {
    match Find(ms, "id")
    case Some(v) => if MaybeString(v) then None else Nothing()
    case None => Nothing()
  }

  function JoinAll(rs: seq<Reading>): Reading {
    if rs == [] then Nothing() else Join(rs[0], JoinAll(rs[1..]))
  }

  /** All keywords, in the order in which `populateSchema` handles them. */
  function ReadKeywords(x: Externals, ms: seq<Member>): Reading {
    Join(KeywordsToContains(ms),
      Join(KeywordsToItems(ms),
        Join(KeywordsToPattern(x, ms), KeywordsToUniqueItems(ms))))
  }

  function KeywordsToContains(ms: seq<Member>): Reading {
    JoinAll([ReadId(ms), ReadAllOf(ms), ReadAnyOf(ms), ReadConst(ms), ReadContains(ms)])
  }

  function KeywordsToItems(ms: seq<Member>): Reading {
    JoinAll([ReadDependencies(ms), ReadText(ms, "description"), ReadDivisibleBy(ms), ReadEnum(ms), ReadItems(ms)])
  }

  function KeywordsToPattern(x: Externals, ms: seq<Member>): Reading {
    JoinAll([ReadConditional(ms), ReadLeaves(x, ms, BOUNDS), ReadNot(ms), ReadOneOf(ms), ReadLeaf(x, ms, "pattern")])
  }

  function KeywordsToUniqueItems(ms: seq<Member>): Reading {
    JoinAll([ReadProperties(ms), ReadPropertyNames(ms), ReadRequired(ms), ReadText(ms, "title"), ReadType(ms),
             ReadUniqueItems(ms)])
  }

  /** `populateSchema` on a concrete node, before its subschemas are compiled.  None stands for
      an exception. */
  function Read(x: Externals, node: Value): Option<Subschema<Slot>> {
    if node.Object? then
      var cs := ReadKeywords(x, node.members);
      if cs.Some? then Some(Subschema(false, cs.value)) else None
    else if MaybeBool(node) then Some(Subschema(!AsBool(node), []))
    else None
  }

  // ---- Where subschemas are written ----

  /** A place in a schema object: a keyword, or an element or entry of the value of a keyword. */
  datatype Place = AtKeyword(key: string) | AtElement(key: string, index: nat) | AtEntry(key: string, index: nat)

  predicate HoldsSubschema(key: string) {
    key == "not" || key == "if" || key == "then" || key == "else" || key == "contains" || key == "items" ||
    key == "additionalItems" || key == "additionalProperties" || key == "propertyNames"
  }

  predicate HoldsElements(key: string) { key == "allOf" || key == "anyOf" || key == "oneOf" || key == "items" }
  predicate HoldsEntries(key: string) { key == "properties" || key == "patternProperties" || key == "dependencies" }

  /** The subschema written at a place, with the suffix the parser appends for it. */
  ghost predicate Written(n: Value, place: Place, s: Slot) {
    n.Object? && s.At? && Find(n.members, place.key).Some? &&
    var u := Find(n.members, place.key).value;
    match place
    case AtKeyword(key) => HoldsSubschema(key) && s == At(u, if key == "propertyNames" then "" else "/" + key)
    case AtElement(key, k) =>
      HoldsElements(key) && u.Array? && k < |u.items| && s == At(u.items[k], "/" + key + "/" + Decimal(k))
    case AtEntry(key, k) =>
      HoldsEntries(key) && u.Object? && k < |u.members| &&
      (key == "dependencies" ==> !MaybeArray(u.members[k].value)) &&
      s == At(u.members[k].value, if key == "dependencies" then "/dependencies" else "/" + key + "/" + u.members[k].key)
  }

  ghost predicate SlotWritten(n: Value, s: Slot) {
    s.At? ==> exists place :: Written(n, place, s)
  }

  ghost predicate SlotsWritten(n: Value, cs: seq<Constraint<Slot>>) {
    forall c <- cs :: (forall s <- InPlace(c) :: SlotWritten(n, s)) && (forall s <- Inside(c) :: SlotWritten(n, s))
  }

  lemma ElementsWritten(n: Value, key: string, suffix: string)
    requires n.Object? && HoldsElements(key) && suffix == "/" + key
    ensures Find(n.members, key).Some? ==>
      forall s <- Elements(AsArray(Find(n.members, key).value), suffix) :: SlotWritten(n, s)
  {
    if Find(n.members, key).Some? {
      var items := AsArray(Find(n.members, key).value);
      forall s <- Elements(items, suffix) ensures SlotWritten(n, s) {
        var k :| 0 <= k < |items| && s == Elements(items, suffix)[k];
        assert Written(n, AtElement(key, k), s);
      }
    }
  }

  lemma NamedWritten(n: Value, key: string, suffix: string)
    requires n.Object? && HoldsEntries(key) && key != "dependencies" && suffix == "/" + key
    ensures forall s <- Children(NamedElements(MembersIfPresent(Find(n.members, key)), suffix)) :: SlotWritten(n, s)
  {
    var members := MembersIfPresent(Find(n.members, key));
    forall s <- Children(NamedElements(members, suffix)) ensures SlotWritten(n, s) {
      var k :| 0 <= k < |members| && s == Children(NamedElements(members, suffix))[k];
      assert Written(n, AtEntry(key, k), s);
    }
  }

  lemma KeywordWritten(n: Value, key: string, suffix: string)
    requires n.Object? && HoldsSubschema(key) && suffix == if key == "propertyNames" then "" else "/" + key
    ensures Find(n.members, key).Some? ==> SlotWritten(n, At(Find(n.members, key).value, suffix))
  {
    if Find(n.members, key).Some? {
      assert Written(n, AtKeyword(key), At(Find(n.members, key).value, suffix));
    }
  }

  ghost predicate ReadingWritten(r: Reading, n: Value) { r.Some? ==> SlotsWritten(n, r.value) }

  lemma CombinatorsWritten(n: Value)
    requires n.Object?
    ensures ReadingWritten(ReadAllOf(n.members), n)
    ensures ReadingWritten(ReadAnyOf(n.members), n)
    ensures ReadingWritten(ReadOneOf(n.members), n)
  {
    hide Find, Elements, SlotWritten;
    ElementsWritten(n, "allOf", "/allOf");
    ElementsWritten(n, "anyOf", "/anyOf");
    ElementsWritten(n, "oneOf", "/oneOf");
  }

  lemma NotWritten(n: Value)
    requires n.Object?
    ensures ReadingWritten(ReadNot(n.members), n)
  {
    hide Find, SlotWritten;
    KeywordWritten(n, "not", "/not");
  }

  lemma ConditionalWritten(n: Value)
    requires n.Object?
    ensures ReadingWritten(ReadConditional(n.members), n)
  {
    hide Find, SlotWritten;
    KeywordWritten(n, "if", "/if");
    KeywordWritten(n, "then", "/then");
    KeywordWritten(n, "else", "/else");
  }

  lemma ContainsWritten(n: Value)
    requires n.Object?
    ensures ReadingWritten(ReadContains(n.members), n)
  {
    hide Find, SlotWritten;
    KeywordWritten(n, "contains", "/contains");
    EmptyWritten(n);
  }

  lemma EmptyWritten(n: Value)
    ensures SlotWritten(n, EmptySchema)
  {
  }

  lemma PropertyNamesWritten(n: Value)
    requires n.Object?
    ensures ReadingWritten(ReadPropertyNames(n.members), n)
  {
    hide Find, SlotWritten;
    KeywordWritten(n, "propertyNames", "");
  }

  /** Where the slots of a constraint come from. */
  lemma OneWritten(n: Value, c: Constraint<Slot>)
    requires (forall s <- InPlace(c) :: SlotWritten(n, s)) && (forall s <- Inside(c) :: SlotWritten(n, s))
    ensures ReadingWritten(One(c), n)
  {
    hide SlotWritten, InPlace, Inside;
  }

  lemma AdditionalWritten(n: Value)
    requires n.Object?
    ensures var a := ReadAdditionalItems(Find(n.members, "additionalItems"));
      a.Some? ==> forall s <- Optionally(a.value) :: SlotWritten(n, s)
    ensures var a := ReadAdditionalProperties(Find(n.members, "additionalProperties"));
      a.Some? ==> forall s <- Optionally(a.value) :: SlotWritten(n, s)
  {
    hide Find, SlotWritten;
    KeywordWritten(n, "additionalItems", "/additionalItems");
    KeywordWritten(n, "additionalProperties", "/additionalProperties");
    EmptyWritten(n);
  }

  lemma ItemsWritten(n: Value)
    requires n.Object?
    ensures ReadingWritten(ReadItems(n.members), n)
  {
    hide Find, Elements, SlotWritten, Optionally, ReadAdditionalItems, SlotsWritten;
    KeywordWritten(n, "items", "/items");
    ElementsWritten(n, "items", "/items");
    EmptyWritten(n);
    AdditionalWritten(n);
    var additional := ReadAdditionalItems(Find(n.members, "additionalItems"));
    if Find(n.members, "items").Some? && additional.Some? {
      OneWritten(n, LinearItems(Elements(AsArray(Find(n.members, "items").value), "/items"), additional.value));
    }
    if Find(n.members, "items").Some? {
      var s := ReadSingle(Find(n.members, "items").value, "/items");
      if s.Some? { OneWritten(n, SingularItems(s.value)); }
    }
    NoneWritten(n);
  }

  lemma NoneWritten(n: Value)
    ensures ReadingWritten(Nothing(), n)
  {
  }

  lemma PropertiesWritten(n: Value)
    requires n.Object?
    ensures ReadingWritten(ReadProperties(n.members), n)
  {
    hide Find, NamedElements, SlotWritten, MembersIfPresent, Children, Optionally, ReadAdditionalProperties,
         SlotsWritten;
    AdditionalWritten(n);
    NamedWritten(n, "properties", "/properties");
    NamedWritten(n, "patternProperties", "/patternProperties");
    NoneWritten(n);
    var additional := ReadAdditionalProperties(Find(n.members, "additionalProperties"));
    if additional.Some? {
      OneWritten(n, Properties(NamedElements(MembersIfPresent(Find(n.members, "properties")), "/properties"),
                               NamedElements(MembersIfPresent(Find(n.members, "patternProperties")),
                                             "/patternProperties"),
                               additional.value));
    }
  }

  lemma {:induction false} SchemaDependenciesWritten(n: Value, members: seq<Member>, from: nat)
    requires n.Object? && Find(n.members, "dependencies").Some? && Find(n.members, "dependencies").value.Object?
    requires from <= |Find(n.members, "dependencies").value.members|
    requires members == Find(n.members, "dependencies").value.members[from..]
    ensures forall d <- SchemaDependencies(members) :: SlotWritten(n, d.child)
  {
    if members != [] {
      assert !MaybeArray(members[0].value) ==>
        Written(n, AtEntry("dependencies", from), At(members[0].value, "/dependencies"));
      SchemaDependenciesWritten(n, members[1..], from + 1);
    }
  }

  lemma DependenciesWritten(n: Value)
    requires n.Object?
    ensures ReadingWritten(ReadDependencies(n.members), n)
  {
    hide SlotWritten, Find, PropertyDependencies, SchemaDependencies, DependenciesReadable, SlotsWritten, InPlace,
         Inside;
    NoneWritten(n);
    if ReadDependencies(n.members).Some? && Find(n.members, "dependencies").Some? {
      var members := AsObject(Find(n.members, "dependencies").value);
      if Find(n.members, "dependencies").value.Object? {
        SchemaDependenciesWritten(n, members, 0);
      } else {
        NoSchemaDependencies();
      }
      DependentsWritten(n, PropertyDependencies(members), SchemaDependencies(members));
    }
  }

  lemma NoSchemaDependencies()
    ensures SchemaDependencies([]) == []
  {
  }

  lemma DependentsWritten(n: Value, ps: seq<Dependency>, ss: seq<Named<Slot>>)
    requires forall d <- ss :: SlotWritten(n, d.child)
    ensures ReadingWritten(One(Dependencies(ps, ss)), n)
  {
    hide SlotWritten;
    forall s | s in Children(ss) ensures SlotWritten(n, s) {
      var k :| 0 <= k < |ss| && Children(ss)[k] == s;
      assert ss[k] in ss;
    }
  }

  lemma {:induction false} LeavesWritten(x: Externals, n: Value, keywords: seq<string>)
    requires n.Object?
    ensures ReadingWritten(ReadLeaves(x, n.members, keywords), n)
  {
    if keywords != [] {
      LeavesWritten(x, n, keywords[1..]);
      FlatWritten(ReadLeaf(x, n.members, keywords[0]), n);
      JoinWritten(ReadLeaf(x, n.members, keywords[0]), ReadLeaves(x, n.members, keywords[1..]), n);
    }
  }

  lemma JoinWritten(a: Reading, b: Reading, n: Value)
    requires ReadingWritten(a, n) && ReadingWritten(b, n)
    ensures ReadingWritten(Join(a, b), n)
  {
  }

  lemma {:induction false} JoinAllWritten(rs: seq<Reading>, n: Value)
    requires forall r <- rs :: ReadingWritten(r, n)
    ensures ReadingWritten(JoinAll(rs), n)
  {
    if rs != [] {
      JoinAllWritten(rs[1..], n);
      JoinWritten(rs[0], JoinAll(rs[1..]), n);
    }
  }

  lemma FlatWritten(r: Reading, n: Value)
    requires IsFlat(r)
    ensures ReadingWritten(r, n)
  {
  }

  lemma ToContainsWritten(n: Value)
    requires n.Object?
    ensures ReadingWritten(KeywordsToContains(n.members), n)
  {
    var ms := n.members;
    CombinatorsWritten(n);
    ContainsWritten(n);
    FlatWritten(ReadId(ms), n);
    FlatWritten(ReadConst(ms), n);
    JoinAllWritten([ReadId(ms), ReadAllOf(ms), ReadAnyOf(ms), ReadConst(ms), ReadContains(ms)], n);
  }

  lemma ToItemsWritten(n: Value)
    requires n.Object?
    ensures ReadingWritten(KeywordsToItems(n.members), n)
  {
    var ms := n.members;
    DependenciesWritten(n);
    ItemsWritten(n);
    FlatWritten(ReadText(ms, "description"), n);
    FlatWritten(ReadDivisibleBy(ms), n);
    FlatWritten(ReadEnum(ms), n);
    JoinAllWritten([ReadDependencies(ms), ReadText(ms, "description"), ReadDivisibleBy(ms), ReadEnum(ms),
                    ReadItems(ms)], n);
  }

  lemma ToPatternWritten(x: Externals, n: Value)
    requires n.Object?
    ensures ReadingWritten(KeywordsToPattern(x, n.members), n)
  {
    var ms := n.members;
    ConditionalWritten(n);
    LeavesWritten(x, n, BOUNDS);
    NotWritten(n);
    CombinatorsWritten(n);
    FlatWritten(ReadLeaf(x, ms, "pattern"), n);
    JoinAllWritten([ReadConditional(ms), ReadLeaves(x, ms, BOUNDS), ReadNot(ms), ReadOneOf(ms),
                    ReadLeaf(x, ms, "pattern")], n);
  }

  lemma ToUniqueItemsWritten(n: Value)
    requires n.Object?
    ensures ReadingWritten(KeywordsToUniqueItems(n.members), n)
  {
    var ms := n.members;
    PropertiesWritten(n);
    PropertyNamesWritten(n);
    FlatWritten(ReadRequired(ms), n);
    FlatWritten(ReadText(ms, "title"), n);
    FlatWritten(ReadType(ms), n);
    FlatWritten(ReadUniqueItems(ms), n);
    JoinAllWritten([ReadProperties(ms), ReadPropertyNames(ms), ReadRequired(ms), ReadText(ms, "title"), ReadType(ms),
                    ReadUniqueItems(ms)], n);
  }

  /** Every subschema that is read is written in its node. */
  lemma ReadWritten(x: Externals, n: Value)
    ensures Read(x, n).Some? ==> SlotsWritten(n, Read(x, n).value.constraints)
  {
    if n.Object? {
      var ms := n.members;
      ToContainsWritten(n);
      ToItemsWritten(n);
      ToPatternWritten(x, n);
      ToUniqueItemsWritten(n);
      JoinWritten(KeywordsToPattern(x, ms), KeywordsToUniqueItems(ms), n);
      JoinWritten(KeywordsToItems(ms), Join(KeywordsToPattern(x, ms), KeywordsToUniqueItems(ms)), n);
      JoinWritten(KeywordsToContains(ms), Join(KeywordsToItems(ms),
                                               Join(KeywordsToPattern(x, ms), KeywordsToUniqueItems(ms))), n);
    }
  }

  // ---- Every subschema read lies below its node ----

  ghost predicate SlotBelow(s: Slot, n: Value) { s.At? ==> Below(s.node, n) }

  ghost predicate SlotsBelow(cs: seq<Constraint<Slot>>, n: Value) {
    forall c <- cs :: (forall s <- InPlace(c) :: SlotBelow(s, n)) && (forall s <- Inside(c) :: SlotBelow(s, n))
  }

  lemma WrittenBelow(n: Value, s: Slot)
    requires SlotWritten(n, s)
    ensures SlotBelow(s, n)
  {
    if s.At? {
      var place :| Written(n, place, s);
      FindBelow(n, place.key);
      var u := Find(n.members, place.key).value;
      match place
      case AtKeyword(_) =>
      case AtElement(_, k) => ItemBelow(u, k);
      case AtEntry(_, k) => MemberBelow(u, k);
    }
  }

  /** Every subschema that is read lies strictly inside its node. */
  lemma ReadBelow(x: Externals, n: Value)
    ensures Read(x, n).Some? ==> SlotsBelow(Read(x, n).value.constraints, n)
  {
    hide Read, SlotWritten, SlotBelow, InPlace, Inside;
    ReadWritten(x, n);
    forall s | SlotWritten(n, s) ensures SlotBelow(s, n) {
      WrittenBelow(n, s);
    }
  }
}
