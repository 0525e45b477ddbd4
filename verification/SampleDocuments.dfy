/** Small documents, and what is read from them. */
module SampleDocuments {
  import opened Wrappers
  import opened Json
  import opened JsonPointer
  import opened Strings
  import opened Schemas
  import opened Keywords
  import opened Semantics
  import opened Reachability

  // ---- Reading small objects ----

  predicate NoneOf(ms: seq<Member>, keys: seq<string>) {
    forall k <- keys :: forall m <- ms :: m.key != k
  }

  lemma Absent(ms: seq<Member>, keys: seq<string>)
    requires NoneOf(ms, keys)
    ensures forall k <- keys :: Find(ms, k).None?
  {
  }

  lemma JoinNothing(r: Reading)
    ensures Join(Nothing(), r) == r && Join(r, Nothing()) == r
  {
    if r.Some? { assert [] + r.value == r.value && r.value + [] == r.value; }
  }

  lemma {:induction false} NoLeaves(x: Externals, ms: seq<Member>, keywords: seq<string>)
    requires NoneOf(ms, keywords)
    ensures ReadLeaves(x, ms, keywords) == Nothing()
  {
    if keywords != [] {
      Absent(ms, keywords);
      assert Find(ms, keywords[0]).None?;
      assert forall k <- keywords[1..] :: k in keywords;
      NoLeaves(x, ms, keywords[1..]);
      JoinNothing(Nothing());
    }
  }

  /** At most one of the readings, number k, has anything to say. */
  lemma {:induction false} OnlyReading(rs: seq<Reading>, k: nat)
    requires k < |rs| && forall j :: 0 <= j < |rs| && j != k ==> rs[j] == Nothing()
    ensures JoinAll(rs) == rs[k]
  {
    JoinNothing(rs[k]);
    if k > 0 {
      OnlyReading(rs[1..], k - 1);
    } else {
      NoReadings(rs[1..]);
    }
  }

  lemma {:induction false} NoReadings(rs: seq<Reading>)
    requires forall j :: 0 <= j < |rs| ==> rs[j] == Nothing()
    ensures JoinAll(rs) == Nothing()
  {
    JoinNothing(Nothing());
    if rs != [] { NoReadings(rs[1..]); }
  }

  const CONTAINS: seq<string> := ["id", "allOf", "anyOf", "const", "contains"]
  const ITEMS: seq<string> := ["dependencies", "description", "divisibleBy", "enum", "items"]
  const PATTERN: seq<string> := ["if", "not", "oneOf", "pattern"]
  const UNIQUE: seq<string> :=
    ["properties", "patternProperties", "additionalProperties", "propertyNames", "required", "title", "type",
     "uniqueItems"]

  lemma NothingToContains(ms: seq<Member>)
    requires NoneOf(ms, CONTAINS)
    ensures KeywordsToContains(ms) == Nothing()
  {
    Absent(ms, CONTAINS);
    assert CONTAINS[0] == "id" && CONTAINS[1] == "allOf" && CONTAINS[2] == "anyOf";
    assert CONTAINS[3] == "const" && CONTAINS[4] == "contains";
    hide Find;
    NoReadings([ReadId(ms), ReadAllOf(ms), ReadAnyOf(ms), ReadConst(ms), ReadContains(ms)]);
  }

  lemma NothingToItems(ms: seq<Member>)
    requires NoneOf(ms, ITEMS)
    ensures KeywordsToItems(ms) == Nothing()
  {
    Absent(ms, ITEMS);
    assert ITEMS[0] == "dependencies" && ITEMS[1] == "description" && ITEMS[2] == "divisibleBy";
    assert ITEMS[3] == "enum" && ITEMS[4] == "items";
    hide Find;
    NoReadings([ReadDependencies(ms), ReadText(ms, "description"), ReadDivisibleBy(ms), ReadEnum(ms), ReadItems(ms)]);
  }

  lemma NothingToPattern(x: Externals, ms: seq<Member>)
    requires NoneOf(ms, PATTERN) && NoneOf(ms, BOUNDS)
    ensures KeywordsToPattern(x, ms) == Nothing()
  {
    Absent(ms, PATTERN);
    assert PATTERN[0] == "if" && PATTERN[1] == "not" && PATTERN[2] == "oneOf" && PATTERN[3] == "pattern";
    NoLeaves(x, ms, BOUNDS);
    hide Find, ReadLeaves;
    NoReadings([ReadConditional(ms), ReadLeaves(x, ms, BOUNDS), ReadNot(ms), ReadOneOf(ms),
                ReadLeaf(x, ms, "pattern")]);
  }

  lemma NothingToUnique(ms: seq<Member>)
    requires NoneOf(ms, UNIQUE)
    ensures KeywordsToUniqueItems(ms) == Nothing()
  {
    Absent(ms, UNIQUE);
    assert UNIQUE[0] == "properties" && UNIQUE[1] == "patternProperties" && UNIQUE[2] == "additionalProperties";
    assert UNIQUE[3] == "propertyNames" && UNIQUE[4] == "required" && UNIQUE[5] == "title" && UNIQUE[6] == "type";
    assert UNIQUE[7] == "uniqueItems";
    hide Find;
    NoReadings([ReadProperties(ms), ReadPropertyNames(ms), ReadRequired(ms), ReadText(ms, "title"), ReadType(ms),
                ReadUniqueItems(ms)]);
  }

  /** An object without keywords. */
  lemma QuietObject(x: Externals, ms: seq<Member>)
    requires NoneOf(ms, CONTAINS) && NoneOf(ms, ITEMS) && NoneOf(ms, PATTERN) && NoneOf(ms, BOUNDS)
    requires NoneOf(ms, UNIQUE)
    ensures Read(x, Object(ms)) == Some(Subschema(false, []))
  {
    hide KeywordsToContains, KeywordsToItems, KeywordsToPattern, KeywordsToUniqueItems, NoneOf;
    NothingToContains(ms);
    NothingToItems(ms);
    NothingToPattern(x, ms);
    NothingToUnique(ms);
    JoinNothing(Nothing());
  }

  // ---- The documents ----

  /** {"$ref": "#/definitions/a"} */
  const TO_DEFINITION: Value := Object([Member("$ref", Str("#/definitions/a"))])
  /** {} */
  const NAMES: Value := Object([])
  /** {"propertyNames": {}, "type": "object"} */
  const KEYED: Value := Object([Member("propertyNames", NAMES), Member("type", Str("object"))])
  /** {"allOf": [{"$ref": "#/definitions/a"}], "definitions": {"a": {"propertyNames": {}, "type": "object"}}} */
  const NAMES_DOCUMENT: Value :=
    Object([Member("allOf", Array([TO_DEFINITION])), Member("definitions", Object([Member("a", KEYED)]))])

  /** {"$ref": "#/dependencies"} */
  const TO_DEPENDENCIES: Value := Object([Member("$ref", Str("#/dependencies"))])
  /** {"a": false} */
  const DEPENDENTS: Value := Object([Member("a", Bool(false))])
  /** {"allOf": [{"$ref": "#/dependencies"}], "dependencies": {"a": false}} */
  const DEPENDENCIES_DOCUMENT: Value :=
    Object([Member("allOf", Array([TO_DEPENDENCIES])), Member("dependencies", DEPENDENTS)])

  /** {"type": "object"} */
  const OBJECTS: Value := Object([Member("type", Str("object"))])
  /** {"$ref": "#/allOf/0"} */
  const TO_FIRST: Value := Object([Member("$ref", Str("#/allOf/0"))])
  /** {"minLength": 1} */
  const NOT_EMPTY: Value := Object([Member("minLength", Int(1))])
  /** {"allOf": [{"minLength": 1}]} */
  const KEYS: Value := Object([Member("allOf", Array([NOT_EMPTY]))])
  /** {"allOf": [{"type": "object"}], "anyOf": [{"$ref": "#/allOf/0"}],
       "propertyNames": {"allOf": [{"minLength": 1}]}} */
  const NESTED_DOCUMENT: Value :=
    Object([Member("allOf", Array([OBJECTS])), Member("anyOf", Array([TO_FIRST])), Member("propertyNames", KEYS)])

  /** {"dependencies": {"a": false}, "not": {"$ref": "#/dependencies"}} */
  const ORDERED_DOCUMENT: Value := Object([Member("dependencies", DEPENDENTS), Member("not", TO_DEPENDENCIES)])

  lemma QuietNames(x: Externals)
    ensures Read(x, NAMES) == Some(Subschema(false, []))
  {
    QuietObject(x, []);
  }

  lemma QuietDependents(x: Externals)
    ensures Read(x, DEPENDENTS) == Some(Subschema(false, []))
  {
    QuietObject(x, DEPENDENTS.members);
  }

  lemma TypeIsObject(ms: seq<Member>)
    requires Find(ms, "type") == Some(Str("object"))
    ensures ReadType(ms) == Some([Plain(Type({ObjectT}))])
  {
  }

  lemma KeyedReads(x: Externals)
    ensures Read(x, KEYED) == Some(Subschema(false, [PropertyNames(At(NAMES, "")), Plain(Type({ObjectT}))]))
  {
    hide KeywordsToContains, KeywordsToItems, KeywordsToPattern, KeywordsToUniqueItems, NoneOf;
    var ms := KEYED.members;
    KeyedHas();
    NothingToContains(ms);
    NothingToItems(ms);
    NothingToPattern(x, ms);
    KeyedUnique(ms);
    JoinNothing(KeywordsToUniqueItems(ms));
  }

  const NOT_KEYED: seq<string> := ["properties", "patternProperties", "additionalProperties", "required", "title",
                                   "uniqueItems"]

  lemma KeyedHas()
    ensures KEYED.Object?
    ensures NoneOf(KEYED.members, CONTAINS) && NoneOf(KEYED.members, ITEMS)
    ensures NoneOf(KEYED.members, PATTERN) && NoneOf(KEYED.members, BOUNDS)
    ensures NoneOf(KEYED.members, NOT_KEYED)
    ensures Find(KEYED.members, "propertyNames") == Some(NAMES) && Find(KEYED.members, "type") == Some(Str("object"))
  {
  }

  lemma KeyedUnique(ms: seq<Member>)
    requires NoneOf(ms, NOT_KEYED)
    requires Find(ms, "propertyNames") == Some(NAMES) && Find(ms, "type") == Some(Str("object"))
    ensures KeywordsToUniqueItems(ms) == Some([PropertyNames(At(NAMES, "")), Plain(Type({ObjectT}))])
  {
    KeyedQuiet(ms);
    TypeIsObject(ms);
    PropertyNamesAre(ms, NAMES);
    hide ReadProperties, ReadRequired, ReadText, ReadUniqueItems, ReadType, ReadPropertyNames, JoinAll, Find, NoneOf;
    var a := [ReadRequired(ms), ReadText(ms, "title"), ReadType(ms), ReadUniqueItems(ms)];
    OnlyReading(a, 2);
    AfterFirst([ReadProperties(ms), ReadPropertyNames(ms), ReadRequired(ms), ReadText(ms, "title"), ReadType(ms),
                ReadUniqueItems(ms)], a);
    JoinOnes(PropertyNames(At(NAMES, "")), Plain(Type({ObjectT})));
  }

  lemma PropertyNamesAre(ms: seq<Member>, names: Value)
    requires Find(ms, "propertyNames") == Some(names)
    ensures ReadPropertyNames(ms) == One(PropertyNames(At(names, "")))
  {
  }

  lemma KeyedQuiet(ms: seq<Member>)
    requires NoneOf(ms, NOT_KEYED)
    ensures ReadProperties(ms) == Nothing() && ReadRequired(ms) == Nothing()
    ensures ReadText(ms, "title") == Nothing() && ReadUniqueItems(ms) == Nothing()
  {
    hide Find;
    Absent(ms, NOT_KEYED);
    assert NOT_KEYED[0] == "properties" && NOT_KEYED[1] == "patternProperties";
    assert NOT_KEYED[2] == "additionalProperties";
    assert NOT_KEYED[3] == "required" && NOT_KEYED[4] == "title" && NOT_KEYED[5] == "uniqueItems";
  }

  lemma JoinOnes(a: Constraint<Slot>, b: Constraint<Slot>)
    ensures Join(One(a), One(b)) == Some([a, b])
  {
    assert [a] + [b] == [a, b];
  }

  lemma AfterFirst(all: seq<Reading>, rest: seq<Reading>)
    requires |all| == |rest| + 2 && all[0] == Nothing() && forall k :: 0 <= k < |rest| ==> all[k + 2] == rest[k]
    ensures JoinAll(all) == Join(all[1], JoinAll(rest))
  {
    assert all[1..][1..] == rest;
    JoinNothing(JoinAll(all[1..]));
  }

  /** One schema under `allOf`. */
  lemma AllOfReads(ms: seq<Member>, child: Value)
    requires Find(ms, "allOf") == Some(Array([child])) && child.Object?
    requires NoneOf(ms, ["id", "anyOf", "const", "contains"])
    ensures KeywordsToContains(ms) == Some([AllOf([At(child, "/allOf/0")])])
  {
    hide Find;
    var others := ["id", "anyOf", "const", "contains"];
    Absent(ms, others);
    assert others[0] == "id" && others[1] == "anyOf" && others[2] == "const" && others[3] == "contains";
    assert Decimal(0) == "0" && "/allOf" + "/" + "0" == "/allOf/0";
    assert Elements([child], "/allOf") == [At(child, "/allOf/0")];
    OnlyReading([ReadId(ms), ReadAllOf(ms), ReadAnyOf(ms), ReadConst(ms), ReadContains(ms)], 1);
  }

  lemma NamesDocumentHas()
    ensures var ms := NAMES_DOCUMENT.members;
      && NoneOf(ms, ["id", "anyOf", "const", "contains"]) && NoneOf(ms, ITEMS)
      && NoneOf(ms, PATTERN) && NoneOf(ms, BOUNDS) && NoneOf(ms, UNIQUE)
      && Find(ms, "allOf") == Some(Array([TO_DEFINITION]))
      && Find(ms, "definitions") == Some(Object([Member("a", KEYED)])) && Find([Member("a", KEYED)], "a") == Some(KEYED)
  {
  }

  lemma NamesDocumentReads(x: Externals)
    ensures Read(x, NAMES_DOCUMENT) == Some(Subschema(false, [AllOf([At(TO_DEFINITION, "/allOf/0")])]))
  {
    hide KeywordsToContains, KeywordsToItems, KeywordsToPattern, KeywordsToUniqueItems, NoneOf, Find;
    var ms := NAMES_DOCUMENT.members;
    NamesDocumentHas();
    AllOfReads(ms, TO_DEFINITION);
    NothingToItems(ms);
    NothingToPattern(x, ms);
    NothingToUnique(ms);
    JoinNothing(Nothing());
    JoinNothing(KeywordsToContains(ms));
  }

  lemma DependenciesDocumentHas()
    ensures var ms := DEPENDENCIES_DOCUMENT.members;
      && NoneOf(ms, ["id", "anyOf", "const", "contains"]) && NoneOf(ms, ["description", "divisibleBy", "enum", "items"])
      && NoneOf(ms, PATTERN) && NoneOf(ms, BOUNDS) && NoneOf(ms, UNIQUE)
      && Find(ms, "allOf") == Some(Array([TO_DEPENDENCIES])) && Find(ms, "dependencies") == Some(DEPENDENTS)
  {
  }

  lemma DependentsRead(ms: seq<Member>)
    requires Find(ms, "dependencies") == Some(DEPENDENTS)
    ensures ReadDependencies(ms) == Some([Constraint.Dependencies([], [Named("a", At(Bool(false), "/dependencies"))])])
  {
    var members := DEPENDENTS.members;
    assert members[1..] == [];
    assert SchemaDependencies([]) == [];
    assert PropertyDependencies(members) == [];
    assert SchemaDependencies(members) == [Named("a", At(Bool(false), "/dependencies"))];
  }

  lemma DependenciesRead(ms: seq<Member>)
    requires Find(ms, "dependencies") == Some(DEPENDENTS)
    requires NoneOf(ms, ["description", "divisibleBy", "enum", "items"])
    ensures KeywordsToItems(ms) == Some([Constraint.Dependencies([], [Named("a", At(Bool(false), "/dependencies"))])])
  {
    hide Find, ReadDependencies;
    var others := ["description", "divisibleBy", "enum", "items"];
    Absent(ms, others);
    assert others[0] == "description" && others[1] == "divisibleBy" && others[2] == "enum" && others[3] == "items";
    DependentsRead(ms);
    OnlyReading([ReadDependencies(ms), ReadText(ms, "description"), ReadDivisibleBy(ms), ReadEnum(ms), ReadItems(ms)],
                0);
  }

  lemma DependenciesDocumentReads(x: Externals)
    ensures Read(x, DEPENDENCIES_DOCUMENT) == Some(Subschema(false,
      [AllOf([At(TO_DEPENDENCIES, "/allOf/0")]),
       Constraint.Dependencies([], [Named("a", At(Bool(false), "/dependencies"))])]))
  {
    hide KeywordsToContains, KeywordsToItems, KeywordsToPattern, KeywordsToUniqueItems, NoneOf, Find;
    var ms := DEPENDENCIES_DOCUMENT.members;
    DependenciesDocumentHas();
    AllOfReads(ms, TO_DEPENDENCIES);
    DependenciesRead(ms);
    NothingToPattern(x, ms);
    NothingToUnique(ms);
    JoinNothing(Nothing());
    JoinNothing(KeywordsToItems(ms));
    JoinOnes(AllOf([At(TO_DEPENDENCIES, "/allOf/0")]), Constraint.Dependencies([],
                                                                               [Named("a",
        At(Bool(false), "/dependencies"))]));
  }

  lemma ObjectsHas()
    ensures var ms := OBJECTS.members;
      && NoneOf(ms, CONTAINS) && NoneOf(ms, ITEMS) && NoneOf(ms, PATTERN) && NoneOf(ms, BOUNDS)
      && NoneOf(ms, NOT_KEYED) && Find(ms, "propertyNames").None? && Find(ms, "type") == Some(Str("object"))
  {
  }

  lemma ObjectsRead(x: Externals)
    ensures Read(x, OBJECTS) == Some(Subschema(false, [Plain(Type({ObjectT}))]))
  {
    hide KeywordsToContains, KeywordsToItems, KeywordsToPattern, NoneOf, Find, ReadProperties, ReadRequired, ReadText,
         ReadUniqueItems, ReadType;
    var ms := OBJECTS.members;
    ObjectsHas();
    NothingToContains(ms);
    NothingToItems(ms);
    NothingToPattern(x, ms);
    KeyedQuiet(ms);
    TypeIsObject(ms);
    OnlyReading([ReadProperties(ms), ReadPropertyNames(ms), ReadRequired(ms), ReadText(ms, "title"), ReadType(ms),
                 ReadUniqueItems(ms)], 4);
    JoinNothing(Nothing());
    JoinNothing(KeywordsToUniqueItems(ms));
  }

  lemma KeysHas()
    ensures var ms := KEYS.members;
      && NoneOf(ms, ["id", "anyOf", "const", "contains"]) && NoneOf(ms, ITEMS)
      && NoneOf(ms, PATTERN) && NoneOf(ms, BOUNDS) && NoneOf(ms, UNIQUE)
      && Find(ms, "allOf") == Some(Array([NOT_EMPTY]))
  {
  }

  lemma KeysRead(x: Externals)
    ensures Read(x, KEYS) == Some(Subschema(false, [AllOf([At(NOT_EMPTY, "/allOf/0")])]))
  {
    hide KeywordsToContains, KeywordsToItems, KeywordsToPattern, KeywordsToUniqueItems, NoneOf, Find;
    var ms := KEYS.members;
    KeysHas();
    AllOfReads(ms, NOT_EMPTY);
    NothingToItems(ms);
    NothingToPattern(x, ms);
    NothingToUnique(ms);
    JoinNothing(Nothing());
    JoinNothing(KeywordsToContains(ms));
  }

  /** Only keyword i is there. */
  lemma {:induction false} OneLeaf(x: Externals, ms: seq<Member>, keywords: seq<string>, i: nat)
    requires i < |keywords| && forall j :: 0 <= j < |keywords| && j != i ==> Find(ms, keywords[j]).None?
    ensures ReadLeaves(x, ms, keywords) == ReadLeaf(x, ms, keywords[i])
  {
    hide Find;
    JoinNothing(ReadLeaf(x, ms, keywords[i]));
    if i == 0 {
      OtherLeaves(x, ms, keywords[1..]);
    } else {
      OneLeaf(x, ms, keywords[1..], i - 1);
    }
  }

  lemma {:induction false} OtherLeaves(x: Externals, ms: seq<Member>, keywords: seq<string>)
    requires forall j :: 0 <= j < |keywords| ==> Find(ms, keywords[j]).None?
    ensures ReadLeaves(x, ms, keywords) == Nothing()
  {
    hide Find;
    JoinNothing(Nothing());
    if keywords != [] { OtherLeaves(x, ms, keywords[1..]); }
  }

  lemma NotEmptyHas()
    ensures var ms := NOT_EMPTY.members;
      && NoneOf(ms, CONTAINS) && NoneOf(ms, ITEMS) && NoneOf(ms, PATTERN) && NoneOf(ms, UNIQUE)
      && Find(ms, "minLength") == Some(Int(1)) && |BOUNDS| == 11 && BOUNDS[8] == "minLength"
      && forall j :: 0 <= j < 11 && j != 8 ==> Find(ms, BOUNDS[j]).None?
  {
  }

  lemma NotEmptyReads(x: Externals)
    requires x.leafArgument("minLength", Int(1))
    ensures Read(x, NOT_EMPTY) == Some(Subschema(false, [Plain(Leaf("minLength", Int(1)))]))
  {
    hide KeywordsToContains, KeywordsToItems, KeywordsToUniqueItems, NoneOf, Find, ReadLeaves;
    var ms := NOT_EMPTY.members;
    NotEmptyHas();
    NothingToContains(ms);
    NothingToItems(ms);
    NothingToUnique(ms);
    Absent(ms, PATTERN);
    assert PATTERN[0] == "if" && PATTERN[1] == "not" && PATTERN[2] == "oneOf" && PATTERN[3] == "pattern";
    OneLeaf(x, ms, BOUNDS, 8);
    OnlyReading([ReadConditional(ms), ReadLeaves(x, ms, BOUNDS), ReadNot(ms), ReadOneOf(ms),
                 ReadLeaf(x, ms, "pattern")], 1);
    JoinNothing(Nothing());
    JoinNothing(KeywordsToPattern(x, ms));
  }

  const NOT_NESTED: seq<string> := ["properties", "patternProperties", "additionalProperties", "required", "title",
                                    "type", "uniqueItems"]

  lemma NestedDocumentHas()
    ensures NESTED_DOCUMENT.Object?
    ensures var ms := NESTED_DOCUMENT.members;
      && Find(ms, "allOf") == Some(Array([OBJECTS])) && Find(ms, "anyOf") == Some(Array([TO_FIRST]))
      && Find(ms, "propertyNames") == Some(KEYS)
  {
    NestedMembers(NESTED_DOCUMENT.members, Array([OBJECTS]), Array([TO_FIRST]), KEYS);
  }

  lemma NestedMembers(ms: seq<Member>, all: Value, some: Value, names: Value)
    requires ms == [Member("allOf", all), Member("anyOf", some), Member("propertyNames", names)]
    ensures Find(ms, "allOf") == Some(all) && Find(ms, "anyOf") == Some(some)
    ensures Find(ms, "propertyNames") == Some(names)
  {
    FindAt(ms, 0);
    FindAt(ms, 1);
    FindAt(ms, 2);
  }

  lemma NestedDocumentLacks()
    ensures var ms := NESTED_DOCUMENT.members;
      && NoneOf(ms, ["id", "const", "contains"]) && NoneOf(ms, ITEMS) && NoneOf(ms, PATTERN) && NoneOf(ms, BOUNDS)
      && NoneOf(ms, NOT_NESTED)
  {
  }

  lemma AnyOfReads(ms: seq<Member>, child: Value)
    requires Find(ms, "anyOf") == Some(Array([child])) && child.Object?
    ensures ReadAnyOf(ms) == One(AnyOf([At(child, "/anyOf/0")]))
  {
    hide Find;
    assert Decimal(0) == "0" && "/anyOf" + "/" + "0" == "/anyOf/0";
    assert Elements([child], "/anyOf") == [At(child, "/anyOf/0")];
  }

  lemma OneAllOf(ms: seq<Member>, child: Value)
    requires Find(ms, "allOf") == Some(Array([child])) && child.Object?
    ensures ReadAllOf(ms) == One(AllOf([At(child, "/allOf/0")]))
  {
    hide Find;
    assert Decimal(0) == "0" && "/allOf" + "/" + "0" == "/allOf/0";
    assert Elements([child], "/allOf") == [At(child, "/allOf/0")];
  }

  lemma NestedContains(ms: seq<Member>)
    requires NoneOf(ms, ["id", "const", "contains"])
    requires Find(ms, "allOf") == Some(Array([OBJECTS])) && Find(ms, "anyOf") == Some(Array([TO_FIRST]))
    ensures KeywordsToContains(ms) == Some([AllOf([At(OBJECTS, "/allOf/0")]), AnyOf([At(TO_FIRST, "/anyOf/0")])])
  {
    hide Find, ReadAllOf, ReadAnyOf, JoinAll;
    var others := ["id", "const", "contains"];
    Absent(ms, others);
    assert others[0] == "id" && others[1] == "const" && others[2] == "contains";
    OneAllOf(ms, OBJECTS);
    AnyOfReads(ms, TO_FIRST);
    var rest := [ReadAnyOf(ms), ReadConst(ms), ReadContains(ms)];
    OnlyReading(rest, 0);
    AfterFirst([ReadId(ms), ReadAllOf(ms), ReadAnyOf(ms), ReadConst(ms), ReadContains(ms)], rest);
    JoinOnes(AllOf([At(OBJECTS, "/allOf/0")]), AnyOf([At(TO_FIRST, "/anyOf/0")]));
  }

  lemma NestedUnique(ms: seq<Member>)
    requires NoneOf(ms, NOT_NESTED) && Find(ms, "propertyNames") == Some(KEYS)
    ensures KeywordsToUniqueItems(ms) == One(PropertyNames(At(KEYS, "")))
  {
    hide Find, JoinAll, ReadPropertyNames;
    Absent(ms, NOT_NESTED);
    assert NOT_NESTED[0] == "properties" && NOT_NESTED[1] == "patternProperties";
    assert NOT_NESTED[2] == "additionalProperties" && NOT_NESTED[3] == "required" && NOT_NESTED[4] == "title";
    assert NOT_NESTED[5] == "type" && NOT_NESTED[6] == "uniqueItems";
    PropertyNamesAre(ms, KEYS);
    OnlyReading([ReadProperties(ms), ReadPropertyNames(ms), ReadRequired(ms), ReadText(ms, "title"), ReadType(ms),
                 ReadUniqueItems(ms)], 1);
  }

  lemma NestedDocumentReads(x: Externals)
    ensures Read(x, NESTED_DOCUMENT) == Some(Subschema(false,
      [AllOf([At(OBJECTS, "/allOf/0")]), AnyOf([At(TO_FIRST, "/anyOf/0")]), PropertyNames(At(KEYS, ""))]))
  {
    hide KeywordsToContains, KeywordsToItems, KeywordsToPattern, KeywordsToUniqueItems, NoneOf, Find;
    var ms := NESTED_DOCUMENT.members;
    NestedDocumentHas();
    NestedDocumentLacks();
    NestedContains(ms);
    NothingToItems(ms);
    NothingToPattern(x, ms);
    NestedUnique(ms);
    JoinNothing(KeywordsToUniqueItems(ms));
    assert [AllOf([At(OBJECTS, "/allOf/0")]), AnyOf([At(TO_FIRST, "/anyOf/0")])] + [PropertyNames(At(KEYS, ""))] ==
      [AllOf([At(OBJECTS, "/allOf/0")]), AnyOf([At(TO_FIRST, "/anyOf/0")]), PropertyNames(At(KEYS, ""))];
  }

  lemma OrderedDocumentHas()
    ensures var ms := ORDERED_DOCUMENT.members;
      && NoneOf(ms, CONTAINS) && NoneOf(ms, ["description", "divisibleBy", "enum", "items"])
      && NoneOf(ms, ["if", "oneOf", "pattern"]) && NoneOf(ms, BOUNDS) && NoneOf(ms, UNIQUE)
      && Find(ms, "dependencies") == Some(DEPENDENTS) && Find(ms, "not") == Some(TO_DEPENDENCIES)
  {
  }

  lemma NotReads(x: Externals, ms: seq<Member>, child: Value)
    requires Find(ms, "not") == Some(child) && child.Object?
    requires NoneOf(ms, ["if", "oneOf", "pattern"]) && NoneOf(ms, BOUNDS)
    ensures KeywordsToPattern(x, ms) == One(Not(At(child, "/not")))
  {
    hide Find, ReadLeaves;
    var others := ["if", "oneOf", "pattern"];
    Absent(ms, others);
    assert others[0] == "if" && others[1] == "oneOf" && others[2] == "pattern";
    NoLeaves(x, ms, BOUNDS);
    OnlyReading([ReadConditional(ms), ReadLeaves(x, ms, BOUNDS), ReadNot(ms), ReadOneOf(ms),
                 ReadLeaf(x, ms, "pattern")], 2);
  }

  lemma OrderedDocumentReads(x: Externals)
    ensures Read(x, ORDERED_DOCUMENT) == Some(Subschema(false,
      [Constraint.Dependencies([], [Named("a", At(Bool(false), "/dependencies"))]), Not(At(TO_DEPENDENCIES, "/not"))]))
  {
    hide KeywordsToContains, KeywordsToItems, KeywordsToPattern, KeywordsToUniqueItems, NoneOf, Find;
    var ms := ORDERED_DOCUMENT.members;
    OrderedDocumentHas();
    NothingToContains(ms);
    DependenciesRead(ms);
    NotReads(x, ms, TO_DEPENDENCIES);
    NothingToUnique(ms);
    JoinNothing(KeywordsToPattern(x, ms));
    JoinOnes(Constraint.Dependencies([], [Named("a", At(Bool(false), "/dependencies"))]),
             Not(At(TO_DEPENDENCIES, "/not")));
    JoinNothing(Join(KeywordsToItems(ms), KeywordsToPattern(x, ms)));
  }

  // ---- References ----

  lemma ReferencesAre()
    ensures ReadReference(TO_DEFINITION) == Reference(None, "/definitions/a")
    ensures ReadReference(TO_DEPENDENCIES) == Reference(None, "/dependencies")
    ensures ReadReference(TO_FIRST) == Reference(None, "/allOf/0")
  {
    assert "#/definitions/a"[1..] == "/definitions/a" && "#/dependencies"[1..] == "/dependencies";
    assert "#/allOf/0"[1..] == "/allOf/0" && TO_FIRST.members[0] == Member("$ref", Str("#/allOf/0"));
    assert TO_DEFINITION.members[0] == Member("$ref", Str("#/definitions/a"));
    assert TO_DEPENDENCIES.members[0] == Member("$ref", Str("#/dependencies"));
  }

  lemma WithoutReference(ms: seq<Member>)
    requires NoneOf(ms, ["$ref"])
    ensures ReadReference(Object(ms)) == NoReference
  {
    Absent(ms, ["$ref"]);
    assert ["$ref"][0] == "$ref";
  }

  lemma OthersAreConcrete()
    ensures ReadReference(NAMES_DOCUMENT) == NoReference && ReadReference(KEYED) == NoReference
    ensures ReadReference(NAMES) == NoReference && ReadReference(DEPENDENCIES_DOCUMENT) == NoReference
    ensures ReadReference(DEPENDENTS) == NoReference && ReadReference(Bool(false)) == NoReference
  {
    WithoutReference(NAMES_DOCUMENT.members);
    WithoutReference(KEYED.members);
    WithoutReference(NAMES.members);
    WithoutReference(DEPENDENCIES_DOCUMENT.members);
    WithoutReference(DEPENDENTS.members);
  }

  lemma NestedAreConcrete()
    ensures ReadReference(NESTED_DOCUMENT) == NoReference && ReadReference(OBJECTS) == NoReference
    ensures ReadReference(KEYS) == NoReference && ReadReference(NOT_EMPTY) == NoReference
    ensures ReadReference(ORDERED_DOCUMENT) == NoReference
  {
    hide ReadReference;
    WithoutReference(NESTED_DOCUMENT.members);
    WithoutReference(OBJECTS.members);
    WithoutReference(KEYS.members);
    WithoutReference(NOT_EMPTY.members);
    WithoutReference(ORDERED_DOCUMENT.members);
  }

  lemma StepDown(doc: Value, path: string, ms: seq<Member>, token: string, v: Value)
    requires Resolve(doc, path) == Some(Object(ms)) && PlainToken(token) && Find(ms, token) == Some(v)
    ensures Resolve(doc, path + "/" + token) == Some(v)
  {
    hide Resolve, Overflows, PlainToken;
    ResolveAppend(doc, path, Object(ms), token);
  }

  lemma StepFromRoot(ms: seq<Member>, token: string, v: Value)
    requires PlainToken(token) && Find(ms, token) == Some(v)
    ensures Resolve(Object(ms), "/" + token) == Some(v)
  {
    hide *;
    AtEmpty(Object(ms));
    StepDown(Object(ms), "", ms, token, v);
    assert "" + "/" + token == "/" + token;
  }

  lemma PlainNames()
    ensures PlainToken("definitions") && PlainToken("a") && PlainToken("dependencies") && PlainToken("allOf")
  {
  }

  lemma PathTexts()
    ensures "/" + "definitions" == "/definitions" && "/" + "dependencies" == "/dependencies"
    ensures "/definitions" + "/" + "a" == "/definitions/a"
  {
  }

  lemma DefinitionsResolve(ms: seq<Member>, definitions: seq<Member>)
    requires Find(ms, "definitions") == Some(Object(definitions)) && Find(definitions, "a") == Some(KEYED)
    ensures Resolve(Object(ms), "/definitions/a") == Some(KEYED)
  {
    hide *;
    PathTexts();
    PlainNames();
    StepFromRoot(ms, "definitions", Object(definitions));
    StepDown(Object(ms), "/definitions", definitions, "a", KEYED);
  }

  lemma DependenciesStep(ms: seq<Member>)
    requires Find(ms, "dependencies") == Some(DEPENDENTS)
    ensures Resolve(Object(ms), "/dependencies") == Some(DEPENDENTS)
  {
    hide *;
    PathTexts();
    PlainNames();
    StepFromRoot(ms, "dependencies", DEPENDENTS);
  }

  lemma DefinitionResolves()
    ensures Resolve(NAMES_DOCUMENT, "/definitions/a") == Some(KEYED)
  {
    hide Find, Resolve, NoneOf;
    NamesDocumentHas();
    DefinitionsResolve(NAMES_DOCUMENT.members, [Member("a", KEYED)]);
  }

  lemma DependenciesResolve()
    ensures Resolve(DEPENDENCIES_DOCUMENT, "/dependencies") == Some(DEPENDENTS)
  {
    hide Find, Resolve, NoneOf;
    DependenciesDocumentHas();
    DependenciesStep(DEPENDENCIES_DOCUMENT.members);
  }

  lemma FirstResolves()
    ensures Resolve(NESTED_DOCUMENT, "/allOf/0") == Some(OBJECTS)
  {
    hide Find, Resolve;
    NestedDocumentHas();
    FirstStep(NESTED_DOCUMENT.members, OBJECTS);
  }

  lemma FirstStep(ms: seq<Member>, first: Value)
    requires Find(ms, "allOf") == Some(Array([first]))
    ensures Resolve(Object(ms), "/allOf/0") == Some(first)
  {
    hide Find, Resolve, Overflows, PlainToken;
    PlainNames();
    StepFromRoot(ms, "allOf", Array([first]));
    StoulDecimal(0);
    assert Decimal(0) == "0" && "/" + "allOf" == "/allOf" && "/allOf" + "/" + "0" == "/allOf/0";
    ResolveAppend(Object(ms), "/allOf", Array([first]), "0");
  }

  lemma OrderedResolves()
    ensures Resolve(ORDERED_DOCUMENT, "/dependencies") == Some(DEPENDENTS)
  {
    hide Find, Resolve, NoneOf;
    OrderedDocumentHas();
    DependenciesStep(ORDERED_DOCUMENT.members);
  }

  lemma AtEmpty(doc: Value)
    ensures Resolve(doc, "") == Some(doc)
  {
  }
}
