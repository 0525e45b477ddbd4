/** Which schema nodes the parser can read: what it asks of the value of each keyword; and in which order
    it comes to the keywords. */
module Readability {
  import opened Wrappers
  import opened Json
  import opened Schemas
  import opened Keywords

  // ---- Kinds of values ----

  /** Where a boolean is wanted, its text will do. */
  predicate Boolish(u: Value) { u.Bool? || u == Str("true") || u == Str("false") }

  /** Where one kind of container is wanted, the other will do if it is empty. */
  predicate Objectish(u: Value) { u.Object? || u == Array([]) }
  predicate Arrayish(u: Value) { u.Array? || u == Object([]) }

  /** Booleans, numbers and empty containers have a text. */
  predicate Textish(u: Value) { u.Str? || u.Bool? || u.Int? || u.Double? || u == Array([]) || u == Object([]) }

  predicate SchemaLike(u: Value) { u.Object? || u == Array([]) || u.Bool? }

  predicate IsTypeName(u: Value) {
    u.Str? && (u.s == "any" || u.s == "array" || u.s == "boolean" || u.s == "integer" || u.s == "null" ||
               u.s == "number" || u.s == "object" || u.s == "string")
  }

  // ---- Keywords ----

  ghost predicate SchemasAt(ms: seq<Member>, keyword: string) {
    var u := Find(ms, keyword);
    u.Some? ==> Arrayish(u.value) && (u.value.Array? ==> forall s <- u.value.items :: SchemaLike(s))
  }

  ghost predicate TextAt(ms: seq<Member>, keyword: string) {
    var u := Find(ms, keyword);
    u.Some? ==> Textish(u.value)
  }

  ghost predicate ArrayAt(ms: seq<Member>, keyword: string) {
    var u := Find(ms, keyword);
    u.Some? ==> u.value.Array?
  }

  ghost predicate ObjectAt(ms: seq<Member>, keyword: string) {
    var u := Find(ms, keyword);
    u.Some? ==> u.value.Object?
  }

  /** A single schema; the array form of `items` is another matter. */
  ghost predicate SchemaAt(ms: seq<Member>, keyword: string) {
    var u := Find(ms, keyword);
    u.Some? ==> Objectish(u.value) || Boolish(u.value)
  }

  ghost predicate ItemsAt(ms: seq<Member>) {
    var u := Find(ms, "items");
    u.Some? ==> if u.value.Array? then SchemaAt(ms, "additionalItems") else u.value.Object? || Boolish(u.value)
  }

  /** The additional schema may not be an empty array, and counts only together with the others. */
  ghost predicate PropertiesAt(ms: seq<Member>) {
    && ObjectAt(ms, "properties") && ObjectAt(ms, "patternProperties")
    && (var u := Find(ms, "additionalProperties"); u.Some? ==> u.value.Object? || Boolish(u.value))
  }

  ghost predicate DependencyIsFit(d: Member) {
    if d.value.Array? then forall n <- d.value.items :: n.Str? else d.value.Object? || Boolish(d.value)
  }

  ghost predicate DependenciesAt(ms: seq<Member>) {
    var u := Find(ms, "dependencies");
    u.Some? ==> Objectish(u.value) && (u.value.Object? ==> forall d <- u.value.members :: DependencyIsFit(d))
  }

  ghost predicate NamesAt(ms: seq<Member>, keyword: string) {
    var u := Find(ms, keyword);
    u.Some? ==> u.value.Array? && forall n <- u.value.items :: n.Str?
  }

  ghost predicate TypeAt(ms: seq<Member>) {
    var u := Find(ms, "type");
    u.Some? ==>
      IsTypeName(u.value) || (u.value.Array? && u.value.items != [] && forall t <- u.value.items :: IsTypeName(t))
  }

  ghost predicate FlagAt(ms: seq<Member>, keyword: string) {
    var u := Find(ms, keyword);
    u.Some? ==> Boolish(u.value)
  }

  ghost predicate LeafAt(x: Externals, ms: seq<Member>, keyword: string) {
    var u := Find(ms, keyword);
    u.Some? ==> x.leafArgument(keyword, u.value)
  }

  /** Changes of the resolution scope are outside the model. */
  ghost predicate NoScope(ms: seq<Member>) {
    var u := Find(ms, "id");
    u.Some? ==> !Textish(u.value)
  }

  ghost predicate BoundsAt(x: Externals, ms: seq<Member>) {
    && LeafAt(x, ms, "maximum") && LeafAt(x, ms, "exclusiveMaximum")
    && LeafAt(x, ms, "minimum") && LeafAt(x, ms, "exclusiveMinimum") && LeafAt(x, ms, "multipleOf")
    && LeafAt(x, ms, "maxLength") && LeafAt(x, ms, "minLength")
    && LeafAt(x, ms, "maxItems") && LeafAt(x, ms, "minItems")
    && LeafAt(x, ms, "maxProperties") && LeafAt(x, ms, "minProperties")
  }

  /** All keywords of a schema object have values that the parser takes. */
  ghost predicate IsFit(x: Externals, ms: seq<Member>) {
    && NoScope(ms) && SchemasAt(ms, "allOf") && SchemasAt(ms, "anyOf") && SchemaAt(ms, "contains")
    && DependenciesAt(ms) && TextAt(ms, "description") && Find(ms, "divisibleBy").None? && ArrayAt(ms, "enum")
    && ItemsAt(ms)
    && BoundsAt(x, ms) && SchemaAt(ms, "not") && ArrayAt(ms, "oneOf") && LeafAt(x, ms, "pattern")
    && PropertiesAt(ms) && NamesAt(ms, "required") && TextAt(ms, "title") && TypeAt(ms) && FlagAt(ms, "uniqueItems")
  }

  // ---- What is read ----

  lemma {:induction false} AllRead(rs: seq<Reading>)
    ensures JoinAll(rs).Some? <==> forall k :: 0 <= k < |rs| ==> rs[k].Some?
  {
    if rs != [] {
      AllRead(rs[1..]);
      assert forall k :: 0 <= k < |rs[1..]| ==> rs[1..][k] == rs[k + 1];
      assert forall k :: 1 <= k < |rs| ==> rs[k] == rs[1..][k - 1];
    }
  }

  lemma {:induction false} LeavesRead(x: Externals, ms: seq<Member>, keywords: seq<string>)
    ensures ReadLeaves(x, ms, keywords).Some? <==> forall k <- keywords :: LeafAt(x, ms, k)
  {
    if keywords != [] {
      LeavesRead(x, ms, keywords[1..]);
      OneLeafRead(x, ms, keywords[0]);
      hide LeafAt, ReadLeaf;
      assert keywords == [keywords[0]] + keywords[1..];
      assert forall k :: k in keywords <==> k == keywords[0] || k in keywords[1..];
    }
  }

  lemma OneLeafRead(x: Externals, ms: seq<Member>, keyword: string)
    ensures ReadLeaf(x, ms, keyword).Some? <==> LeafAt(x, ms, keyword)
  {
    hide Find;
  }

  lemma SchemasRead(items: seq<Value>)
    ensures AllSchemaLike(items) <==> forall s <- items :: SchemaLike(s)
  {
    forall k | 0 <= k < |items| ensures SchemaLike(items[k]) <==> MaybeObject(items[k]) || items[k].Bool? {
    }
    hide SchemaLike, MaybeObject;
    assert forall k :: 0 <= k < |items| ==> items[k] in items;
  }

  lemma ListsRead(ms: seq<Member>)
    ensures ReadAllOf(ms).Some? <==> SchemasAt(ms, "allOf")
    ensures ReadAnyOf(ms).Some? <==> SchemasAt(ms, "anyOf")
  {
    hide Find, Elements, AllSchemaLike, SchemaLike;
    var u, w := Find(ms, "allOf"), Find(ms, "anyOf");
    if u.Some? { SchemasRead(AsArray(u.value)); }
    if w.Some? { SchemasRead(AsArray(w.value)); }
  }

  lemma CombinatorsRead(ms: seq<Member>)
    ensures ReadOneOf(ms).Some? <==> ArrayAt(ms, "oneOf")
    ensures ReadNot(ms).Some? <==> SchemaAt(ms, "not")
    ensures ReadContains(ms).Some? <==> SchemaAt(ms, "contains")
    ensures ReadConditional(ms).Some? && ReadPropertyNames(ms).Some? && ReadConst(ms).Some?
  {
    hide Find, Elements;
  }

  lemma ItemsRead(ms: seq<Member>)
    ensures ReadItems(ms).Some? <==> ItemsAt(ms)
  {
    hide Find, Elements;
  }

  lemma PropertiesRead(ms: seq<Member>)
    ensures ReadProperties(ms).Some? <==> PropertiesAt(ms)
  {
    hide Find, NamedElements;
  }

  lemma DependenciesRead(ms: seq<Member>)
    ensures ReadDependencies(ms).Some? <==> DependenciesAt(ms)
  {
    hide Find, PropertyDependencies, SchemaDependencies;
    var u := Find(ms, "dependencies");
    if u.Some? && u.value.Object? { MembersRead(u.value.members); }
  }

  lemma MembersRead(members: seq<Member>)
    ensures DependenciesReadable(members) <==> forall d <- members :: DependencyIsFit(d)
  {
    forall k | 0 <= k < |members|
      ensures DependencyIsFit(members[k]) <==>
        var v := members[k].value; if MaybeArray(v) then AllStrings(AsArray(v)) else v.Object? || MaybeBool(v)
    {
      OneRead(members[k]);
    }
    hide DependencyIsFit, MaybeArray, AllStrings, AsArray, MaybeBool;
    assert forall d <- members :: exists k :: 0 <= k < |members| && members[k] == d;
  }

  lemma OneRead(d: Member)
    ensures DependencyIsFit(d) <==>
      var v := d.value; if MaybeArray(v) then AllStrings(AsArray(v)) else v.Object? || MaybeBool(v)
  {
    assert d.value.Array? ==>
      forall n <- d.value.items :: exists k :: 0 <= k < |d.value.items| && d.value.items[k] == n;
  }

  lemma FlatsRead(ms: seq<Member>)
    ensures ReadId(ms).Some? <==> NoScope(ms)
    ensures ReadText(ms, "title").Some? <==> TextAt(ms, "title")
    ensures ReadText(ms, "description").Some? <==> TextAt(ms, "description")
    ensures ReadDivisibleBy(ms).Some? <==> Find(ms, "divisibleBy").None?
    ensures ReadEnum(ms).Some? <==> ArrayAt(ms, "enum")
    ensures ReadRequired(ms).Some? <==> NamesAt(ms, "required")
    ensures ReadUniqueItems(ms).Some? <==> FlagAt(ms, "uniqueItems")
  {
    hide Find, NameSet;
  }

  lemma TypeRead(ms: seq<Member>)
    ensures ReadType(ms).Some? <==> TypeAt(ms)
  {
    hide Find;
    var u := Find(ms, "type");
    if u.Some? && u.value.Str? { NameRead(u.value); }
    if u.Some? && u.value.Array? {
      var items := u.value.items;
      forall k | 0 <= k < |items| ensures IsTypeName(items[k]) <==> items[k].Str? && TypeNamed(items[k].s).Some? {
        NameRead(items[k]);
      }
      hide IsTypeName, TypeNamed;
      assert AllTypeNames(items) <==> forall t <- items :: IsTypeName(t);
    }
  }

  lemma NameRead(u: Value)
    ensures IsTypeName(u) <==> u.Str? && TypeNamed(u.s).Some?
  {
  }

  lemma BoundsRead(x: Externals, ms: seq<Member>)
    ensures ReadLeaves(x, ms, BOUNDS).Some? <==> BoundsAt(x, ms)
  {
    hide LeafAt, ReadLeaves;
    LeavesRead(x, ms, BOUNDS);
    assert BOUNDS[0] == "exclusiveMaximum" && BOUNDS[1] == "maximum" && BOUNDS[2] == "maxItems";
    assert BOUNDS[3] == "maxLength" && BOUNDS[4] == "maxProperties" && BOUNDS[5] == "exclusiveMinimum";
    assert BOUNDS[6] == "minimum" && BOUNDS[7] == "minItems" && BOUNDS[8] == "minLength";
    assert BOUNDS[9] == "minProperties" && BOUNDS[10] == "multipleOf";
  }

  lemma FirstHalfRead(ms: seq<Member>)
    ensures KeywordsToContains(ms).Some? <==>
      NoScope(ms) && SchemasAt(ms, "allOf") && SchemasAt(ms, "anyOf") && SchemaAt(ms, "contains")
    ensures KeywordsToItems(ms).Some? <==>
      (DependenciesAt(ms) && TextAt(ms, "description") && Find(ms, "divisibleBy").None? && ArrayAt(ms, "enum") &&
       ItemsAt(ms))
  {
    ListsRead(ms);
    CombinatorsRead(ms);
    FlatsRead(ms);
    DependenciesRead(ms);
    ItemsRead(ms);
    hide *;
    var a := [ReadId(ms), ReadAllOf(ms), ReadAnyOf(ms), ReadConst(ms), ReadContains(ms)];
    var b := [ReadDependencies(ms), ReadText(ms, "description"), ReadDivisibleBy(ms), ReadEnum(ms), ReadItems(ms)];
    ToContains(ms);
    ToItems(ms);
    AllRead(a);
    AllRead(b);
    assert JoinAll(a).Some? <==> a[0].Some? && a[1].Some? && a[2].Some? && a[3].Some? && a[4].Some?;
    assert JoinAll(b).Some? <==> b[0].Some? && b[1].Some? && b[2].Some? && b[3].Some? && b[4].Some?;
  }

  lemma ToContains(ms: seq<Member>)
    ensures KeywordsToContains(ms) ==
      JoinAll([ReadId(ms), ReadAllOf(ms), ReadAnyOf(ms), ReadConst(ms), ReadContains(ms)])
  {
  }

  lemma ToItems(ms: seq<Member>)
    ensures KeywordsToItems(ms) ==
      JoinAll([ReadDependencies(ms), ReadText(ms, "description"), ReadDivisibleBy(ms), ReadEnum(ms), ReadItems(ms)])
  {
  }

  lemma ToPattern(x: Externals, ms: seq<Member>)
    ensures KeywordsToPattern(x, ms) ==
      JoinAll([ReadConditional(ms), ReadLeaves(x, ms, BOUNDS), ReadNot(ms), ReadOneOf(ms), ReadLeaf(x, ms, "pattern")])
  {
  }

  lemma ToUniqueItems(ms: seq<Member>)
    ensures KeywordsToUniqueItems(ms) ==
      JoinAll([ReadProperties(ms), ReadPropertyNames(ms), ReadRequired(ms), ReadText(ms, "title"), ReadType(ms),
               ReadUniqueItems(ms)])
  {
  }

  lemma SecondHalfRead(x: Externals, ms: seq<Member>)
    ensures KeywordsToPattern(x, ms).Some? <==>
      BoundsAt(x, ms) && SchemaAt(ms, "not") && ArrayAt(ms, "oneOf") && LeafAt(x, ms, "pattern")
    ensures KeywordsToUniqueItems(ms).Some? <==>
      (PropertiesAt(ms) && NamesAt(ms, "required") && TextAt(ms, "title") && TypeAt(ms) && FlagAt(ms, "uniqueItems"))
  {
    CombinatorsRead(ms);
    FlatsRead(ms);
    BoundsRead(x, ms);
    PropertiesRead(ms);
    TypeRead(ms);
    OneLeafRead(x, ms, "pattern");
    hide *;
    var a := [ReadConditional(ms), ReadLeaves(x, ms, BOUNDS), ReadNot(ms), ReadOneOf(ms), ReadLeaf(x, ms, "pattern")];
    var b := [ReadProperties(ms), ReadPropertyNames(ms), ReadRequired(ms), ReadText(ms, "title"), ReadType(ms),
              ReadUniqueItems(ms)];
    ToPattern(x, ms);
    ToUniqueItems(ms);
    AllRead(a);
    AllRead(b);
    assert JoinAll(a).Some? <==> a[0].Some? && a[1].Some? && a[2].Some? && a[3].Some? && a[4].Some?;
    assert JoinAll(b).Some? <==> b[0].Some? && b[1].Some? && b[2].Some? && b[3].Some? && b[4].Some? && b[5].Some?;
  }

  /** A node can be read exactly if it is an object all of whose keywords have fit values, or stands for
      a boolean. */
  lemma ReadExactly(x: Externals, n: Value)
    ensures Read(x, n).Some? <==> if n.Object? then IsFit(x, n.members) else Boolish(n)
    ensures Read(x, n).Some? ==> Read(x, n).value.alwaysInvalid == (n == Bool(false) || n == Str("false"))
  {
    hide KeywordsToContains, KeywordsToItems, KeywordsToPattern, KeywordsToUniqueItems, Find, NoScope, SchemasAt,
         SchemaAt, DependenciesAt, TextAt, ArrayAt, ItemsAt, BoundsAt, LeafAt, PropertiesAt, NamesAt, TypeAt, FlagAt;
    if n.Object? {
      FirstHalfRead(n.members);
      SecondHalfRead(x, n.members);
    }
  }

  // ---- The order of keywords ----

  function BoundPlace(keyword: string): nat {
    if keyword == "exclusiveMaximum" then 8 else if keyword == "maximum" then 9 else if keyword == "maxItems" then 10
    else if keyword == "maxLength" then 11 else if keyword == "maxProperties" then 12
    else if keyword == "exclusiveMinimum" then 13 else if keyword == "minimum" then 14
    else if keyword == "minItems" then 15 else if keyword == "minLength" then 16
    else if keyword == "minProperties" then 17 else if keyword == "multipleOf" then 18 else 21
  }

  /** The place of a constraint's keyword; `pattern` comes after the bounds, `not` and `oneOf`. */
  function Place<C>(c: Constraint<C>): nat {
    match c
    case AllOf(_) => 0
    case AnyOf(_) => 1
    case Plain(Const(_)) => 2
    case Contains(_) => 3
    case Dependencies(_, _) => 4
    case Plain(Enum(_)) => 5
    case SingularItems(_) => 6
    case LinearItems(_, _) => 6
    case Conditional(_, _, _) => 7
    case Plain(Leaf(keyword, _)) => BoundPlace(keyword)
    case Not(_) => 19
    case OneOf(_) => 20
    case Properties(_, _, _) => 22
    case PropertyNames(_) => 23
    case Plain(Required(_)) => 24
    case Plain(Type(_)) => 25
    case Plain(UniqueItems) => 26
  }

  /** In order, with places from `from` up to but not including `to`. */
  ghost predicate Between(r: Reading, from: nat, to: nat) {
    r.Some? ==>
      && (forall i :: 0 <= i < |r.value| ==> from <= Place(r.value[i]) < to)
      && (forall i, j :: 0 <= i < j < |r.value| ==> Place(r.value[i]) < Place(r.value[j]))
  }

  lemma JoinBetween(a: Reading, b: Reading, from: nat, middle: nat, to: nat)
    requires Between(a, from, middle) && Between(b, middle, to) && from <= middle <= to
    ensures Between(Join(a, b), from, to)
  {
    hide Place;
  }

  /** Reading k has the places from bounds[k] up to bounds[k + 1]. */
  lemma {:induction false} AllBetween(rs: seq<Reading>, bounds: seq<nat>)
    requires |bounds| == |rs| + 1
    requires forall k :: 0 <= k < |rs| ==> bounds[k] <= bounds[k + 1] && Between(rs[k], bounds[k], bounds[k + 1])
    ensures bounds[0] <= bounds[|rs|] && Between(JoinAll(rs), bounds[0], bounds[|rs|])
  {
    hide Between;
    if rs == [] {
      NothingBetween(bounds[0]);
    } else {
      AllBetween(rs[1..], bounds[1..]);
      JoinBetween(rs[0], JoinAll(rs[1..]), bounds[0], bounds[1], bounds[|rs|]);
    }
  }

  lemma NothingBetween(n: nat)
    ensures Between(Nothing(), n, n)
  {
  }

  lemma {:induction false} LeavesBetween(x: Externals, ms: seq<Member>, k: nat)
    requires k <= |BOUNDS|
    ensures Between(ReadLeaves(x, ms, BOUNDS[k..]), 8 + k, 19)
    decreases |BOUNDS| - k
  {
    hide Between, ReadLeaf;
    if k == |BOUNDS| {
      assert BOUNDS[k..] == [] && 8 + k == 19;
      NothingBetween(19);
    } else {
      LeavesBetween(x, ms, k + 1);
      assert BOUNDS[k..][0] == BOUNDS[k] && BOUNDS[k..][1..] == BOUNDS[k + 1..];
      LeafBetween(x, ms, k);
      JoinBetween(ReadLeaf(x, ms, BOUNDS[k]), ReadLeaves(x, ms, BOUNDS[k + 1..]), 8 + k, 9 + k, 19);
    }
  }

  lemma LeafBetween(x: Externals, ms: seq<Member>, k: nat)
    requires k < |BOUNDS|
    ensures Between(ReadLeaf(x, ms, BOUNDS[k]), 8 + k, 9 + k)
  {
    hide Find;
    BoundPlaces(k);
  }

  lemma BoundPlaces(k: nat)
    requires k < |BOUNDS|
    ensures BoundPlace(BOUNDS[k]) == 8 + k && |BOUNDS| == 11
  {
  }

  /** At most one constraint, with this place. */
  ghost predicate AtPlace(r: Reading, p: nat) {
    r.Some? ==> |r.value| <= 1 && forall c <- r.value :: Place(c) == p
  }

  lemma AtPlaceBetween(r: Reading, p: nat)
    requires AtPlace(r, p)
    ensures Between(r, p, p + 1)
  {
    hide Place;
    assert r.Some? ==> forall i :: 0 <= i < |r.value| ==> r.value[i] in r.value;
  }

  lemma NothingAt(r: Reading, p: nat)
    requires r.Some? ==> r.value == []
    ensures Between(r, p, p)
  {
  }

  lemma ListsPlaced(ms: seq<Member>)
    ensures AtPlace(ReadAllOf(ms), 0)
    ensures AtPlace(ReadAnyOf(ms), 1)
  {
    hide Find, Elements, NamedElements, NameSet, PropertyDependencies, SchemaDependencies;
  }

  lemma ContainsPlaced(ms: seq<Member>)
    ensures AtPlace(ReadConst(ms), 2)
    ensures AtPlace(ReadContains(ms), 3)
  {
    hide Find, Elements, NamedElements, NameSet, PropertyDependencies, SchemaDependencies;
  }

  lemma DependenciesPlaced(ms: seq<Member>)
    ensures AtPlace(ReadDependencies(ms), 4)
    ensures AtPlace(ReadEnum(ms), 5)
  {
    hide Find, Elements, NamedElements, NameSet, PropertyDependencies, SchemaDependencies;
  }

  lemma ItemsPlaced(ms: seq<Member>)
    ensures AtPlace(ReadItems(ms), 6)
  {
    hide Find, Elements, NamedElements, NameSet, PropertyDependencies, SchemaDependencies;
  }

  lemma CombinatorsPlaced(ms: seq<Member>)
    ensures AtPlace(ReadConditional(ms), 7)
    ensures AtPlace(ReadNot(ms), 19)
    ensures AtPlace(ReadOneOf(ms), 20)
  {
    hide Find, Elements, NamedElements, NameSet, PropertyDependencies, SchemaDependencies;
  }

  lemma PropertiesPlaced(ms: seq<Member>)
    ensures AtPlace(ReadProperties(ms), 22)
    ensures AtPlace(ReadPropertyNames(ms), 23)
  {
    hide Find, Elements, NamedElements, NameSet, PropertyDependencies, SchemaDependencies;
  }

  lemma FlatsPlaced(ms: seq<Member>)
    ensures AtPlace(ReadRequired(ms), 24)
    ensures AtPlace(ReadType(ms), 25)
    ensures AtPlace(ReadUniqueItems(ms), 26)
  {
    hide Find, Elements, NamedElements, NameSet, PropertyDependencies, SchemaDependencies;
  }

  lemma PatternPlaced(x: Externals, ms: seq<Member>)
    ensures AtPlace(ReadLeaf(x, ms, "pattern"), 21)
  {
    hide Find;
  }

  lemma NothingPlaced(ms: seq<Member>)
    ensures ReadId(ms).Some? ==> ReadId(ms).value == []
    ensures ReadDivisibleBy(ms).Some? ==> ReadDivisibleBy(ms).value == []
    ensures forall k :: ReadText(ms, k).Some? ==> ReadText(ms, k).value == []
  {
    hide Find;
  }

  lemma FirstBetween(ms: seq<Member>)
    ensures Between(KeywordsToContains(ms), 0, 4)
  {
    hide *;
    ListsPlaced(ms);
    ContainsPlaced(ms);
    NothingPlaced(ms);
    ToContains(ms);
    var rs := [ReadId(ms), ReadAllOf(ms), ReadAnyOf(ms), ReadConst(ms), ReadContains(ms)];
    NothingAt(rs[0], 0);
    AtPlaceBetween(rs[1], 0);
    AtPlaceBetween(rs[2], 1);
    AtPlaceBetween(rs[3], 2);
    AtPlaceBetween(rs[4], 3);
    AllBetween(rs, [0, 0, 1, 2, 3, 4]);
  }

  lemma SecondBetween(ms: seq<Member>)
    ensures Between(KeywordsToItems(ms), 4, 7)
  {
    hide *;
    DependenciesPlaced(ms);
    ItemsPlaced(ms);
    NothingPlaced(ms);
    ToItems(ms);
    var rs := [ReadDependencies(ms), ReadText(ms, "description"), ReadDivisibleBy(ms), ReadEnum(ms), ReadItems(ms)];
    AtPlaceBetween(rs[0], 4);
    NothingAt(rs[1], 5);
    NothingAt(rs[2], 5);
    AtPlaceBetween(rs[3], 5);
    AtPlaceBetween(rs[4], 6);
    AllBetween(rs, [4, 5, 5, 5, 6, 7]);
  }

  lemma BoundsBetween(x: Externals, ms: seq<Member>)
    ensures Between(ReadLeaves(x, ms, BOUNDS), 8, 19)
  {
    hide Between, ReadLeaves, BOUNDS;
    LeavesBetween(x, ms, 0);
    assert BOUNDS[0..] == BOUNDS;
  }

  lemma ThirdBetween(x: Externals, ms: seq<Member>)
    ensures Between(KeywordsToPattern(x, ms), 7, 22)
  {
    hide *;
    BoundsBetween(x, ms);
    CombinatorsPlaced(ms);
    PatternPlaced(x, ms);
    ToPattern(x, ms);
    var rs := [ReadConditional(ms), ReadLeaves(x, ms, BOUNDS), ReadNot(ms), ReadOneOf(ms), ReadLeaf(x, ms, "pattern")];
    AtPlaceBetween(rs[0], 7);
    AtPlaceBetween(rs[2], 19);
    AtPlaceBetween(rs[3], 20);
    AtPlaceBetween(rs[4], 21);
    AllBetween(rs, [7, 8, 19, 20, 21, 22]);
  }

  lemma FourthBetween(ms: seq<Member>)
    ensures Between(KeywordsToUniqueItems(ms), 22, 27)
  {
    hide *;
    PropertiesPlaced(ms);
    FlatsPlaced(ms);
    NothingPlaced(ms);
    ToUniqueItems(ms);
    var rs := [ReadProperties(ms), ReadPropertyNames(ms), ReadRequired(ms), ReadText(ms, "title"), ReadType(ms),
               ReadUniqueItems(ms)];
    AtPlaceBetween(rs[0], 22);
    AtPlaceBetween(rs[1], 23);
    AtPlaceBetween(rs[2], 24);
    NothingAt(rs[3], 25);
    AtPlaceBetween(rs[4], 25);
    AtPlaceBetween(rs[5], 26);
    AllBetween(rs, [22, 23, 24, 25, 25, 26, 27]);
  }

  /** Each keyword gives at most one constraint, and constraints come in the order of their keywords. */
  lemma KeywordsInOrder(x: Externals, n: Value)
    ensures Between(if Read(x, n).Some? then Some(Read(x, n).value.constraints) else None, 0, 27)
  {
    hide Between, KeywordsToContains, KeywordsToItems, KeywordsToPattern, KeywordsToUniqueItems;
    if n.Object? {
      var ms := n.members;
      FirstBetween(ms);
      SecondBetween(ms);
      ThirdBetween(x, ms);
      FourthBetween(ms);
      var a, b := KeywordsToContains(ms), KeywordsToItems(ms);
      var c, d := KeywordsToPattern(x, ms), KeywordsToUniqueItems(ms);
      JoinBetween(c, d, 7, 22, 27);
      JoinBetween(b, Join(c, d), 4, 7, 27);
      JoinBetween(a, Join(b, Join(c, d)), 0, 4, 27);
    } else {
      EmptyBetween();
    }
  }

  lemma EmptyBetween()
    ensures Between(Some([]), 0, 27) && Between(None, 0, 27)
  {
  }
}
