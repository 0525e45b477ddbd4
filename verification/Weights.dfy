/** How many schema nodes a subschema can be compiled into: its size in the document. */
module Weights {
  import opened Wrappers
  import opened Json
  import opened Schemas
  import opened Keywords

  function SlotWeight(s: Slot): nat { if s.At? then Size(s.node) else 0 }

  function SlotsWeight(ss: seq<Slot>): nat {
    if ss == [] then 0 else SlotWeight(ss[0]) + SlotsWeight(ss[1..])
  }

  function OptionalWeight(s: Option<Slot>): nat { if s.Some? then SlotWeight(s.value) else 0 }

  function ConstraintWeight(c: Constraint<Slot>): nat {
    match c
    case AllOf(cs) => SlotsWeight(cs)
    case AnyOf(cs) => SlotsWeight(cs)
    case OneOf(cs) => SlotsWeight(cs)
    case Not(s) => SlotWeight(s)
    case Conditional(i, t, e) => SlotWeight(i) + OptionalWeight(t) + OptionalWeight(e)
    case Dependencies(_, ss) => SlotsWeight(Children(ss))
    case Contains(s) => SlotWeight(s)
    case SingularItems(s) => SlotWeight(s)
    case LinearItems(cs, a) => SlotsWeight(cs) + OptionalWeight(a)
    case Properties(ns, ps, a) => SlotsWeight(Children(ns)) + SlotsWeight(Children(ps)) + OptionalWeight(a)
    case PropertyNames(s) => SlotWeight(s)
    case Plain(_) => 0
  }

  function ConstraintsWeight(cs: seq<Constraint<Slot>>): nat {
    if cs == [] then 0 else ConstraintWeight(cs[0]) + ConstraintsWeight(cs[1..])
  }

  // ---- Members found under distinct keys do not overlap ----

  function FindSize(ms: seq<Member>, key: string): nat {
    if Find(ms, key).Some? then Size(Find(ms, key).value) else 0
  }

  function FindSizes(ms: seq<Member>, keys: seq<string>): nat {
    if keys == [] then 0 else FindSize(ms, keys[0]) + FindSizes(ms, keys[1..])
  }

  lemma {:induction false} FindSizesAppend(ms: seq<Member>, a: seq<string>, b: seq<string>)
    ensures FindSizes(ms, a + b) == FindSizes(ms, a) + FindSizes(ms, b)
  {
    if a == [] {
      assert a + b == b;
    } else {
      assert (a + b)[1..] == a[1..] + b;
      FindSizesAppend(ms, a[1..], b);
    }
  }

  lemma FindSizesSplit(ms: seq<Member>, keys: seq<string>, j: nat)
    requires j < |keys|
    ensures FindSizes(ms, keys) == FindSizes(ms, keys[..j]) + FindSize(ms, keys[j]) + FindSizes(ms, keys[j + 1..])
  {
    assert keys == keys[..j] + keys[j..];
    FindSizesAppend(ms, keys[..j], keys[j..]);
  }

  lemma {:induction false} FindSizesSkip(ms: seq<Member>, keys: seq<string>)
    requires ms != [] && ms[0].key !in keys
    ensures FindSizes(ms, keys) == FindSizes(ms[1..], keys)
  {
    if keys != [] { FindSizesSkip(ms, keys[1..]); }
  }

  lemma {:induction false} NothingFound(keys: seq<string>)
    ensures FindSizes([], keys) == 0
  {
    if keys != [] { NothingFound(keys[1..]); }
  }

  lemma {:induction false} FindSizesBounded(ms: seq<Member>, keys: seq<string>)
    requires Distinct(keys)
    ensures FindSizes(ms, keys) <= SizeMembers(ms)
  {
    if ms == [] {
      NothingFound(keys);
    } else if ms[0].key in keys {
      var j :| 0 <= j < |keys| && keys[j] == ms[0].key;
      var a, b := keys[..j], keys[j + 1..];
      FindSizesSplit(ms, keys, j);
      FindSizesSkip(ms, a);
      FindSizesSkip(ms, b);
      FindSizesAppend(ms[1..], a, b);
      FindSizesBounded(ms[1..], a + b);
    } else {
      FindSizesSkip(ms, keys);
      FindSizesBounded(ms[1..], keys);
    }
  }

  // ---- Keywords ----

  function ReadingWeight(r: Reading): nat { if r.Some? then ConstraintsWeight(r.value) else 0 }

  lemma {:induction false} ConstraintsWeightAppend(a: seq<Constraint<Slot>>, b: seq<Constraint<Slot>>)
    ensures ConstraintsWeight(a + b) == ConstraintsWeight(a) + ConstraintsWeight(b)
  {
    if a == [] {
      assert a + b == b;
    } else {
      assert (a + b)[1..] == a[1..] + b;
      ConstraintsWeightAppend(a[1..], b);
    }
  }

  lemma JoinWeight(a: Reading, b: Reading)
    ensures ReadingWeight(Join(a, b)) <= ReadingWeight(a) + ReadingWeight(b)
  {
    if a.Some? && b.Some? { ConstraintsWeightAppend(a.value, b.value); }
  }

  function ReadingsWeight(rs: seq<Reading>): nat {
    if rs == [] then 0 else ReadingWeight(rs[0]) + ReadingsWeight(rs[1..])
  }

  lemma {:induction false} JoinAllWeight(rs: seq<Reading>)
    ensures ReadingWeight(JoinAll(rs)) <= ReadingsWeight(rs)
  {
    if rs != [] {
      JoinAllWeight(rs[1..]);
      JoinWeight(rs[0], JoinAll(rs[1..]));
    }
  }

  lemma OneWeight(c: Constraint<Slot>)
    ensures ReadingWeight(One(c)) == ConstraintWeight(c)
  {
    assert ConstraintsWeight([c]) == ConstraintWeight([c][0]) + ConstraintsWeight([c][1..]);
  }

  lemma {:induction false} ElementsWeight(items: seq<Value>, ss: seq<Slot>)
    requires |ss| == |items| && forall k :: 0 <= k < |ss| ==> ss[k].At? && ss[k].node == items[k]
    ensures SlotsWeight(ss) == SizeItems(items)
  {
    if ss != [] { ElementsWeight(items[1..], ss[1..]); }
  }

  lemma {:induction false} EntriesWeight(members: seq<Member>, ss: seq<Slot>)
    requires |ss| == |members| && forall k :: 0 <= k < |ss| ==> ss[k].At? && ss[k].node == members[k].value
    ensures SlotsWeight(ss) == SizeMembers(members)
  {
    if ss != [] { EntriesWeight(members[1..], ss[1..]); }
  }

  lemma ArrayWeight(v: Value, suffix: string)
    ensures SlotsWeight(Elements(AsArray(v), suffix)) < Size(v)
  {
    ElementsWeight(AsArray(v), Elements(AsArray(v), suffix));
  }

  lemma ObjectWeight(v: Value, suffix: string)
    ensures SlotsWeight(Children(NamedElements(AsObject(v), suffix))) < Size(v)
  {
    EntriesWeight(AsObject(v), Children(NamedElements(AsObject(v), suffix)));
  }

  lemma AllOfWeight(ms: seq<Member>)
    ensures ReadingWeight(ReadAllOf(ms)) <= FindSize(ms, "allOf")
  {
    if Find(ms, "allOf").Some? {
      var v := Find(ms, "allOf").value;
      OneWeight(AllOf(Elements(AsArray(v), "/allOf")));
      ArrayWeight(v, "/allOf");
    }
  }

  lemma AnyOfWeight(ms: seq<Member>)
    ensures ReadingWeight(ReadAnyOf(ms)) <= FindSize(ms, "anyOf")
  {
    if Find(ms, "anyOf").Some? {
      var v := Find(ms, "anyOf").value;
      OneWeight(AnyOf(Elements(AsArray(v), "/anyOf")));
      ArrayWeight(v, "/anyOf");
    }
  }

  lemma OneOfWeight(ms: seq<Member>)
    ensures ReadingWeight(ReadOneOf(ms)) <= FindSize(ms, "oneOf")
  {
    if Find(ms, "oneOf").Some? {
      var v := Find(ms, "oneOf").value;
      OneWeight(OneOf(Elements(AsArray(v), "/oneOf")));
      ArrayWeight(v, "/oneOf");
    }
  }

  lemma NotWeight(ms: seq<Member>)
    ensures ReadingWeight(ReadNot(ms)) <= FindSize(ms, "not")
  {
    if Find(ms, "not").Some? { OneWeight(Not(At(Find(ms, "not").value, "/not"))); }
  }

  lemma ConditionalWeight(ms: seq<Member>)
    ensures ReadingWeight(ReadConditional(ms)) <= FindSize(ms, "if") + FindSize(ms, "then") + FindSize(ms, "else")
  {
    if Find(ms, "if").Some? {
      OneWeight(Conditional(At(Find(ms, "if").value, "/if"), Branch(Find(ms, "then"), "/then"),
                            Branch(Find(ms, "else"), "/else")));
    }
  }

  lemma SingleWeight(v: Value, suffix: string)
    ensures OptionalWeight(ReadSingle(v, suffix)) <= Size(v)
  {
  }

  lemma ContainsWeight(ms: seq<Member>)
    ensures ReadingWeight(ReadContains(ms)) <= FindSize(ms, "contains")
  {
    if Find(ms, "contains").Some? {
      var v := Find(ms, "contains").value;
      var s := ReadSingle(v, "/contains");
      SingleWeight(v, "/contains");
      if s.Some? { OneWeight(Contains(s.value)); }
    }
  }

  lemma AdditionalItemsWeight(v: Option<Value>)
    ensures var a := ReadAdditionalItems(v);
      a.Some? ==> OptionalWeight(a.value) <= if v.Some? then Size(v.value) else 0
  {
  }

  lemma ItemsWeight(ms: seq<Member>)
    ensures ReadingWeight(ReadItems(ms)) <= FindSize(ms, "items") + FindSize(ms, "additionalItems")
  {
    AdditionalItemsWeight(Find(ms, "additionalItems"));
    hide Find, Size, SlotWeight, SlotsWeight, Elements, ReadAdditionalItems, ReadSingle;
    if Find(ms, "items").Some? {
      var v := Find(ms, "items").value;
      var s, a := ReadSingle(v, "/items"), ReadAdditionalItems(Find(ms, "additionalItems"));
      SingleWeight(v, "/items");
      ArrayWeight(v, "/items");
      if s.Some? { OneWeight(SingularItems(s.value)); }
      if a.Some? { OneWeight(LinearItems(Elements(AsArray(v), "/items"), a.value)); }
    }
  }

  lemma MembersWeight(ms: seq<Member>, key: string, suffix: string)
    ensures SlotsWeight(Children(NamedElements(MembersIfPresent(Find(ms, key)), suffix))) <= FindSize(ms, key)
  {
    if Find(ms, key).Some? { ObjectWeight(Find(ms, key).value, suffix); }
  }

  lemma AdditionalWeight(v: Option<Value>)
    ensures var a := ReadAdditionalProperties(v);
      a.Some? ==> OptionalWeight(a.value) <= if v.Some? then Size(v.value) else 0
  {
  }

  lemma PropertiesWeight(ms: seq<Member>)
    ensures ReadingWeight(ReadProperties(ms)) <=
      FindSize(ms, "properties") + FindSize(ms, "patternProperties") + FindSize(ms, "additionalProperties")
  {
    hide NamedElements, SlotsWeight, Children, Find, SlotWeight;
    var a := ReadAdditionalProperties(Find(ms, "additionalProperties"));
    AdditionalWeight(Find(ms, "additionalProperties"));
    MembersWeight(ms, "properties", "/properties");
    MembersWeight(ms, "patternProperties", "/patternProperties");
    if a.Some? {
      OneWeight(Properties(NamedElements(MembersIfPresent(Find(ms, "properties")), "/properties"),
                           NamedElements(MembersIfPresent(Find(ms, "patternProperties")),
                                         "/patternProperties"), a.value));
    }
  }

  lemma PropertyNamesWeight(ms: seq<Member>)
    ensures ReadingWeight(ReadPropertyNames(ms)) <= FindSize(ms, "propertyNames")
  {
    if Find(ms, "propertyNames").Some? { OneWeight(PropertyNames(At(Find(ms, "propertyNames").value, ""))); }
  }

  lemma {:induction false} SchemaDependenciesWeight(members: seq<Member>)
    ensures SlotsWeight(Children(SchemaDependencies(members))) <= SizeMembers(members)
  {
    if members != [] {
      var rest := SchemaDependencies(members[1..]);
      SchemaDependenciesWeight(members[1..]);
      if !MaybeArray(members[0].value) {
        assert Children(SchemaDependencies(members))[1..] == Children(rest);
      }
    }
  }

  lemma DependenciesWeight(ms: seq<Member>)
    ensures ReadingWeight(ReadDependencies(ms)) <= FindSize(ms, "dependencies")
  {
    if Find(ms, "dependencies").Some? && ReadDependencies(ms).Some? {
      var members := AsObject(Find(ms, "dependencies").value);
      OneWeight(Constraint.Dependencies(PropertyDependencies(members), SchemaDependencies(members)));
      SchemaDependenciesWeight(members);
    }
  }

  lemma FlatWeight(r: Reading)
    requires IsFlat(r)
    ensures ReadingWeight(r) == 0
  {
    if r.Some? && r.value != [] {
      assert r.value == [r.value[0]];
      OneWeight(r.value[0]);
    }
  }

  lemma {:induction false} LeavesWeight(x: Externals, ms: seq<Member>, keywords: seq<string>)
    ensures ReadingWeight(ReadLeaves(x, ms, keywords)) == 0
  {
    if keywords != [] {
      LeavesWeight(x, ms, keywords[1..]);
      FlatWeight(ReadLeaf(x, ms, keywords[0]));
      JoinWeight(ReadLeaf(x, ms, keywords[0]), ReadLeaves(x, ms, keywords[1..]));
    }
  }

  // ---- The whole node ----

  const CONTAINS_KEYS: seq<string> := ["allOf", "anyOf", "contains"]
  const ITEMS_KEYS: seq<string> := ["dependencies", "items", "additionalItems"]
  const PATTERN_KEYS: seq<string> := ["if", "then", "else", "not", "oneOf"]
  const UNIQUE_KEYS: seq<string> := ["properties", "patternProperties", "additionalProperties", "propertyNames"]

  lemma FiveReadings(a: Reading, b: Reading, c: Reading, d: Reading, e: Reading)
    ensures ReadingWeight(JoinAll([a, b, c, d, e])) <=
      ReadingWeight(a) + ReadingWeight(b) + ReadingWeight(c) + ReadingWeight(d) + ReadingWeight(e)
  {
    hide ReadingWeight, JoinAll;
    JoinAllWeight([a, b, c, d, e]);
    ReadingsOneMore(e, [], [e]);
    ReadingsOneMore(d, [e], [d, e]);
    ReadingsOneMore(c, [d, e], [c, d, e]);
    ReadingsOneMore(b, [c, d, e], [b, c, d, e]);
    ReadingsOneMore(a, [b, c, d, e], [a, b, c, d, e]);
  }

  lemma ReadingsOneMore(r: Reading, rest: seq<Reading>, all: seq<Reading>)
    requires all == [r] + rest
    ensures ReadingsWeight(all) == ReadingWeight(r) + ReadingsWeight(rest)
  {
    hide ReadingWeight;
    assert all[1..] == rest;
  }

  lemma ToContainsWeight(ms: seq<Member>)
    ensures ReadingWeight(KeywordsToContains(ms)) <=
      FindSize(ms, "allOf") + FindSize(ms, "anyOf") + FindSize(ms, "contains")
  {
    hide ReadingWeight, FindSize, ReadId, ReadAllOf, ReadAnyOf, ReadConst, ReadContains, JoinAll;
    FiveReadings(ReadId(ms), ReadAllOf(ms), ReadAnyOf(ms), ReadConst(ms), ReadContains(ms));
    FlatWeight(ReadId(ms));
    AllOfWeight(ms);
    AnyOfWeight(ms);
    FlatWeight(ReadConst(ms));
    ContainsWeight(ms);
  }

  lemma ToItemsWeight(ms: seq<Member>)
    ensures ReadingWeight(KeywordsToItems(ms)) <=
      FindSize(ms, "dependencies") + FindSize(ms, "items") + FindSize(ms, "additionalItems")
  {
    hide ReadingWeight, FindSize, ReadDependencies, ReadText, ReadDivisibleBy, ReadEnum, ReadItems, JoinAll;
    FiveReadings(ReadDependencies(ms), ReadText(ms, "description"), ReadDivisibleBy(ms), ReadEnum(ms), ReadItems(ms));
    DependenciesWeight(ms);
    FlatWeight(ReadText(ms, "description"));
    FlatWeight(ReadDivisibleBy(ms));
    FlatWeight(ReadEnum(ms));
    ItemsWeight(ms);
  }

  lemma ToPatternWeight(x: Externals, ms: seq<Member>)
    ensures ReadingWeight(KeywordsToPattern(x, ms)) <=
      FindSize(ms, "if") + FindSize(ms, "then") + FindSize(ms, "else") + FindSize(ms, "not") + FindSize(ms, "oneOf")
  {
    hide ReadingWeight, FindSize, ReadConditional, ReadLeaves, ReadNot, ReadOneOf, ReadLeaf, JoinAll;
    FiveReadings(ReadConditional(ms), ReadLeaves(x, ms, BOUNDS), ReadNot(ms), ReadOneOf(ms),
                 ReadLeaf(x, ms, "pattern"));
    ConditionalWeight(ms);
    LeavesWeight(x, ms, BOUNDS);
    NotWeight(ms);
    OneOfWeight(ms);
    FlatWeight(ReadLeaf(x, ms, "pattern"));
  }

  lemma ToUniqueItemsWeight(ms: seq<Member>)
    ensures ReadingWeight(KeywordsToUniqueItems(ms)) <=
      FindSize(ms, "properties") + FindSize(ms, "patternProperties") + FindSize(ms,
                                                                                "additionalProperties") + FindSize(ms,
          "propertyNames")
  {
    hide ReadingWeight, FindSize, ReadProperties, ReadPropertyNames, ReadRequired, ReadText, ReadType,
         ReadUniqueItems, Join;
    FiveReadings(ReadPropertyNames(ms), ReadRequired(ms), ReadText(ms, "title"), ReadType(ms), ReadUniqueItems(ms));
    PropertiesWeight(ms);
    PropertyNamesWeight(ms);
    FlatWeight(ReadRequired(ms));
    FlatWeight(ReadText(ms, "title"));
    FlatWeight(ReadType(ms));
    FlatWeight(ReadUniqueItems(ms));
    OneMoreReading(ReadProperties(ms), [ReadPropertyNames(ms), ReadRequired(ms), ReadText(ms, "title"), ReadType(ms),
                                        ReadUniqueItems(ms)],
      [ReadProperties(ms), ReadPropertyNames(ms), ReadRequired(ms), ReadText(ms, "title"), ReadType(ms),
       ReadUniqueItems(ms)]);
  }

  lemma OneMoreReading(r: Reading, rest: seq<Reading>, all: seq<Reading>)
    requires all == [r] + rest
    ensures ReadingWeight(JoinAll(all)) <= ReadingWeight(r) + ReadingWeight(JoinAll(rest))
  {
    assert all[1..] == rest;
    JoinWeight(r, JoinAll(rest));
  }

  const SCHEMA_KEYS: seq<string> := CONTAINS_KEYS + ITEMS_KEYS + PATTERN_KEYS + UNIQUE_KEYS

  lemma KeysDistinct()
    ensures Distinct(SCHEMA_KEYS)
  {
  }

  lemma GroupSizes(ms: seq<Member>)
    ensures FindSizes(ms, CONTAINS_KEYS) == FindSize(ms, "allOf") + FindSize(ms, "anyOf") + FindSize(ms, "contains")
    ensures FindSizes(ms, ITEMS_KEYS) ==
      FindSize(ms, "dependencies") + FindSize(ms, "items") + FindSize(ms, "additionalItems")
    ensures FindSizes(ms, PATTERN_KEYS) ==
      FindSize(ms, "if") + FindSize(ms, "then") + FindSize(ms, "else") + FindSize(ms, "not") + FindSize(ms, "oneOf")
    ensures FindSizes(ms, UNIQUE_KEYS) ==
      FindSize(ms, "properties") + FindSize(ms, "patternProperties") + FindSize(ms,
                                                                                "additionalProperties") + FindSize(ms,
          "propertyNames")
  {
    hide FindSize, Find;
    FindThree(ms, "allOf", "anyOf", "contains");
    FindThree(ms, "dependencies", "items", "additionalItems");
    FindThree(ms, "if", "then", "else");
    FindThree(ms, "patternProperties", "additionalProperties", "propertyNames");
    FindTwo(ms, "not", "oneOf");
    FindSizesAppend(ms, ["if", "then", "else"], ["not", "oneOf"]);
    FindOneMore(ms, "properties", ["patternProperties", "additionalProperties", "propertyNames"], UNIQUE_KEYS);
    assert PATTERN_KEYS == ["if", "then", "else"] + ["not", "oneOf"];
  }

  lemma FindOneMore(ms: seq<Member>, a: string, rest: seq<string>, all: seq<string>)
    requires all == [a] + rest
    ensures FindSizes(ms, all) == FindSize(ms, a) + FindSizes(ms, rest)
  {
    assert all[1..] == rest;
  }

  lemma FindTwo(ms: seq<Member>, a: string, b: string)
    ensures FindSizes(ms, [a, b]) == FindSize(ms, a) + FindSize(ms, b)
  {
    FindOneMore(ms, b, [], [b]);
    FindOneMore(ms, a, [b], [a, b]);
  }

  lemma FindThree(ms: seq<Member>, a: string, b: string, c: string)
    ensures FindSizes(ms, [a, b, c]) == FindSize(ms, a) + FindSize(ms, b) + FindSize(ms, c)
  {
    FindTwo(ms, b, c);
    FindOneMore(ms, a, [b, c], [a, b, c]);
  }

  lemma KeywordsWeight(x: Externals, ms: seq<Member>)
    ensures ReadingWeight(ReadKeywords(x, ms)) <= SizeMembers(ms)
  {
    hide ReadingWeight, FindSize, FindSizes, Find, KeywordsToContains, KeywordsToItems, KeywordsToPattern,
         KeywordsToUniqueItems, Distinct, Join, SCHEMA_KEYS, SizeMembers;
    var a, b, c, d := KeywordsToContains(ms), KeywordsToItems(ms), KeywordsToPattern(x, ms), KeywordsToUniqueItems(ms);
    ToContainsWeight(ms);
    ToItemsWeight(ms);
    ToPatternWeight(x, ms);
    ToUniqueItemsWeight(ms);
    JoinWeight(c, d);
    JoinWeight(b, Join(c, d));
    JoinWeight(a, Join(b, Join(c, d)));
    KeywordSizes(ms);
    KeysDistinct();
    FindSizesBounded(ms, SCHEMA_KEYS);
  }

  /** All subschemas of a node together weigh less than the node. */
  lemma ReadWeight(x: Externals, n: Value)
    requires Read(x, n).Some?
    ensures ConstraintsWeight(Read(x, n).value.constraints) < Size(n)
  {
    hide ReadKeywords;
    if n.Object? {
      KeywordsWeight(x, n.members);
    } else {
      assert ConstraintsWeight([]) == 0;
    }
  }

  lemma KeywordSizes(ms: seq<Member>)
    ensures FindSizes(ms, SCHEMA_KEYS) ==
      (FindSize(ms, "allOf") + FindSize(ms, "anyOf") + FindSize(ms, "contains"))
      + (FindSize(ms, "dependencies") + FindSize(ms, "items") + FindSize(ms, "additionalItems"))
      + (FindSize(ms, "if") + FindSize(ms, "then") + FindSize(ms, "else") + FindSize(ms, "not") + FindSize(ms, "oneOf"))
      + (FindSize(ms, "properties") + FindSize(ms, "patternProperties") + FindSize(ms,
          "additionalProperties") + FindSize(ms, "propertyNames"))
  {
    hide FindSizes, FindSize, CONTAINS_KEYS, ITEMS_KEYS, PATTERN_KEYS, UNIQUE_KEYS;
    GroupSizes(ms);
    FindSizesAppend(ms, CONTAINS_KEYS, ITEMS_KEYS);
    FindSizesAppend(ms, CONTAINS_KEYS + ITEMS_KEYS, PATTERN_KEYS);
    FindSizesAppend(ms, CONTAINS_KEYS + ITEMS_KEYS + PATTERN_KEYS, UNIQUE_KEYS);
  }

  // ---- Schema nodes ----

  /** The schema nodes in v, as the parser reads it, what references point to left out. */
  function SchemaNodes(x: Externals, v: Value): nat
    decreases Size(v), 4
  {
    if ReadReference(v) != NoReference then 0
    else if Read(x, v).None? then 1
    else 1 + ConstraintsNodes(x, Size(v), Read(x, v).value.constraints)
  }

  function SlotNodes(x: Externals, bound: nat, s: Slot): nat
    decreases bound, 0
  {
    if s.At? && Size(s.node) < bound then SchemaNodes(x, s.node) else 0
  }

  function SlotsNodes(x: Externals, bound: nat, ss: seq<Slot>): nat
    decreases bound, 1, |ss|
  {
    if ss == [] then 0 else SlotNodes(x, bound, ss[0]) + SlotsNodes(x, bound, ss[1..])
  }

  function OptionalNodes(x: Externals, bound: nat, s: Option<Slot>): nat
    decreases bound, 1, 0
  {
    if s.Some? then SlotNodes(x, bound, s.value) else 0
  }

  function ConstraintNodes(x: Externals, bound: nat, c: Constraint<Slot>): nat
    decreases bound, 2
  {
    match c
    case AllOf(cs) => SlotsNodes(x, bound, cs)
    case AnyOf(cs) => SlotsNodes(x, bound, cs)
    case OneOf(cs) => SlotsNodes(x, bound, cs)
    case Not(s) => SlotNodes(x, bound, s)
    case Conditional(i, t, e) => SlotNodes(x, bound, i) + OptionalNodes(x, bound, t) + OptionalNodes(x, bound, e)
    case Dependencies(_, ss) => SlotsNodes(x, bound, Children(ss))
    case Contains(s) => SlotNodes(x, bound, s)
    case SingularItems(s) => SlotNodes(x, bound, s)
    case LinearItems(cs, a) => SlotsNodes(x, bound, cs) + OptionalNodes(x, bound, a)
    case Properties(ns, ps, a) =>
      SlotsNodes(x, bound, Children(ns)) + SlotsNodes(x, bound, Children(ps)) + OptionalNodes(x, bound, a)
    case PropertyNames(s) => SlotNodes(x, bound, s)
    case Plain(_) => 0
  }

  function ConstraintsNodes(x: Externals, bound: nat, cs: seq<Constraint<Slot>>): nat
    decreases bound, 3, |cs|
  {
    if cs == [] then 0 else ConstraintNodes(x, bound, cs[0]) + ConstraintsNodes(x, bound, cs[1..])
  }

  /** There are no more schema nodes than JSON values. */
  lemma {:induction false} SchemaNodesFit(x: Externals, v: Value)
    ensures SchemaNodes(x, v) <= Size(v)
    decreases Size(v), 4
  {
    hide Read, ReadReference;
    if ReadReference(v) == NoReference && Read(x, v).Some? {
      ReadWeight(x, v);
      ConstraintsFit(x, Size(v), Read(x, v).value.constraints);
    }
  }

  lemma {:induction false} SlotFits(x: Externals, bound: nat, s: Slot)
    ensures SlotNodes(x, bound, s) <= SlotWeight(s)
    decreases bound, 0
  {
    hide SchemaNodes;
    if s.At? && Size(s.node) < bound { SchemaNodesFit(x, s.node); }
  }

  lemma {:induction false} SlotsFit(x: Externals, bound: nat, ss: seq<Slot>)
    ensures SlotsNodes(x, bound, ss) <= SlotsWeight(ss)
    decreases bound, 1, |ss|
  {
    hide SlotNodes, SlotWeight;
    if ss != [] {
      SlotFits(x, bound, ss[0]);
      SlotsFit(x, bound, ss[1..]);
    }
  }

  lemma {:induction false} ConstraintFits(x: Externals, bound: nat, c: Constraint<Slot>)
    ensures ConstraintNodes(x, bound, c) <= ConstraintWeight(c)
    decreases bound, 2
  {
    hide SlotNodes, SlotWeight, SlotsNodes, SlotsWeight, Children;
    forall s: Slot ensures SlotNodes(x, bound, s) <= SlotWeight(s) { SlotFits(x, bound, s); }
    match c
    case AllOf(cs) => SlotsFit(x, bound, cs);
    case AnyOf(cs) => SlotsFit(x, bound, cs);
    case OneOf(cs) => SlotsFit(x, bound, cs);
    case Dependencies(_, ss) => SlotsFit(x, bound, Children(ss));
    case LinearItems(cs, _) => SlotsFit(x, bound, cs);
    case Properties(ns, ps, _) =>
      SlotsFit(x, bound, Children(ns));
      SlotsFit(x, bound, Children(ps));
    case _ =>
  }

  lemma {:induction false} ConstraintsFit(x: Externals, bound: nat, cs: seq<Constraint<Slot>>)
    ensures ConstraintsNodes(x, bound, cs) <= ConstraintsWeight(cs)
    decreases bound, 3, |cs|
  {
    hide ConstraintNodes, ConstraintWeight;
    if cs != [] {
      ConstraintFits(x, bound, cs[0]);
      ConstraintsFit(x, bound, cs[1..]);
    }
  }
}
