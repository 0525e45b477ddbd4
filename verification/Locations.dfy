/** What the errors of a report say: a declarative account of which errors there are, and that each
    lies at a place of the validated value and is true of what is found there. */
module Locations {
  import opened Wrappers
  import opened Json
  import opened Schemas
  import opened Keywords
  import opened Semantics
  import opened Reports

  /** The value a context leads to from v: an index selects an item, a name a member. */
  function Located(v: Value, steps: Context): Option<Value> {
    if steps == [] then Some(v) else
      match steps[0]
      case Root => None
      case Index(i) => if v.Array? && i < |v.items| then Located(v.items[i], steps[1..]) else None
      case Name(n) =>
        if v.Object? && Find(v.members, n).Some? then Located(Find(v.members, n).value, steps[1..]) else None
  }

  // ---- Which errors a constraint makes ----

  type Verdicts = (Pointer, Value) -> bool

  /** Subschema `child` is applied to `value`, which lies at `inner`; if it fails, the error of that
      kind lies at `outer`.  Both are relative to the value the constraint applies to. */
  datatype Application = Application(child: Pointer, value: Value, inner: Context, outer: Context, kind: Kind)

  ghost predicate NoneOf(accepts: Verdicts, cs: seq<Pointer>, v: Value) {
    forall k :: 0 <= k < |cs| ==> !accepts(cs[k], v)
  }

  /** The applications whose errors are collected when c is visited on v. */
  ghost predicate Applies(x: Externals, accepts: Verdicts, c: Constraint<Pointer>, v: Value, a: Application) {
    match c
    case AllOf(cs) => ChildApplies(cs, v, a) && forall j :: 0 <= j < a.kind.index ==> accepts(cs[j], v)
    case AnyOf(cs) => NoneOf(accepts, cs, v) && ChildApplies(cs, v, a)
    case OneOf(cs) => NoneOf(accepts, cs, v) && ChildApplies(cs, v, a)
    case Conditional(i, t, e) =>
      && a == Application(a.child, v, [], [], ConditionalFailed) && !accepts(a.child, v)
      && (if accepts(i, v) then t == Some(a.child) else e == Some(a.child))
    case Dependencies(_, ss) => v.Object? && DependentApplies(ss, v, a)
    case SingularItems(s) =>
      && v.Array? && a.kind.SingularItemFailed?
      && var k := a.kind.index;
      k < |v.items| && a == Application(s, v.items[k], [Index(k)], [], SingularItemFailed(k))
    case LinearItems(cs, additional) => v.Array? && ItemApplies(accepts, cs, additional, v.items, a)
    case Properties(named, patterns, additional) =>
      && v.Object?
      && (|| NamedApplies(named, v.members, a)
          || PatternApplies(x, accepts, patterns, v.members, a)
          || RestApplies(x, accepts, named, patterns, additional, v.members, a))
    case _ => false
  }

  ghost predicate ChildApplies(cs: seq<Pointer>, v: Value, a: Application) {
    a.kind.ChildFailed? && a.kind.index < |cs| &&
    a == Application(cs[a.kind.index], v, [], [], ChildFailed(a.kind.index))
  }

  ghost predicate DependentApplies(ss: seq<Named<Pointer>>, v: Value, a: Application)
    requires v.Object?
  {
    exists k :: 0 <= k < |ss| && Find(v.members, ss[k].name).Some? &&
      a == Application(ss[k].child, v, [], [], DependentSchemaFailed)
  }

  /** The positions at which an item satisfies the schema of its position. */
  ghost function SatisfiedPositions(accepts: Verdicts, cs: seq<Pointer>, items: seq<Value>): set<nat> {
    set k: nat | k < |cs| && k < |items| && accepts(cs[k], items[k])
  }

  /** Items with a schema of their own; and from the position on that equals the number of those that
      satisfied theirs, the additional ones. */
  ghost predicate ItemApplies(accepts: Verdicts, cs: seq<Pointer>, additional: Option<Pointer>, items: seq<Value>,
                              a: Application) {
    || (&& a.kind.ItemFailed?
        && var k := a.kind.index;
        && k < |cs| && k < |items|
        && a == Application(cs[k], items[k], [Index(k)], [Index(k)], ItemFailed(k)))
    || (&& a.kind.AdditionalItemFailed? && additional.Some?
        && var k := a.kind.index;
        && |SatisfiedPositions(accepts, cs, items)| <= k < |items|
        && a == Application(additional.value, items[k], [Index(k)], [], AdditionalItemFailed(k)))
  }

  ghost predicate NamedApplies(named: seq<Named<Pointer>>, members: seq<Member>, a: Application) {
    exists k :: 0 <= k < |named| && NamedAt(named[k], members, a)
  }

  ghost predicate NamedAt(n: Named<Pointer>, members: seq<Member>, a: Application) {
    var found := Find(members, n.name);
    found.Some? && a == Application(n.child, found.value, [Name(n.name)], [], PropertyFailed(n.name))
  }

  /** The pattern is found in the name of a member that the subschema of the pattern rejects. */
  ghost predicate Fails(x: Externals, accepts: Verdicts, pattern: Named<Pointer>, m: Member) {
    x.regexSearch(pattern.name, m.key) && !accepts(pattern.child, m.value)
  }

  ghost predicate SomeFails(x: Externals, accepts: Verdicts, pattern: Named<Pointer>, members: seq<Member>) {
    exists m <- members :: Fails(x, accepts, pattern, m)
  }

  /** Pattern k is found in the name of member j, and nothing failed under an earlier pattern or
      at an earlier member under this one: the first failure ends the search for patterns. */
  ghost predicate Tried(x: Externals, accepts: Verdicts, patterns: seq<Named<Pointer>>, members: seq<Member>,
                        k: nat, j: nat)
    requires k < |patterns| && j < |members|
  {
    && x.regexSearch(patterns[k].name, members[j].key)
    && (forall i :: 0 <= i < k ==> !SomeFails(x, accepts, patterns[i], members))
    && (forall i :: 0 <= i < j ==> !Fails(x, accepts, patterns[k], members[i]))
  }

  ghost predicate PatternApplies(x: Externals, accepts: Verdicts, patterns: seq<Named<Pointer>>, members: seq<Member>,
                                 a: Application) {
    exists k: nat, j: nat :: k < |patterns| && j < |members| && Tried(x, accepts, patterns, members, k, j) &&
      a == Application(patterns[k].child, members[j].value, [Name(members[j].key)], [], PatternFailed(patterns[k].name))
  }

  /** The name has a subschema of its own or was come across in the search for patterns. */
  ghost predicate Settled(x: Externals, accepts: Verdicts, named: seq<Named<Pointer>>, patterns: seq<Named<Pointer>>,
                          members: seq<Member>, key: string) {
    || (exists k :: 0 <= k < |named| && named[k].name == key)
    || (exists k: nat, j: nat :: k < |patterns| && j < |members| && members[j].key == key &&
                                 Tried(x, accepts, patterns, members, k, j))
  }

  ghost predicate FirstUnsettled(x: Externals, accepts: Verdicts, named: seq<Named<Pointer>>,
                                 patterns: seq<Named<Pointer>>, members: seq<Member>, j: nat)
    requires j < |members|
  {
    && !Settled(x, accepts, named, patterns, members, members[j].key)
    && forall i :: 0 <= i < j ==> Settled(x, accepts, named, patterns, members, members[i].key)
  }

  ghost predicate RestApplies(x: Externals, accepts: Verdicts, named: seq<Named<Pointer>>,
                              patterns: seq<Named<Pointer>>, additional: Option<Pointer>, members: seq<Member>,
                              a: Application) {
    additional.Some? &&
    exists m <- members :: !Settled(x, accepts, named, patterns, members, m.key) &&
                           a == Application(additional.value, m.value, [Name(m.key)], [], AdditionalPropertyFailed)
  }

  /** The errors of c itself, at the value it applies to. */
  ghost predicate Complains(x: Externals, accepts: Verdicts, c: Constraint<Pointer>, v: Value, kind: Kind) {
    match c
    case AnyOf(cs) => kind == NoneOfAny && NoneOf(accepts, cs, v)
    case OneOf(cs) =>
      || (kind == NoneOfOne && NoneOf(accepts, cs, v))
      || (kind == SeveralOfOne && exists i, j :: 0 <= i < j < |cs| && accepts(cs[i], v) && accepts(cs[j], v))
    case Not(s) => kind == NotFailed && accepts(s, v)
    case Dependencies(ps, _) =>
      v.Object? && kind.DependencyMissing? && Find(v.members, kind.name).None? &&
      (exists p <- ps :: Find(v.members, p.name).Some? && kind.name in p.needs)
    case Contains(s) =>
      kind == NothingContained && v.Array? && forall k :: 0 <= k < |v.items| ==> !accepts(s, v.items[k])
    case LinearItems(cs, additional) =>
      v.Array? && additional.None? &&
      (|| (kind == TooManyItems && 0 < |cs| < |v.items|)
       || (kind == ItemsNotCovered(|SatisfiedPositions(accepts, cs, v.items)|) &&
           |SatisfiedPositions(accepts, cs, v.items)| < |v.items|))
    case Properties(named, patterns, additional) =>
      v.Object? && additional.None? &&
      exists j: nat :: j < |v.members| && kind == Unwanted(v.members[j].key) &&
                       FirstUnsettled(x, accepts, named, patterns, v.members, j)
    case Plain(Required(names)) =>
      v.Object? && kind.PropertyMissing? && kind.name in names && Find(v.members, kind.name).None?
    case Plain(UniqueItems) =>
      v.Array? && kind.Duplicates? && kind.first < kind.second < |v.items| &&
      EqualTo(v.items[kind.first], v.items[kind.second])
    case Plain(f) => kind == CheckFailed(f) && !FlatHolds(x, f, v)
    case _ => false
  }

  // ---- Membership in what each constraint reports ----

  ghost predicate From(o: View, ctx: Context, a: Application, e: Error) {
    || e in o.report(a.child, a.value, ctx + a.inner)
    || (!o.accepts(a.child, a.value) && e == Error(ctx + a.outer, a.kind))
  }

  lemma AppliedIsFrom(o: View, q: Pointer, w: Value, inner: Context, outer: Context, kind: Kind, ctx: Context, e: Error)
    ensures e in Applied(o, q, w, ctx + inner, ctx + outer, kind) <==>
      From(o, ctx, Application(q, w, inner, outer, kind), e)
  {
  }

  ghost function Child(cs: seq<Pointer>, k: nat, v: Value): Application
    requires k < |cs|
  {
    Application(cs[k], v, [], [], ChildFailed(k))
  }

  lemma {:induction false} InAllOf(o: View, cs: seq<Pointer>, j: nat, v: Value, ctx: Context, e: Error)
    requires j <= |cs|
    ensures e in AllOfFrom(o, cs, j, v, ctx) <==>
      exists k :: j <= k < |cs| && From(o, ctx, Child(cs, k, v), e) && forall i :: j <= i < k ==> o.accepts(cs[i], v)
    decreases |cs| - j
  {
    hide From, Applied;
    if j < |cs| {
      InAllOf(o, cs, j + 1, v, ctx, e);
      assert ctx + [] == ctx;
      AppliedIsFrom(o, cs[j], v, [], [], ChildFailed(j), ctx, e);
      var here := Child(cs, j, v);
    }
  }

  lemma {:induction false} InChildren(o: View, cs: seq<Pointer>, j: nat, v: Value, ctx: Context, e: Error)
    requires j <= |cs|
    ensures e in ChildrenFrom(o, cs, j, v, ctx) <==> exists k :: j <= k < |cs| && From(o, ctx, Child(cs, k, v), e)
    decreases |cs| - j
  {
    hide From, Applied;
    if j < |cs| {
      InChildren(o, cs, j + 1, v, ctx, e);
      assert ctx + [] == ctx;
      AppliedIsFrom(o, cs[j], v, [], [], ChildFailed(j), ctx, e);
      var here := Child(cs, j, v);
    }
  }

  lemma {:induction false} InMissing(needs: seq<string>, j: nat, v: Value, ctx: Context, dependency: bool, e: Error)
    requires j <= |needs| && v.Object?
    ensures e in MissingFrom(needs, j, v, ctx, dependency) <==>
      && e.context == ctx && (if dependency then e.kind.DependencyMissing? else e.kind.PropertyMissing?)
      && e.kind.name in needs[j..] && Find(v.members, e.kind.name).None?
    decreases |needs| - j
  {
    hide Find;
    if j < |needs| {
      InMissing(needs, j + 1, v, ctx, dependency, e);
      assert needs[j..] == [needs[j]] + needs[j + 1..];
    }
  }

  lemma {:induction false} InPropertyDependencies(ps: seq<Dependency>, j: nat, v: Value, ctx: Context, e: Error)
    requires j <= |ps| && v.Object?
    ensures e in PropertyDependenciesFrom(ps, j, v, ctx) <==>
      && e.context == ctx && e.kind.DependencyMissing? && Find(v.members, e.kind.name).None?
      && exists p <- ps[j..] :: Find(v.members, p.name).Some? && e.kind.name in p.needs
    decreases |ps| - j
  {
    hide Find;
    if j < |ps| {
      InPropertyDependencies(ps, j + 1, v, ctx, e);
      assert ps[j..] == [ps[j]] + ps[j + 1..];
      InMissing(ps[j].needs, 0, v, ctx, true, e);
      assert ps[j].needs[0..] == ps[j].needs;
    }
  }

  ghost function Dependent(s: Named<Pointer>, v: Value): Application {
    Application(s.child, v, [], [], DependentSchemaFailed)
  }

  ghost predicate FromDependent(o: View, s: Named<Pointer>, v: Value, ctx: Context, e: Error)
    requires v.Object?
  {
    Find(v.members, s.name).Some? && From(o, ctx, Dependent(s, v), e)
  }

  lemma {:induction false} InSchemaDependencies(o: View, ss: seq<Named<Pointer>>, j: nat, v: Value, ctx: Context,
                                                e: Error)
    requires j <= |ss| && v.Object?
    ensures e in SchemaDependenciesFrom(o, ss, j, v, ctx) <==>
      exists k :: j <= k < |ss| && FromDependent(o, ss[k], v, ctx, e)
    decreases |ss| - j
  {
    hide From, Applied, Find;
    if j < |ss| {
      assert FromDependent(o, ss[j], v, ctx, e) <==>
        Find(v.members, ss[j].name).Some? && From(o, ctx, Dependent(ss[j], v), e);
      hide FromDependent;
      InSchemaDependencies(o, ss, j + 1, v, ctx, e);
      assert ctx + [] == ctx;
      AppliedIsFrom(o, ss[j].child, v, [], [], DependentSchemaFailed, ctx, e);
    }
  }

  ghost function Singular(s: Pointer, items: seq<Value>, k: nat): Application
    requires k < |items|
  {
    Application(s, items[k], [Index(k)], [], SingularItemFailed(k))
  }

  lemma {:induction false} InSingular(o: View, s: Pointer, items: seq<Value>, j: nat, ctx: Context, e: Error)
    requires j <= |items|
    ensures e in SingularFrom(o, s, items, j, ctx) <==>
      exists k :: j <= k < |items| && From(o, ctx, Singular(s, items, k), e)
    decreases |items| - j
  {
    hide From, Applied;
    if j < |items| {
      InSingular(o, s, items, j + 1, ctx, e);
      assert ctx + [] == ctx;
      AppliedIsFrom(o, s, items[j], [Index(j)], [], SingularItemFailed(j), ctx, e);
      var here := Singular(s, items, j);
    }
  }

  ghost function ItemOf(cs: seq<Pointer>, items: seq<Value>, k: nat): Application
    requires k < |items| && k < |cs|
  {
    Application(cs[k], items[k], [Index(k)], [Index(k)], ItemFailed(k))
  }

  lemma {:induction false} InItems(o: View, cs: seq<Pointer>, items: seq<Value>, j: nat, ctx: Context, e: Error)
    requires j <= |cs|
    ensures e in ItemsFrom(o, cs, items, j, ctx) <==>
      exists k :: j <= k < |cs| && k < |items| && From(o, ctx, ItemOf(cs, items, k), e)
    decreases |cs| - j
  {
    hide From, Applied;
    if j < |cs| && j < |items| {
      InItems(o, cs, items, j + 1, ctx, e);
      AppliedIsFrom(o, cs[j], items[j], [Index(j)], [Index(j)], ItemFailed(j), ctx, e);
      var here := ItemOf(cs, items, j);
    }
  }

  ghost function AdditionalItem(s: Pointer, items: seq<Value>, k: nat): Application
    requires k < |items|
  {
    Application(s, items[k], [Index(k)], [], AdditionalItemFailed(k))
  }

  lemma {:induction false} InAdditional(o: View, s: Pointer, items: seq<Value>, j: nat, ctx: Context, e: Error)
    requires j <= |items|
    ensures e in AdditionalFrom(o, s, items, j, ctx) <==>
      exists k :: j <= k < |items| && From(o, ctx, AdditionalItem(s, items, k), e)
    decreases |items| - j
  {
    hide From, Applied;
    if j < |items| {
      InAdditional(o, s, items, j + 1, ctx, e);
      assert ctx + [] == ctx;
      AppliedIsFrom(o, s, items[j], [Index(j)], [], AdditionalItemFailed(j), ctx, e);
      var here := AdditionalItem(s, items, j);
    }
  }

  ghost function SatisfiedBelow(o: View, cs: seq<Pointer>, items: seq<Value>, j: nat): set<nat>
    requires j <= |cs| && j <= |items|
  {
    set k: nat | k < j && o.accepts(cs[k], items[k])
  }

  lemma OneMoreSatisfied(o: View, cs: seq<Pointer>, items: seq<Value>, j: nat)
    requires j < |cs| && j < |items|
    ensures var before := SatisfiedBelow(o, cs, items, j);
      && j !in before
      && SatisfiedBelow(o, cs, items, j + 1) == if o.accepts(cs[j], items[j]) then before + {j} else before
  {
  }

  /** The counter of accepted items is the number of positions at which the item is accepted. */
  lemma {:induction false} CountIsSize(o: View, cs: seq<Pointer>, items: seq<Value>, j: nat)
    requires j <= |cs| && j <= |items|
    ensures CountAccepted(o, cs, items, j) == |SatisfiedBelow(o, cs, items, j)|
  {
    if j > 0 {
      CountIsSize(o, cs, items, j - 1);
      OneMoreSatisfied(o, cs, items, j - 1);
      hide SatisfiedBelow;
    }
  }

  lemma SatisfiedAreCounted(o: View, cs: seq<Pointer>, items: seq<Value>)
    ensures CountAccepted(o, cs, items, Min(|cs|, |items|)) == |SatisfiedPositions(o.accepts, cs, items)|
  {
    var m := Min(|cs|, |items|);
    CountIsSize(o, cs, items, m);
    assert SatisfiedPositions(o.accepts, cs, items) == SatisfiedBelow(o, cs, items, m);
  }

  ghost function NamedOne(n: Named<Pointer>, members: seq<Member>): Application
    requires Find(members, n.name).Some?
  {
    Application(n.child, Find(members, n.name).value, [Name(n.name)], [], PropertyFailed(n.name))
  }

  lemma {:induction false} InNamed(o: View, named: seq<Named<Pointer>>, j: nat, members: seq<Member>, ctx: Context,
                                   e: Error)
    requires j <= |named|
    ensures e in NamedFrom(o, named, j, members, ctx) <==>
      exists k :: j <= k < |named| && Find(members, named[k].name).Some? && From(o, ctx, NamedOne(named[k], members), e)
    decreases |named| - j
  {
    hide From, Applied, Find;
    if j < |named| {
      InNamed(o, named, j + 1, members, ctx, e);
      var found := Find(members, named[j].name);
      if found.Some? {
        assert ctx + [] == ctx;
        AppliedIsFrom(o, named[j].child, found.value, [Name(named[j].name)], [], PropertyFailed(named[j].name), ctx, e);
      }
    }
  }

  ghost function PatternOne(pattern: Named<Pointer>, m: Member): Application {
    Application(pattern.child, m.value, [Name(m.key)], [], PatternFailed(pattern.name))
  }

  /** The pattern is found in member k, and no member from j on fails before. */
  ghost predicate PassReaches(x: Externals, o: View, pattern: Named<Pointer>, members: seq<Member>, j: nat, k: nat)
    requires k < |members|
  {
    x.regexSearch(pattern.name, members[k].key) && forall i :: j <= i < k ==> !Fails(x, o.accepts, pattern, members[i])
  }

  lemma {:induction false} InPatternPass(x: Externals, o: View, pattern: Named<Pointer>, members: seq<Member>, j: nat,
                                         ctx: Context, e: Error)
    requires j <= |members|
    ensures e in PatternPass(x, o, pattern, members, j, ctx).errors <==>
      exists k: nat :: j <= k < |members| && PassReaches(x, o, pattern, members, j, k) &&
        From(o, ctx, PatternOne(pattern, members[k]), e)
    decreases |members| - j
  {
    hide From, Applied;
    if j < |members| {
      InPatternPass(x, o, pattern, members, j + 1, ctx, e);
      var m := members[j];
      assert ctx + [] == ctx;
      AppliedIsFrom(o, pattern.child, m.value, [Name(m.key)], [], PatternFailed(pattern.name), ctx, e);
      PassGoesOn(x, o, pattern, members, j);
    }
  }

  lemma PassGoesOn(x: Externals, o: View, pattern: Named<Pointer>, members: seq<Member>, j: nat)
    requires j < |members|
    ensures PassReaches(x, o, pattern, members, j, j) <==> x.regexSearch(pattern.name, members[j].key)
    ensures forall k: nat :: j < k < |members| ==>
      (PassReaches(x, o, pattern, members, j, k) <==>
       !Fails(x, o.accepts, pattern, members[j]) && PassReaches(x, o, pattern, members, j + 1, k))
  {
  }

  lemma {:induction false} MatchedInPass(x: Externals, o: View, pattern: Named<Pointer>, members: seq<Member>, j: nat,
                                         ctx: Context, key: string)
    requires j <= |members|
    ensures key in PatternPass(x, o, pattern, members, j, ctx).matched <==>
      exists k: nat :: j <= k < |members| && PassReaches(x, o, pattern, members, j, k) && members[k].key == key
    decreases |members| - j
  {
    hide Applied;
    if j < |members| {
      MatchedInPass(x, o, pattern, members, j + 1, ctx, key);
      PassGoesOn(x, o, pattern, members, j);
    }
  }

  /** No pattern from first on, k excluded, fails at any member. */
  ghost predicate NoneFails(x: Externals, o: View, patterns: seq<Named<Pointer>>, first: nat, k: nat,
                            members: seq<Member>)
    requires k <= |patterns|
  {
    forall i :: first <= i < k ==> !SomeFails(x, o.accepts, patterns[i], members)
  }

  ghost predicate SearchReaches(x: Externals, o: View, patterns: seq<Named<Pointer>>, first: nat,
                                members: seq<Member>, k: nat, j: nat)
    requires k < |patterns| && j < |members|
  {
    NoneFails(x, o, patterns, first, k, members) && PassReaches(x, o, patterns[k], members, 0, j)
  }

  lemma SearchGoesOn(x: Externals, o: View, patterns: seq<Named<Pointer>>, first: nat, members: seq<Member>,
                     ctx: Context)
    requires first < |patterns|
    ensures var stopped := PatternPass(x, o, patterns[first], members, 0, ctx).stopped;
      forall k: nat, j: nat :: first < k < |patterns| && j < |members| ==>
        (SearchReaches(x, o, patterns, first, members, k, j) <==>
         !stopped && SearchReaches(x, o, patterns, first + 1, members, k, j))
    ensures forall j: nat :: j < |members| ==>
      (SearchReaches(x, o, patterns, first, members, first, j) <==>
       PassReaches(x, o, patterns[first], members, 0, j))
  {
    hide PassReaches, PatternPass, SomeFails;
    PassStops(x, o, patterns[first], members, ctx);
  }

  lemma PassStops(x: Externals, o: View, pattern: Named<Pointer>, members: seq<Member>, ctx: Context)
    ensures PatternPass(x, o, pattern, members, 0, ctx).stopped <==> SomeFails(x, o.accepts, pattern, members)
  {
    PatternPassFacts(x, o, pattern, members, 0, ctx);
    hide PatternPass;
    forall m <- members ensures PatternFails(x, o, pattern, m) <==> Fails(x, o.accepts, pattern, m) {
    }
    if SomeFails(x, o.accepts, pattern, members) {
      var m :| m in members && Fails(x, o.accepts, pattern, m);
      assert PatternFails(x, o, pattern, m);
    }
  }

  lemma {:induction false} InPatternsPass(x: Externals, o: View, patterns: seq<Named<Pointer>>, first: nat,
                                          members: seq<Member>, ctx: Context, e: Error)
    requires first <= |patterns|
    ensures e in PatternsPass(x, o, patterns, first, members, ctx).errors <==>
      exists k: nat, j: nat :: first <= k < |patterns| && j < |members| &&
        SearchReaches(x, o, patterns, first, members, k, j) && From(o, ctx, PatternOne(patterns[k], members[j]), e)
    decreases |patterns| - first
  {
    hide From, PatternPass, SearchReaches, PassReaches;
    if first < |patterns| {
      InPatternsPass(x, o, patterns, first + 1, members, ctx, e);
      InPatternPass(x, o, patterns[first], members, 0, ctx, e);
      SearchGoesOn(x, o, patterns, first, members, ctx);
    }
  }

  lemma {:induction false} MatchedInSearch(x: Externals, o: View, patterns: seq<Named<Pointer>>, first: nat,
                                           members: seq<Member>, ctx: Context, key: string)
    requires first <= |patterns|
    ensures key in PatternsPass(x, o, patterns, first, members, ctx).matched <==>
      exists k: nat, j: nat :: first <= k < |patterns| && j < |members| &&
        SearchReaches(x, o, patterns, first, members, k, j) && members[j].key == key
    decreases |patterns| - first
  {
    hide PatternPass, SearchReaches, PassReaches;
    var pass := PatternsPass(x, o, patterns, first, members, ctx);
    if first < |patterns| {
      MatchedInSearch(x, o, patterns, first + 1, members, ctx, key);
      MatchedInPass(x, o, patterns[first], members, 0, ctx, key);
      SearchGoesOn(x, o, patterns, first, members, ctx);
      var one := PatternPass(x, o, patterns[first], members, 0, ctx);
      assert pass.matched == one.matched + if one.stopped then {} else
          PatternsPass(x, o, patterns, first + 1, members, ctx).matched;
      if key in one.matched {
        var j: nat :| j < |members| && PassReaches(x, o, patterns[first], members, 0, j) && members[j].key == key;
        assert SearchReaches(x, o, patterns, first, members, first, j);
      } else if key in pass.matched {
        var k: nat, j: nat :| first + 1 <= k < |patterns| && j < |members| &&
                              SearchReaches(x, o, patterns, first + 1, members, k, j) && members[j].key == key;
        assert SearchReaches(x, o, patterns, first, members, k, j);
      }
      if k: nat, j: nat :| first <= k < |patterns| && j < |members| &&
                           SearchReaches(x, o, patterns, first, members, k, j) && members[j].key == key {
        if k == first {
          assert PassReaches(x, o, patterns[first], members, 0, j);
        }
        assert key in pass.matched;
      }
    }
  }

  /** Searched from the first pattern on, it is what is tried. */
  lemma SearchIsTried(x: Externals, o: View, patterns: seq<Named<Pointer>>, members: seq<Member>, k: nat, j: nat)
    requires k < |patterns| && j < |members|
    ensures SearchReaches(x, o, patterns, 0, members, k, j) <==> Tried(x, o.accepts, patterns, members, k, j)
  {
    hide Fails;
  }

  ghost function RestOne(s: Pointer, m: Member): Application {
    Application(s, m.value, [Name(m.key)], [], AdditionalPropertyFailed)
  }

  lemma {:induction false} InAdditionalMembers(o: View, s: Pointer, matched: set<string>, members: seq<Member>, j: nat,
                                               ctx: Context, e: Error)
    requires j <= |members|
    ensures e in AdditionalMembersFrom(o, s, matched, members, j, ctx) <==>
      exists k :: j <= k < |members| && members[k].key !in matched && From(o, ctx, RestOne(s, members[k]), e)
    decreases |members| - j
  {
    hide From, Applied;
    if j < |members| {
      InAdditionalMembers(o, s, matched, members, j + 1, ctx, e);
      assert ctx + [] == ctx;
      AppliedIsFrom(o, s, members[j].value, [Name(members[j].key)], [], AdditionalPropertyFailed, ctx, e);
      var here := if members[j].key in matched then []
                  else Applied(o, s, members[j].value, ctx + [Name(members[j].key)], ctx, AdditionalPropertyFailed);
      assert AdditionalMembersFrom(o, s, matched, members, j, ctx) ==
             here + AdditionalMembersFrom(o, s, matched, members, j + 1, ctx);
      hide AdditionalMembersFrom;
      assert RestOne(s, members[j]) ==
             Application(s, members[j].value, [Name(members[j].key)], [], AdditionalPropertyFailed);
    }
  }

  /** The name reported as unwanted is the first that is not matched. */
  lemma {:induction false} FirstUnmatchedIs(matched: set<string>, members: seq<Member>, j: nat)
    requires j <= |members| && exists k :: j <= k < |members| && members[k].key !in matched
    ensures exists k :: j <= k < |members| && members[k].key !in matched &&
                        (forall i :: j <= i < k ==> members[i].key in matched) &&
                        FirstUnmatched(matched, members, j) == members[k].key
    decreases |members| - j
  {
    if members[j].key in matched {
      FirstUnmatchedIs(matched, members, j + 1);
    }
  }

  lemma {:induction false} InDuplicatesOf(items: seq<Value>, i: nat, j: nat, ctx: Context, e: Error)
    requires i < j <= |items|
    ensures e in DuplicatesOf(items, i, j, ctx) <==>
      && e.context == ctx && e.kind.Duplicates? && e.kind.first == i && j <= e.kind.second < |items|
      && EqualTo(items[i], items[e.kind.second])
    decreases |items| - j
  {
    hide EqualTo;
    if j < |items| {
      var here := if EqualTo(items[i], items[j]) then [Error(ctx, Duplicates(i, j))] else [];
      assert DuplicatesOf(items, i, j, ctx) == here + DuplicatesOf(items, i, j + 1, ctx);
      InDuplicatesOf(items, i, j + 1, ctx, e);
      hide DuplicatesOf;
    }
  }

  lemma {:induction false} InDuplicates(items: seq<Value>, i: nat, ctx: Context, e: Error)
    requires i <= |items|
    ensures e in DuplicatesFrom(items, i, ctx) <==>
      && e.context == ctx && e.kind.Duplicates? && i <= e.kind.first < e.kind.second < |items|
      && EqualTo(items[e.kind.first], items[e.kind.second])
    decreases |items| - i
  {
    hide EqualTo, DuplicatesOf;
    if i < |items| {
      InDuplicates(items, i + 1, ctx, e);
      InDuplicatesOf(items, i, i + 1, ctx, e);
      assert DuplicatesFrom(items, i, ctx) == DuplicatesOf(items, i, i + 1, ctx) + DuplicatesFrom(items, i + 1, ctx);
      hide DuplicatesFrom;
    }
  }

  // ---- What a constraint reports ----

  /** An error of the constraint itself, or one of an application. */
  ghost predicate Said(x: Externals, o: View, c: Constraint<Pointer>, v: Value, ctx: Context, e: Error) {
    || (e.context == ctx && Complains(x, o.accepts, c, v, e.kind))
    || exists a :: Applies(x, o.accepts, c, v, a) && From(o, ctx, a, e)
  }

  lemma AllOfSaid(x: Externals, o: View, cs: seq<Pointer>, v: Value, ctx: Context, e: Error)
    ensures e in ConstraintReport(x, AllOf(cs), v, ctx, o) <==> Said(x, o, AllOf(cs), v, ctx, e)
  {
    hide From, AllOfFrom;
    InAllOf(o, cs, 0, v, ctx, e);
    if k :| 0 <= k < |cs| && From(o, ctx, Child(cs, k, v), e) && forall i :: 0 <= i < k ==> o.accepts(cs[i], v) {
      assert Applies(x, o.accepts, AllOf(cs), v, Child(cs, k, v));
    }
    if a :| Applies(x, o.accepts, AllOf(cs), v, a) && From(o, ctx, a, e) {
      assert a == Child(cs, a.kind.index, v);
    }
  }

  lemma ChildrenSaid(x: Externals, o: View, c: Constraint<Pointer>, v: Value, ctx: Context, e: Error)
    requires (c.AnyOf? || c.OneOf?) && NoneOf(o.accepts, c.children, v)
    ensures e in ChildrenFrom(o, c.children, 0, v, ctx) <==>
      exists a :: Applies(x, o.accepts, c, v, a) && From(o, ctx, a, e)
  {
    hide From, ChildrenFrom, NoneOf;
    var cs := c.children;
    InChildren(o, cs, 0, v, ctx, e);
    if k :| 0 <= k < |cs| && From(o, ctx, Child(cs, k, v), e) {
      assert Applies(x, o.accepts, c, v, Child(cs, k, v));
    }
    if a :| Applies(x, o.accepts, c, v, a) && From(o, ctx, a, e) {
      assert a == Child(cs, a.kind.index, v);
    }
  }

  lemma AnyOfSaid(x: Externals, o: View, cs: seq<Pointer>, v: Value, ctx: Context, e: Error)
    ensures e in ConstraintReport(x, AnyOf(cs), v, ctx, o) <==> Said(x, o, AnyOf(cs), v, ctx, e)
  {
    hide From, ChildrenFrom;
    if NoneOf(o.accepts, cs, v) { ChildrenSaid(x, o, AnyOf(cs), v, ctx, e); }
  }

  /** No child, exactly one or several accept. */
  lemma NoneOneSeveral(x: Externals, accepts: Verdicts, cs: seq<Pointer>, v: Value)
    ensures !NoneOf(accepts, cs, v) && !Holds(x, OneOf(cs), v, accepts) <==>
      exists i, j :: 0 <= i < j < |cs| && accepts(cs[i], v) && accepts(cs[j], v)
  {
    if !NoneOf(accepts, cs, v) && !Holds(x, OneOf(cs), v, accepts) {
      var k :| 0 <= k < |cs| && accepts(cs[k], v);
      assert !OnlyOne(cs, k, v, accepts);
      var j :| 0 <= j < |cs| && j != k && accepts(cs[j], v);
      assert if j < k then accepts(cs[j], v) && accepts(cs[k], v) else accepts(cs[k], v) && accepts(cs[j], v);
    }
  }

  lemma OneOfSaid(x: Externals, o: View, cs: seq<Pointer>, v: Value, ctx: Context, e: Error)
    ensures e in ConstraintReport(x, OneOf(cs), v, ctx, o) <==> Said(x, o, OneOf(cs), v, ctx, e)
  {
    hide From, ChildrenFrom;
    NoneOneSeveral(x, o.accepts, cs, v);
    hide Holds;
    if NoneOf(o.accepts, cs, v) { ChildrenSaid(x, o, OneOf(cs), v, ctx, e); }
  }

  lemma ConditionalSaid(x: Externals, o: View, c: Constraint<Pointer>, v: Value, ctx: Context, e: Error)
    requires c.Conditional?
    ensures e in ConstraintReport(x, c, v, ctx, o) <==> Said(x, o, c, v, ctx, e)
  {
    assert ctx + [] == ctx;
    var branch := if o.accepts(c.ifChild, v) then c.thenChild else c.elseChild;
    if branch.Some? && !o.accepts(branch.value, v) {
      var a := Application(branch.value, v, [], [], ConditionalFailed);
      assert Applies(x, o.accepts, c, v, a);
      assert forall b :: Applies(x, o.accepts, c, v, b) ==> b == a;
    }
  }

  lemma DependenciesSaid(x: Externals, o: View, ps: seq<Dependency>, ss: seq<Named<Pointer>>, v: Value, ctx: Context,
                         e: Error)
    ensures e in ConstraintReport(x, Dependencies(ps, ss), v, ctx, o) <==> Said(x, o, Dependencies(ps, ss), v, ctx, e)
  {
    hide From, PropertyDependenciesFrom, SchemaDependenciesFrom, Find;
    if v.Object? {
      InPropertyDependencies(ps, 0, v, ctx, e);
      assert ps[0..] == ps;
      InSchemaDependencies(o, ss, 0, v, ctx, e);
      if k :| 0 <= k < |ss| && FromDependent(o, ss[k], v, ctx, e) {
        assert Applies(x, o.accepts, Dependencies(ps, ss), v, Dependent(ss[k], v));
      }
      if a :| Applies(x, o.accepts, Dependencies(ps, ss), v, a) && From(o, ctx, a, e) {
        var k :| 0 <= k < |ss| && Find(v.members, ss[k].name).Some? &&
                 a == Application(ss[k].child, v, [], [], DependentSchemaFailed);
        assert a == Dependent(ss[k], v) && FromDependent(o, ss[k], v, ctx, e);
      }
    }
  }

  lemma SingularSaid(x: Externals, o: View, s: Pointer, v: Value, ctx: Context, e: Error)
    ensures e in ConstraintReport(x, SingularItems(s), v, ctx, o) <==> Said(x, o, SingularItems(s), v, ctx, e)
  {
    hide From, SingularFrom;
    if v.Array? {
      InSingular(o, s, v.items, 0, ctx, e);
      if k :| 0 <= k < |v.items| && From(o, ctx, Singular(s, v.items, k), e) {
        assert Applies(x, o.accepts, SingularItems(s), v, Singular(s, v.items, k));
      }
      if a :| Applies(x, o.accepts, SingularItems(s), v, a) && From(o, ctx, a, e) {
        assert a == Singular(s, v.items, a.kind.index);
      }
    }
  }

  lemma LinearSaid(x: Externals, o: View, cs: seq<Pointer>, additional: Option<Pointer>, v: Value, ctx: Context,
                   e: Error)
    ensures e in ConstraintReport(x, LinearItems(cs, additional), v, ctx, o) <==>
      Said(x, o, LinearItems(cs, additional), v, ctx, e)
  {
    hide From, ItemsFrom, AdditionalFrom, SatisfiedPositions, CountAccepted;
    if v.Array? {
      var c, n := LinearItems(cs, additional), CountAccepted(o, cs, v.items, Min(|cs|, |v.items|));
      SatisfiedAreCounted(o, cs, v.items);
      InItems(o, cs, v.items, 0, ctx, e);
      if additional.Some? { InAdditional(o, additional.value, v.items, n, ctx, e); }
      if k :| 0 <= k < |cs| && k < |v.items| && From(o, ctx, ItemOf(cs, v.items, k), e) {
        assert Applies(x, o.accepts, c, v, ItemOf(cs, v.items, k));
      }
      if additional.Some? {
        if k :| n <= k < |v.items| && From(o, ctx, AdditionalItem(additional.value, v.items, k), e) {
          assert Applies(x, o.accepts, c, v, AdditionalItem(additional.value, v.items, k));
        }
      }
      if a :| Applies(x, o.accepts, c, v, a) && From(o, ctx, a, e) {
        ItemApplication(o, cs, additional, v.items, a);
      }
    }
  }

  lemma ItemApplication(o: View, cs: seq<Pointer>, additional: Option<Pointer>, items: seq<Value>, a: Application)
    requires ItemApplies(o.accepts, cs, additional, items, a)
    ensures a.kind.ItemFailed? ==> a.kind.index < |cs| && a.kind.index < |items| && a == ItemOf(cs, items, a.kind.index)
    ensures !a.kind.ItemFailed? ==>
      && a.kind.AdditionalItemFailed? && additional.Some?
      && |SatisfiedPositions(o.accepts, cs, items)| <= a.kind.index < |items|
      && a == AdditionalItem(additional.value, items, a.kind.index)
  {
    hide SatisfiedPositions;
  }

  // ---- Properties ----

  lemma NamedSaid(o: View, named: seq<Named<Pointer>>, members: seq<Member>, ctx: Context, e: Error)
    ensures e in NamedFrom(o, named, 0, members, ctx) <==>
      exists a :: NamedApplies(named, members, a) && From(o, ctx, a, e)
  {
    hide From, NamedFrom, Find;
    InNamed(o, named, 0, members, ctx, e);
    if k :| 0 <= k < |named| && Find(members, named[k].name).Some? && From(o, ctx, NamedOne(named[k], members), e) {
      assert NamedAt(named[k], members, NamedOne(named[k], members));
    }
    if a :| NamedApplies(named, members, a) && From(o, ctx, a, e) {
      var k :| 0 <= k < |named| && NamedAt(named[k], members, a);
      assert a == NamedOne(named[k], members);
    }
  }

  lemma PatternsSaid(x: Externals, o: View, patterns: seq<Named<Pointer>>, members: seq<Member>, ctx: Context, e: Error)
    ensures e in PatternsPass(x, o, patterns, 0, members, ctx).errors <==>
      exists a :: PatternApplies(x, o.accepts, patterns, members, a) && From(o, ctx, a, e)
  {
    hide From, PatternsPass, SearchReaches, Tried;
    InPatternsPass(x, o, patterns, 0, members, ctx, e);
    if k: nat, j: nat :| k < |patterns| && j < |members| && SearchReaches(x, o, patterns, 0, members, k, j) &&
                         From(o, ctx, PatternOne(patterns[k], members[j]), e) {
      SearchIsTried(x, o, patterns, members, k, j);
      assert PatternApplies(x, o.accepts, patterns, members, PatternOne(patterns[k], members[j]));
    }
    if a :| PatternApplies(x, o.accepts, patterns, members, a) && From(o, ctx, a, e) {
      var k: nat, j: nat :| k < |patterns| && j < |members| && Tried(x, o.accepts, patterns, members, k, j) &&
        a == Application(patterns[k].child, members[j].value, [Name(members[j].key)], [],
                         PatternFailed(patterns[k].name));
      SearchIsTried(x, o, patterns, members, k, j);
      assert a == PatternOne(patterns[k], members[j]);
    }
  }

  /** The names that the first two phases have recorded. */
  ghost function Recorded(x: Externals, o: View, named: seq<Named<Pointer>>, patterns: seq<Named<Pointer>>,
                          members: seq<Member>, ctx: Context): set<string> {
    NamesPresent(named, |named|, members) + PatternsPass(x, o, patterns, 0, members, ctx).matched
  }

  lemma RecordedIsSettled(x: Externals, o: View, named: seq<Named<Pointer>>, patterns: seq<Named<Pointer>>,
                          members: seq<Member>, ctx: Context, m: Member)
    requires m in members
    ensures m.key in Recorded(x, o, named, patterns, members, ctx) <==>
      Settled(x, o.accepts, named, patterns, members, m.key)
  {
    hide PatternsPass, NamesPresent, SearchReaches, Tried;
    NamesPresentAreKeys(named, |named|, members);
    MatchedInSearch(x, o, patterns, 0, members, ctx, m.key);
    forall k: nat, j: nat | k < |patterns| && j < |members|
      ensures SearchReaches(x, o, patterns, 0, members, k, j) <==> Tried(x, o.accepts, patterns, members, k, j)
    {
      SearchIsTried(x, o, patterns, members, k, j);
    }
  }

  lemma RestSaid(x: Externals, o: View, named: seq<Named<Pointer>>, patterns: seq<Named<Pointer>>,
                 additional: Option<Pointer>, members: seq<Member>, ctx: Context, e: Error)
    requires additional.Some?
    ensures e in RestReport(o, additional, Recorded(x, o, named, patterns, members, ctx), members, ctx) <==>
      exists a :: RestApplies(x, o.accepts, named, patterns, additional, members, a) && From(o, ctx, a, e)
  {
    hide From, Recorded, Settled, AdditionalMembersFrom;
    var recorded := Recorded(x, o, named, patterns, members, ctx);
    InAdditionalMembers(o, additional.value, recorded, members, 0, ctx, e);
    forall m <- members
      ensures m.key in recorded <==> Settled(x, o.accepts, named, patterns, members, m.key)
    {
      RecordedIsSettled(x, o, named, patterns, members, ctx, m);
    }
    if k :| 0 <= k < |members| && members[k].key !in recorded &&
            From(o, ctx, RestOne(additional.value, members[k]), e) {
      assert RestApplies(x, o.accepts, named, patterns, additional, members, RestOne(additional.value, members[k]));
    }
    if a :| RestApplies(x, o.accepts, named, patterns, additional, members, a) && From(o, ctx, a, e) {
      var m :| m in members && !Settled(x, o.accepts, named, patterns, members, m.key) &&
               a == Application(additional.value, m.value, [Name(m.key)], [], AdditionalPropertyFailed);
      assert a == RestOne(additional.value, m);
    }
  }

  lemma UnwantedSaid(x: Externals, o: View, named: seq<Named<Pointer>>, patterns: seq<Named<Pointer>>,
                     members: seq<Member>, ctx: Context, e: Error)
    requires DistinctKeys(members)
    ensures e in RestReport(o, None, Recorded(x, o, named, patterns, members, ctx), members, ctx) <==>
      e.context == ctx && exists j: nat :: j < |members| && e.kind == Unwanted(members[j].key) &&
                                           FirstUnsettled(x, o.accepts, named, patterns, members, j)
  {
    hide Recorded, Settled;
    var recorded := Recorded(x, o, named, patterns, members, ctx);
    forall m <- members
      ensures m.key in recorded <==> Settled(x, o.accepts, named, patterns, members, m.key)
    {
      RecordedIsSettled(x, o, named, patterns, members, ctx, m);
    }
    RecordedAreKeys(x, o, named, patterns, members, ctx);
    MatchedByCount(recorded, members);
    if |recorded| != |members| {
      FirstUnmatchedIs(recorded, members, 0);
      var k: nat :| k < |members| && members[k].key !in recorded &&
                    (forall i :: 0 <= i < k ==> members[i].key in recorded) &&
                    FirstUnmatched(recorded, members, 0) == members[k].key;
      assert FirstUnsettled(x, o.accepts, named, patterns, members, k);
      forall j: nat | j < |members| && FirstUnsettled(x, o.accepts, named, patterns, members, j) ensures j == k {
      }
    }
  }

  lemma RecordedAreKeys(x: Externals, o: View, named: seq<Named<Pointer>>, patterns: seq<Named<Pointer>>,
                        members: seq<Member>, ctx: Context)
    ensures Recorded(x, o, named, patterns, members, ctx) <= KeysOf(members)
  {
    hide PatternsPass, NamesPresent, KeysOf;
    NamesPresentAreKeys(named, |named|, members);
    PatternsMatchesAreKeys(x, o, patterns, 0, members, ctx);
  }

  lemma PropertiesSaid(x: Externals, o: View, c: Constraint<Pointer>, v: Value, ctx: Context, e: Error)
    requires c.Properties? && WellFormed(v)
    ensures e in ConstraintReport(x, c, v, ctx, o) <==> Said(x, o, c, v, ctx, e)
  {
    hide From, NamedFrom, PatternsPass, RestReport, NamedApplies, PatternApplies, FirstUnsettled, NamesPresent, Settled;
    if v.Object? {
      var named, patterns, additional, members := c.named, c.patterns, c.additional, v.members;
      NamedSaid(o, named, members, ctx, e);
      PatternsSaid(x, o, patterns, members, ctx, e);
      if additional.Some? {
        RestSaid(x, o, named, patterns, additional, members, ctx, e);
      } else {
        assert additional == None;
        UnwantedSaid(x, o, named, patterns, members, ctx, e);
      }
    }
  }

  // ---- Any constraint ----

  lemma FlatSaid(x: Externals, f: Flat, v: Value, ctx: Context, e: Error)
    ensures e in FlatReport(x, f, v, ctx) <==> e.context == ctx && Complains(x, (q, w) => false, Plain(f), v, e.kind)
  {
    hide Find, EqualTo, MissingFrom, DuplicatesFrom;
    match f
    case Required(names) =>
      if v.Object? {
        InMissing(names, 0, v, ctx, false, e);
        assert names[0..] == names;
      }
    case UniqueItems => if v.Array? { InDuplicates(v.items, 0, ctx, e); }
    case _ =>
  }

  lemma ConstraintSaid(x: Externals, o: View, c: Constraint<Pointer>, v: Value, ctx: Context, e: Error)
    requires WellFormed(v)
    ensures e in ConstraintReport(x, c, v, ctx, o) <==> Said(x, o, c, v, ctx, e)
  {
    hide From;
    match c
    case AllOf(cs) => AllOfSaid(x, o, cs, v, ctx, e);
    case AnyOf(cs) => AnyOfSaid(x, o, cs, v, ctx, e);
    case OneOf(cs) => OneOfSaid(x, o, cs, v, ctx, e);
    case Conditional(_, _, _) => ConditionalSaid(x, o, c, v, ctx, e);
    case Dependencies(ps, ss) => DependenciesSaid(x, o, ps, ss, v, ctx, e);
    case SingularItems(s) => SingularSaid(x, o, s, v, ctx, e);
    case LinearItems(cs, additional) => LinearSaid(x, o, cs, additional, v, ctx, e);
    case Properties(_, _, _) => PropertiesSaid(x, o, c, v, ctx, e);
    case Plain(f) => FlatSaid(x, f, v, ctx, e);
    case _ =>
  }

  // ---- What a whole report says ----

  /** All constraints before the i-th hold: validation comes to it. */
  ghost predicate Visited(x: Externals, g: Graph, p: Pointer, v: Value, i: nat)
    requires GraphGuarded(g) && p < |g| && i < |g[p].constraints|
  {
    forall j :: 0 <= j < i ==> Holds(x, g[p].constraints[j], v, ChildAccepts(x, g, p, v))
  }

  ghost predicate Descends(g: Graph, p: Pointer, v: Value, a: Application)
    requires GraphGuarded(g) && p < |g|
  {
    a.child < |g| &&
    (Size(a.value) < Size(v) || (a.value == v && GraphRankOf(g)[a.child] < GraphRankOf(g)[p]))
  }

  /** Validating v against subschema p blames the place at `steps` for something of that kind: a
      constraint that is visited complains itself, or the application of one of its subschemas fails, or
      that subschema blames the rest of the way from where it is applied. */
  ghost predicate Blamed(x: Externals, g: Graph, p: Pointer, v: Value, steps: Context, kind: Kind)
    requires GraphGuarded(g) && p < |g|
    decreases Size(v), GraphRankOf(g)[p], 2
  {
    && !g[p].alwaysInvalid
    && exists i: nat :: i < |g[p].constraints| && Visited(x, g, p, v, i) &&
                        BlamedFor(x, g, p, v, g[p].constraints[i], steps, kind)
  }

  ghost predicate BlamedFor(x: Externals, g: Graph, p: Pointer, v: Value, c: Constraint<Pointer>, steps: Context,
                            kind: Kind)
    requires GraphGuarded(g) && p < |g|
    decreases Size(v), GraphRankOf(g)[p], 1
  {
    var accepts := ChildAccepts(x, g, p, v);
    || (steps == [] && Complains(x, accepts, c, v, kind))
    || exists a :: Applies(x, accepts, c, v, a) && BlamedBy(x, g, p, v, a, steps, kind)
  }

  ghost predicate BlamedBy(x: Externals, g: Graph, p: Pointer, v: Value, a: Application, steps: Context, kind: Kind)
    requires GraphGuarded(g) && p < |g|
    decreases Size(v), GraphRankOf(g)[p], 0
  {
    || (steps == a.outer && kind == a.kind && !ChildAccepts(x, g, p, v)(a.child, a.value))
    || (a.inner <= steps && Descends(g, p, v, a) && Blamed(x, g, a.child, a.value, steps[|a.inner|..], kind))
  }

  lemma ItemLocated(v: Value, k: nat)
    requires v.Array? && k < |v.items|
    ensures Located(v, [Index(k)]) == Some(v.items[k])
  {
  }

  lemma MemberLocated(v: Value, k: nat)
    requires v.Object? && k < |v.members| && WellFormed(v)
    ensures Located(v, [Name(v.members[k].key)]) == Some(v.members[k].value)
  {
    FindAt(v.members, k);
  }

  /** A subschema is applied to what lies at the inner place; the error lies there or at the value itself. */
  lemma ApplicationIsLocated(x: Externals, accepts: Verdicts, c: Constraint<Pointer>, v: Value, a: Application)
    requires WellFormed(v) && Applies(x, accepts, c, v, a)
    ensures WellFormed(a.value) && Located(v, a.inner) == Some(a.value)
    ensures if a.kind.ItemFailed? then a.outer == a.inner == [Index(a.kind.index)] else a.outer == []
  {
    hide Tried, Settled, SatisfiedPositions, EqualTo;
    match c
    case SingularItems(s) => ItemLocated(v, a.kind.index);
    case LinearItems(cs, additional) => ItemLocated(v, a.kind.index);
    case Properties(named, patterns, additional) => PropertyIsLocated(x, accepts, c, v, a);
    case _ =>
  }

  lemma PropertyIsLocated(x: Externals, accepts: Verdicts, c: Constraint<Pointer>, v: Value, a: Application)
    requires c.Properties? && WellFormed(v) && Applies(x, accepts, c, v, a)
    ensures WellFormed(a.value) && Located(v, a.inner) == Some(a.value)
    ensures !a.kind.ItemFailed? && a.outer == []
  {
    hide Tried, Settled;
    var k: nat :| k < |v.members| && a.inner == [Name(v.members[k].key)] && a.value == v.members[k].value;
    MemberLocated(v, k);
  }

  lemma {:induction false} InConstraints(x: Externals, cs: seq<Constraint<Pointer>>, j: nat, v: Value, ctx: Context,
                                         o: View, e: Error)
    requires j <= |cs|
    ensures e in ConstraintsFrom(x, cs, j, v, ctx, o) <==>
      exists i: nat :: j <= i < |cs| && e in ConstraintReport(x, cs[i], v, ctx, o) &&
                       forall k :: j <= k < i ==> Holds(x, cs[k], v, o.accepts)
    decreases |cs| - j
  {
    hide ConstraintReport, Holds;
    if j < |cs| {
      InConstraints(x, cs, j + 1, v, ctx, o, e);
    }
  }

  /** The errors of a report are exactly those for which a place is blamed, at that place. */
  lemma {:induction false} ReportExactly(x: Externals, g: Graph, p: Pointer, v: Value, ctx: Context, e: Error)
    requires GraphGuarded(g) && p < |g| && WellFormed(v)
    ensures e in Report(x, g, p, v, ctx) <==>
      ctx <= e.context && Blamed(x, g, p, v, e.context[|ctx|..], e.kind)
    decreases Size(v), GraphRankOf(g)[p], 2
  {
    hide ConstraintReport, Holds, BlamedFor, GraphGuarded, WellFormed;
    var o, cs := ViewOf(x, g, p, v), g[p].constraints;
    InConstraints(x, cs, 0, v, ctx, o, e);
    forall c: Constraint<Pointer>
      ensures e in ConstraintReport(x, c, v, ctx, o) <==>
        ctx <= e.context && BlamedFor(x, g, p, v, c, e.context[|ctx|..], e.kind)
    {
      ConstraintReportExactly(x, g, p, v, c, ctx, e);
    }
  }

  lemma {:induction false} ConstraintReportExactly(x: Externals, g: Graph, p: Pointer, v: Value,
                                                   c: Constraint<Pointer>, ctx: Context, e: Error)
    requires GraphGuarded(g) && p < |g| && WellFormed(v)
    ensures e in ConstraintReport(x, c, v, ctx, ViewOf(x, g, p, v)) <==>
      ctx <= e.context && BlamedFor(x, g, p, v, c, e.context[|ctx|..], e.kind)
    decreases Size(v), GraphRankOf(g)[p], 1
  {
    hide ConstraintReport, Complains, Applies, BlamedBy, From, GraphGuarded, WellFormed;
    var o := ViewOf(x, g, p, v);
    ConstraintSaid(x, o, c, v, ctx, e);
    forall a | Applies(x, o.accepts, c, v, a)
      ensures From(o, ctx, a, e) <==>
        ctx <= e.context && BlamedBy(x, g, p, v, a, e.context[|ctx|..], e.kind)
    {
      ApplicationReportExactly(x, g, p, v, c, a, ctx, e);
    }
  }

  lemma {:induction false} ApplicationReportExactly(x: Externals, g: Graph, p: Pointer, v: Value,
                                                    c: Constraint<Pointer>, a: Application, ctx: Context, e: Error)
    requires GraphGuarded(g) && p < |g| && WellFormed(v) && Applies(x, ChildAccepts(x, g, p, v), c, v, a)
    ensures From(ViewOf(x, g, p, v), ctx, a, e) <==>
      ctx <= e.context && BlamedBy(x, g, p, v, a, e.context[|ctx|..], e.kind)
    decreases Size(v), GraphRankOf(g)[p], 0, 1
  {
    hide Applies, Blamed, Report, GraphGuarded, WellFormed, ViewOf, Descends, Located;
    ChildReportIs(x, g, p, v, a, ctx + a.inner);
    InnerReportExactly(x, g, p, v, c, a, ctx, e);
    Further(ctx, a.outer, e.context);
  }

  lemma {:induction false} InnerReportExactly(x: Externals, g: Graph, p: Pointer, v: Value,
                                              c: Constraint<Pointer>, a: Application, ctx: Context, e: Error)
    requires GraphGuarded(g) && p < |g| && WellFormed(v) && Applies(x, ChildAccepts(x, g, p, v), c, v, a)
    ensures e in ViewOf(x, g, p, v).report(a.child, a.value, ctx + a.inner) <==>
      && ctx <= e.context && a.inner <= e.context[|ctx|..] && Descends(g, p, v, a)
      && Blamed(x, g, a.child, a.value, e.context[|ctx|..][|a.inner|..], e.kind)
    decreases Size(v), GraphRankOf(g)[p], 0, 0
  {
    ApplicationIsLocated(x, ChildAccepts(x, g, p, v), c, v, a);
    hide Applies, Blamed, Report, GraphGuarded, WellFormed, ViewOf, Descends, Located;
    ChildReportIs(x, g, p, v, a, ctx + a.inner);
    if Descends(g, p, v, a) {
      DescentIsSmaller(g, p, v, a);
      ReportExactly(x, g, a.child, a.value, ctx + a.inner, e);
      Further(ctx, a.inner, e.context);
    }
  }

  lemma DescentIsSmaller(g: Graph, p: Pointer, v: Value, a: Application)
    requires GraphGuarded(g) && p < |g| && Descends(g, p, v, a)
    ensures a.child < |g|
    ensures Size(a.value) < Size(v) || (a.value == v && GraphRankOf(g)[a.child] < GraphRankOf(g)[p])
  {
  }

  lemma ChildReportIs(x: Externals, g: Graph, p: Pointer, v: Value, a: Application, inner: Context)
    requires GraphGuarded(g) && p < |g|
    ensures var o := ViewOf(x, g, p, v);
      && o.accepts == ChildAccepts(x, g, p, v)
      && o.report(a.child, a.value, inner) ==
         if Descends(g, p, v, a) then Report(x, g, a.child, a.value, inner) else []
  {
    hide GraphGuarded, Report;
  }

  lemma Further(ctx: Context, inner: Context, whole: Context)
    ensures ctx + inner <= whole <==> ctx <= whole && inner <= whole[|ctx|..]
    ensures ctx + inner <= whole ==> whole[|ctx + inner|..] == whole[|ctx|..][|inner|..]
    ensures ctx + inner == whole <==> ctx <= whole && inner == whole[|ctx|..]
  {
    if ctx <= whole { assert whole == ctx + whole[|ctx|..]; }
    if ctx + inner <= whole { assert whole == (ctx + inner) + whole[|ctx + inner|..]; }
  }

  // ---- Errors are true ----

  lemma {:induction false} LocatedInTwo(v: Value, here: Context, there: Context)
    requires Located(v, here).Some?
    ensures Located(v, here + there) == Located(Located(v, here).value, there)
  {
    if here == [] {
      assert here + there == there;
    } else {
      assert (here + there)[0] == here[0] && (here + there)[1..] == here[1..] + there;
      match here[0]
      case Index(i) => LocatedInTwo(v.items[i], here[1..], there);
      case Name(n) => LocatedInTwo(Find(v.members, n).value, here[1..], there);
    }
  }

  ghost predicate HasMember(w: Value, name: string) {
    w.Object? && exists k :: 0 <= k < |w.members| && w.members[k].key == name
  }

  /** What an error of that kind says of the value w that it is reported for. */
  ghost predicate TrueOf(x: Externals, w: Value, steps: Context, kind: Kind) {
    match kind
    case CheckFailed(f) => !FlatHolds(x, f, w)
    case PropertyMissing(name) => w.Object? && !HasMember(w, name)
    case DependencyMissing(name) => w.Object? && !HasMember(w, name)
    case Duplicates(i, j) => w.Array? && i < j < |w.items| && EqualTo(w.items[i], w.items[j])
    case NothingContained => w.Array?
    case SingularItemFailed(i) => w.Array? && i < |w.items|
    case TooManyItems => w.Array? && |w.items| > 1
    case ItemFailed(i) => steps != [] && steps[|steps| - 1] == Index(i)
    case AdditionalItemFailed(i) => w.Array? && i < |w.items|
    case ItemsNotCovered(i) => w.Array? && i < |w.items|
    case PropertyFailed(name) => HasMember(w, name)
    case PatternFailed(pattern) => w.Object? && exists m <- w.members :: x.regexSearch(pattern, m.key)
    case Unwanted(name) => HasMember(w, name)
    case AdditionalPropertyFailed => w.Object? && w.members != []
    case DependentSchemaFailed => w.Object? && w.members != []
    case _ => true
  }

  lemma ComplaintIsTrue(x: Externals, accepts: Verdicts, c: Constraint<Pointer>, v: Value, kind: Kind)
    requires Complains(x, accepts, c, v, kind)
    ensures TrueOf(x, v, [], kind)
  {
    hide Settled, SatisfiedPositions, EqualTo, NoneOf;
  }

  lemma FailureIsTrue(x: Externals, accepts: Verdicts, c: Constraint<Pointer>, v: Value, a: Application)
    requires WellFormed(v) && Applies(x, accepts, c, v, a)
    ensures Located(v, a.outer).Some? && TrueOf(x, Located(v, a.outer).value, a.outer, a.kind)
  {
    ApplicationIsLocated(x, accepts, c, v, a);
    hide Settled, SatisfiedPositions, EqualTo, NoneOf, WellFormed, FlatHolds;
    match c
    case Properties(_, _, _) => PropertyFailureIsTrue(x, accepts, c, v, a);
    case _ =>
  }

  lemma PropertyFailureIsTrue(x: Externals, accepts: Verdicts, c: Constraint<Pointer>, v: Value, a: Application)
    requires c.Properties? && Applies(x, accepts, c, v, a)
    ensures TrueOf(x, v, [], a.kind)
  {
    hide Settled, EqualTo, NoneOf, FlatHolds;
  }

  /** Where something is blamed there is a value, and of it that is true. */
  lemma {:induction false} BlamedIsTrue(x: Externals, g: Graph, p: Pointer, v: Value, steps: Context, kind: Kind)
    requires GraphGuarded(g) && p < |g| && WellFormed(v) && Blamed(x, g, p, v, steps, kind)
    ensures Located(v, steps).Some? && TrueOf(x, Located(v, steps).value, steps, kind)
    decreases Size(v), GraphRankOf(g)[p], 2
  {
    hide TrueOf, Located, BlamedFor, GraphGuarded, WellFormed, Visited;
    var i: nat :| i < |g[p].constraints| && BlamedFor(x, g, p, v, g[p].constraints[i], steps, kind);
    BlamedForIsTrue(x, g, p, v, g[p].constraints[i], steps, kind);
  }

  lemma {:induction false} BlamedForIsTrue(x: Externals, g: Graph, p: Pointer, v: Value, c: Constraint<Pointer>,
                                           steps: Context, kind: Kind)
    requires GraphGuarded(g) && p < |g| && WellFormed(v) && BlamedFor(x, g, p, v, c, steps, kind)
    ensures Located(v, steps).Some? && TrueOf(x, Located(v, steps).value, steps, kind)
    decreases Size(v), GraphRankOf(g)[p], 1
  {
    hide TrueOf, Located, Complains, Applies, BlamedBy, GraphGuarded, WellFormed, ChildAccepts;
    var accepts := ChildAccepts(x, g, p, v);
    if steps == [] && Complains(x, accepts, c, v, kind) {
      ComplaintIsTrue(x, accepts, c, v, kind);
      LocatedHere(v);
    } else {
      var a :| Applies(x, accepts, c, v, a) && BlamedBy(x, g, p, v, a, steps, kind);
      BlamedByIsTrue(x, g, p, v, c, a, steps, kind);
    }
  }

  lemma LocatedHere(v: Value)
    ensures Located(v, []) == Some(v)
  {
  }

  lemma {:induction false} BlamedByIsTrue(x: Externals, g: Graph, p: Pointer, v: Value, c: Constraint<Pointer>,
                                          a: Application, steps: Context, kind: Kind)
    requires GraphGuarded(g) && p < |g| && WellFormed(v) && Applies(x, ChildAccepts(x, g, p, v), c, v, a)
    requires BlamedBy(x, g, p, v, a, steps, kind)
    ensures Located(v, steps).Some? && TrueOf(x, Located(v, steps).value, steps, kind)
    decreases Size(v), GraphRankOf(g)[p], 0
  {
    hide TrueOf, Located, Applies, Blamed, GraphGuarded, WellFormed;
    if steps == a.outer && kind == a.kind {
      FailureIsTrue(x, ChildAccepts(x, g, p, v), c, v, a);
    } else {
      var rest := steps[|a.inner|..];
      ApplicationIsLocated(x, ChildAccepts(x, g, p, v), c, v, a);
      BlamedIsTrue(x, g, a.child, a.value, rest, kind);
      LocatedInTwo(v, a.inner, rest);
      assert steps == a.inner + rest;
      TrueFurther(x, Located(a.value, rest).value, a.inner, rest, kind);
    }
  }

  lemma TrueFurther(x: Externals, w: Value, here: Context, there: Context, kind: Kind)
    requires TrueOf(x, w, there, kind)
    ensures TrueOf(x, w, here + there, kind)
  {
    hide FlatHolds, EqualTo, HasMember;
  }

  /** Every error of a report lies at a place of the value, and what it says is true of what lies there. */
  lemma ErrorsAreTrue(x: Externals, g: Graph, p: Pointer, v: Value, ctx: Context, e: Error)
    requires GraphGuarded(g) && p < |g| && WellFormed(v) && e in Report(x, g, p, v, ctx)
    ensures ctx <= e.context
    ensures var steps := e.context[|ctx|..];
      Located(v, steps).Some? && TrueOf(x, Located(v, steps).value, steps, e.kind)
  {
    hide TrueOf, Located, Blamed, GraphGuarded, WellFormed, Report;
    ReportExactly(x, g, p, v, ctx, e);
    BlamedIsTrue(x, g, p, v, e.context[|ctx|..], e.kind);
  }

  // ---- Where the search for patterns has stopped ----

  lemma SettledIsMatched(x: Externals, accepts: Verdicts, named: seq<Named<Pointer>>, patterns: seq<Named<Pointer>>,
                         members: seq<Member>, j: nat)
    requires j < |members| && forall k :: 0 <= k < |patterns| ==> !SomeFails(x, accepts, patterns[k], members)
    ensures Settled(x, accepts, named, patterns, members, members[j].key) <==>
      Matched(x, named, patterns, members[j].key)
  {
    hide Fails;
    forall k: nat | k < |patterns| && x.regexSearch(patterns[k].name, members[j].key)
      ensures Tried(x, accepts, patterns, members, k, j)
    {
      assert !SomeFails(x, accepts, patterns[k], members);
    }
  }

  /** If anything fails under a pattern, the search stops at some pattern and some member. */
  lemma SearchStops(x: Externals, accepts: Verdicts, patterns: seq<Named<Pointer>>, members: seq<Member>, l: nat)
    returns (k: nat, j: nat)
    requires l < |patterns| && SomeFails(x, accepts, patterns[l], members)
    ensures k < |patterns| && j < |members|
    ensures Tried(x, accepts, patterns, members, k, j) && Fails(x, accepts, patterns[k], members[j])
  {
    if i: nat :| i < l && SomeFails(x, accepts, patterns[i], members) {
      k, j := SearchStops(x, accepts, patterns, members, i);
    } else {
      k := l;
      j := 0;
      while !Fails(x, accepts, patterns[k], members[j])
        invariant j < |members| && forall i :: 0 <= i < j ==> !Fails(x, accepts, patterns[k], members[i])
        decreases |members| - j
      {
        j := j + 1;
      }
    }
  }

  /** The search has stopped at pattern k and member j: then a name is settled exactly if it has a
      subschema of its own, an earlier pattern is found in it, or this one, up to that member. */
  lemma SettledExactly(x: Externals, accepts: Verdicts, named: seq<Named<Pointer>>, patterns: seq<Named<Pointer>>,
                       members: seq<Member>, k: nat, j: nat, i: nat)
    requires DistinctKeys(members) && k < |patterns| && j < |members| && i < |members|
    requires Tried(x, accepts, patterns, members, k, j) && Fails(x, accepts, patterns[k], members[j])
    ensures var key := members[i].key;
      Settled(x, accepts, named, patterns, members, key) <==>
        || (exists l :: 0 <= l < |named| && named[l].name == key)
        || (exists l :: 0 <= l < k && x.regexSearch(patterns[l].name, key))
        || (i <= j && x.regexSearch(patterns[k].name, key))
  {
    hide Fails;
    forall l: nat | l < k && x.regexSearch(patterns[l].name, members[i].key)
      ensures Tried(x, accepts, patterns, members, l, i)
    {
      assert !SomeFails(x, accepts, patterns[l], members);
    }
    if i <= j && x.regexSearch(patterns[k].name, members[i].key) {
      assert Tried(x, accepts, patterns, members, k, i);
    }
    forall l: nat, m: nat | l < |patterns| && m < |members| && Tried(x, accepts, patterns, members, l, m)
      ensures l <= k && (l == k ==> m <= j)
    {
      assert SomeFails(x, accepts, patterns[k], members);
    }
  }

  /** Two patterns, each found in one of two names.  If the first member fails, the search never comes
      to the second pattern, and the second name is reported as unwanted, although its pattern is there. */
  lemma MatchedNameIsUnwanted(x: Externals, accepts: Verdicts, a: Named<Pointer>, b: Named<Pointer>, v: Member,
                              w: Member)
    requires Fails(x, accepts, a, v) && x.regexSearch(b.name, w.key) && v.key != w.key
    ensures Complains(x, accepts, Properties([], [a, b], None), Object([v, w]), Unwanted(w.key))
    ensures Matched(x, [], [a, b], w.key)
  {
    var patterns, members := [a, b], [v, w];
    assert Tried(x, accepts, patterns, members, 0, 0);
    SettledExactly(x, accepts, [], patterns, members, 0, 0, 0);
    SettledExactly(x, accepts, [], patterns, members, 0, 0, 1);
    assert FirstUnsettled(x, accepts, [], patterns, members, 1);
    assert x.regexSearch(patterns[1].name, w.key);
  }
}
