/** What a validation in collecting mode reports: the errors it pushes, in order. */
module Reports {
  import opened Wrappers
  import opened Json
  import opened Schemas
  import opened Keywords
  import opened Semantics

  datatype Step = Root | Index(i: nat) | Name(name: string)
  type Context = seq<Step>

  datatype Kind =
    | ChildFailed(index: nat)
    | NoneOfAny
    | NoneOfOne
    | SeveralOfOne
    | NotFailed
    | ConditionalFailed
    | DependencyMissing(name: string)
    | DependentSchemaFailed
    | NothingContained
    | SingularItemFailed(index: nat)
    | TooManyItems
    | ItemFailed(index: nat)
    | AdditionalItemFailed(index: nat)
    | ItemsNotCovered(index: nat)
    | PropertyFailed(name: string)
    | PatternFailed(pattern: string)
    | Unwanted(name: string)
    | AdditionalPropertyFailed
    | PropertyMissing(name: string)
    | Duplicates(first: nat, second: nat)
    | CheckFailed(flat: Flat)

  /** An error: where, and the information its description is made from. */
  datatype Error = Error(context: Context, kind: Kind)

  /** Verdicts and reports of the subschemas of one subschema. */
  datatype View = View(accepts: (Pointer, Value) -> bool, report: (Pointer, Value, Context) -> seq<Error>)

  /** What is reported for one application of a subschema, and `kind` if it fails. */
  ghost function Applied(o: View, q: Pointer, w: Value, inner: Context, outer: Context, kind: Kind): seq<Error> {
    o.report(q, w, inner) + (if o.accepts(q, w) then [] else [Error(outer, kind)])
  }

  /** allOf stops at the first child that fails. */
  ghost function AllOfFrom(o: View, cs: seq<Pointer>, j: nat, v: Value, ctx: Context): seq<Error>
    requires j <= |cs|
    decreases |cs| - j
  {
    if j == |cs| then [] else
      Applied(o, cs[j], v, ctx, ctx, ChildFailed(j)) + (if o.accepts(cs[j], v) then AllOfFrom(o, cs, j + 1, v,
          ctx) else [])
  }

  /** What the child queue of anyOf and oneOf holds after children j and up were tried. */
  ghost function ChildrenFrom(o: View, cs: seq<Pointer>, j: nat, v: Value, ctx: Context): seq<Error>
    requires j <= |cs|
    decreases |cs| - j
  {
    if j == |cs| then [] else
      Applied(o, cs[j], v, ctx, ctx, ChildFailed(j)) + ChildrenFrom(o, cs, j + 1, v, ctx)
  }

  ghost predicate NoneAccepts(o: View, cs: seq<Pointer>, v: Value) {
    forall k :: 0 <= k < |cs| ==> !o.accepts(cs[k], v)
  }

  ghost function MissingFrom(needs: seq<string>, j: nat, v: Value, ctx: Context, dependency: bool): seq<Error>
    requires j <= |needs| && v.Object?
    decreases |needs| - j
  {
    if j == |needs| then [] else
      (if Find(v.members, needs[j]).Some? then []
       else [Error(ctx, if dependency then DependencyMissing(needs[j]) else PropertyMissing(needs[j]))])
      + MissingFrom(needs, j + 1, v, ctx, dependency)
  }

  ghost function PropertyDependenciesFrom(ps: seq<Dependency>, j: nat, v: Value, ctx: Context): seq<Error>
    requires j <= |ps| && v.Object?
    decreases |ps| - j
  {
    if j == |ps| then [] else
      (if Find(v.members, ps[j].name).Some? then MissingFrom(ps[j].needs, 0, v, ctx, true) else [])
      + PropertyDependenciesFrom(ps, j + 1, v, ctx)
  }

  ghost function SchemaDependenciesFrom(o: View, ss: seq<Named<Pointer>>, j: nat, v: Value, ctx: Context): seq<Error>
    requires j <= |ss| && v.Object?
    decreases |ss| - j
  {
    if j == |ss| then [] else
      (if Find(v.members, ss[j].name).Some? then Applied(o, ss[j].child, v, ctx, ctx, DependentSchemaFailed) else [])
      + SchemaDependenciesFrom(o, ss, j + 1, v, ctx)
  }

  ghost function SingularFrom(o: View, s: Pointer, items: seq<Value>, j: nat, ctx: Context): seq<Error>
    requires j <= |items|
    decreases |items| - j
  {
    if j == |items| then [] else
      Applied(o, s, items[j], ctx + [Index(j)], ctx, SingularItemFailed(j)) + SingularFrom(o, s, items, j + 1, ctx)
  }

  ghost function ItemsFrom(o: View, cs: seq<Pointer>, items: seq<Value>, j: nat, ctx: Context): seq<Error>
    requires j <= |cs|
    decreases |cs| - j
  {
    if j == |cs| || j >= |items| then [] else
      Applied(o, cs[j], items[j], ctx + [Index(j)], ctx + [Index(j)], ItemFailed(j)) + ItemsFrom(o, cs, items, j + 1,
          ctx)
  }

  ghost function AdditionalFrom(o: View, s: Pointer, items: seq<Value>, j: nat, ctx: Context): seq<Error>
    requires j <= |items|
    decreases |items| - j
  {
    if j == |items| then [] else
      Applied(o, s, items[j], ctx + [Index(j)], ctx, AdditionalItemFailed(j)) + AdditionalFrom(o, s, items, j + 1, ctx)
  }

  /** How many of the first j items satisfy their own subschema. */
  ghost function CountAccepted(o: View, cs: seq<Pointer>, items: seq<Value>, j: nat): (n: nat)
    requires j <= |cs| && j <= |items|
    ensures n <= j
    ensures n == j <==> forall k :: 0 <= k < j ==> o.accepts(cs[k], items[k])
  {
    if j == 0 then 0 else CountAccepted(o, cs, items, j - 1) + if o.accepts(cs[j - 1], items[j - 1]) then 1 else 0
  }

  function Min(a: nat, b: nat): nat { if a < b then a else b }

  ghost function FirstItemsReport(o: View, cs: seq<Pointer>, additional: Option<Pointer>, items: seq<Value>,
                                  ctx: Context): seq<Error> {
    (if cs != [] && additional.None? && |items| > |cs| then [Error(ctx, TooManyItems)] else [])
    + ItemsFrom(o, cs, items, 0, ctx)
  }

  ghost function LaterItemsReport(o: View, additional: Option<Pointer>, items: seq<Value>, start: nat,
                                  ctx: Context): seq<Error>
    requires start <= |items|
  {
    if start == |items| then []
    else if additional.Some? then AdditionalFrom(o, additional.value, items, start, ctx)
    else [Error(ctx, ItemsNotCovered(start))]
  }

  /** The additional items are taken to start after as many items as were accepted, which is too
      early when one of the first items failed: then items are reported twice. */
  ghost function LinearItemsReport(o: View, cs: seq<Pointer>, additional: Option<Pointer>, items: seq<Value>,
                                   ctx: Context): seq<Error> {
    FirstItemsReport(o, cs, additional, items, ctx)
    + LaterItemsReport(o, additional, items, CountAccepted(o, cs, items, Min(|cs|, |items|)), ctx)
  }

  // ---- Where the report of tuple items is right ----

  /** With additional items taken to start where the tuple ends. */
  ghost function IntendedItemsReport(o: View, cs: seq<Pointer>, additional: Option<Pointer>, items: seq<Value>,
                                     ctx: Context): seq<Error> {
    FirstItemsReport(o, cs, additional, items, ctx) + LaterItemsReport(o, additional, items, Min(|cs|, |items|), ctx)
  }

  /** Items n to m, the latter excluded, satisfy subschema s. */
  ghost predicate AllAccepted(o: View, s: Pointer, items: seq<Value>, n: nat, m: nat)
    requires m <= |items|
  {
    forall k :: n <= k < m ==> o.accepts(s, items[k])
  }

  lemma {:induction false} AdditionalTwice(o: View, s: Pointer, items: seq<Value>, n: nat, m: nat, ctx: Context)
    requires Quiet(o) && (forall w <- items :: WellFormed(w)) && n <= m <= |items|
    ensures |AdditionalFrom(o, s, items, n, ctx)| >= |AdditionalFrom(o, s, items, m, ctx)|
    ensures |AdditionalFrom(o, s, items, n, ctx)| == |AdditionalFrom(o, s, items, m, ctx)| ==>
      AllAccepted(o, s, items, n, m)
    ensures AllAccepted(o, s, items, n, m) ==>
      AdditionalFrom(o, s, items, n, ctx) == AdditionalFrom(o, s, items, m, ctx)
    decreases m - n
  {
    hide Applied, Quiet, WellFormed;
    if n < m {
      QuietExactly(o, s, items[n], ctx + [Index(n)], ctx, AdditionalItemFailed(n));
      AdditionalTwice(o, s, items, n + 1, m, ctx);
    }
  }

  /** An application leaves no error exactly if the subschema accepts. */
  lemma QuietExactly(o: View, q: Pointer, w: Value, inner: Context, outer: Context, kind: Kind)
    requires Quiet(o) && WellFormed(w)
    ensures Applied(o, q, w, inner, outer, kind) == [] <==> o.accepts(q, w)
  {
    hide WellFormed;
  }

  /** The report of a tuple is the intended one exactly if every item that has a schema of its own
      satisfies it, or the items that are taken for additional ones by mistake satisfy the additional
      schema as well. */
  lemma ItemsReportExactly(o: View, cs: seq<Pointer>, additional: Option<Pointer>, items: seq<Value>, ctx: Context)
    requires Quiet(o) && forall w <- items :: WellFormed(w)
    ensures var m := Min(|cs|, |items|); var n := CountAccepted(o, cs, items, m);
      LinearItemsReport(o, cs, additional, items, ctx) == IntendedItemsReport(o, cs, additional, items, ctx) <==>
        (forall k :: 0 <= k < m ==> o.accepts(cs[k], items[k])) ||
        (additional.Some? && AllAccepted(o, additional.value, items, n, m))
  {
    hide FirstItemsReport, AllAccepted, AdditionalFrom, Quiet, WellFormed;
    var m := Min(|cs|, |items|);
    var n := CountAccepted(o, cs, items, m);
    SamePrefix(FirstItemsReport(o, cs, additional, items, ctx), LaterItemsReport(o, additional, items, n, ctx),
               LaterItemsReport(o, additional, items, m, ctx));
    if additional.Some? {
      AdditionalTwice(o, additional.value, items, n, m, ctx);
      NothingAtEnd(o, additional.value, items, ctx);
    }
  }

  lemma NothingAtEnd(o: View, s: Pointer, items: seq<Value>, ctx: Context)
    ensures AdditionalFrom(o, s, items, |items|, ctx) == []
  {
  }

  lemma SamePrefix(a: seq<Error>, b: seq<Error>, c: seq<Error>)
    ensures a + b == a + c <==> b == c
  {
    if a + b == a + c { assert b == (a + b)[|a|..] == (a + c)[|a|..] == c; }
  }

  /** A tuple of two schemas and two items, the second of which fails: the collecting mode also
      reports that item as having no schema. */
  lemma CoveredItemIsReported(o: View, a: Pointer, b: Pointer, v: Value, w: Value, ctx: Context)
    requires o.accepts(a, v) && !o.accepts(b, w)
    ensures Error(ctx, ItemsNotCovered(1)) in LinearItemsReport(o, [a, b], None, [v, w], ctx)
    ensures Error(ctx, ItemsNotCovered(1)) !in LaterItemsReport(o, None, [v, w], 2, ctx)
  {
    hide FirstItemsReport;
    assert CountAccepted(o, [a, b], [v, w], 1) == 1;
    assert CountAccepted(o, [a, b], [v, w], 2) == 1;
  }

  ghost function NamedFrom(o: View, named: seq<Named<Pointer>>, j: nat, members: seq<Member>, ctx: Context): seq<Error>
    requires j <= |named|
    decreases |named| - j
  {
    if j == |named| then [] else
      var found := Find(members, named[j].name);
      (if found.None? then []
       else Applied(o, named[j].child, found.value, ctx + [Name(named[j].name)], ctx, PropertyFailed(named[j].name)))
      + NamedFrom(o, named, j + 1, members, ctx)
  }

  /** One pass over patterns: what is reported, which names were matched, and whether a failure
      ended the pass. */
  datatype Pass = Pass(errors: seq<Error>, matched: set<string>, stopped: bool)

  ghost function PatternPass(x: Externals, o: View, pattern: Named<Pointer>, members: seq<Member>, j: nat,
                             ctx: Context): Pass
    requires j <= |members|
    decreases |members| - j
  {
    if j == |members| then Pass([], {}, false)
    else if !x.regexSearch(pattern.name, members[j].key) then PatternPass(x, o, pattern, members, j + 1, ctx)
    else
      var here := Applied(o, pattern.child, members[j].value, ctx + [Name(members[j].key)], ctx,
                          PatternFailed(pattern.name));
      if !o.accepts(pattern.child, members[j].value) then Pass(here, {members[j].key}, true)
      else
        var rest := PatternPass(x, o, pattern, members, j + 1, ctx);
        Pass(here + rest.errors, {members[j].key} + rest.matched, rest.stopped)
  }

  ghost function PatternsPass(x: Externals, o: View, patterns: seq<Named<Pointer>>, k: nat, members: seq<Member>,
                              ctx: Context): Pass
    requires k <= |patterns|
    decreases |patterns| - k
  {
    if k == |patterns| then Pass([], {}, false) else
      var first := PatternPass(x, o, patterns[k], members, 0, ctx);
      if first.stopped then first else
        var rest := PatternsPass(x, o, patterns, k + 1, members, ctx);
        Pass(first.errors + rest.errors, first.matched + rest.matched, rest.stopped)
  }

  /** Names with a subschema of their own that occur in the object. */
  ghost function NamesPresent(named: seq<Named<Pointer>>, j: nat, members: seq<Member>): set<string>
    requires j <= |named|
  {
    if j == 0 then {} else
      NamesPresent(named, j - 1, members) + if Find(members, named[j - 1].name).Some? then {named[j - 1].name} else {}
  }

  ghost function AdditionalMembersFrom(o: View, s: Pointer,
                                       matched: set<string>, members: seq<Member>, j: nat, ctx: Context): seq<Error>
    requires j <= |members|
    decreases |members| - j
  {
    if j == |members| then [] else
      (if members[j].key in matched then []
       else Applied(o, s, members[j].value, ctx + [Name(members[j].key)], ctx, AdditionalPropertyFailed))
      + AdditionalMembersFrom(o, s, matched, members, j + 1, ctx)
  }

  /** The first name at or after j that is not matched, or the empty string. */
  function FirstUnmatched(matched: set<string>, members: seq<Member>, j: nat): string
    requires j <= |members|
    decreases |members| - j
  {
    if j == |members| then ""
    else if members[j].key !in matched then members[j].key
    else FirstUnmatched(matched, members, j + 1)
  }

  ghost function RestReport(o: View, additional: Option<Pointer>,
                            matched: set<string>, members: seq<Member>, ctx: Context): seq<Error> {
    if additional.Some? then AdditionalMembersFrom(o, additional.value, matched, members, 0, ctx)
    else if |matched| != |members| then [Error(ctx, Unwanted(FirstUnmatched(matched, members, 0)))]
    else []
  }

  ghost function PropertiesReport(x: Externals, o: View, named: seq<Named<Pointer>>, patterns: seq<Named<Pointer>>,
                                  additional: Option<Pointer>, members: seq<Member>, ctx: Context): seq<Error>
  {
    var pass := PatternsPass(x, o, patterns, 0, members, ctx);
    NamedFrom(o, named, 0, members, ctx) + pass.errors
    + RestReport(o, additional, NamesPresent(named, |named|, members) + pass.matched, members, ctx)
  }

  ghost function DuplicatesOf(items: seq<Value>, i: nat, j: nat, ctx: Context): seq<Error>
    requires i < j <= |items|
    decreases |items| - j
  {
    if j == |items| then [] else
      (if EqualTo(items[i], items[j]) then [Error(ctx, Duplicates(i, j))] else []) + DuplicatesOf(items, i, j + 1, ctx)
  }

  lemma DuplicatesStep(items: seq<Value>, i: nat, j: nat, ctx: Context, before: seq<Error>)
    requires i < j <= |items|
    ensures j == |items| ==> DuplicatesOf(items, i, j, ctx) == []
    ensures j < |items| && !EqualTo(items[i], items[j]) ==>
      DuplicatesOf(items, i, j, ctx) == DuplicatesOf(items, i, j + 1, ctx)
    ensures j < |items| && EqualTo(items[i], items[j]) ==>
      (before + DuplicatesOf(items, i, j, ctx) ==
       (before + [Error(ctx, Duplicates(i, j))]) + DuplicatesOf(items, i, j + 1, ctx))
  {
    hide EqualTo;
  }

  ghost function DuplicatesFrom(items: seq<Value>, i: nat, ctx: Context): seq<Error>
    requires i <= |items|
    decreases |items| - i
  {
    if i == |items| then [] else DuplicatesOf(items, i, i + 1, ctx) + DuplicatesFrom(items, i + 1, ctx)
  }

  // ---- One step of a loop ----

  lemma NoneCounted(o: View, cs: seq<Pointer>, items: seq<Value>)
    ensures CountAccepted(o, cs, items, 0) == 0
  {
  }

  lemma CountOneMore(o: View, cs: seq<Pointer>, items: seq<Value>, j: nat)
    requires j < |cs| && j < |items|
    ensures CountAccepted(o, cs, items, j + 1) ==
      CountAccepted(o, cs, items, j) + if o.accepts(cs[j], items[j]) then 1 else 0
  {
  }

  lemma PatternStep(x: Externals, o: View, pattern: Named<Pointer>, members: seq<Member>, j: nat, ctx: Context,
                    before: seq<Error>)
    requires j <= |members|
    ensures var here := PatternPass(x, o, pattern, members, j, ctx);
      if j == |members| then here == Pass([], {}, false)
      else
        var m, rest := members[j], PatternPass(x, o, pattern, members, j + 1, ctx);
        if !x.regexSearch(pattern.name, m.key) then here == rest
        else
          var applied := Applied(o, pattern.child, m.value, ctx + [Name(m.key)], ctx, PatternFailed(pattern.name));
          if o.accepts(pattern.child, m.value) then
            && here.stopped == rest.stopped && here.matched == {m.key} + rest.matched
            && before + here.errors == (before + applied) + rest.errors
          else here == Pass(applied, {m.key}, true)
  {
    hide Applied;
  }

  lemma AllOfStep(o: View, cs: seq<Pointer>, j: nat, v: Value, ctx: Context, before: seq<Error>)
    requires j <= |cs|
    ensures j == |cs| ==> AllOfFrom(o, cs, j, v, ctx) == []
    ensures j < |cs| ==>
      (before + AllOfFrom(o, cs, j, v, ctx) ==
       (before + Applied(o, cs[j], v, ctx, ctx, ChildFailed(j))) +
       (if o.accepts(cs[j], v) then AllOfFrom(o, cs, j + 1, v, ctx) else []))
  {
    hide Applied;
  }

  lemma ChildrenStep(o: View, cs: seq<Pointer>, j: nat, v: Value, ctx: Context, before: seq<Error>)
    requires j <= |cs|
    ensures j == |cs| ==> ChildrenFrom(o, cs, j, v, ctx) == []
    ensures j < |cs| ==>
      (before + ChildrenFrom(o, cs, j, v, ctx) ==
       (before + Applied(o, cs[j], v, ctx, ctx, ChildFailed(j))) + ChildrenFrom(o, cs, j + 1, v, ctx))
  {
    hide Applied;
  }

  lemma MissingStep(needs: seq<string>, j: nat, v: Value, ctx: Context, dependency: bool, before: seq<Error>)
    requires j <= |needs| && v.Object?
    ensures j == |needs| ==> MissingFrom(needs, j, v, ctx, dependency) == []
    ensures j < |needs| && Find(v.members, needs[j]).Some? ==>
      MissingFrom(needs, j, v, ctx, dependency) == MissingFrom(needs, j + 1, v, ctx, dependency)
    ensures j < |needs| && Find(v.members, needs[j]).None? ==>
      (before + MissingFrom(needs, j, v, ctx, dependency) ==
       (before + [Error(ctx, if dependency then DependencyMissing(needs[j]) else PropertyMissing(needs[j]))]) +
       MissingFrom(needs, j + 1, v, ctx, dependency))
  {
    hide Find;
  }

  lemma DependencyStep(ps: seq<Dependency>, j: nat, v: Value, ctx: Context, before: seq<Error>)
    requires j <= |ps| && v.Object?
    ensures j == |ps| ==> PropertyDependenciesFrom(ps, j, v, ctx) == []
    ensures j < |ps| && Find(v.members, ps[j].name).None? ==>
      PropertyDependenciesFrom(ps, j, v, ctx) == PropertyDependenciesFrom(ps, j + 1, v, ctx)
    ensures j < |ps| && Find(v.members, ps[j].name).Some? ==>
      (before + PropertyDependenciesFrom(ps, j, v, ctx) ==
       (before + MissingFrom(ps[j].needs, 0, v, ctx, true)) + PropertyDependenciesFrom(ps, j + 1, v, ctx))
  {
    hide Find, MissingFrom;
  }

  lemma SingularStep(o: View, s: Pointer, items: seq<Value>, j: nat, ctx: Context, before: seq<Error>)
    requires j <= |items|
    ensures j == |items| ==> SingularFrom(o, s, items, j, ctx) == []
    ensures j < |items| ==>
      (before + SingularFrom(o, s, items, j, ctx) ==
       (before + Applied(o, s, items[j], ctx + [Index(j)], ctx, SingularItemFailed(j))) +
       SingularFrom(o, s, items, j + 1, ctx))
  {
    hide Applied;
  }

  lemma ItemsStep(o: View, cs: seq<Pointer>, items: seq<Value>, j: nat, ctx: Context, before: seq<Error>)
    requires j <= |cs|
    ensures j == |cs| || j >= |items| ==> ItemsFrom(o, cs, items, j, ctx) == []
    ensures j < |cs| && j < |items| ==>
      (before + ItemsFrom(o, cs, items, j, ctx) ==
       (before + Applied(o, cs[j], items[j], ctx + [Index(j)], ctx + [Index(j)], ItemFailed(j))) +
       ItemsFrom(o, cs, items, j + 1, ctx))
  {
    hide Applied;
  }

  lemma NamedStep(o: View, named: seq<Named<Pointer>>, j: nat, members: seq<Member>, ctx: Context, before: seq<Error>)
    requires j <= |named|
    ensures j == |named| ==> NamedFrom(o, named, j, members, ctx) == []
    ensures j < |named| && Find(members, named[j].name).None? ==>
      NamedFrom(o, named, j, members, ctx) == NamedFrom(o, named, j + 1, members, ctx)
    ensures j < |named| && Find(members, named[j].name).Some? ==>
      (before + NamedFrom(o, named, j, members, ctx) ==
       (before + Applied(o, named[j].child, Find(members, named[j].name).value, ctx + [Name(named[j].name)], ctx,
                         PropertyFailed(named[j].name))) +
       NamedFrom(o, named, j + 1, members, ctx))
  {
    hide Applied, Find;
  }

  ghost function FlatReport(x: Externals, f: Flat, v: Value, ctx: Context): seq<Error> {
    match f
    case Required(names) => if v.Object? then MissingFrom(names, 0, v, ctx, false) else []
    case UniqueItems => if v.Array? then DuplicatesFrom(v.items, 0, ctx) else []
    case _ => if FlatHolds(x, f, v) then [] else [Error(ctx, CheckFailed(f))]
  }

  ghost function ConstraintReport(x: Externals, c: Constraint<Pointer>, v: Value, ctx: Context, o: View): seq<Error> {
    match c
    case AllOf(cs) => AllOfFrom(o, cs, 0, v, ctx)
    case AnyOf(cs) =>
      if NoneAccepts(o, cs, v) then ChildrenFrom(o, cs, 0, v, ctx) + [Error(ctx, NoneOfAny)] else []
    case OneOf(cs) =>
      if NoneAccepts(o, cs, v) then ChildrenFrom(o, cs, 0, v, ctx) + [Error(ctx, NoneOfOne)]
      else if Holds(x, c, v, o.accepts) then []
      else [Error(ctx, SeveralOfOne)]
    case Not(s) => if o.accepts(s, v) then [Error(ctx, NotFailed)] else []
    case Conditional(i, t, e) =>
      var branch := if o.accepts(i, v) then t else e;
      if branch.None? || o.accepts(branch.value, v) then []
      else o.report(branch.value, v, ctx) + [Error(ctx, ConditionalFailed)]
    case Dependencies(ps, ss) =>
      if v.Object? then PropertyDependenciesFrom(ps, 0, v, ctx) + SchemaDependenciesFrom(o, ss, 0, v, ctx) else []
    case Contains(s) => if Holds(x, c, v, o.accepts) then [] else [Error(ctx, NothingContained)]
    case SingularItems(s) => if v.Array? then SingularFrom(o, s, v.items, 0, ctx) else []
    case LinearItems(cs, additional) => if v.Array? then LinearItemsReport(o, cs, additional, v.items, ctx) else []
    case Properties(named, patterns, additional) =>
      if v.Object? then PropertiesReport(x, o, named, patterns, additional, v.members, ctx) else []
    case PropertyNames(_) => []
    case Plain(f) => FlatReport(x, f, v, ctx)
  }

  /** Constraints are visited in order, up to the first that fails. */
  ghost function ConstraintsFrom(x: Externals, cs: seq<Constraint<Pointer>>, j: nat, v: Value, ctx: Context,
                                 o: View): seq<Error>
    requires j <= |cs|
    decreases |cs| - j
  {
    if j == |cs| then [] else
      ConstraintReport(x, cs[j], v, ctx, o)
      + (if Holds(x, cs[j], v, o.accepts) then ConstraintsFrom(x, cs, j + 1, v, ctx, o) else [])
  }

  /** The errors pushed when v is validated against subschema p. */
  ghost function Report(x: Externals, g: Graph, p: Pointer, v: Value, ctx: Context): seq<Error>
    requires GraphGuarded(g) && p < |g|
    decreases Size(v), GraphRankOf(g)[p], 1
  {
    if g[p].alwaysInvalid then [] else
      ConstraintsFrom(x, g[p].constraints, 0, v, ctx, View(ChildAccepts(x, g, p, v), ChildReport(x, g, p, v)))
  }

  ghost function ChildReport(x: Externals, g: Graph, p: Pointer, v: Value): (Pointer, Value, Context) -> seq<Error>
    requires GraphGuarded(g) && p < |g|
    decreases Size(v), GraphRankOf(g)[p], 0
  {
    (q: Pointer, w: Value, ctx: Context) =>
      if q < |g| && (Size(w) < Size(v) || (w == v && GraphRankOf(g)[q] < GraphRankOf(g)[p]))
      then Report(x, g, q, w, ctx) else []
  }

  ghost function ViewOf(x: Externals, g: Graph, p: Pointer, v: Value): View
    requires GraphGuarded(g) && p < |g|
  {
    View(ChildAccepts(x, g, p, v), ChildReport(x, g, p, v))
  }

  // ---- A true verdict reports nothing ----

  /** Subschemas that accept a well-formed value report nothing. */
  ghost predicate Quiet(o: View) {
    forall q, w, ctx :: WellFormed(w) && o.accepts(q, w) ==> o.report(q, w, ctx) == []
  }

  lemma {:induction false} QuietAllOf(o: View, cs: seq<Pointer>, j: nat, v: Value, ctx: Context)
    requires Quiet(o) && WellFormed(v) && j <= |cs| && forall k :: 0 <= k < |cs| ==> o.accepts(cs[k], v)
    ensures AllOfFrom(o, cs, j, v, ctx) == []
    decreases |cs| - j
  {
    if j < |cs| { QuietAllOf(o, cs, j + 1, v, ctx); }
  }

  lemma {:induction false} QuietMissing(needs: seq<string>, j: nat, v: Value, ctx: Context, dependency: bool)
    requires j <= |needs| && v.Object? && forall n <- needs :: Find(v.members, n).Some?
    ensures MissingFrom(needs, j, v, ctx, dependency) == []
    decreases |needs| - j
  {
    if j < |needs| { QuietMissing(needs, j + 1, v, ctx, dependency); }
  }

  lemma {:induction false} QuietDependencies(ps: seq<Dependency>, j: nat, v: Value, ctx: Context)
    requires j <= |ps| && v.Object?
    requires forall p <- ps :: Find(v.members, p.name).Some? ==> forall n <- p.needs :: Find(v.members, n).Some?
    ensures PropertyDependenciesFrom(ps, j, v, ctx) == []
    decreases |ps| - j
  {
    if j < |ps| {
      if Find(v.members, ps[j].name).Some? { QuietMissing(ps[j].needs, 0, v, ctx, true); }
      QuietDependencies(ps, j + 1, v, ctx);
    }
  }

  lemma {:induction false} QuietSchemaDependencies(o: View, ss: seq<Named<Pointer>>, j: nat, v: Value, ctx: Context)
    requires Quiet(o) && WellFormed(v) && j <= |ss| && v.Object?
    requires forall k :: 0 <= k < |ss| && Find(v.members, ss[k].name).Some? ==> o.accepts(ss[k].child, v)
    ensures SchemaDependenciesFrom(o, ss, j, v, ctx) == []
    decreases |ss| - j
  {
    if j < |ss| { QuietSchemaDependencies(o, ss, j + 1, v, ctx); }
  }

  lemma {:induction false} QuietSingular(o: View, s: Pointer, items: seq<Value>, j: nat, ctx: Context)
    requires Quiet(o)
    requires (forall w <- items :: WellFormed(w)) && j <= |items| && forall k :: 0 <= k < |items| ==>
      o.accepts(s, items[k])
    ensures SingularFrom(o, s, items, j, ctx) == []
    decreases |items| - j
  {
    if j < |items| { QuietSingular(o, s, items, j + 1, ctx); }
  }

  lemma {:induction false} QuietItems(o: View, cs: seq<Pointer>, items: seq<Value>, j: nat, ctx: Context)
    requires Quiet(o)
    requires (forall w <- items :: WellFormed(w)) && j <= |cs| && forall k :: 0 <= k < |cs| && k < |items| ==>
      o.accepts(cs[k], items[k])
    ensures ItemsFrom(o, cs, items, j, ctx) == []
    decreases |cs| - j
  {
    if j < |cs| { QuietItems(o, cs, items, j + 1, ctx); }
  }

  lemma {:induction false} QuietAdditional(o: View, s: Pointer, items: seq<Value>, j: nat, ctx: Context)
    requires Quiet(o)
    requires (forall w <- items :: WellFormed(w)) && j <= |items| && forall k :: j <= k < |items| ==>
      o.accepts(s, items[k])
    ensures AdditionalFrom(o, s, items, j, ctx) == []
    decreases |items| - j
  {
    if j < |items| { QuietAdditional(o, s, items, j + 1, ctx); }
  }

  lemma {:induction false} QuietNamed(o: View, named: seq<Named<Pointer>>, j: nat, members: seq<Member>, ctx: Context)
    requires Quiet(o) && (forall m <- members :: WellFormed(m.value)) && j <= |named|
    requires forall k, m :: 0 <= k < |named| && m in members && m.key == named[k].name ==>
      o.accepts(named[k].child, m.value)
    ensures NamedFrom(o, named, j, members, ctx) == []
    decreases |named| - j
  {
    if j < |named| {
      var found := Find(members, named[j].name);
      if found.Some? {
        assert Member(named[j].name, found.value) in members;
      }
      QuietNamed(o, named, j + 1, members, ctx);
    }
  }

  /** A pass over one pattern stops exactly if a matching member fails; otherwise it matches
      exactly the names in which the pattern is found. */
  lemma {:induction false} PatternPassFacts(x: Externals, o: View, pattern: Named<Pointer>, members: seq<Member>,
                                            j: nat, ctx: Context)
    requires j <= |members|
    ensures var pass := PatternPass(x, o, pattern, members, j, ctx);
      && (pass.stopped <==> exists k :: j <= k < |members| && PatternFails(x, o, pattern, members[k]))
      && (!pass.stopped ==> forall key :: key in pass.matched <==>
           exists k :: j <= k < |members| && members[k].key == key && x.regexSearch(pattern.name, key))
    decreases |members| - j
  {
    if j < |members| { PatternPassFacts(x, o, pattern, members, j + 1, ctx); }
  }

  ghost predicate PatternFails(x: Externals, o: View, pattern: Named<Pointer>, m: Member) {
    x.regexSearch(pattern.name, m.key) && !o.accepts(pattern.child, m.value)
  }

  lemma {:induction false} PatternsPassFacts(x: Externals, o: View, patterns: seq<Named<Pointer>>, k: nat,
                                             members: seq<Member>, ctx: Context)
    requires k <= |patterns|
    ensures var pass := PatternsPass(x, o, patterns, k, members, ctx);
      && (pass.stopped <==> exists i, m :: k <= i < |patterns| && m in members && PatternFails(x, o, patterns[i], m))
      && (!pass.stopped ==> forall m <- members ::
           m.key in pass.matched <==> exists i :: k <= i < |patterns| && x.regexSearch(patterns[i].name, m.key))
    decreases |patterns| - k
  {
    if k < |patterns| {
      PatternPassFacts(x, o, patterns[k], members, 0, ctx);
      PatternsPassFacts(x, o, patterns, k + 1, members, ctx);
      var first, rest := PatternPass(x, o, patterns[k], members, 0, ctx), PatternsPass(x, o, patterns, k + 1, members,
          ctx);
      if !first.stopped && !rest.stopped {
        forall m <- members
          ensures m.key in first.matched + rest.matched <==>
            exists i :: k <= i < |patterns| && x.regexSearch(patterns[i].name, m.key)
        {
          assert m.key in first.matched <==> x.regexSearch(patterns[k].name, m.key);
        }
      }
    }
  }

  lemma {:induction false} QuietPattern(x: Externals, o: View, pattern: Named<Pointer>, members: seq<Member>, j: nat,
                                        ctx: Context)
    requires Quiet(o) && (forall m <- members :: WellFormed(m.value)) && j <= |members|
    requires forall m <- members :: !PatternFails(x, o, pattern, m)
    ensures PatternPass(x, o, pattern, members, j, ctx).errors == []
    decreases |members| - j
  {
    if j < |members| {
      assert !PatternFails(x, o, pattern, members[j]);
      QuietPattern(x, o, pattern, members, j + 1, ctx);
    }
  }

  lemma {:induction false} QuietPatterns(x: Externals, o: View, patterns: seq<Named<Pointer>>, k: nat,
                                         members: seq<Member>, ctx: Context)
    requires Quiet(o) && (forall m <- members :: WellFormed(m.value)) && k <= |patterns|
    requires forall p <- patterns, m <- members :: !PatternFails(x, o, p, m)
    ensures PatternsPass(x, o, patterns, k, members, ctx).errors == []
    decreases |patterns| - k
  {
    if k < |patterns| {
      QuietPattern(x, o, patterns[k], members, 0, ctx);
      QuietPatterns(x, o, patterns, k + 1, members, ctx);
    }
  }

  lemma {:induction false} QuietAdditionalMembers(o: View, s: Pointer,
                                                  matched: set<string>, members: seq<Member>, j: nat, ctx: Context)
    requires Quiet(o) && (forall m <- members :: WellFormed(m.value)) && j <= |members|
    requires forall m <- members :: m.key in matched || o.accepts(s, m.value)
    ensures AdditionalMembersFrom(o, s, matched, members, j, ctx) == []
    decreases |members| - j
  {
    if j < |members| { QuietAdditionalMembers(o, s, matched, members, j + 1, ctx); }
  }

  // ---- The cardinality test on matched names ----

  ghost function KeysOf(members: seq<Member>): set<string> {
    set m <- members :: m.key
  }

  lemma {:induction false} KeysSize(members: seq<Member>)
    requires DistinctKeys(members)
    ensures |KeysOf(members)| == |members|
  {
    if members != [] {
      var last := |members| - 1;
      KeysSize(members[..last]);
      assert members == members[..last] + [members[last]];
      assert members[last].key !in KeysOf(members[..last]);
      assert KeysOf(members) == KeysOf(members[..last]) + {members[last].key};
    }
  }

  /** Among names of the object, as many names are matched as there are members exactly when every
      member is matched. */
  lemma MatchedByCount(matched: set<string>, members: seq<Member>)
    requires DistinctKeys(members) && matched <= KeysOf(members)
    ensures |matched| == |members| <==> forall m <- members :: m.key in matched
  {
    KeysSize(members);
    if forall m <- members :: m.key in matched {
      assert matched == KeysOf(members);
    }
    if |matched| == |members| {
      SameSizeSubset(matched, KeysOf(members));
    }
  }

  lemma {:induction false} NamesPresentAreKeys(named: seq<Named<Pointer>>, j: nat, members: seq<Member>)
    requires j <= |named|
    ensures NamesPresent(named, j, members) <= KeysOf(members)
    ensures forall m <- members :: m.key in NamesPresent(named, j, members) <==>
      exists k :: 0 <= k < j && named[k].name == m.key
  {
    if j > 0 {
      NamesPresentAreKeys(named, j - 1, members);
      var name := named[j - 1].name;
      if Find(members, name).Some? {
        assert Member(name, Find(members, name).value) in members;
      }
    }
  }

  lemma {:induction false} PatternMatchesAreKeys(x: Externals, o: View, pattern: Named<Pointer>, members: seq<Member>,
                                                 j: nat, ctx: Context)
    requires j <= |members|
    ensures PatternPass(x, o, pattern, members, j, ctx).matched <= KeysOf(members)
    decreases |members| - j
  {
    if j < |members| { PatternMatchesAreKeys(x, o, pattern, members, j + 1, ctx); }
  }

  lemma {:induction false} PatternsMatchesAreKeys(x: Externals, o: View, patterns: seq<Named<Pointer>>, k: nat,
                                                  members: seq<Member>, ctx: Context)
    requires k <= |patterns|
    ensures PatternsPass(x, o, patterns, k, members, ctx).matched <= KeysOf(members)
    decreases |patterns| - k
  {
    if k < |patterns| {
      PatternMatchesAreKeys(x, o, patterns[k], members, 0, ctx);
      PatternsMatchesAreKeys(x, o, patterns, k + 1, members, ctx);
    }
  }

  // ---- The three phases decide the declarative meaning ----

  /** First phase: the named subschemas accept what is found under their names. */
  ghost predicate NamedAccept(o: View, named: seq<Named<Pointer>>, j: nat, members: seq<Member>)
    requires j <= |named|
  {
    forall k :: 0 <= k < j ==> NamedAccepts(o, named[k], members)
  }

  lemma NoneNamed(o: View, named: seq<Named<Pointer>>, members: seq<Member>)
    ensures NamedAccept(o, named, 0, members) && NamesPresent(named, 0, members) == {}
  {
  }

  lemma OneMoreNamed(o: View, named: seq<Named<Pointer>>, j: nat, members: seq<Member>)
    requires j < |named|
    ensures NamedAccept(o, named, j + 1, members) <==>
      NamedAccept(o, named, j, members) &&
      (Find(members, named[j].name).Some? ==> o.accepts(named[j].child, Find(members, named[j].name).value))
    ensures NamedAccept(o, named, |named|, members) ==> NamedAccept(o, named, j + 1, members)
    ensures NamesPresent(named, j + 1, members) ==
      NamesPresent(named, j, members) + if Find(members, named[j].name).Some? then {named[j].name} else {}
  {
    hide Find;
    if NamedAccept(o, named, j + 1, members) { assert NamedAccepts(o, named[j], members); }
  }

  ghost predicate NamedAccepts(o: View, n: Named<Pointer>, members: seq<Member>) {
    var found := Find(members, n.name);
    found.Some? ==> o.accepts(n.child, found.value)
  }

  /** Last phase: nothing is unmatched, or what is unmatched is accepted. */
  ghost predicate RestAccepts(o: View, additional: Option<Pointer>, matched: set<string>, members: seq<Member>) {
    if additional.None? then |matched| == |members|
    else AdditionalAccepts(o, additional.value, matched, |members|, members)
  }

  ghost predicate AdditionalAccepts(o: View, s: Pointer, matched: set<string>, j: nat, members: seq<Member>)
    requires j <= |members|
  {
    forall k :: 0 <= k < j ==> members[k].key in matched || o.accepts(s, members[k].value)
  }

  lemma NamedPhase(o: View, named: seq<Named<Pointer>>, members: seq<Member>)
    requires DistinctKeys(members)
    ensures NamedAccept(o, named, |named|, members) <==> forall m <- members :: NamedHolds(named, m, o.accepts)
  {
    forall k, m | 0 <= k < |named| && m in members && named[k].name == m.key
      ensures Find(members, named[k].name) == Some(m.value)
    {
      var i :| 0 <= i < |members| && members[i] == m;
      FindAt(members, i);
    }
    if forall m <- members :: NamedHolds(named, m, o.accepts) {
      forall k | 0 <= k < |named| ensures NamedAccepts(o, named[k], members) {
        var found := Find(members, named[k].name);
        if found.Some? {
          assert NamedHolds(named, Member(named[k].name, found.value), o.accepts);
        }
      }
    }
    if NamedAccept(o, named, |named|, members) {
      forall m <- members ensures NamedHolds(named, m, o.accepts) {
        forall k | 0 <= k < |named| && named[k].name == m.key ensures o.accepts(named[k].child, m.value) {
          assert NamedAccepts(o, named[k], members);
        }
      }
    }
  }

  lemma PatternPhase(x: Externals, o: View, patterns: seq<Named<Pointer>>, members: seq<Member>, ctx: Context)
    ensures !PatternsPass(x, o, patterns, 0, members, ctx).stopped <==>
      forall m <- members :: PatternsHold(x, patterns, m, o.accepts)
  {
    hide PatternsPass, PatternPass;
    PatternsPassFacts(x, o, patterns, 0, members, ctx);
    if forall m <- members :: PatternsHold(x, patterns, m, o.accepts) {
      forall i, m | 0 <= i < |patterns| && m in members ensures !PatternFails(x, o, patterns[i], m) {
        assert PatternsHold(x, patterns, m, o.accepts);
      }
    }
    if !PatternsPass(x, o, patterns, 0, members, ctx).stopped {
      forall m <- members ensures PatternsHold(x, patterns, m, o.accepts) {
        forall i | 0 <= i < |patterns| && x.regexSearch(patterns[i].name, m.key)
        ensures o.accepts(patterns[i].child, m.value)
      {
          assert !PatternFails(x, o, patterns[i], m);
        }
      }
    }
  }

  lemma RestPhase(x: Externals, o: View, named: seq<Named<Pointer>>, patterns: seq<Named<Pointer>>,
                  additional: Option<Pointer>,
                  members: seq<Member>, ctx: Context)
    requires DistinctKeys(members) && !PatternsPass(x, o, patterns, 0, members, ctx).stopped
    ensures RestAccepts(o, additional,
                        NamesPresent(named, |named|, members) + PatternsPass(x, o, patterns, 0, members, ctx).matched,
                        members)
      <==> forall m <- members ::
             Matched(x, named, patterns, m.key) || (additional.Some? && o.accepts(additional.value, m.value))
  {
    hide PatternsPass, PatternPass, NamesPresent;
    var matched := NamesPresent(named, |named|, members) + PatternsPass(x, o, patterns, 0, members, ctx).matched;
    PatternsPassFacts(x, o, patterns, 0, members, ctx);
    NamesPresentAreKeys(named, |named|, members);
    PatternsMatchesAreKeys(x, o, patterns, 0, members, ctx);
    MatchedByCount(matched, members);
    forall m <- members ensures m.key in matched <==> Matched(x, named, patterns, m.key) {
    }
    if additional.Some? {
      assert AdditionalAccepts(o, additional.value, matched, |members|, members)
        <==> forall m <- members :: m.key in matched || o.accepts(additional.value, m.value);
    }
  }

  /** An object is accepted exactly when no phase fails, where the last phase without an additional
      subschema compares two counts. */
  lemma ThreePhases(x: Externals, o: View, named: seq<Named<Pointer>>, patterns: seq<Named<Pointer>>,
                    additional: Option<Pointer>,
                    members: seq<Member>, ctx: Context)
    requires DistinctKeys(members)
    ensures var pass := PatternsPass(x, o, patterns, 0, members, ctx);
      (forall m <- members :: MemberHolds(x, named, patterns, additional, m, o.accepts)) <==>
        && NamedAccept(o, named, |named|, members)
        && !pass.stopped
        && RestAccepts(o, additional, NamesPresent(named, |named|, members) + pass.matched, members)
  {
    hide PatternsPass, NamedAccept, RestAccepts, NamesPresent, NamedHolds, PatternsHold, Matched;
    NamedPhase(o, named, members);
    PatternPhase(x, o, patterns, members, ctx);
    if !PatternsPass(x, o, patterns, 0, members, ctx).stopped {
      RestPhase(x, o, named, patterns, additional, members, ctx);
    }
  }

  lemma QuietProperties(x: Externals, o: View, named: seq<Named<Pointer>>, patterns: seq<Named<Pointer>>,
                        additional: Option<Pointer>, members: seq<Member>, ctx: Context)
    requires Quiet(o) && (forall m <- members :: WellFormed(m.value)) && DistinctKeys(members)
    requires forall m <- members :: MemberHolds(x, named, patterns, additional, m, o.accepts)
    ensures PropertiesReport(x, o, named, patterns, additional, members, ctx) == []
  {
    forall k, m | 0 <= k < |named| && m in members && m.key == named[k].name
      ensures o.accepts(named[k].child, m.value)
    {
      assert NamedHolds(named, m, o.accepts);
    }
    QuietNamed(o, named, 0, members, ctx);
    forall p <- patterns, m <- members ensures !PatternFails(x, o, p, m) {
      assert PatternsHold(x, patterns, m, o.accepts);
    }
    QuietPatterns(x, o, patterns, 0, members, ctx);
    PatternsPassFacts(x, o, patterns, 0, members, ctx);
    var pass := PatternsPass(x, o, patterns, 0, members, ctx);
    var matched := NamesPresent(named, |named|, members) + pass.matched;
    NamesPresentAreKeys(named, |named|, members);
    PatternsMatchesAreKeys(x, o, patterns, 0, members, ctx);
    MatchedByCount(matched, members);
    forall m <- members ensures m.key in matched <==> Matched(x, named, patterns, m.key) {
    }
    if additional.Some? {
      QuietAdditionalMembers(o, additional.value, matched, members, 0, ctx);
    }
  }

  lemma {:induction false} QuietDuplicatesOf(items: seq<Value>, i: nat, j: nat, ctx: Context)
    requires i < j <= |items| && forall k :: i < k < |items| ==> !EqualTo(items[i], items[k])
    ensures DuplicatesOf(items, i, j, ctx) == []
    decreases |items| - j
  {
    if j < |items| { QuietDuplicatesOf(items, i, j + 1, ctx); }
  }

  lemma {:induction false} QuietDuplicates(items: seq<Value>, i: nat, ctx: Context)
    requires i <= |items| && forall j, k :: i <= j < k < |items| ==> !EqualTo(items[j], items[k])
    ensures DuplicatesFrom(items, i, ctx) == []
    decreases |items| - i
  {
    if i < |items| {
      QuietDuplicatesOf(items, i, i + 1, ctx);
      QuietDuplicates(items, i + 1, ctx);
    }
  }

  lemma QuietLinearItems(o: View, cs: seq<Pointer>, additional: Option<Pointer>, items: seq<Value>, ctx: Context)
    requires Quiet(o) && (forall w <- items :: WellFormed(w))
    requires forall k :: 0 <= k < |items| ==> ItemHolds(cs, additional, k, items[k], o.accepts)
    ensures LinearItemsReport(o, cs, additional, items, ctx) == []
  {
    QuietItems(o, cs, items, 0, ctx);
    var m := Min(|cs|, |items|);
    assert CountAccepted(o, cs, items, m) == m;
    if m < |items| {
      assert m == |cs|;
      assert ItemHolds(cs, additional, m, items[m], o.accepts);
      QuietAdditional(o, additional.value, items, m, ctx);
    }
  }

  lemma QuietFlat(x: Externals, f: Flat, v: Value, ctx: Context)
    requires FlatHolds(x, f, v)
    ensures FlatReport(x, f, v, ctx) == []
  {
    match f
    case Required(names) => if v.Object? { QuietMissing(names, 0, v, ctx, false); }
    case UniqueItems => if v.Array? { QuietDuplicates(v.items, 0, ctx); }
    case _ =>
  }

  lemma QuietConstraint(x: Externals, c: Constraint<Pointer>, v: Value, ctx: Context, o: View)
    requires Quiet(o) && WellFormed(v) && Holds(x, c, v, o.accepts)
    ensures ConstraintReport(x, c, v, ctx, o) == []
  {
    match c
    case AllOf(cs) => QuietAllOf(o, cs, 0, v, ctx);
    case Dependencies(ps, ss) =>
      if v.Object? {
        QuietDependencies(ps, 0, v, ctx);
        QuietSchemaDependencies(o, ss, 0, v, ctx);
      }
    case SingularItems(s) => if v.Array? { QuietSingular(o, s, v.items, 0, ctx); }
    case LinearItems(cs, additional) => if v.Array? { QuietLinearItems(o, cs, additional, v.items, ctx); }
    case Properties(named, patterns, additional) =>
      if v.Object? { QuietProperties(x, o, named, patterns, additional, v.members, ctx); }
    case Plain(f) => QuietFlat(x, f, v, ctx);
    case _ =>
  }

  lemma {:induction false} QuietConstraints(x: Externals, cs: seq<Constraint<Pointer>>, j: nat, v: Value, ctx: Context,
                                            o: View)
    requires Quiet(o) && WellFormed(v) && j <= |cs| && forall c <- cs :: Holds(x, c, v, o.accepts)
    ensures ConstraintsFrom(x, cs, j, v, ctx, o) == []
    decreases |cs| - j
  {
    if j < |cs| {
      QuietConstraint(x, cs[j], v, ctx, o);
      QuietConstraints(x, cs, j + 1, v, ctx, o);
    }
  }

  /** A value that is accepted is accepted silently: no error reaches the queue. */
  lemma {:induction false} AcceptedSilently(x: Externals, g: Graph, p: Pointer, v: Value, ctx: Context)
    requires GraphGuarded(g) && p < |g| && WellFormed(v) && Accepts(x, g, p, v)
    ensures Report(x, g, p, v, ctx) == []
    decreases Size(v), GraphRankOf(g)[p]
  {
    var o := ViewOf(x, g, p, v);
    forall q, w, inner | WellFormed(w) && o.accepts(q, w)
      ensures o.report(q, w, inner) == []
    {
      AcceptedSilently(x, g, q, w, inner);
    }
    QuietConstraints(x, g[p].constraints, 0, v, ctx, o);
  }

  lemma ViewIsQuiet(x: Externals, g: Graph, p: Pointer, v: Value)
    requires GraphGuarded(g) && p < |g|
    ensures Quiet(ViewOf(x, g, p, v))
  {
    hide Accepts, Report, GraphGuarded;
    var o := ViewOf(x, g, p, v);
    forall q, w, ctx | WellFormed(w) && o.accepts(q, w) ensures o.report(q, w, ctx) == [] {
      AcceptedSilently(x, g, q, w, ctx);
    }
  }

  /** The same for a compiled graph, whose subschemas are silent whenever they accept. */
  lemma TupleReportExactly(x: Externals, g: Graph, p: Pointer, v: Value, cs: seq<Pointer>, additional: Option<Pointer>,
                           ctx: Context)
    requires GraphGuarded(g) && p < |g| && v.Array? && WellFormed(v)
    ensures var o := ViewOf(x, g, p, v); var m := Min(|cs|, |v.items|); var n := CountAccepted(o, cs, v.items, m);
      LinearItemsReport(o, cs, additional, v.items, ctx) == IntendedItemsReport(o, cs, additional, v.items, ctx) <==>
        (forall k :: 0 <= k < m ==> o.accepts(cs[k], v.items[k])) ||
        (additional.Some? && AllAccepted(o, additional.value, v.items, n, m))
  {
    hide LinearItemsReport, IntendedItemsReport, AllAccepted, Quiet, ViewOf;
    ViewIsQuiet(x, g, p, v);
    ItemsReportExactly(ViewOf(x, g, p, v), cs, additional, v.items, ctx);
  }
}
