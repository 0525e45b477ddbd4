/** The order of the errors of a report: those inside a value come before what is said of the value. */
module ErrorOrder {
  import opened Wrappers
  import opened Json
  import opened Schemas
  import opened Keywords
  import opened Semantics
  import opened Reports
  import opened Locations

  /** The last error, if there is any, lies at that place, or blames one of its items. */
  ghost predicate EndsAt(errors: seq<Error>, ctx: Context) {
    errors != [] ==>
      var last := errors[|errors| - 1];
      last.context == ctx || (last.kind.ItemFailed? && last.context == ctx + [Index(last.kind.index)])
  }

  lemma JoinedEndsAt(a: seq<Error>, b: seq<Error>, ctx: Context)
    requires EndsAt(a, ctx) && EndsAt(b, ctx)
    ensures EndsAt(a + b, ctx)
  {
  }

  lemma AppliedEndsAt(o: View, q: Pointer, w: Value, inner: Context, outer: Context, kind: Kind, ctx: Context)
    requires Quiet(o) && WellFormed(w)
    requires outer == ctx || (kind.ItemFailed? && outer == ctx + [Index(kind.index)])
    ensures EndsAt(Applied(o, q, w, inner, outer, kind), ctx)
  {
    QuietExactly(o, q, w, inner, outer, kind);
    hide Quiet, WellFormed;
  }

  lemma {:induction false} AllOfEndsAt(o: View, cs: seq<Pointer>, j: nat, v: Value, ctx: Context)
    requires Quiet(o) && WellFormed(v) && j <= |cs|
    ensures EndsAt(AllOfFrom(o, cs, j, v, ctx), ctx)
    decreases |cs| - j
  {
    hide Quiet, WellFormed, Applied, EndsAt;
    NothingEnds(ctx);
    if j < |cs| {
      var here := Applied(o, cs[j], v, ctx, ctx, ChildFailed(j));
      AppliedEndsAt(o, cs[j], v, ctx, ctx, ChildFailed(j), ctx);
      AllOfEndsAt(o, cs, j + 1, v, ctx);
      JoinedEndsAt(here, if o.accepts(cs[j], v) then AllOfFrom(o, cs, j + 1, v, ctx) else [], ctx);
    }
  }

  lemma NothingEnds(ctx: Context)
    ensures EndsAt([], ctx)
    ensures forall kind :: EndsAt([Error(ctx, kind)], ctx)
  {
  }

  lemma PropertyDependenciesEndAt(ps: seq<Dependency>, v: Value, ctx: Context)
    requires v.Object?
    ensures EndsAt(PropertyDependenciesFrom(ps, 0, v, ctx), ctx)
  {
    var errors := PropertyDependenciesFrom(ps, 0, v, ctx);
    if errors != [] { InPropertyDependencies(ps, 0, v, ctx, errors[|errors| - 1]); }
  }

  lemma {:induction false} SchemaDependenciesEndAt(o: View, ss: seq<Named<Pointer>>, j: nat, v: Value, ctx: Context)
    requires Quiet(o) && WellFormed(v) && j <= |ss| && v.Object?
    ensures EndsAt(SchemaDependenciesFrom(o, ss, j, v, ctx), ctx)
    decreases |ss| - j
  {
    hide Quiet, WellFormed, Applied, EndsAt, Find;
    NothingEnds(ctx);
    if j < |ss| {
      AppliedEndsAt(o, ss[j].child, v, ctx, ctx, DependentSchemaFailed, ctx);
      SchemaDependenciesEndAt(o, ss, j + 1, v, ctx);
      JoinedEndsAt(if Find(v.members, ss[j].name).Some?
                   then Applied(o, ss[j].child, v, ctx, ctx, DependentSchemaFailed) else [],
                   SchemaDependenciesFrom(o, ss, j + 1, v, ctx), ctx);
    }
  }

  lemma {:induction false} SingularEndsAt(o: View, s: Pointer, items: seq<Value>, j: nat, ctx: Context)
    requires Quiet(o) && (forall w <- items :: WellFormed(w)) && j <= |items|
    ensures EndsAt(SingularFrom(o, s, items, j, ctx), ctx)
    decreases |items| - j
  {
    hide Quiet, WellFormed, Applied, EndsAt;
    NothingEnds(ctx);
    if j < |items| {
      AppliedEndsAt(o, s, items[j], ctx + [Index(j)], ctx, SingularItemFailed(j), ctx);
      SingularEndsAt(o, s, items, j + 1, ctx);
      JoinedEndsAt(Applied(o, s, items[j], ctx + [Index(j)], ctx, SingularItemFailed(j)),
                   SingularFrom(o, s, items, j + 1, ctx), ctx);
    }
  }

  lemma {:induction false} ItemsEndAt(o: View, cs: seq<Pointer>, items: seq<Value>, j: nat, ctx: Context)
    requires Quiet(o) && (forall w <- items :: WellFormed(w)) && j <= |cs|
    ensures EndsAt(ItemsFrom(o, cs, items, j, ctx), ctx)
    decreases |cs| - j
  {
    hide Quiet, WellFormed, Applied, EndsAt;
    NothingEnds(ctx);
    if j < |cs| && j < |items| {
      AppliedEndsAt(o, cs[j], items[j], ctx + [Index(j)], ctx + [Index(j)], ItemFailed(j), ctx);
      ItemsEndAt(o, cs, items, j + 1, ctx);
      JoinedEndsAt(Applied(o, cs[j], items[j], ctx + [Index(j)], ctx + [Index(j)], ItemFailed(j)),
                   ItemsFrom(o, cs, items, j + 1, ctx), ctx);
    }
  }

  lemma {:induction false} AdditionalEndsAt(o: View, s: Pointer, items: seq<Value>, j: nat, ctx: Context)
    requires Quiet(o) && (forall w <- items :: WellFormed(w)) && j <= |items|
    ensures EndsAt(AdditionalFrom(o, s, items, j, ctx), ctx)
    decreases |items| - j
  {
    hide Quiet, WellFormed, Applied, EndsAt;
    NothingEnds(ctx);
    if j < |items| {
      AppliedEndsAt(o, s, items[j], ctx + [Index(j)], ctx, AdditionalItemFailed(j), ctx);
      AdditionalEndsAt(o, s, items, j + 1, ctx);
      JoinedEndsAt(Applied(o, s, items[j], ctx + [Index(j)], ctx, AdditionalItemFailed(j)),
                   AdditionalFrom(o, s, items, j + 1, ctx), ctx);
    }
  }

  lemma LinearEndsAt(o: View, cs: seq<Pointer>, additional: Option<Pointer>, items: seq<Value>, ctx: Context)
    requires Quiet(o) && (forall w <- items :: WellFormed(w))
    ensures EndsAt(LinearItemsReport(o, cs, additional, items, ctx), ctx)
  {
    hide Quiet, WellFormed, EndsAt, ItemsFrom, AdditionalFrom, CountAccepted;
    var start := CountAccepted(o, cs, items, Min(|cs|, |items|));
    NothingEnds(ctx);
    ItemsEndAt(o, cs, items, 0, ctx);
    JoinedEndsAt(if cs != [] && additional.None? && |items| > |cs| then [Error(ctx, TooManyItems)] else [],
                 ItemsFrom(o, cs, items, 0, ctx), ctx);
    if additional.Some? { AdditionalEndsAt(o, additional.value, items, start, ctx); }
    JoinedEndsAt(FirstItemsReport(o, cs, additional, items, ctx),
                 LaterItemsReport(o, additional, items, start, ctx), ctx);
  }

  lemma {:induction false} NamedEndsAt(o: View, named: seq<Named<Pointer>>, j: nat, members: seq<Member>, ctx: Context)
    requires Quiet(o) && (forall m <- members :: WellFormed(m.value)) && j <= |named|
    ensures EndsAt(NamedFrom(o, named, j, members, ctx), ctx)
    decreases |named| - j
  {
    hide Quiet, WellFormed, Applied, EndsAt;
    NothingEnds(ctx);
    if j < |named| {
      var n, found := named[j], Find(members, named[j].name);
      NamedEndsAt(o, named, j + 1, members, ctx);
      if found.Some? {
        assert Member(n.name, found.value) in members;
        AppliedEndsAt(o, n.child, found.value, ctx + [Name(n.name)], ctx, PropertyFailed(n.name), ctx);
        JoinedEndsAt(Applied(o, n.child, found.value, ctx + [Name(n.name)], ctx, PropertyFailed(n.name)),
                     NamedFrom(o, named, j + 1, members, ctx), ctx);
      } else {
        JoinedEndsAt([], NamedFrom(o, named, j + 1, members, ctx), ctx);
      }
    }
  }

  lemma {:induction false} PatternEndsAt(x: Externals, o: View, pattern: Named<Pointer>, members: seq<Member>, j: nat,
                                         ctx: Context)
    requires Quiet(o) && (forall m <- members :: WellFormed(m.value)) && j <= |members|
    ensures EndsAt(PatternPass(x, o, pattern, members, j, ctx).errors, ctx)
    decreases |members| - j
  {
    hide Quiet, WellFormed, Applied, EndsAt;
    NothingEnds(ctx);
    if j < |members| {
      var m := members[j];
      PatternEndsAt(x, o, pattern, members, j + 1, ctx);
      AppliedEndsAt(o, pattern.child, m.value, ctx + [Name(m.key)], ctx, PatternFailed(pattern.name), ctx);
      JoinedEndsAt(Applied(o, pattern.child, m.value, ctx + [Name(m.key)], ctx, PatternFailed(pattern.name)),
                   PatternPass(x, o, pattern, members, j + 1, ctx).errors, ctx);
    }
  }

  lemma {:induction false} PatternsEndAt(x: Externals, o: View, patterns: seq<Named<Pointer>>, k: nat,
                                         members: seq<Member>, ctx: Context)
    requires Quiet(o) && (forall m <- members :: WellFormed(m.value)) && k <= |patterns|
    ensures EndsAt(PatternsPass(x, o, patterns, k, members, ctx).errors, ctx)
    decreases |patterns| - k
  {
    hide Quiet, WellFormed, PatternPass, EndsAt;
    NothingEnds(ctx);
    if k < |patterns| {
      PatternEndsAt(x, o, patterns[k], members, 0, ctx);
      PatternsEndAt(x, o, patterns, k + 1, members, ctx);
      JoinedEndsAt(PatternPass(x, o, patterns[k], members, 0, ctx).errors,
                   PatternsPass(x, o, patterns, k + 1, members, ctx).errors, ctx);
    }
  }

  lemma {:induction false} AdditionalMembersEndAt(o: View, s: Pointer, matched: set<string>, members: seq<Member>,
                                                  j: nat, ctx: Context)
    requires Quiet(o) && (forall m <- members :: WellFormed(m.value)) && j <= |members|
    ensures EndsAt(AdditionalMembersFrom(o, s, matched, members, j, ctx), ctx)
    decreases |members| - j
  {
    hide Quiet, WellFormed, Applied, EndsAt;
    NothingEnds(ctx);
    if j < |members| {
      var m := members[j];
      AppliedEndsAt(o, s, m.value, ctx + [Name(m.key)], ctx, AdditionalPropertyFailed, ctx);
      AdditionalMembersEndAt(o, s, matched, members, j + 1, ctx);
      JoinedEndsAt(if m.key in matched then []
                   else Applied(o, s, m.value, ctx + [Name(m.key)], ctx, AdditionalPropertyFailed),
                   AdditionalMembersFrom(o, s, matched, members, j + 1, ctx), ctx);
    }
  }

  lemma PropertiesEndAt(x: Externals, o: View, c: Constraint<Pointer>, members: seq<Member>, ctx: Context)
    requires c.Properties? && Quiet(o) && forall m <- members :: WellFormed(m.value)
    ensures EndsAt(PropertiesReport(x, o, c.named, c.patterns, c.additional, members, ctx), ctx)
  {
    hide Quiet, WellFormed, EndsAt, NamedFrom, PatternsPass, AdditionalMembersFrom, NamesPresent;
    NothingEnds(ctx);
    var pass := PatternsPass(x, o, c.patterns, 0, members, ctx);
    var matched := NamesPresent(c.named, |c.named|, members) + pass.matched;
    NamedEndsAt(o, c.named, 0, members, ctx);
    PatternsEndAt(x, o, c.patterns, 0, members, ctx);
    if c.additional.Some? { AdditionalMembersEndAt(o, c.additional.value, matched, members, 0, ctx); }
    JoinedEndsAt(NamedFrom(o, c.named, 0, members, ctx), pass.errors, ctx);
    JoinedEndsAt(NamedFrom(o, c.named, 0, members, ctx) + pass.errors,
                 RestReport(o, c.additional, matched, members, ctx), ctx);
  }

  lemma FlatEndsAt(x: Externals, f: Flat, v: Value, ctx: Context)
    ensures EndsAt(FlatReport(x, f, v, ctx), ctx)
  {
    var errors := FlatReport(x, f, v, ctx);
    if errors != [] { FlatSaid(x, f, v, ctx, errors[|errors| - 1]); }
  }

  lemma ConstraintEndsAt(x: Externals, c: Constraint<Pointer>, v: Value, ctx: Context, o: View)
    requires Quiet(o) && WellFormed(v)
    ensures EndsAt(ConstraintReport(x, c, v, ctx, o), ctx)
  {
    hide Quiet, FlatReport, AllOfFrom, ChildrenFrom, SingularFrom, LinearItemsReport, PropertiesReport,
      PropertyDependenciesFrom, SchemaDependenciesFrom, Holds;
    match c
    case AllOf(cs) => AllOfEndsAt(o, cs, 0, v, ctx);
    case Dependencies(ps, ss) =>
      if v.Object? {
        PropertyDependenciesEndAt(ps, v, ctx);
        SchemaDependenciesEndAt(o, ss, 0, v, ctx);
        JoinedEndsAt(PropertyDependenciesFrom(ps, 0, v, ctx), SchemaDependenciesFrom(o, ss, 0, v, ctx), ctx);
      }
    case SingularItems(s) => if v.Array? { SingularEndsAt(o, s, v.items, 0, ctx); }
    case LinearItems(cs, additional) => if v.Array? { LinearEndsAt(o, cs, additional, v.items, ctx); }
    case Properties(_, _, _) => if v.Object? { PropertiesEndAt(x, o, c, v.members, ctx); }
    case Plain(f) => FlatEndsAt(x, f, v, ctx);
    case _ =>
  }

  lemma {:induction false} ConstraintsEndAt(x: Externals, cs: seq<Constraint<Pointer>>, j: nat, v: Value, ctx: Context,
                                            o: View)
    requires Quiet(o) && WellFormed(v) && j <= |cs|
    ensures EndsAt(ConstraintsFrom(x, cs, j, v, ctx, o), ctx)
    decreases |cs| - j
  {
    hide Quiet, WellFormed, EndsAt, ConstraintReport, Holds;
    NothingEnds(ctx);
    if j < |cs| {
      ConstraintEndsAt(x, cs[j], v, ctx, o);
      ConstraintsEndAt(x, cs, j + 1, v, ctx, o);
      JoinedEndsAt(ConstraintReport(x, cs[j], v, ctx, o),
                   if Holds(x, cs[j], v, o.accepts) then ConstraintsFrom(x, cs, j + 1, v, ctx, o) else [], ctx);
    }
  }

  /** What went wrong further inside is reported before what it made fail here: the last error of a
      report is about the value itself, or blames one of its items. */
  lemma SummaryComesLast(x: Externals, g: Graph, p: Pointer, v: Value, ctx: Context)
    requires GraphGuarded(g) && p < |g| && WellFormed(v)
    ensures EndsAt(Report(x, g, p, v, ctx), ctx)
  {
    hide Quiet, WellFormed, EndsAt, ConstraintsFrom, GraphGuarded;
    NothingEnds(ctx);
    ViewIsQuiet(x, g, p, v);
    ConstraintsEndAt(x, g[p].constraints, 0, v, ctx, ViewOf(x, g, p, v));
  }
}
