/** When a rejection says why: which failing constraints leave no error behind. */
module Rejections {
  import opened Wrappers
  import opened Json
  import opened Schemas
  import opened Keywords
  import opened Semantics
  import opened Reports

  lemma {:induction false} LoudAllOf(o: View, cs: seq<Pointer>, j: nat, v: Value, ctx: Context, k: nat)
    requires j <= k < |cs| && !o.accepts(cs[k], v)
    ensures AllOfFrom(o, cs, j, v, ctx) != []
    decreases |cs| - j
  {
    if j < k { LoudAllOf(o, cs, j + 1, v, ctx, k); }
  }

  lemma {:induction false} LoudMissing(needs: seq<string>, j: nat, v: Value, ctx: Context, dependency: bool, k: nat)
    requires v.Object? && j <= k < |needs| && Find(v.members, needs[k]).None?
    ensures MissingFrom(needs, j, v, ctx, dependency) != []
    decreases |needs| - j
  {
    if j < k { LoudMissing(needs, j + 1, v, ctx, dependency, k); }
  }

  lemma {:induction false} LoudPropertyDependencies(ps: seq<Dependency>, j: nat, v: Value, ctx: Context, k: nat, i: nat)
    requires v.Object? && j <= k < |ps| && Find(v.members, ps[k].name).Some?
    requires i < |ps[k].needs| && Find(v.members, ps[k].needs[i]).None?
    ensures PropertyDependenciesFrom(ps, j, v, ctx) != []
    decreases |ps| - j
  {
    if j < k {
      LoudPropertyDependencies(ps, j + 1, v, ctx, k, i);
    } else {
      LoudMissing(ps[k].needs, 0, v, ctx, true, i);
    }
  }

  lemma {:induction false} LoudSchemaDependencies(o: View, ss: seq<Named<Pointer>>, j: nat, v: Value, ctx: Context,
                                                  k: nat)
    requires v.Object? && j <= k < |ss| && Find(v.members, ss[k].name).Some? && !o.accepts(ss[k].child, v)
    ensures SchemaDependenciesFrom(o, ss, j, v, ctx) != []
    decreases |ss| - j
  {
    if j < k { LoudSchemaDependencies(o, ss, j + 1, v, ctx, k); }
  }

  lemma {:induction false} LoudSingular(o: View, s: Pointer, items: seq<Value>, j: nat, ctx: Context, k: nat)
    requires j <= k < |items| && !o.accepts(s, items[k])
    ensures SingularFrom(o, s, items, j, ctx) != []
    decreases |items| - j
  {
    if j < k { LoudSingular(o, s, items, j + 1, ctx, k); }
  }

  lemma {:induction false} LoudItems(o: View, cs: seq<Pointer>, items: seq<Value>, j: nat, ctx: Context, k: nat)
    requires j <= k < |cs| && k < |items| && !o.accepts(cs[k], items[k])
    ensures ItemsFrom(o, cs, items, j, ctx) != []
    decreases |cs| - j
  {
    if j < k { LoudItems(o, cs, items, j + 1, ctx, k); }
  }

  lemma {:induction false} LoudAdditional(o: View, s: Pointer, items: seq<Value>, j: nat, ctx: Context, k: nat)
    requires j <= k < |items| && !o.accepts(s, items[k])
    ensures AdditionalFrom(o, s, items, j, ctx) != []
    decreases |items| - j
  {
    if j < k { LoudAdditional(o, s, items, j + 1, ctx, k); }
  }

  /** An item that fails either is among the first, or leaves the count of accepted items right. */
  lemma LoudLinearItems(o: View, cs: seq<Pointer>, additional: Option<Pointer>, items: seq<Value>, ctx: Context, k: nat)
    requires k < |items| && !ItemHolds(cs, additional, k, items[k], o.accepts)
    ensures LinearItemsReport(o, cs, additional, items, ctx) != []
  {
    var m := Min(|cs|, |items|);
    if CountAccepted(o, cs, items, m) < m {
      var i :| 0 <= i < m && !o.accepts(cs[i], items[i]);
      LoudItems(o, cs, items, 0, ctx, i);
    } else if additional.Some? {
      LoudAdditional(o, additional.value, items, m, ctx, k);
    }
  }

  lemma {:induction false} LoudNamed(o: View, named: seq<Named<Pointer>>, j: nat, members: seq<Member>, ctx: Context,
                                     k: nat)
    requires j <= k < |named| && !NamedAccepts(o, named[k], members)
    ensures NamedFrom(o, named, j, members, ctx) != []
    decreases |named| - j
  {
    if j < k { LoudNamed(o, named, j + 1, members, ctx, k); }
  }

  lemma {:induction false} LoudPattern(x: Externals, o: View, pattern: Named<Pointer>, members: seq<Member>, j: nat,
                                       ctx: Context)
    requires j <= |members| && PatternPass(x, o, pattern, members, j, ctx).stopped
    ensures PatternPass(x, o, pattern, members, j, ctx).errors != []
    decreases |members| - j
  {
    if j < |members| && !PatternFails(x, o, pattern, members[j]) { LoudPattern(x, o, pattern, members, j + 1, ctx); }
  }

  lemma {:induction false} LoudPatterns(x: Externals, o: View, patterns: seq<Named<Pointer>>, k: nat,
                                        members: seq<Member>, ctx: Context)
    requires k <= |patterns| && PatternsPass(x, o, patterns, k, members, ctx).stopped
    ensures PatternsPass(x, o, patterns, k, members, ctx).errors != []
    decreases |patterns| - k
  {
    if k < |patterns| {
      if PatternPass(x, o, patterns[k], members, 0, ctx).stopped {
        LoudPattern(x, o, patterns[k], members, 0, ctx);
      } else {
        LoudPatterns(x, o, patterns, k + 1, members, ctx);
      }
    }
  }

  lemma {:induction false} LoudAdditionalMembers(o: View, s: Pointer, matched: set<string>, members: seq<Member>,
                                                 j: nat, ctx: Context, k: nat)
    requires j <= k < |members| && members[k].key !in matched && !o.accepts(s, members[k].value)
    ensures AdditionalMembersFrom(o, s, matched, members, j, ctx) != []
    decreases |members| - j
  {
    if j < k { LoudAdditionalMembers(o, s, matched, members, j + 1, ctx, k); }
  }

  /** A failing property check fails in one of its phases, and each phase reports its failure. */
  lemma LoudProperties(x: Externals, o: View, named: seq<Named<Pointer>>, patterns: seq<Named<Pointer>>,
                       additional: Option<Pointer>, members: seq<Member>, ctx: Context)
    requires DistinctKeys(members)
    requires !forall m <- members :: MemberHolds(x, named, patterns, additional, m, o.accepts)
    ensures PropertiesReport(x, o, named, patterns, additional, members, ctx) != []
  {
    hide MemberHolds;
    var pass := PatternsPass(x, o, patterns, 0, members, ctx);
    var matched := NamesPresent(named, |named|, members) + pass.matched;
    ThreePhases(x, o, named, patterns, additional, members, ctx);
    if !NamedAccept(o, named, |named|, members) {
      var k :| 0 <= k < |named| && !NamedAccepts(o, named[k], members);
      LoudNamed(o, named, 0, members, ctx, k);
    } else if pass.stopped {
      LoudPatterns(x, o, patterns, 0, members, ctx);
    } else if additional.Some? {
      var k :| 0 <= k < |members| && members[k].key !in matched && !o.accepts(additional.value, members[k].value);
      LoudAdditionalMembers(o, additional.value, matched, members, 0, ctx, k);
    }
  }

  lemma {:induction false} LoudDuplicatesOf(items: seq<Value>, i: nat, j: nat, ctx: Context, k: nat)
    requires i < j <= k < |items| && EqualTo(items[i], items[k])
    ensures DuplicatesOf(items, i, j, ctx) != []
    decreases |items| - j
  {
    if j < k { LoudDuplicatesOf(items, i, j + 1, ctx, k); }
  }

  lemma {:induction false} LoudDuplicates(items: seq<Value>, i: nat, ctx: Context, j: nat, k: nat)
    requires i <= j < k < |items| && EqualTo(items[j], items[k])
    ensures DuplicatesFrom(items, i, ctx) != []
    decreases |items| - i
  {
    if i < j {
      LoudDuplicates(items, i + 1, ctx, j, k);
    } else {
      LoudDuplicatesOf(items, i, i + 1, ctx, k);
    }
  }

  lemma LoudFlat(x: Externals, f: Flat, v: Value, ctx: Context)
    requires !FlatHolds(x, f, v)
    ensures FlatReport(x, f, v, ctx) != []
  {
    match f
    case Required(names) =>
      var k :| 0 <= k < |names| && Find(v.members, names[k]).None?;
      LoudMissing(names, 0, v, ctx, false, k);
    case UniqueItems =>
      var j, k :| 0 <= j < k < |v.items| && EqualTo(v.items[j], v.items[k]);
      LoudDuplicates(v.items, 0, ctx, j, k);
    case _ =>
  }

  lemma LoudDependencies(x: Externals, c: Constraint<Pointer>, v: Value, ctx: Context, o: View)
    requires c.Dependencies? && !Holds(x, c, v, o.accepts)
    ensures ConstraintReport(x, c, v, ctx, o) != []
  {
    var ps, ss := c.properties, c.schemas;
    if k :| 0 <= k < |ss| && Find(v.members, ss[k].name).Some? && !o.accepts(ss[k].child, v) {
      LoudSchemaDependencies(o, ss, 0, v, ctx, k);
    } else {
      var k, i :| 0 <= k < |ps| && Find(v.members, ps[k].name).Some? &&
                  0 <= i < |ps[k].needs| && Find(v.members, ps[k].needs[i]).None?;
      LoudPropertyDependencies(ps, 0, v, ctx, k, i);
    }
  }

  /** Every constraint but `propertyNames` reports its failure. */
  lemma LoudConstraint(x: Externals, c: Constraint<Pointer>, v: Value, ctx: Context, o: View)
    requires WellFormed(v) && !Holds(x, c, v, o.accepts)
    ensures ConstraintReport(x, c, v, ctx, o) == [] <==> c.PropertyNames?
  {
    match c
    case AllOf(cs) =>
      var k :| 0 <= k < |cs| && !o.accepts(cs[k], v);
      LoudAllOf(o, cs, 0, v, ctx, k);
    case Dependencies(_, _) => LoudDependencies(x, c, v, ctx, o);
    case SingularItems(s) =>
      var k :| 0 <= k < |v.items| && !o.accepts(s, v.items[k]);
      LoudSingular(o, s, v.items, 0, ctx, k);
    case LinearItems(cs, additional) =>
      var k :| 0 <= k < |v.items| && !ItemHolds(cs, additional, k, v.items[k], o.accepts);
      LoudLinearItems(o, cs, additional, v.items, ctx, k);
    case Properties(named, patterns, additional) => LoudProperties(x, o, named, patterns, additional, v.members, ctx);
    case Plain(f) => LoudFlat(x, f, v, ctx);
    case _ =>
  }

  /** Constraint i is the first that fails. */
  ghost predicate FirstFailing(x: Externals, cs: seq<Constraint<Pointer>>, v: Value, o: View, i: nat) {
    && i < |cs| && !Holds(x, cs[i], v, o.accepts)
    && forall k :: 0 <= k < i ==> Holds(x, cs[k], v, o.accepts)
  }

  lemma {:induction false} LoudConstraints(x: Externals, cs: seq<Constraint<Pointer>>, j: nat, v: Value, ctx: Context,
                                           o: View, i: nat)
    requires Quiet(o) && WellFormed(v) && FirstFailing(x, cs, v, o, i) && j <= i
    ensures ConstraintsFrom(x, cs, j, v, ctx, o) == [] <==> cs[i].PropertyNames?
    decreases i - j
  {
    hide Holds, ConstraintReport, Quiet, WellFormed;
    if j < i {
      QuietConstraint(x, cs[j], v, ctx, o);
      LoudConstraints(x, cs, j + 1, v, ctx, o, i);
    } else {
      LoudConstraint(x, cs[j], v, ctx, o);
    }
  }

  /** A rejection leaves the error queue untouched exactly when the schema is `false`, or the first
      constraint that fails is `propertyNames`. */
  lemma RejectedSilently(x: Externals, g: Graph, p: Pointer, v: Value, ctx: Context)
    requires GraphGuarded(g) && p < |g| && WellFormed(v) && !Accepts(x, g, p, v)
    ensures Report(x, g, p, v, ctx) == [] <==>
      g[p].alwaysInvalid ||
      exists i: nat :: FirstFailing(x, g[p].constraints, v, ViewOf(x, g, p, v), i) && g[p].constraints[i].PropertyNames?
  {
    hide Holds, ConstraintReport, WellFormed, ConstraintsFrom;
    var o, cs := ViewOf(x, g, p, v), g[p].constraints;
    if !g[p].alwaysInvalid {
      forall q, w, inner | WellFormed(w) && o.accepts(q, w) ensures o.report(q, w, inner) == [] {
        AcceptedSilently(x, g, q, w, inner);
      }
      var i := FirstOf(x, cs, v, o);
      LoudConstraints(x, cs, 0, v, ctx, o, i);
      forall k: nat | FirstFailing(x, cs, v, o, k) ensures k == i {
        OnlyFirst(x, cs, v, o, i, k);
      }
    }
  }

  lemma OnlyFirst(x: Externals, cs: seq<Constraint<Pointer>>, v: Value, o: View, i: nat, k: nat)
    requires FirstFailing(x, cs, v, o, i) && FirstFailing(x, cs, v, o, k)
    ensures i == k
  {
    hide Holds;
  }

  lemma FirstOf(x: Externals, cs: seq<Constraint<Pointer>>, v: Value, o: View) returns (i: nat)
    requires exists c <- cs :: !Holds(x, c, v, o.accepts)
    ensures FirstFailing(x, cs, v, o, i)
  {
    hide Holds;
    i := 0;
    while Holds(x, cs[i], v, o.accepts)
      decreases |cs| - i
      invariant i < |cs| && exists k :: i <= k < |cs| && !Holds(x, cs[k], v, o.accepts)
      invariant forall k :: 0 <= k < i ==> Holds(x, cs[k], v, o.accepts)
    {
      i := i + 1;
    }
  }
}
