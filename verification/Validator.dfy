/** The validation visitor: one object per value and context, recursing through the graph of
    subschemas.  Without a results queue it stops as early as it can; with one it collects errors. */
module Validator {
  import opened Wrappers
  import opened Json
  import opened Schemas
  import opened Keywords
  import opened Semantics
  import opened Reports

  /** `ValidationResults`: a queue of errors. */
  class ValidationResults {
    var errors: seq<Error>

    constructor ()
      ensures errors == []
    {
      errors := [];
    }

    method PushError(e: Error)
      modifies this
      ensures errors == old(errors) + [e]
    {
      errors := errors + [e];
    }

    method PopError() returns (r: Option<Error>)
      modifies this
      ensures old(errors) == [] ==> r.None? && errors == []
      ensures old(errors) != [] ==> r == Some(old(errors)[0]) && errors == old(errors)[1..]
    {
      if errors == [] { return None; }
      r := Some(errors[0]);
      errors := errors[1..];
    }
  }

  /** Moves everything, in order, to the back of the parent queue. */
  method Drain(child: ValidationResults, parent: ValidationResults)
    requires child != parent
    modifies child, parent
    ensures child.errors == []
    ensures parent.errors == old(parent.errors) + old(child.errors)
  {
    var e := child.PopError();
    while e.Some?
      invariant e.Some? ==> parent.errors + [e.value] + child.errors == old(parent.errors) + old(child.errors)
      invariant e.None? ==> child.errors == [] && parent.errors == old(parent.errors) + old(child.errors)
      decreases |child.errors|, e.Some?
    {
      parent.PushError(e.value);
      ghost var rest := child.errors;
      e := child.PopError();
      if e.Some? {
        assert rest == [e.value] + child.errors;
      }
    }
  }

  lemma Associate<T>(a: seq<T>, b: seq<T>, c: seq<T>)
    ensures (a + b) + c == a + (b + c)
  {
  }

  /** The view of p agrees with the verdicts and reports of its subschemas, which come before p. */
  lemma ChildOf(x: Externals, g: Graph, p: Pointer, c: Constraint<Pointer>, v: Value, q: Pointer, w: Value)
    requires GraphGuarded(g) && p < |g| && c in g[p].constraints
    requires (q in InPlace(c) && w == v) || (q in Inside(c) && Size(w) < Size(v))
    ensures q < |g| && (Size(w) < Size(v) || (w == v && GraphRankOf(g)[q] < GraphRankOf(g)[p]))
    ensures ViewOf(x, g, p, v).accepts(q, w) == Accepts(x, g, q, w)
    ensures forall ctx :: ViewOf(x, g, p, v).report(q, w, ctx) == Report(x, g, q, w, ctx)
  {
    assert SubschemaRanked(g, GraphRankOf(g), p);
  }

  class ValidationVisitor {
    const x: Externals
    const g: Graph
    const target: Value
    const context: Context
    const results: ValidationResults?

    constructor (x: Externals, g: Graph, target: Value, context: Context, results: ValidationResults?)
      ensures this.x == x && this.g == g && this.target == target && this.context == context && this.results == results
    {
      this.x := x;
      this.g := g;
      this.target := target;
      this.context := context;
      this.results := results;
    }

    ghost predicate Ready(p: Pointer) {
      GraphGuarded(g) && p < |g| && WellFormed(target)
    }

    ghost predicate ReadyFor(p: Pointer, c: Constraint<Pointer>) {
      Ready(p) && c in g[p].constraints
    }

    ghost function Mine(p: Pointer): View
      requires Ready(p)
    {
      ViewOf(x, g, p, target)
    }

    /** The parent queue; nothing in fail-fast mode. */
    ghost function Queue(): seq<Error>
      reads results
    {
      if results == null then [] else results.errors
    }

    method Push(kind: Kind)
      modifies results
      ensures results != null ==> Queue() == old(Queue()) + [Error(context, kind)]
    {
      if results != null { results.PushError(Error(context, kind)); }
    }

    /** In both modes the verdict is the same; in collecting mode exactly the report is pushed. */
    method ValidateSchema(p: Pointer) returns (ok: bool)
      requires Ready(p)
      modifies results
      ensures ok == Accepts(x, g, p, target)
      ensures results != null ==> Queue() == old(Queue()) + Report(x, g, p, target, context)
      decreases Size(target), GraphRankOf(g)[p], 8
    {
      if g[p].alwaysInvalid { return false; }
      if results == null {
        ok := ApplyStrict(p);
      } else {
        ok := Apply(p);
      }
    }

    ghost predicate AllHold(p: Pointer, n: nat)
      requires Ready(p) && n <= |g[p].constraints|
    {
      forall k :: 0 <= k < n ==> Holds(x, g[p].constraints[k], target, Mine(p).accepts)
    }

    /** `applyStrict`: returns at the first constraint that fails. */
    method ApplyStrict(p: Pointer) returns (ok: bool)
      requires Ready(p) && results == null
      ensures ok == AllHold(p, |g[p].constraints|)
      decreases Size(target), GraphRankOf(g)[p], 7
    {
      for i := 0 to |g[p].constraints|
        invariant AllHold(p, i)
      {
        var valid := Visit(p, i);
        if !valid { return false; }
      }
      return true;
    }

    /** `apply`: goes over all constraints, but short-circuits after the first that fails. */
    method Apply(p: Pointer) returns (allTrue: bool)
      requires Ready(p) && results != null
      modifies results
      ensures allTrue == AllHold(p, |g[p].constraints|)
      ensures Queue() == old(Queue()) + ConstraintsFrom(x, g[p].constraints, 0, target, context, Mine(p))
      decreases Size(target), GraphRankOf(g)[p], 7
    {
      hide Holds, ConstraintReport;
      var cs := g[p].constraints;
      ghost var goal := Queue() + ConstraintsFrom(x, cs, 0, target, context, Mine(p));
      allTrue := true;
      for i := 0 to |cs|
        invariant allTrue == AllHold(p, i)
        invariant allTrue ==> goal == Queue() + ConstraintsFrom(x, cs, i, target, context, Mine(p))
        invariant !allTrue ==> goal == Queue()
      {
        if allTrue { allTrue := VisitNext(p, i); }
      }
    }

    /** One constraint of the list, seen from what the rest of the list will report. */
    method VisitNext(p: Pointer, i: nat) returns (ok: bool)
      requires Ready(p) && i < |g[p].constraints|
      modifies results
      ensures ok == Holds(x, g[p].constraints[i], target, Mine(p).accepts)
      ensures results != null ==>
        Queue() + (if ok then ConstraintsFrom(x, g[p].constraints, i + 1, target, context, Mine(p)) else [])
        == old(Queue()) + ConstraintsFrom(x, g[p].constraints, i, target, context, Mine(p))
      decreases Size(target), GraphRankOf(g)[p], 6
    {
      ghost var before := Queue();
      ok := Visit(p, i);
      Associate(before, ConstraintReport(x, g[p].constraints[i], target, context, Mine(p)),
        if ok then ConstraintsFrom(x, g[p].constraints, i + 1, target, context, Mine(p)) else []);
    }

    method Visit(p: Pointer, i: nat) returns (ok: bool)
      requires Ready(p) && i < |g[p].constraints|
      modifies results
      ensures ok == Holds(x, g[p].constraints[i], target, Mine(p).accepts)
      ensures results != null ==>
        Queue() == old(Queue()) + ConstraintReport(x, g[p].constraints[i], target, context, Mine(p))
      decreases Size(target), GraphRankOf(g)[p], 5
    {
      var c := g[p].constraints[i];
      match c
      case AllOf(cs) => ok := VisitAllOf(p, cs);
      case AnyOf(cs) => ok := VisitAnyOf(p, cs);
      case OneOf(cs) => ok := VisitOneOf(p, cs);
      case Not(s) => ok := VisitNot(p, s);
      case Conditional(ifChild, thenChild, elseChild) => ok := VisitConditional(p, ifChild, thenChild, elseChild);
      case Dependencies(ps, ss) => ok := VisitDependencies(p, ps, ss);
      case Contains(s) => ok := VisitContains(p, s);
      case SingularItems(s) => ok := VisitSingularItems(p, s);
      case LinearItems(cs, additional) => ok := VisitLinearItems(p, cs, additional);
      case Properties(named, patterns, additional) => ok := VisitProperties(p, named, patterns, additional);
      case PropertyNames(s) => ok := VisitPropertyNames(p, s);
      case Plain(f) => ok := VisitFlat(f);
    }

    /** Validates something inside the target without reporting. */
    method ProbeInside(p: Pointer, ghost c: Constraint<Pointer>, q: Pointer, w: Value) returns (ok: bool)
      requires ReadyFor(p, c) && q in Inside(c) && WellFormed(w) && Size(w) < Size(target)
      ensures ok == Mine(p).accepts(q, w)
      decreases Size(target), GraphRankOf(g)[p], 0
    {
      ChildOf(x, g, p, c, target, q, w);
      var v := new ValidationVisitor(x, g, w, context, null);
      ok := v.ValidateSchema(q);
    }

    /** Validates the target itself against another subschema with a queue of its own, if any. */
    method ValidateHere(p: Pointer, ghost c: Constraint<Pointer>, q: Pointer,
                        queue: ValidationResults?) returns (ok: bool)
      requires ReadyFor(p, c) && q in InPlace(c)
      modifies queue
      ensures ok == Mine(p).accepts(q, target)
      ensures queue != null ==> queue.errors == old(queue.errors) + Mine(p).report(q, target, context)
      decreases Size(target), GraphRankOf(g)[p], 0
    {
      ChildOf(x, g, p, c, target, q, target);
      var v := new ValidationVisitor(x, g, target, context, queue);
      ok := v.ValidateSchema(q);
    }

    /** Validates something inside the target, in the mode and with the queue of this visitor; a
        failure is followed by an error of the given kind. */
    method ApplyInside(p: Pointer, ghost c: Constraint<Pointer>, q: Pointer, w: Value, step: Step, outer: Context,
                       kind: Kind)
      returns (ok: bool)
      requires ReadyFor(p, c) && q in Inside(c) && WellFormed(w) && Size(w) < Size(target)
      modifies results
      ensures ok == Mine(p).accepts(q, w)
      ensures results != null ==> Queue() == old(Queue()) + Applied(Mine(p), q, w, context + [step], outer, kind)
      decreases Size(target), GraphRankOf(g)[p], 0
    {
      ChildOf(x, g, p, c, target, q, w);
      var v := new ValidationVisitor(x, g, w, context + [step], results);
      ghost var before := Queue();
      ok := v.ValidateSchema(q);
      if !ok && results != null {
        results.PushError(Error(outer, kind));
        Associate(before, Report(x, g, q, w, context + [step]), [Error(outer, kind)]);
      }
    }

    /** Validates the target against another subschema, followed by an error if it fails. */
    method ApplyHere(p: Pointer, ghost c: Constraint<Pointer>, q: Pointer, queue: ValidationResults?,
                     kind: Kind) returns (ok: bool)
      requires ReadyFor(p, c) && q in InPlace(c)
      modifies queue
      ensures ok == Mine(p).accepts(q, target)
      ensures queue != null ==> queue.errors == old(queue.errors) + Applied(Mine(p), q, target, context, context, kind)
      decreases Size(target), GraphRankOf(g)[p], 0
    {
      ChildOf(x, g, p, c, target, q, target);
      var v := new ValidationVisitor(x, g, target, context, queue);
      ghost var before := if queue == null then [] else queue.errors;
      ok := v.ValidateSchema(q);
      if !ok && queue != null {
        queue.PushError(Error(context, kind));
        Associate(before, Report(x, g, q, target, context), [Error(context, kind)]);
      }
    }

    // ---- Subschemas of the same value ----

    method VisitAllOf(p: Pointer, cs: seq<Pointer>) returns (ok: bool)
      requires ReadyFor(p, AllOf(cs))
      modifies results
      ensures ok == Holds(x, AllOf(cs), target, Mine(p).accepts)
      ensures results != null ==> Queue() == old(Queue()) + AllOfFrom(Mine(p), cs, 0, target, context)
      decreases Size(target), GraphRankOf(g)[p], 1
    {
      hide Applied, Mine, AllOfFrom, WellFormed, Size, GraphGuarded, GraphRankOf;
      ghost var o := Mine(p);
      ghost var goal := Queue() + AllOfFrom(o, cs, 0, target, context);
      var validated := true;
      for i := 0 to |cs|
        invariant forall k :: 0 <= k < i ==> o.accepts(cs[k], target)
        invariant validated
        invariant results != null ==> goal == Queue() + AllOfFrom(o, cs, i, target, context)
      {
        AllOfStep(o, cs, i, target, context, Queue());
        var valid := ApplyHere(p, AllOf(cs), cs[i], results, ChildFailed(i));
        if !valid {
          validated := false;
          return validated;
        }
      }
      AllOfStep(o, cs, |cs|, target, context, []);
      return validated;
    }

    /** The child queue of anyOf and oneOf, and how many children accepted.  `all` says whether the
        tries go on after a success. */
    method TryChildren(p: Pointer, ghost c: Constraint<Pointer>, cs: seq<Pointer>, all: bool, queue: ValidationResults?)
      returns (numValidated: nat)
      requires ReadyFor(p, c) && InPlace(c) == cs
      modifies queue
      ensures numValidated == 0 <==> NoneAccepts(Mine(p), cs, target)
      ensures all ==> (numValidated == 1 <==> exists k :: 0 <= k < |cs| && OnlyOne(cs, k, target, Mine(p).accepts))
      ensures queue != null && numValidated == 0 ==>
        queue.errors == old(queue.errors) + ChildrenFrom(Mine(p), cs, 0, target, context)
      decreases Size(target), GraphRankOf(g)[p], 1
    {
      hide Applied, Mine, ChildrenFrom, WellFormed, Size, GraphGuarded, GraphRankOf;
      ghost var o := Mine(p);
      ghost var goal := (if queue == null then [] else queue.errors) + ChildrenFrom(o, cs, 0, target, context);
      numValidated := 0;
      ghost var first, second := 0, 0;
      for i := 0 to |cs|
        invariant numValidated == 0 ==> forall k :: 0 <= k < i ==> !o.accepts(cs[k], target)
        invariant numValidated >= 1 ==> first < i && o.accepts(cs[first], target)
        invariant numValidated == 1 ==> forall k :: 0 <= k < i && k != first ==> !o.accepts(cs[k], target)
        invariant numValidated > 1 ==> first < second < i && o.accepts(cs[second], target)
        invariant queue != null && numValidated == 0 ==> goal == queue.errors + ChildrenFrom(o, cs, i, target, context)
      {
        ChildrenStep(o, cs, i, target, context, if queue == null then [] else queue.errors);
        var valid := ApplyHere(p, c, cs[i], queue, ChildFailed(i));
        if valid {
          if numValidated == 0 { first := i; } else { second := i; }
          numValidated := numValidated + 1;
          if !all { return; }
        }
      }
      ChildrenStep(o, cs, |cs|, target, context, []);
      if numValidated == 1 {
        assert OnlyOne(cs, first, target, o.accepts);
      }
    }

    method VisitAnyOf(p: Pointer, cs: seq<Pointer>) returns (ok: bool)
      requires ReadyFor(p, AnyOf(cs))
      modifies results
      ensures ok == Holds(x, AnyOf(cs), target, Mine(p).accepts)
      ensures results != null ==> Queue() == old(Queue()) + ConstraintReport(x, AnyOf(cs), target, context, Mine(p))
      decreases Size(target), GraphRankOf(g)[p], 3
    {
      var newResults := new ValidationResults();
      var childResults := if results != null then newResults else null;
      var numValidated := TryChildren(p, AnyOf(cs), cs, false, childResults);
      if numValidated == 0 && results != null {
        Drain(newResults, results);
        Push(NoneOfAny);
      }
      return numValidated > 0;
    }

    method VisitOneOf(p: Pointer, cs: seq<Pointer>) returns (ok: bool)
      requires ReadyFor(p, OneOf(cs))
      modifies results
      ensures ok == Holds(x, OneOf(cs), target, Mine(p).accepts)
      ensures results != null ==> Queue() == old(Queue()) + ConstraintReport(x, OneOf(cs), target, context, Mine(p))
      decreases Size(target), GraphRankOf(g)[p], 3
    {
      hide Mine, NoneAccepts, ChildrenFrom, OnlyOne, GraphGuarded, GraphRankOf;
      var newResults := new ValidationResults();
      var childResults := if results != null then newResults else null;
      var numValidated := TryChildren(p, OneOf(cs), cs, true, childResults);
      OneOfVerdict(p, cs, numValidated);
      if numValidated == 0 {
        if results != null {
          Drain(newResults, results);
          Push(NoneOfOne);
        }
        return false;
      } else if numValidated != 1 {
        Push(SeveralOfOne);
        return false;
      }
      return true;
    }

    lemma OneOfVerdict(p: Pointer, cs: seq<Pointer>, numValidated: nat)
      requires Ready(p)
      requires numValidated == 0 <==> NoneAccepts(Mine(p), cs, target)
      requires numValidated == 1 <==> exists k :: 0 <= k < |cs| && OnlyOne(cs, k, target, Mine(p).accepts)
      ensures numValidated == 1 <==> Holds(x, OneOf(cs), target, Mine(p).accepts)
    {
      hide Mine;
    }

    method VisitNot(p: Pointer, s: Pointer) returns (ok: bool)
      requires ReadyFor(p, Not(s))
      modifies results
      ensures ok == Holds(x, Not(s), target, Mine(p).accepts)
      ensures results != null ==> Queue() == old(Queue()) + ConstraintReport(x, Not(s), target, context, Mine(p))
      decreases Size(target), GraphRankOf(g)[p], 1
    {
      var valid := ValidateHere(p, Not(s), s, null);
      if valid {
        Push(NotFailed);
        return false;
      }
      return true;
    }

    method VisitConditional(p: Pointer, i: Pointer, t: Option<Pointer>, e: Option<Pointer>) returns (ok: bool)
      requires ReadyFor(p, Conditional(i, t, e))
      modifies results
      ensures ok == Holds(x, Conditional(i, t, e), target, Mine(p).accepts)
      ensures results != null ==>
        Queue() == old(Queue()) + ConstraintReport(x, Conditional(i, t, e), target, context, Mine(p))
      decreases Size(target), GraphRankOf(g)[p], 2
    {
      ghost var c := Conditional(i, t, e);
      assert InPlace(c) == [i] + Optionally(t) + Optionally(e);
      assert i in InPlace(c) && (t.Some? ==> t.value in InPlace(c)) && (e.Some? ==> e.value in InPlace(c));
      hide Mine, InPlace;
      var condition := ValidateHere(p, c, i, null);
      ok := VisitBranch(p, c, if condition then t else e);
    }

    /** A missing branch accepts everything; a failing one hands its own errors on, then one more. */
    method VisitBranch(p: Pointer, ghost c: Constraint<Pointer>, branch: Option<Pointer>) returns (validated: bool)
      requires ReadyFor(p, c) && (branch.Some? ==> branch.value in InPlace(c))
      modifies results
      ensures validated == (branch.None? || Mine(p).accepts(branch.value, target))
      ensures results != null && validated ==> Queue() == old(Queue())
      ensures results != null && !validated ==>
        Queue() == old(Queue()) + (Mine(p).report(branch.value, target, context) + [Error(context, ConditionalFailed)])
      decreases Size(target), GraphRankOf(g)[p], 1
    {
      hide Mine;
      if branch.None? { return true; }
      var newResults := new ValidationResults();
      var conditionalResults := if results != null then newResults else null;
      validated := ValidateHere(p, c, branch.value, conditionalResults);
      if !validated && results != null {
        Drain(newResults, results);
        Push(ConditionalFailed);
      }
    }

    method VisitDependencies(p: Pointer, ps: seq<Dependency>, ss: seq<Named<Pointer>>) returns (ok: bool)
      requires ReadyFor(p, Constraint.Dependencies(ps, ss))
      modifies results
      ensures ok == Holds(x, Constraint.Dependencies(ps, ss), target, Mine(p).accepts)
      ensures results != null ==>
        Queue() == old(Queue()) + ConstraintReport(x, Constraint.Dependencies(ps, ss), target, context, Mine(p))
      decreases Size(target), GraphRankOf(g)[p], 3
    {
      hide Mine, Find, PropertyDependenciesFrom, SchemaDependenciesFrom, PropertiesDepend, SchemasDepend, Holds,
           GraphGuarded, GraphRankOf, WellFormed;
      if !target.Object? {
        NoDependencies(p, ps, ss);
        return true;
      }
      ok := VisitObjectDependencies(p, ps, ss);
      DependenciesVerdict(p, ps, ss, ok);
    }

    lemma NoDependencies(p: Pointer, ps: seq<Dependency>, ss: seq<Named<Pointer>>)
      requires Ready(p) && !target.Object?
      ensures Holds(x, Constraint.Dependencies(ps, ss), target, Mine(p).accepts)
    {
    }

    ghost predicate PropertyDepends(d: Dependency)
      requires target.Object?
    {
      Find(target.members, d.name).Some? ==> forall n <- d.needs :: Find(target.members, n).Some?
    }

    ghost predicate PropertiesDepend(ps: seq<Dependency>)
      requires target.Object?
    {
      forall k :: 0 <= k < |ps| ==> PropertyDepends(ps[k])
    }

    ghost predicate SchemasDepend(p: Pointer, ss: seq<Named<Pointer>>)
      requires Ready(p) && target.Object?
    {
      forall k :: 0 <= k < |ss| && Find(target.members, ss[k].name).Some? ==> Mine(p).accepts(ss[k].child, target)
    }

    lemma DependenciesVerdict(p: Pointer, ps: seq<Dependency>, ss: seq<Named<Pointer>>, ok: bool)
      requires Ready(p) && target.Object? && ok == (PropertiesDepend(ps) && SchemasDepend(p, ss))
      ensures ok == Holds(x, Constraint.Dependencies(ps, ss), target, Mine(p).accepts)
    {
      hide Find, Mine;
      assert PropertiesDepend(ps) ==> forall d <- ps :: PropertyDepends(d);
    }

    method VisitObjectDependencies(p: Pointer, ps: seq<Dependency>, ss: seq<Named<Pointer>>) returns (ok: bool)
      requires ReadyFor(p, Constraint.Dependencies(ps, ss)) && target.Object?
      modifies results
      ensures ok == (PropertiesDepend(ps) && SchemasDepend(p, ss))
      ensures results != null ==>
        (Queue() ==
         old(Queue()) + (PropertyDependenciesFrom(ps, 0, target, context) + SchemaDependenciesFrom(Mine(p), ss, 0,
             target, context)))
      decreases Size(target), GraphRankOf(g)[p], 2
    {
      hide Mine, PropertiesDepend, SchemasDepend, Find, PropertyDependenciesFrom, SchemaDependenciesFrom,
           GraphGuarded, GraphRankOf;
      ghost var before := Queue();
      var validated := CheckPropertyDependencies(ps);
      if results == null && !validated { return false; }
      var schemasValid := CheckSchemaDependencies(p, ps, ss);
      Associate(before, PropertyDependenciesFrom(ps, 0, target, context),
                SchemaDependenciesFrom(Mine(p), ss, 0, target, context));
      return validated && schemasValid;
    }

    method CheckPropertyDependencies(ps: seq<Dependency>) returns (validated: bool)
      requires target.Object?
      modifies results
      ensures validated == PropertiesDepend(ps)
      ensures results != null ==> Queue() == old(Queue()) + PropertyDependenciesFrom(ps, 0, target, context)
    {
      hide Find, MissingFrom, PropertyDependenciesFrom, PropertyDepends;
      ghost var goal := Queue() + PropertyDependenciesFrom(ps, 0, target, context);
      validated := true;
      for i := 0 to |ps|
        invariant validated <==> forall k :: 0 <= k < i ==> PropertyDepends(ps[k])
        invariant results != null ==> goal == Queue() + PropertyDependenciesFrom(ps, i, target, context)
      {
        DependencyStep(ps, i, target, context, Queue());
        DependsOn(ps[i]);
        if Find(target.members, ps[i].name).Some? {
          var found := CheckPresent(ps[i].needs, true);
          if !found {
            validated := false;
            if results == null { return; }
          }
        }
      }
      DependencyStep(ps, |ps|, target, context, []);
    }

    lemma DependsOn(d: Dependency)
      requires target.Object?
      ensures PropertyDepends(d) <==>
        (Find(target.members, d.name).Some? ==> forall n <- d.needs :: Find(target.members, n).Some?)
    {
    }

    /** Each missing name is reported; without a queue the first one ends the search. */
    method CheckPresent(names: seq<string>, dependency: bool) returns (found: bool)
      requires target.Object?
      modifies results
      ensures found <==> forall n <- names :: Find(target.members, n).Some?
      ensures results != null ==> Queue() == old(Queue()) + MissingFrom(names, 0, target, context, dependency)
    {
      hide Find, MissingFrom;
      ghost var goal := Queue() + MissingFrom(names, 0, target, context, dependency);
      found := true;
      for i := 0 to |names|
        invariant found <==> forall k :: 0 <= k < i ==> Find(target.members, names[k]).Some?
        invariant results != null ==> goal == Queue() + MissingFrom(names, i, target, context, dependency)
      {
        MissingStep(names, i, target, context, dependency, Queue());
        if Find(target.members, names[i]).None? {
          found := false;
          if results == null {
            assert names[i] in names;
            return;
          }
          Push(if dependency then DependencyMissing(names[i]) else PropertyMissing(names[i]));
        }
      }
      MissingStep(names, |names|, target, context, dependency, []);
    }

    lemma DependencyInPlace(ps: seq<Dependency>, ss: seq<Named<Pointer>>, i: nat)
      requires i < |ss|
      ensures ss[i].child in InPlace(Constraint.Dependencies(ps, ss))
    {
      assert Children(ss)[i] == ss[i].child;
    }

    method CheckSchemaDependencies(p: Pointer, ghost ps: seq<Dependency>,
                                   ss: seq<Named<Pointer>>) returns (validated: bool)
      requires ReadyFor(p, Constraint.Dependencies(ps, ss)) && target.Object?
      modifies results
      ensures validated == SchemasDepend(p, ss)
      ensures results != null ==> Queue() == old(Queue()) + SchemaDependenciesFrom(Mine(p), ss, 0, target, context)
      decreases Size(target), GraphRankOf(g)[p], 1
    {
      hide Applied, Mine, Find, WellFormed, InPlace;
      ghost var o := Mine(p);
      ghost var goal := Queue() + SchemaDependenciesFrom(o, ss, 0, target, context);
      validated := true;
      for i := 0 to |ss|
        invariant validated <==> forall k :: 0 <= k < i && Find(target.members, ss[k].name).Some? ==>
          o.accepts(ss[k].child, target)
        invariant results != null ==> goal == Queue() + SchemaDependenciesFrom(o, ss, i, target, context)
      {
        if Find(target.members, ss[i].name).Some? {
          ghost var before := Queue();
          DependencyInPlace(ps, ss, i);
          var valid := ApplyHere(p, Constraint.Dependencies(ps, ss), ss[i].child, results, DependentSchemaFailed);
          if !valid {
            validated := false;
            if results == null { return; }
          }
          Associate(before, Applied(o, ss[i].child, target, context, context, DependentSchemaFailed),
                    SchemaDependenciesFrom(o, ss, i + 1, target, context));
        }
      }
    }

    // ---- Arrays ----

    method VisitContains(p: Pointer, s: Pointer) returns (ok: bool)
      requires ReadyFor(p, Contains(s))
      modifies results
      ensures ok == Holds(x, Contains(s), target, Mine(p).accepts)
      ensures results != null ==> Queue() == old(Queue()) + ConstraintReport(x, Contains(s), target, context, Mine(p))
      decreases Size(target), GraphRankOf(g)[p], 1
    {
      if !target.Array? { return true; }
      var validated := false;
      for i := 0 to |target.items|
        invariant !validated
        invariant forall k :: 0 <= k < i ==> !Mine(p).accepts(s, target.items[k])
        invariant Queue() == old(Queue())
      {
        validated := ProbeInside(p, Contains(s), s, target.items[i]);
        if validated { break; }
      }
      if !validated {
        Push(NothingContained);
        return false;
      }
      return validated;
    }

    method VisitSingularItems(p: Pointer, s: Pointer) returns (ok: bool)
      requires ReadyFor(p, SingularItems(s))
      modifies results
      ensures ok == Holds(x, SingularItems(s), target, Mine(p).accepts)
      ensures results != null ==>
        Queue() == old(Queue()) + ConstraintReport(x, SingularItems(s), target, context, Mine(p))
      decreases Size(target), GraphRankOf(g)[p], 2
    {
      if !target.Array? { return true; }
      ok := CheckSingularItems(p, s);
    }

    method CheckSingularItems(p: Pointer, s: Pointer) returns (validated: bool)
      requires ReadyFor(p, SingularItems(s)) && target.Array?
      modifies results
      ensures validated <==> forall k :: 0 <= k < |target.items| ==> Mine(p).accepts(s, target.items[k])
      ensures results != null ==> Queue() == old(Queue()) + SingularFrom(Mine(p), s, target.items, 0, context)
      decreases Size(target), GraphRankOf(g)[p], 1
    {
      hide Applied, Mine, SingularFrom, WellFormed, Size, GraphGuarded, GraphRankOf;
      ghost var o := Mine(p);
      var items := target.items;
      ghost var goal := Queue() + SingularFrom(o, s, items, 0, context);
      validated := true;
      for i := 0 to |items|
        invariant validated <==> forall k :: 0 <= k < i ==> o.accepts(s, items[k])
        invariant results != null ==> goal == Queue() + SingularFrom(o, s, items, i, context)
      {
        SingularStep(o, s, items, i, context, Queue());
        ItemIsSmaller(i);
        var valid := ApplyInside(p, SingularItems(s), s, items[i], Index(i), context, SingularItemFailed(i));
        if !valid {
          if results == null { return false; }
          validated := false;
        }
      }
      SingularStep(o, s, items, |items|, context, []);
    }

    method VisitLinearItems(p: Pointer, cs: seq<Pointer>, additional: Option<Pointer>) returns (ok: bool)
      requires ReadyFor(p, LinearItems(cs, additional))
      modifies results
      ensures ok == Holds(x, LinearItems(cs, additional), target, Mine(p).accepts)
      ensures results != null ==>
        Queue() == old(Queue()) + (if target.Array? then LinearItemsReport(Mine(p), cs, additional, target.items,
                                                                           context) else [])
      decreases Size(target), GraphRankOf(g)[p], 4
    {
      if !target.Array? { return true; }
      ok := VisitArrayItems(p, cs, additional);
    }

    method VisitArrayItems(p: Pointer, cs: seq<Pointer>, additional: Option<Pointer>) returns (ok: bool)
      requires ReadyFor(p, LinearItems(cs, additional)) && target.Array?
      modifies results
      ensures ok == Holds(x, LinearItems(cs, additional), target, Mine(p).accepts)
      ensures results != null ==>
        Queue() == old(Queue()) + LinearItemsReport(Mine(p), cs, additional, target.items, context)
      decreases Size(target), GraphRankOf(g)[p], 3
    {
      hide Holds, FirstItemsHold, LaterItemsHold, FirstItemsReport, LaterItemsReport;
      ghost var before := Queue();
      var numValidated, validated := CheckFirstItems(p, cs, additional);
      if results == null && !validated {
        LinearVerdict(p, cs, additional, 0, validated);
        return false;
      }
      var rest := CheckLaterItems(p, cs, additional, numValidated);
      LinearVerdict(p, cs, additional, numValidated, validated && rest);
      Associate(before, FirstItemsReport(Mine(p), cs, additional, target.items, context),
                LaterItemsReport(Mine(p), additional, target.items, numValidated, context));
      return validated && rest;
    }

    ghost predicate FirstItemsHold(p: Pointer, cs: seq<Pointer>, additional: Option<Pointer>)
      requires Ready(p) && target.Array?
    {
      && !(cs != [] && additional.None? && |target.items| > |cs|)
      && forall k :: 0 <= k < Min(|cs|, |target.items|) ==> Mine(p).accepts(cs[k], target.items[k])
    }

    ghost predicate LaterItemsHold(p: Pointer, additional: Option<Pointer>, start: nat)
      requires Ready(p) && target.Array?
    {
      start < |target.items| ==>
        && additional.Some?
        && forall k :: start <= k < |target.items| ==> Mine(p).accepts(additional.value, target.items[k])
    }

    method CheckFirstItems(p: Pointer, cs: seq<Pointer>, additional: Option<Pointer>)
      returns (numValidated: nat, validated: bool)
      requires ReadyFor(p, LinearItems(cs, additional)) && target.Array?
      modifies results
      ensures validated == FirstItemsHold(p, cs, additional)
      ensures results != null || validated ==>
        numValidated == CountAccepted(Mine(p), cs, target.items, Min(|cs|, |target.items|))
      ensures results != null ==>
        Queue() == old(Queue()) + FirstItemsReport(Mine(p), cs, additional, target.items, context)
      decreases Size(target), GraphRankOf(g)[p], 2
    {
      hide Mine;
      numValidated, validated := 0, true;
      if |cs| > 0 {
        ghost var before := Queue();
        if additional.None? && |target.items| > |cs| {
          if results == null { return 0, false; }
          Push(TooManyItems);
          validated := false;
        }
        ghost var middle := Queue();
        var valid;
        numValidated, valid := CheckItems(p, cs, additional);
        Associate(before, middle[|before|..], ItemsFrom(Mine(p), cs, target.items, 0, context));
        validated := validated && valid;
      }
    }

    method CheckLaterItems(p: Pointer, cs: seq<Pointer>, additional: Option<Pointer>,
                           start: nat) returns (validated: bool)
      requires ReadyFor(p, LinearItems(cs, additional)) && target.Array? && start <= |target.items|
      modifies results
      ensures validated == LaterItemsHold(p, additional, start)
      ensures results != null ==>
        Queue() == old(Queue()) + LaterItemsReport(Mine(p), additional, target.items, start, context)
      decreases Size(target), GraphRankOf(g)[p], 2
    {
      if start < |target.items| {
        if additional.Some? {
          validated := CheckAdditionalItems(p, cs, additional, start);
        } else {
          Push(ItemsNotCovered(start));
          validated := false;
        }
      } else {
        validated := true;
      }
    }

    /** Sound although the additional items may start too early: they only do when the verdict is
        already negative. */
    lemma LinearVerdict(p: Pointer, cs: seq<Pointer>, additional: Option<Pointer>, numValidated: nat, validated: bool)
      requires Ready(p) && target.Array?
      requires FirstItemsHold(p, cs, additional) ==>
        numValidated == CountAccepted(Mine(p), cs, target.items, Min(|cs|, |target.items|))
      requires validated == (FirstItemsHold(p, cs, additional) && LaterItemsHold(p, additional, numValidated))
      ensures validated == Holds(x, LinearItems(cs, additional), target, Mine(p).accepts)
    {
      hide Mine, CountAccepted;
      ghost var all := forall k :: 0 <= k < |target.items| ==>
        ItemHolds(cs, additional, k, target.items[k], Mine(p).accepts);
      if validated { ItemsHoldTogether(p, cs, additional, numValidated); }
      if all { ItemsHoldApart(p, cs, additional); }
    }

    lemma ItemsHoldTogether(p: Pointer, cs: seq<Pointer>, additional: Option<Pointer>, start: nat)
      requires Ready(p) && target.Array? && start <= Min(|cs|, |target.items|)
      requires FirstItemsHold(p, cs, additional) && LaterItemsHold(p, additional, start)
      ensures forall k :: 0 <= k < |target.items| ==> ItemHolds(cs, additional, k, target.items[k], Mine(p).accepts)
    {
      hide Mine;
    }

    lemma ItemsHoldApart(p: Pointer, cs: seq<Pointer>, additional: Option<Pointer>)
      requires Ready(p) && target.Array?
      requires forall k :: 0 <= k < |target.items| ==> ItemHolds(cs, additional, k, target.items[k], Mine(p).accepts)
      ensures FirstItemsHold(p, cs, additional)
      ensures LaterItemsHold(p, additional, Min(|cs|, |target.items|))
    {
      hide Mine;
      var items, accepts := target.items, Mine(p).accepts;
      forall k | 0 <= k < |items|
        ensures if k < |cs| then accepts(cs[k], items[k]) else additional.Some? && accepts(additional.value, items[k])
      {
        assert ItemHolds(cs, additional, k, items[k], accepts);
      }
      if |items| > |cs| { assert ItemHolds(cs, additional, |cs|, items[|cs|], accepts); }
    }

    method CheckItems(p: Pointer, cs: seq<Pointer>, ghost additional: Option<Pointer>)
      returns (numValidated: nat, validated: bool)
      requires ReadyFor(p, LinearItems(cs, additional)) && target.Array?
      modifies results
      ensures validated <==> forall k :: 0 <= k < Min(|cs|, |target.items|) ==> Mine(p).accepts(cs[k], target.items[k])
      ensures results != null || validated ==>
        numValidated == CountAccepted(Mine(p), cs, target.items, Min(|cs|, |target.items|))
      ensures results != null ==> Queue() == old(Queue()) + ItemsFrom(Mine(p), cs, target.items, 0, context)
      decreases Size(target), GraphRankOf(g)[p], 1
    {
      hide Applied, Mine, ItemsFrom, CountAccepted, WellFormed, Size, Inside, GraphGuarded, GraphRankOf;
      ghost var o := Mine(p);
      var items := target.items;
      ghost var goal := Queue() + ItemsFrom(o, cs, items, 0, context);
      NoneCounted(o, cs, items);
      numValidated, validated := 0, true;
      for i := 0 to |cs|
        invariant i <= |items|
        invariant validated <==> numValidated == i
        invariant numValidated == CountAccepted(o, cs, items, i)
        invariant results != null ==> goal == Queue() + ItemsFrom(o, cs, items, i, context)
      {
        if i >= |items| {
          ItemsStep(o, cs, items, i, context, []);
          return;
        }
        CountOneMore(o, cs, items, i);
        var valid := CheckItem(p, cs, additional, i);
        if valid {
          numValidated := numValidated + 1;
        } else {
          validated := false;
          if results == null { return; }
        }
      }
      ItemsStep(o, cs, items, |cs|, context, []);
    }

    /** One item that has a schema of its own, seen from what the rest will report. */
    method CheckItem(p: Pointer, cs: seq<Pointer>, ghost additional: Option<Pointer>, i: nat) returns (valid: bool)
      requires ReadyFor(p, LinearItems(cs, additional)) && target.Array? && i < |cs| && i < |target.items|
      modifies results
      ensures valid == Mine(p).accepts(cs[i], target.items[i])
      ensures results != null ==>
        (Queue() + ItemsFrom(Mine(p), cs, target.items, i + 1, context) ==
         old(Queue()) + ItemsFrom(Mine(p), cs, target.items, i, context))
      decreases Size(target), GraphRankOf(g)[p], 1, 0
    {
      hide Applied, Mine, ItemsFrom, WellFormed, Size, Inside, GraphGuarded, GraphRankOf;
      ItemsStep(Mine(p), cs, target.items, i, context, Queue());
      FirstItemInside(cs, additional, i);
      ItemIsSmaller(i);
      valid := ApplyInside(p, LinearItems(cs, additional), cs[i], target.items[i], Index(i), context + [Index(i)],
                           ItemFailed(i));
    }

    lemma ItemIsSmaller(i: nat)
      requires target.Array? && i < |target.items| && WellFormed(target)
      ensures WellFormed(target.items[i]) && Size(target.items[i]) < Size(target)
    {
    }

    lemma FirstItemInside(cs: seq<Pointer>, additional: Option<Pointer>, i: nat)
      requires i < |cs|
      ensures cs[i] in Inside(LinearItems(cs, additional))
    {
    }

    method CheckAdditionalItems(p: Pointer, ghost cs: seq<Pointer>, additional: Option<Pointer>,
                                start: nat) returns (validated: bool)
      requires ReadyFor(p, LinearItems(cs, additional)) && target.Array? && additional.Some? && start <= |target.items|
      modifies results
      ensures validated <==> forall k :: start <= k < |target.items| ==>
        Mine(p).accepts(additional.value, target.items[k])
      ensures results != null ==>
        Queue() == old(Queue()) + AdditionalFrom(Mine(p), additional.value, target.items, start, context)
      decreases Size(target), GraphRankOf(g)[p], 1
    {
      hide Applied, Mine;
      ghost var o := Mine(p);
      var items, s := target.items, additional.value;
      assert s in Optionally(additional);
      ghost var goal := Queue() + AdditionalFrom(o, s, items, start, context);
      validated := true;
      for i := start to |items|
        invariant validated <==> forall k :: start <= k < i ==> o.accepts(s, items[k])
        invariant results != null ==> goal == Queue() + AdditionalFrom(o, s, items, i, context)
      {
        ghost var before := Queue();
        var valid := ApplyInside(p, LinearItems(cs, additional), s, items[i], Index(i), context,
                                 AdditionalItemFailed(i));
        if !valid {
          validated := false;
          if results == null { return; }
        }
        Associate(before, Applied(o, s, items[i], context + [Index(i)], context, AdditionalItemFailed(i)),
                  AdditionalFrom(o, s, items, i + 1, context));
      }
    }

    // ---- Objects ----

    /** The three phases: named subschemas, patterns, and the rest. */
    method VisitProperties(p: Pointer, named: seq<Named<Pointer>>, patterns: seq<Named<Pointer>>,
                           additional: Option<Pointer>)
      returns (ok: bool)
      requires ReadyFor(p, Properties(named, patterns, additional))
      modifies results
      ensures ok == Holds(x, Properties(named, patterns, additional), target, Mine(p).accepts)
      ensures results != null ==>
        Queue() == old(Queue()) + ConstraintReport(x, Properties(named, patterns, additional), target, context, Mine(p))
      decreases Size(target), GraphRankOf(g)[p], 4
    {
      if !target.Object? { return true; }
      ok := VisitMembers(p, named, patterns, additional);
    }

    method VisitMembers(p: Pointer, named: seq<Named<Pointer>>, patterns: seq<Named<Pointer>>,
                        additional: Option<Pointer>)
      returns (ok: bool)
      requires ReadyFor(p, Properties(named, patterns, additional)) && target.Object?
      modifies results
      ensures ok <==> forall m <- target.members :: MemberHolds(x, named, patterns, additional, m, Mine(p).accepts)
      ensures results != null ==>
        Queue() == old(Queue()) + PropertiesReport(x, Mine(p), named, patterns, additional, target.members, context)
      decreases Size(target), GraphRankOf(g)[p], 3
    {
      hide MemberHolds, PatternsPass, NamedFrom, NamedAccept, RestReport, RestAccepts, NamesPresent, Mine;
      ghost var before := Queue();
      ghost var pass := PatternsPass(x, Mine(p), patterns, 0, target.members, context);
      ThreePhases(x, Mine(p), named, patterns, additional, target.members, context);
      var validated, propertiesMatched := CheckNamed(p, named, patterns, additional);
      if !validated && results == null { return false; }
      var patternsValid;
      patternsValid, propertiesMatched := CheckPatterns(p, named, patterns, additional, propertiesMatched);
      validated := validated && patternsValid;
      Associate(before, NamedFrom(Mine(p), named, 0, target.members, context), pass.errors);
      var restValid := CheckRest(p, named, patterns, additional, propertiesMatched);
      Associate(before, NamedFrom(Mine(p), named, 0, target.members, context) + pass.errors,
                RestReport(Mine(p), additional, propertiesMatched, target.members, context));
      return validated && restValid;
    }

    method CheckRest(p: Pointer, ghost named: seq<Named<Pointer>>, ghost patterns: seq<Named<Pointer>>,
                     additional: Option<Pointer>,
                     matched: set<string>)
      returns (validated: bool)
      requires ReadyFor(p, Properties(named, patterns, additional)) && target.Object?
      modifies results
      ensures validated == RestAccepts(Mine(p), additional, matched, target.members)
      ensures results != null ==>
        Queue() == old(Queue()) + RestReport(Mine(p), additional, matched, target.members, context)
      decreases Size(target), GraphRankOf(g)[p], 2
    {
      if additional.None? {
        if |matched| != |target.members| {
          Push(Unwanted(FirstUnmatched(matched, target.members, 0)));
          return false;
        }
        return true;
      }
      validated := CheckAdditionalMembers(p, named, patterns, additional, matched);
    }

    method CheckNamed(p: Pointer, named: seq<Named<Pointer>>, ghost patterns: seq<Named<Pointer>>,
                      ghost additional: Option<Pointer>)
      returns (validated: bool, matched: set<string>)
      requires ReadyFor(p, Properties(named, patterns, additional)) && target.Object?
      modifies results
      ensures validated <==> NamedAccept(Mine(p), named, |named|, target.members)
      ensures results != null || validated ==> matched == NamesPresent(named, |named|, target.members)
      ensures results != null ==> Queue() == old(Queue()) + NamedFrom(Mine(p), named, 0, target.members, context)
      decreases Size(target), GraphRankOf(g)[p], 1
    {
      hide Applied, Mine, Find, WellFormed, Size, Inside, GraphGuarded, GraphRankOf, NamedFrom, NamesPresent,
           NamedAccept;
      ghost var o := Mine(p);
      ghost var goal := Queue() + NamedFrom(o, named, 0, target.members, context);
      NoneNamed(o, named, target.members);
      validated, matched := true, {};
      for i := 0 to |named|
        invariant validated <==> NamedAccept(o, named, i, target.members)
        invariant matched == NamesPresent(named, i, target.members)
        invariant results != null ==> goal == Queue() + NamedFrom(o, named, i, target.members, context)
      {
        var name := named[i].name;
        var found := Find(target.members, name);
        NamedStep(o, named, i, target.members, context, Queue());
        OneMoreNamed(o, named, i, target.members);
        if found.Some? {
          matched := matched + {name};
          InsideNamed(named, patterns, additional, i, found.value);
          var valid := ApplyInside(p, Properties(named, patterns, additional), named[i].child, found.value, Name(name),
                                   context,
                                   PropertyFailed(name));
          if !valid {
            validated := false;
            if results == null { return; }
          }
        }
      }
      NamedStep(o, named, |named|, target.members, context, []);
    }

    lemma InsideNamed(named: seq<Named<Pointer>>, patterns: seq<Named<Pointer>>, additional: Option<Pointer>, i: nat,
                      w: Value)
      requires i < |named| && target.Object? && WellFormed(target) && Find(target.members, named[i].name) == Some(w)
      ensures named[i].child in Inside(Properties(named, patterns, additional))
      ensures WellFormed(w) && Size(w) < Size(target)
    {
      assert Children(named)[i] == named[i].child;
    }

    /** In both modes the first failure under a pattern ends this phase. */
    method CheckPatterns(p: Pointer, ghost named: seq<Named<Pointer>>, patterns: seq<Named<Pointer>>,
                         ghost additional: Option<Pointer>,
                         before: set<string>)
      returns (validated: bool, matched: set<string>)
      requires ReadyFor(p, Properties(named, patterns, additional)) && target.Object?
      modifies results
      ensures validated <==> !PatternsPass(x, Mine(p), patterns, 0, target.members, context).stopped
      ensures matched == before + PatternsPass(x, Mine(p), patterns, 0, target.members, context).matched
      ensures results != null ==>
        Queue() == old(Queue()) + PatternsPass(x, Mine(p), patterns, 0, target.members, context).errors
      decreases Size(target), GraphRankOf(g)[p], 2
    {
      ghost var o, members := Mine(p), target.members;
      ghost var total := PatternsPass(x, o, patterns, 0, members, context);
      ghost var goal := Queue() + total.errors;
      validated, matched := true, before;
      for i := 0 to |patterns|
        invariant validated
        invariant total.stopped == PatternsPass(x, o, patterns, i, members, context).stopped
        invariant before + total.matched == matched + PatternsPass(x, o, patterns, i, members, context).matched
        invariant results != null ==> goal == Queue() + PatternsPass(x, o, patterns, i, members, context).errors
      {
        ghost var queued := Queue();
        ghost var first := PatternPass(x, o, patterns[i], members, 0, context);
        var valid;
        valid, matched := CheckPattern(p, named, patterns, additional, i, matched);
        if !valid {
          validated := false;
          return;
        }
        Associate(queued, first.errors, PatternsPass(x, o, patterns, i + 1, members, context).errors);
      }
    }

    method CheckPattern(p: Pointer, ghost named: seq<Named<Pointer>>, patterns: seq<Named<Pointer>>,
                        ghost additional: Option<Pointer>,
                        i: nat, before: set<string>)
      returns (validated: bool, matched: set<string>)
      requires ReadyFor(p, Properties(named, patterns, additional)) && target.Object? && i < |patterns|
      modifies results
      ensures validated <==> !PatternPass(x, Mine(p), patterns[i], target.members, 0, context).stopped
      ensures matched == before + PatternPass(x, Mine(p), patterns[i], target.members, 0, context).matched
      ensures results != null ==>
        Queue() == old(Queue()) + PatternPass(x, Mine(p), patterns[i], target.members, 0, context).errors
      decreases Size(target), GraphRankOf(g)[p], 1
    {
      hide Applied, Mine, PatternPass, WellFormed, Size, Inside, GraphGuarded, GraphRankOf;
      ghost var o := Mine(p);
      var members, pattern := target.members, patterns[i];
      ghost var total := PatternPass(x, o, pattern, members, 0, context);
      ghost var goal := Queue() + total.errors;
      matched := before;
      for j := 0 to |members|
        invariant total.stopped == PatternPass(x, o, pattern, members, j, context).stopped
        invariant before + total.matched == matched + PatternPass(x, o, pattern, members, j, context).matched
        invariant results != null ==> goal == Queue() + PatternPass(x, o, pattern, members, j, context).errors
      {
        var m := members[j];
        PatternStep(x, o, pattern, members, j, context, Queue());
        if x.regexSearch(pattern.name, m.key) {
          matched := matched + {m.key};
          InsidePattern(named, patterns, additional, i, j);
          var valid := ApplyInside(p, Properties(named, patterns, additional), pattern.child, m.value, Name(m.key),
                                   context,
                                   PatternFailed(pattern.name));
          if !valid { return false, matched; }
        }
      }
      PatternStep(x, o, pattern, members, |members|, context, []);
      return true, matched;
    }

    lemma InsidePattern(named: seq<Named<Pointer>>, patterns: seq<Named<Pointer>>, additional: Option<Pointer>, i: nat,
                        j: nat)
      requires i < |patterns| && target.Object? && j < |target.members| && WellFormed(target)
      ensures patterns[i].child in Inside(Properties(named, patterns, additional))
      ensures WellFormed(target.members[j].value) && Size(target.members[j].value) < Size(target)
    {
      assert Children(patterns)[i] == patterns[i].child;
    }

    method CheckAdditionalMembers(p: Pointer, ghost named: seq<Named<Pointer>>, ghost patterns: seq<Named<Pointer>>,
                                  additional: Option<Pointer>, matched: set<string>)
      returns (validated: bool)
      requires ReadyFor(p, Properties(named, patterns, additional)) && target.Object? && additional.Some?
      modifies results
      ensures validated == AdditionalAccepts(Mine(p), additional.value, matched, |target.members|, target.members)
      ensures results != null ==>
        Queue() == old(Queue()) + AdditionalMembersFrom(Mine(p), additional.value, matched, target.members, 0, context)
      decreases Size(target), GraphRankOf(g)[p], 1
    {
      hide Applied, Mine;
      ghost var o := Mine(p);
      var members, s := target.members, additional.value;
      assert s in Optionally(additional);
      ghost var goal := Queue() + AdditionalMembersFrom(o, s, matched, members, 0, context);
      validated := true;
      for j := 0 to |members|
        invariant validated == AdditionalAccepts(o, s, matched, j, members)
        invariant results != null ==> goal == Queue() + AdditionalMembersFrom(o, s, matched, members, j, context)
      {
        var m := members[j];
        if m.key !in matched {
          ghost var queued := Queue();
          var valid := ApplyInside(p, Properties(named, patterns, additional), s, m.value, Name(m.key), context,
                                   AdditionalPropertyFailed);
          if !valid { validated := false; }
          Associate(queued, Applied(o, s, m.value, context + [Name(m.key)], context, AdditionalPropertyFailed),
                    AdditionalMembersFrom(o, s, matched, members, j + 1, context));
        }
      }
    }

    /** Fails without reporting anything, in both modes. */
    method VisitPropertyNames(p: Pointer, s: Pointer) returns (ok: bool)
      requires ReadyFor(p, PropertyNames(s))
      ensures ok == Holds(x, PropertyNames(s), target, Mine(p).accepts)
      decreases Size(target), GraphRankOf(g)[p], 1
    {
      if !target.Object? { return true; }
      for j := 0 to |target.members|
        invariant forall k :: 0 <= k < j ==> Mine(p).accepts(s, Str(target.members[k].key))
      {
        assert 1 < Size(target);
        var valid := ProbeInside(p, PropertyNames(s), s, Str(target.members[j].key));
        if !valid { return false; }
      }
      return true;
    }

    // ---- Checks without subschemas ----

    method VisitFlat(f: Flat) returns (ok: bool)
      modifies results
      ensures ok == FlatHolds(x, f, target)
      ensures results != null ==> Queue() == old(Queue()) + FlatReport(x, f, target, context)
    {
      match f
      case Required(names) =>
        if !target.Object? { return true; }
        ok := CheckPresent(names, false);
      case UniqueItems =>
        if !target.Array? { return true; }
        ok := CheckUnique();
      case Const(a) =>
        ok := EqualToByIteration(a, target);
        if !ok { Push(CheckFailed(f)); }
      case Enum(values) =>
        var numValidated := 0;
        for i := 0 to |values|
          invariant numValidated == 0
          invariant forall k :: 0 <= k < i ==> !EqualTo(values[k], target)
          invariant Queue() == old(Queue())
        {
          var same := EqualToByIteration(values[i], target);
          if same {
            numValidated := numValidated + 1;
            break;
          }
        }
        if numValidated == 0 { Push(CheckFailed(f)); }
        ok := numValidated > 0;
      case Type(types) =>
        var validated := false;
        var left := types;
        while left != {}
          invariant left <= types
          invariant validated <==> exists t <- types - left :: HasType(target, t)
          invariant Queue() == old(Queue())
        {
          var t :| t in left;
          left := left - {t};
          if HasType(target, t) { validated := true; }
        }
        if !validated { Push(CheckFailed(f)); }
        ok := validated;
      case Leaf(keyword, argument) =>
        ok := x.leafHolds(keyword, argument, target);
        if !ok { Push(CheckFailed(f)); }
    }

    ghost predicate UniqueBelow(outer: nat)
      requires target.Array? && outer <= |target.items|
    {
      forall i, j :: 0 <= i < outer && i < j < |target.items| ==> !EqualTo(target.items[i], target.items[j])
    }

    /** Every pair of positions once; all equal pairs are reported. */
    method CheckUnique() returns (validated: bool)
      requires target.Array?
      modifies results
      ensures validated <==> FlatHolds(x, UniqueItems, target)
      ensures results != null ==> Queue() == old(Queue()) + DuplicatesFrom(target.items, 0, context)
    {
      var items := target.items;
      if |items| == 0 { return true; }
      ghost var goal := Queue() + DuplicatesFrom(items, 0, context);
      validated := true;
      var outer := 0;
      while outer != |items| - 1
        invariant outer < |items|
        invariant validated == UniqueBelow(outer)
        invariant results != null ==> goal == Queue() + DuplicatesFrom(items, outer, context)
        decreases |items| - outer
      {
        ghost var before := Queue();
        var unique := CompareWithLater(outer);
        if !unique {
          validated := false;
          if results == null { return; }
        }
        Associate(before, DuplicatesOf(items, outer, outer + 1, context), DuplicatesFrom(items, outer + 1, context));
        outer := outer + 1;
      }
      assert DuplicatesOf(items, outer, outer + 1, context) == [] && DuplicatesFrom(items, outer + 1, context) == [];
      assert UniqueBelow(outer) == UniqueBelow(|items|);
    }

    method CompareWithLater(outer: nat) returns (unique: bool)
      requires target.Array? && outer < |target.items|
      modifies results
      ensures unique <==> forall j :: outer < j < |target.items| ==> !EqualTo(target.items[outer], target.items[j])
      ensures results != null ==> Queue() == old(Queue()) + DuplicatesOf(target.items, outer, outer + 1, context)
    {
      hide EqualTo, DuplicatesOf;
      var items := target.items;
      ghost var goal := Queue() + DuplicatesOf(items, outer, outer + 1, context);
      unique := true;
      for inner := outer + 1 to |items|
        invariant unique <==> forall j :: outer < j < inner ==> !EqualTo(items[outer], items[j])
        invariant results != null ==> goal == Queue() + DuplicatesOf(items, outer, inner, context)
      {
        DuplicatesStep(items, outer, inner, context, Queue());
        var same := EqualToByIteration(items[outer], items[inner]);
        if same {
          unique := false;
          if results == null { return; }
          Push(Duplicates(outer, inner));
        }
      }
      DuplicatesStep(items, outer, |items|, context, []);
    }
  }

  /** `Validator::validate`. */
  method Validate(x: Externals, g: Graph, target: Value, results: ValidationResults?) returns (ok: bool)
    requires GraphGuarded(g) && ROOT < |g| && WellFormed(target)
    modifies results
    ensures ok == Accepts(x, g, ROOT, target)
    ensures results != null ==> results.errors == old(results.errors) + Report(x, g, ROOT, target, [Root])
  {
    var v := new ValidationVisitor(x, g, target, [Root], results);
    ok := v.ValidateSchema(ROOT);
  }
}
