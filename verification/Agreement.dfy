/** When two constraints of the same shape over different kinds of subschemas give the same verdict. */
module Agreement {
  import opened Wrappers
  import opened Json
  import opened Schemas
  import opened Keywords
  import opened Semantics

  /** Subschema k inside c and subschema k inside d agree on everything smaller than v. */
  ghost predicate AgreeInside<C(!new), D(!new)>(c: Constraint<C>, d: Constraint<D>, v: Value,
                                                a: (C, Value) -> bool, b: (D, Value) -> bool, k: nat)
  {
    k < |Inside(c)| && k < |Inside(d)| && forall w :: Size(w) < Size(v) ==> a(Inside(c)[k], w) == b(Inside(d)[k], w)
  }

  ghost predicate AgreeInPlace<C(!new), D(!new)>(c: Constraint<C>, d: Constraint<D>, v: Value,
                                                 a: (C, Value) -> bool, b: (D, Value) -> bool, k: nat)
  {
    k < |InPlace(c)| && k < |InPlace(d)| && a(InPlace(c)[k], v) == b(InPlace(d)[k], v)
  }

  /** Constraints of the same shape whose subschemas agree, one by one, wherever they may be asked. */
  ghost predicate Agree<C(!new), D(!new)>(c: Constraint<C>, d: Constraint<D>, v: Value,
                                          a: (C, Value) -> bool, b: (D, Value) -> bool)
  {
    && ShapeOf(c) == ShapeOf(d)
    && (forall k :: 0 <= k < |InPlace(c)| ==> AgreeInPlace(c, d, v, a, b, k))
    && (forall k :: 0 <= k < |Inside(c)| ==> AgreeInside(c, d, v, a, b, k))
  }

  lemma ManyAgree<C(!new), D(!new)>(x: Externals, c: Constraint<C>, d: Constraint<D>, v: Value,
                                    a: (C, Value) -> bool, b: (D, Value) -> bool)
    requires (c.AllOf? || c.AnyOf? || c.OneOf?) && Agree(c, d, v, a, b)
    ensures Holds(x, c, v, a) == Holds(x, d, v, b)
  {
    var cs, ds := c.children, d.children;
    forall k | 0 <= k < |cs| ensures a(cs[k], v) == b(ds[k], v) {
      assert AgreeInPlace(c, d, v, a, b, k);
    }
    if c.OneOf? {
      assert forall k :: 0 <= k < |cs| ==> OnlyOne(cs, k, v, a) == OnlyOne(ds, k, v, b);
    }
  }

  lemma ConditionalAgrees<C(!new), D(!new)>(x: Externals, c: Constraint<C>, d: Constraint<D>, v: Value,
                                            a: (C, Value) -> bool, b: (D, Value) -> bool)
    requires c.Conditional? && Agree(c, d, v, a, b)
    ensures Holds(x, c, v, a) == Holds(x, d, v, b)
  {
    assert AgreeInPlace(c, d, v, a, b, 0);
    if c.thenChild.Some? { assert AgreeInPlace(c, d, v, a, b, 1); }
    if c.elseChild.Some? { assert AgreeInPlace(c, d, v, a, b, |InPlace(c)| - 1); }
  }

  lemma DependenciesAgree<C(!new), D(!new)>(x: Externals, c: Constraint<C>, d: Constraint<D>, v: Value,
                                            a: (C, Value) -> bool, b: (D, Value) -> bool)
    requires c.Dependencies? && Agree(c, d, v, a, b)
    ensures Holds(x, c, v, a) == Holds(x, d, v, b)
  {
    var cs, ds := c.schemas, d.schemas;
    assert |Names(cs)| == |Names(ds)|;
    forall k | 0 <= k < |cs| ensures cs[k].name == ds[k].name && a(cs[k].child, v) == b(ds[k].child, v) {
      assert Names(cs)[k] == Names(ds)[k];
      assert AgreeInPlace(c, d, v, a, b, k);
    }
  }

  lemma SingleAgrees<C(!new), D(!new)>(x: Externals, c: Constraint<C>, d: Constraint<D>, v: Value,
                                       a: (C, Value) -> bool, b: (D, Value) -> bool)
    requires (c.Not? || c.Contains? || c.SingularItems? || c.PropertyNames?) && Agree(c, d, v, a, b)
    ensures Holds(x, c, v, a) == Holds(x, d, v, b)
  {
    if c.Not? {
      assert AgreeInPlace(c, d, v, a, b, 0);
    } else {
      assert AgreeInside(c, d, v, a, b, 0);
      InsideAgrees(x, c, d, v, a, b);
    }
  }

  lemma InsideAgrees<C(!new), D(!new)>(x: Externals, c: Constraint<C>, d: Constraint<D>, v: Value,
                                       a: (C, Value) -> bool, b: (D, Value) -> bool)
    requires (c.Contains? && d.Contains?) || (c.SingularItems? && d.SingularItems?) ||
             (c.PropertyNames? && d.PropertyNames?)
    requires forall w :: Size(w) < Size(v) ==> a(c.child, w) == b(d.child, w)
    ensures Holds(x, c, v, a) == Holds(x, d, v, b)
  {
    hide Size, Holds;
    if v.Array? {
      forall k | 0 <= k < |v.items| ensures a(c.child, v.items[k]) == b(d.child, v.items[k]) {
        ItemSmaller(v, k);
      }
    }
    if v.Object? {
      forall m | m in v.members ensures a(c.child, Str(m.key)) == b(d.child, Str(m.key)) {
        MemberSmaller(v, m);
      }
    }
    SameInside(x, c, d, v, a, b);
  }

  lemma SameInside<C(!new), D(!new)>(x: Externals, c: Constraint<C>, d: Constraint<D>, v: Value,
                                     a: (C, Value) -> bool, b: (D, Value) -> bool)
    requires (c.Contains? && d.Contains?) || (c.SingularItems? && d.SingularItems?) ||
             (c.PropertyNames? && d.PropertyNames?)
    requires v.Array? ==> forall k :: 0 <= k < |v.items| ==> a(c.child, v.items[k]) == b(d.child, v.items[k])
    requires v.Object? ==> forall m <- v.members :: a(c.child, Str(m.key)) == b(d.child, Str(m.key))
    ensures Holds(x, c, v, a) == Holds(x, d, v, b)
  {
  }

  lemma ItemSmaller(v: Value, k: nat)
    requires v.Array? && k < |v.items|
    ensures Size(v.items[k]) < Size(v)
  {
  }

  lemma MemberSmaller(v: Value, m: Member)
    requires v.Object? && m in v.members
    ensures Size(m.value) < Size(v) && Size(Str(m.key)) < Size(v)
  {
    var i :| 0 <= i < |v.members| && v.members[i] == m;
    assert Size(v.members[i].value) < Size(v);
  }

  lemma TupleAgrees<C(!new), D(!new)>(x: Externals, c: Constraint<C>, d: Constraint<D>, v: Value,
                                      a: (C, Value) -> bool, b: (D, Value) -> bool)
    requires c.LinearItems? && Agree(c, d, v, a, b)
    ensures Holds(x, c, v, a) == Holds(x, d, v, b)
  {
    if v.Array? {
      forall k | 0 <= k < |v.items|
        ensures ItemHolds(c.children, c.additional, k, v.items[k], a)
          == ItemHolds(d.children, d.additional, k, v.items[k], b)
      {
        assert Size(v.items[k]) < Size(v);
        if k < |c.children| {
          assert AgreeInside(c, d, v, a, b, k);
        } else if c.additional.Some? {
          assert AgreeInside(c, d, v, a, b, |c.children|);
        }
      }
    }
  }

  /** Lists of named subschemas with the same names that agree on w. */
  ghost predicate NamedAgree<C(!new), D(!new)>(cs: seq<Named<C>>, ds: seq<Named<D>>, w: Value,
                                               a: (C, Value) -> bool, b: (D, Value) -> bool)
  {
    |cs| == |ds| &&
    forall k :: 0 <= k < |cs| ==> cs[k].name == ds[k].name && a(cs[k].child, w) == b(ds[k].child, w)
  }

  lemma NamesAgree<C(!new), D(!new)>(c: Constraint<C>, d: Constraint<D>, v: Value, w: Value,
                                     a: (C, Value) -> bool, b: (D, Value) -> bool)
    requires c.Properties? && d.Properties? && Agree(c, d, v, a, b) && Size(w) < Size(v)
    ensures NamedAgree(c.named, d.named, w, a, b)
  {
    var cn, dn := c.named, d.named;
    assert |Names(cn)| == |Names(dn)|;
    forall k | 0 <= k < |cn| ensures cn[k].name == dn[k].name && a(cn[k].child, w) == b(dn[k].child, w) {
      assert Names(cn)[k] == Names(dn)[k];
      assert AgreeInside(c, d, v, a, b, k);
    }
  }

  lemma PatternsAgree<C(!new), D(!new)>(c: Constraint<C>, d: Constraint<D>, v: Value, w: Value,
                                        a: (C, Value) -> bool, b: (D, Value) -> bool)
    requires c.Properties? && d.Properties? && Agree(c, d, v, a, b) && Size(w) < Size(v)
    ensures NamedAgree(c.patterns, d.patterns, w, a, b)
  {
    hide Inside, Names, Size;
    var cp, dp := c.patterns, d.patterns;
    assert |Names(c.named)| == |Names(d.named)| && |Names(cp)| == |Names(dp)|;
    forall k | 0 <= k < |cp| ensures cp[k].name == dp[k].name && a(cp[k].child, w) == b(dp[k].child, w) {
      assert Names(cp)[k] == Names(dp)[k];
      PatternInside(c, k);
      PatternInside(d, k);
      assert AgreeInside(c, d, v, a, b, |c.named| + k);
    }
  }

  lemma PatternInside<C>(c: Constraint<C>, k: nat)
    requires c.Properties? && k < |c.patterns|
    ensures |c.named| + k < |Inside(c)| && Inside(c)[|c.named| + k] == c.patterns[k].child
  {
  }

  lemma AdditionalAgrees<C(!new), D(!new)>(c: Constraint<C>, d: Constraint<D>, v: Value, w: Value,
                                           a: (C, Value) -> bool, b: (D, Value) -> bool)
    requires c.Properties? && d.Properties? && Agree(c, d, v, a, b) && Size(w) < Size(v)
    ensures c.additional.Some? <==> d.additional.Some?
    ensures c.additional.Some? ==> a(c.additional.value, w) == b(d.additional.value, w)
  {
    assert |Names(c.named)| == |Names(d.named)| && |Names(c.patterns)| == |Names(d.patterns)|;
    if c.additional.Some? { assert AgreeInside(c, d, v, a, b, |c.named| + |c.patterns|); }
  }

  lemma NamedAndPatterns<C(!new), D(!new)>(x: Externals, cn: seq<Named<C>>, cp: seq<Named<C>>, dn: seq<Named<D>>,
                                           dp: seq<Named<D>>, m: Member, a: (C, Value) -> bool, b: (D, Value) -> bool)
    requires NamedAgree(cn, dn, m.value, a, b) && NamedAgree(cp, dp, m.value, a, b)
    ensures NamedHolds(cn, m, a) == NamedHolds(dn, m, b)
    ensures PatternsHold(x, cp, m, a) == PatternsHold(x, dp, m, b)
    ensures Matched(x, cn, cp, m.key) == Matched(x, dn, dp, m.key)
  {
  }

  lemma MemberAgrees<C(!new), D(!new)>(x: Externals, c: Constraint<C>, d: Constraint<D>, v: Value, m: Member,
                                       a: (C, Value) -> bool, b: (D, Value) -> bool)
    requires c.Properties? && d.Properties? && Agree(c, d, v, a, b) && Size(m.value) < Size(v)
    ensures MemberHolds(x, c.named, c.patterns, c.additional, m, a)
      == MemberHolds(x, d.named, d.patterns, d.additional, m, b)
  {
    hide Agree, NamedAgree, NamedHolds, PatternsHold, Matched;
    NamesAgree(c, d, v, m.value, a, b);
    PatternsAgree(c, d, v, m.value, a, b);
    AdditionalAgrees(c, d, v, m.value, a, b);
    NamedAndPatterns(x, c.named, c.patterns, d.named, d.patterns, m, a, b);
  }

  lemma MembersAgree<C(!new), D(!new)>(x: Externals, c: Constraint<C>, d: Constraint<D>, v: Value,
                                       a: (C, Value) -> bool, b: (D, Value) -> bool)
    requires c.Properties? && Agree(c, d, v, a, b)
    ensures Holds(x, c, v, a) == Holds(x, d, v, b)
  {
    hide Agree, MemberHolds;
    SameKind(c, d, v, a, b);
    if v.Object? {
      forall m | m in v.members
        ensures MemberHolds(x, c.named, c.patterns, c.additional, m, a)
          == MemberHolds(x, d.named, d.patterns, d.additional, m, b)
      {
        MemberSmaller(v, m);
        MemberAgrees(x, c, d, v, m, a, b);
      }
    }
  }

  lemma SameKind<C(!new), D(!new)>(c: Constraint<C>, d: Constraint<D>, v: Value,
                                   a: (C, Value) -> bool, b: (D, Value) -> bool)
    requires Agree(c, d, v, a, b)
    ensures c.Properties? <==> d.Properties?
    ensures c.Plain? ==> d.Plain? && d.flat == c.flat
  {
  }

  /** Then they hold or fail together. */
  lemma HoldTogether<C(!new), D(!new)>(x: Externals, c: Constraint<C>, d: Constraint<D>, v: Value,
                                       a: (C, Value) -> bool, b: (D, Value) -> bool)
    requires Agree(c, d, v, a, b)
    ensures Holds(x, c, v, a) == Holds(x, d, v, b)
  {
    SameKind(c, d, v, a, b);
    if c.Plain? { return; }
    hide Holds, Agree;
    match c
    case Conditional(_, _, _) => ConditionalAgrees(x, c, d, v, a, b);
    case Dependencies(_, _) => DependenciesAgree(x, c, d, v, a, b);
    case LinearItems(_, _) => TupleAgrees(x, c, d, v, a, b);
    case Properties(_, _, _) => MembersAgree(x, c, d, v, a, b);
    case AllOf(_) => ManyAgree(x, c, d, v, a, b);
    case AnyOf(_) => ManyAgree(x, c, d, v, a, b);
    case OneOf(_) => ManyAgree(x, c, d, v, a, b);
    case _ => SingleAgrees(x, c, d, v, a, b);
  }
}
