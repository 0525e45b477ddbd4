/** What it means for a graph of subschemas to be the compiled form of a document. */
module Compilation {
  import opened Wrappers
  import opened Json
  import opened JsonPointer
  import opened Schemas
  import opened Keywords
  import opened Semantics
  import opened Agreement
  import opened Reachability

  // ---- Nodes that must be readable ----

  /** n belongs to every closed set of schema nodes. */
  ghost predicate Needed(x: Externals, doc: Value, n: Value) {
    forall nodes :: Closed(x, doc, nodes) ==> n in nodes
  }

  /** So does whatever the slot leads to. */
  ghost predicate SlotNeeded(x: Externals, doc: Value, s: Slot) {
    forall nodes :: Closed(x, doc, nodes) ==> LeadsInto(x, doc, s, nodes)
  }

  lemma ChildrenNeeded(x: Externals, doc: Value, n: Value, c: Constraint<Slot>, s: Slot)
    requires Needed(x, doc, n) && Read(x, n).Some? && c in Read(x, n).value.constraints
    requires s in InPlace(c) || s in Inside(c)
    ensures SlotNeeded(x, doc, s)
  {
    forall nodes | Closed(x, doc, nodes) ensures LeadsInto(x, doc, s, nodes) {
      assert n in nodes;
      assert NodeClosed(x, doc, n, nodes);
    }
  }

  // ---- Graphs ----

  /** The subschema was made for this node, wherever it was found. */
  ghost predicate StandsFor(t: Target, node: Value) { t.Node? && t.node == node }

  /** Pointer q stands for what slot s leads to. */
  ghost predicate SlotIs(x: Externals, doc: Value, origin: seq<Target>, s: Slot, q: Pointer) {
    && q < |origin|
    && match s
       case EmptySchema => origin[q] == Anything
       case At(node, _) =>
         && Pointers(node) <= Pointers(doc)
         && Chase(x, doc, node, {}, false).Concrete?
         && StandsFor(origin[q], Chase(x, doc, node, {}, false).node)
  }

  ghost predicate SlotsAre(x: Externals, doc: Value, origin: seq<Target>, ss: seq<Slot>, qs: seq<Pointer>) {
    |ss| == |qs| && forall k :: 0 <= k < |ss| ==> SlotIs(x, doc, origin, ss[k], qs[k])
  }

  /** The same constraint, with pointers in place of document nodes. */
  ghost predicate ConstraintIs(x: Externals, doc: Value, origin: seq<Target>,
                               c: Constraint<Slot>, d: Constraint<Pointer>)
  {
    && ShapeOf(c) == ShapeOf(d)
    && SlotsAre(x, doc, origin, InPlace(c), InPlace(d))
    && SlotsAre(x, doc, origin, Inside(c), Inside(d))
  }

  ghost predicate SubschemaIs(x: Externals, doc: Value, origin: seq<Target>, s: Subschema<Slot>,
                              t: Subschema<Pointer>) {
    && s.alwaysInvalid == t.alwaysInvalid
    && |s.constraints| == |t.constraints|
    && forall i :: 0 <= i < |s.constraints| ==> ConstraintIs(x, doc, origin, s.constraints[i], t.constraints[i])
  }

  /** Subschema p is complete: it says what the node it stands for says. */
  ghost predicate Complete(x: Externals, doc: Value, g: Graph, origin: seq<Target>, p: Pointer)
    requires |g| == |origin| && p < |g|
  {
    match origin[p]
    case Anything => g[p] == Subschema(false, [])
    case Node(n, _, _) =>
      && Needed(x, doc, n)
      && Read(x, n).Some?
      && SubschemaIs(x, doc, origin, Read(x, n).value, g[p])
  }

  /** The whole graph is the compiled form of the document. */
  ghost predicate Represents(x: Externals, doc: Value, g: Graph, origin: seq<Target>) {
    && |g| == |origin| && ROOT < |g|
    && Chase(x, doc, doc, {}, true).Concrete?
    && StandsFor(origin[ROOT], Chase(x, doc, doc, {}, true).node)
    && forall p :: 0 <= p < |g| ==> Complete(x, doc, g, origin, p)
  }

  // ---- Compiler correctness ----

  /** Subschemas s of c and q of d stand for the same, and may be applied to w when c and d are
      applied to v. */
  ghost predicate Paired(x: Externals, doc: Value, origin: seq<Target>, c: Constraint<Slot>, d: Constraint<Pointer>,
                         v: Value,
                         s: Slot, q: Pointer, w: Value)
  {
    SlotIs(x, doc, origin, s, q) &&
    ((s in InPlace(c) && q in InPlace(d) && w == v) || (s in Inside(c) && q in Inside(d) && Size(w) < Size(v)))
  }

  lemma NeededInDomain(x: Externals, doc: Value, n: Value)
    requires Guarded(x, doc) && Needed(x, doc, n)
    ensures n in RankOf(x, doc) && NodeClosed(x, doc, n, RankOf(x, doc).Keys) && NodeRanked(x, doc, RankOf(x, doc), n)
  {
  }

  /** What a slot of a guarded node leads to has a rank, a lower one if it applies in place. */
  lemma SlotRank(x: Externals, doc: Value, n: Value, c: Constraint<Slot>, s: Slot)
    requires Guarded(x, doc) && Needed(x, doc, n) && Read(x, n).Some? && c in Read(x, n).value.constraints
    requires s in InPlace(c) || s in Inside(c)
    ensures LeadsInto(x, doc, s, RankOf(x, doc).Keys)
    ensures s in InPlace(c) && s.At? ==> RankOf(x, doc)[Chase(x, doc, s.node, {}, false).node] < RankOf(x, doc)[n]
  {
    NeededInDomain(x, doc, n);
  }

  /** Compiled from a guarded document, a graph is guarded. */
  lemma GraphIsGuarded(x: Externals, doc: Value, g: Graph, origin: seq<Target>)
    requires Guarded(x, doc) && Represents(x, doc, g, origin)
    ensures GraphGuarded(g)
  {
    hide Chase, Pointers, Read, SubschemaIs, Guarded, RankOf, SubschemaRanked, Needed;
    forall p | 0 <= p < |g| ensures origin[p].Node? ==> origin[p].node in RankOf(x, doc) {
      assert Complete(x, doc, g, origin, p);
      if origin[p].Node? { NeededInDomain(x, doc, origin[p].node); }
    }
    var rank := seq(|g|, p requires 0 <= p < |g| =>
      if origin[p].Node? then RankOf(x, doc)[origin[p].node] + 1 else 0);
    forall p | 0 <= p < |g| ensures SubschemaRanked(g, rank, p) {
      assert Complete(x, doc, g, origin, p);
      if origin[p].Node? {
        NodeIsRanked(x, doc, g, origin, rank, p);
      } else {
        NothingIsRanked(g, rank, p);
      }
    }
    assert GraphRanks(g, rank);
  }

  lemma NothingIsRanked(g: Graph, rank: seq<nat>, p: Pointer)
    requires |rank| == |g| && p < |g| && g[p].constraints == []
    ensures SubschemaRanked(g, rank, p)
  {
  }

  /** Ranks of document nodes, carried over to the subschemas that stand for them, still fall. */
  lemma NodeIsRanked(x: Externals, doc: Value, g: Graph, origin: seq<Target>, rank: seq<nat>, p: Pointer)
    requires Guarded(x, doc) && |g| == |origin| == |rank| && p < |g| && Complete(x, doc, g, origin, p)
    requires origin[p].Node?
    requires forall q :: 0 <= q < |g| ==> origin[q].Node? ==> origin[q].node in RankOf(x, doc)
    requires forall q :: 0 <= q < |g| ==> rank[q] == if origin[q].Node? then RankOf(x, doc)[origin[q].node] + 1 else 0
    ensures SubschemaRanked(g, rank, p)
  {
    hide Chase, Pointers, Read, ConstraintIs, InPlace, Inside, Guarded, Needed;
    var n := origin[p].node;
    forall d <- g[p].constraints
      ensures forall q <- InPlace(d) :: q < |g| && rank[q] < rank[p]
      ensures forall q <- Inside(d) :: q < |g|
    {
      var i :| 0 <= i < |g[p].constraints| && g[p].constraints[i] == d;
      var c := Read(x, n).value.constraints[i];
      assert ConstraintIs(x, doc, origin, c, d);
      forall q | q in InPlace(d) ensures q < |g| && rank[q] < rank[p] {
        var s := PartnerInPlace(x, doc, origin, c, d, q);
        SlotRank(x, doc, n, c, s);
      }
      forall q | q in Inside(d) ensures q < |g| {
        var s := PartnerInside(x, doc, origin, c, d, q);
      }
    }
  }

  lemma PartnerInPlace(x: Externals, doc: Value, origin: seq<Target>, c: Constraint<Slot>, d: Constraint<Pointer>,
                       q: Pointer) returns (s: Slot)
    requires ConstraintIs(x, doc, origin, c, d) && q in InPlace(d)
    ensures s in InPlace(c) && SlotIs(x, doc, origin, s, q)
  {
    hide InPlace, SlotIs, ShapeOf;
    var k :| 0 <= k < |InPlace(d)| && InPlace(d)[k] == q;
    s := InPlace(c)[k];
  }

  lemma PartnerInside(x: Externals, doc: Value, origin: seq<Target>, c: Constraint<Slot>, d: Constraint<Pointer>,
                      q: Pointer) returns (s: Slot)
    requires ConstraintIs(x, doc, origin, c, d) && q in Inside(d)
    ensures s in Inside(c) && SlotIs(x, doc, origin, s, q)
  {
    hide Inside, SlotIs, ShapeOf;
    var k :| 0 <= k < |Inside(d)| && Inside(d)[k] == q;
    s := Inside(c)[k];
  }

  /** The verdict of what a target stands for. */
  ghost predicate TargetAccepts(x: Externals, doc: Value, t: Target, v: Value)
    requires Guarded(x, doc) && (t.Node? ==> t.node in RankOf(x, doc))
  {
    t.Anything? || DocumentAccepts(x, doc, t.node, v)
  }

  /** Compiler correctness: a subschema of the graph, shared and cyclic as it may be, gives every
      value the verdict of the document node it stands for. */
  lemma {:induction false} SameVerdict(x: Externals, doc: Value, g: Graph, origin: seq<Target>, p: Pointer, v: Value)
    requires Guarded(x, doc) && Represents(x, doc, g, origin) && GraphGuarded(g) && p < |g|
    ensures origin[p].Node? ==> origin[p].node in RankOf(x, doc)
    ensures Accepts(x, g, p, v) == TargetAccepts(x, doc, origin[p], v)
    decreases Size(v), GraphRankOf(g)[p], 2
  {
    hide Holds, Chase, Pointers, Read, ConstraintIs, SlotAccepts, ChildAccepts, Closed, Ranks, Needed, GraphRanks,
         Size, DocumentAccepts, Accepts, Guarded, Complete;
    assert Complete(x, doc, g, origin, p);
    CompleteSays(x, doc, g, origin, p);
    if origin[p].Node? {
      var n := origin[p].node;
      NeededInDomain(x, doc, n);
      var s, t := Read(x, n).value, g[p];
      forall i | 0 <= i < |s.constraints|
        ensures Holds(x, s.constraints[i], v, SlotAccepts(x, doc, n, v)) ==
          Holds(x, t.constraints[i], v, ChildAccepts(x, g, p, v))
      {
        SameConstraint(x, doc, g, origin, p, v, s.constraints[i], t.constraints[i]);
      }
      ConstraintsDecideBoth(x, doc, g, p, n, v);
    } else {
      NothingSaid(x, g, p, v);
    }
  }

  lemma CompleteSays(x: Externals, doc: Value, g: Graph, origin: seq<Target>, p: Pointer)
    requires |g| == |origin| && p < |g| && Complete(x, doc, g, origin, p)
    ensures origin[p].Anything? ==> g[p] == Subschema(false, [])
    ensures origin[p].Node? ==>
      Needed(x, doc, origin[p].node) && Read(x, origin[p].node).Some? &&
      SubschemaIs(x, doc, origin, Read(x, origin[p].node).value, g[p])
  {
    hide Needed, Read, SubschemaIs;
  }

  lemma NothingSaid(x: Externals, g: Graph, p: Pointer, v: Value)
    requires GraphGuarded(g) && p < |g| && g[p] == Subschema(false, [])
    ensures Accepts(x, g, p, v)
  {
    hide Size, GraphGuarded;
  }

  lemma ConstraintsDecideBoth(x: Externals, doc: Value, g: Graph, p: Pointer, n: Value, v: Value)
    requires Guarded(x, doc) && n in RankOf(x, doc) && GraphGuarded(g) && p < |g| && Read(x, n).Some?
    requires Read(x, n).value.alwaysInvalid == g[p].alwaysInvalid
    requires |Read(x, n).value.constraints| == |g[p].constraints|
    requires forall i :: 0 <= i < |g[p].constraints| ==>
      Holds(x, Read(x, n).value.constraints[i], v, SlotAccepts(x, doc, n, v)) == Holds(x, g[p].constraints[i], v,
          ChildAccepts(x, g, p, v))
    ensures DocumentAccepts(x, doc, n, v) == Accepts(x, g, p, v)
  {
    hide Holds, Chase, Pointers, Read, SlotAccepts, ChildAccepts, Size, Guarded, GraphGuarded;
  }

  lemma {:induction false} SameConstraint(x: Externals, doc: Value, g: Graph, origin: seq<Target>, p: Pointer, v: Value,
                                          c: Constraint<Slot>, d: Constraint<Pointer>)
    requires Guarded(x, doc) && Represents(x, doc, g, origin) && GraphGuarded(g) && p < |g| && origin[p].Node?
    requires Needed(x, doc, origin[p].node) && Read(x, origin[p].node).Some?
    requires c in Read(x, origin[p].node).value.constraints && d in g[p].constraints
    requires ConstraintIs(x, doc, origin, c, d)
    ensures origin[p].node in RankOf(x, doc)
    ensures Holds(x, c, v, SlotAccepts(x, doc, origin[p].node, v)) == Holds(x, d, v, ChildAccepts(x, g, p, v))
    decreases Size(v), GraphRankOf(g)[p], 1
  {
    hide Chase, Pointers, Read, Holds, SlotAccepts, ChildAccepts, Closed, Ranks, Needed, GraphRanks, InPlace, Inside,
         ShapeOf;
    NeededInDomain(x, doc, origin[p].node);
    var a, b := SlotAccepts(x, doc, origin[p].node, v), ChildAccepts(x, g, p, v);
    forall k | 0 <= k < |InPlace(c)| ensures AgreeInPlace(c, d, v, a, b, k) {
      SameSlot(x, doc, g, origin, p, v, c, d, InPlace(c)[k], InPlace(d)[k], v);
    }
    forall k | 0 <= k < |Inside(c)| ensures AgreeInside(c, d, v, a, b, k) {
      forall w | Size(w) < Size(v) ensures a(Inside(c)[k], w) == b(Inside(d)[k], w) {
        SameSlot(x, doc, g, origin, p, v, c, d, Inside(c)[k], Inside(d)[k], w);
      }
    }
    HoldTogether(x, c, d, v, a, b);
  }

  lemma {:induction false} SameSlot(x: Externals, doc: Value, g: Graph, origin: seq<Target>, p: Pointer, v: Value,
                                    c: Constraint<Slot>, d: Constraint<Pointer>, s: Slot, q: Pointer, w: Value)
    requires Guarded(x, doc) && Represents(x, doc, g, origin) && GraphGuarded(g) && p < |g| && origin[p].Node?
    requires Needed(x, doc, origin[p].node) && Read(x, origin[p].node).Some?
    requires c in Read(x, origin[p].node).value.constraints && d in g[p].constraints
    requires Paired(x, doc, origin, c, d, v, s, q, w)
    ensures origin[p].node in RankOf(x, doc)
    ensures SlotAccepts(x, doc, origin[p].node, v)(s, w) == ChildAccepts(x, g, p, v)(q, w)
    decreases Size(v), GraphRankOf(g)[p], 0
  {
    hide Holds, Chase, Pointers, Read, SlotAccepts, ChildAccepts, DocumentAccepts, Accepts;
    assert SubschemaRanked(g, GraphRankOf(g), p);
    SameVerdict(x, doc, g, origin, q, w);
    SlotVerdict(x, doc, g, origin, p, v, c, d, s, q, w);
  }

  lemma SlotVerdict(x: Externals, doc: Value, g: Graph, origin: seq<Target>, p: Pointer, v: Value,
                    c: Constraint<Slot>, d: Constraint<Pointer>, s: Slot, q: Pointer, w: Value)
    requires Guarded(x, doc) && GraphGuarded(g) && |g| == |origin| && p < |g| && q < |g| && origin[p].Node?
    requires Needed(x, doc, origin[p].node) && Read(x, origin[p].node).Some?
    requires c in Read(x, origin[p].node).value.constraints && d in g[p].constraints
    requires Paired(x, doc, origin, c, d, v, s, q, w)
    requires origin[q].Node? ==> origin[q].node in RankOf(x, doc)
    requires Accepts(x, g, q, w) == TargetAccepts(x, doc, origin[q], w)
    ensures origin[p].node in RankOf(x, doc)
    ensures SlotAccepts(x, doc, origin[p].node, v)(s, w) == ChildAccepts(x, g, p, v)(q, w)
  {
    hide Holds, DocumentAccepts, Accepts, Read, Chase, Pointers;
    NeededInDomain(x, doc, origin[p].node);
    SlotRank(x, doc, origin[p].node, c, s);
    assert SubschemaRanked(g, GraphRankOf(g), p);
  }
}
