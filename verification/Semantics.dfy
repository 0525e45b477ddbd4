/** What a constraint means, and from it two verdicts: on a document, whose references are
    resolved on the fly, and on a compiled graph of subschemas. */
module Semantics {
  import opened Wrappers
  import opened Json
  import opened Schemas
  import opened Keywords

  // ---- Constraints ----

  predicate HasType(v: Value, t: JsonType) {
    match t
    case AnyT => true
    case ArrayT => v.Array?
    case BooleanT => v.Bool?
    case IntegerT => v.Int?
    case NullT => v.Null?
    case NumberT => IsNumber(v)
    case ObjectT => v.Object?
    case StringT => v.Str?
  }

  ghost predicate FlatHolds(x: Externals, f: Flat, v: Value) {
    match f
    case Const(a) => EqualTo(a, v)
    case Enum(values) => exists a <- values :: EqualTo(a, v)
    case Required(names) => v.Object? ==> forall n <- names :: Find(v.members, n).Some?
    case Type(types) => exists t <- types :: HasType(v, t)
    case UniqueItems =>
      v.Array? ==> forall i, j :: 0 <= i < j < |v.items| ==> !EqualTo(v.items[i], v.items[j])
    case Leaf(keyword, argument) => x.leafHolds(keyword, argument, v)
  }

  /** `accepts(s, w)` says whether subschema s accepts the value w. */
  ghost predicate Holds<C(!new)>(x: Externals, c: Constraint<C>, v: Value, accepts: (C, Value) -> bool) {
    match c
    case AllOf(cs) => forall k :: 0 <= k < |cs| ==> accepts(cs[k], v)
    case AnyOf(cs) => exists k :: 0 <= k < |cs| && accepts(cs[k], v)
    case OneOf(cs) => exists k :: 0 <= k < |cs| && OnlyOne(cs, k, v, accepts)
    case Not(s) => !accepts(s, v)
    case Conditional(i, t, e) =>
      if accepts(i, v) then t.Some? ==> accepts(t.value, v) else e.Some? ==> accepts(e.value, v)
    case Dependencies(ps, ss) =>
      v.Object? ==>
        && (forall p <- ps :: Find(v.members, p.name).Some? ==> forall n <- p.needs :: Find(v.members, n).Some?)
        && (forall k :: 0 <= k < |ss| && Find(v.members, ss[k].name).Some? ==> accepts(ss[k].child, v))
    case Contains(s) => v.Array? ==> exists k :: 0 <= k < |v.items| && accepts(s, v.items[k])
    case SingularItems(s) => v.Array? ==> forall k :: 0 <= k < |v.items| ==> accepts(s, v.items[k])
    case LinearItems(cs, additional) =>
      v.Array? ==> forall k :: 0 <= k < |v.items| ==> ItemHolds(cs, additional, k, v.items[k], accepts)
    case Properties(named, patterns, additional) =>
      v.Object? ==> forall m <- v.members :: MemberHolds(x, named, patterns, additional, m, accepts)
    case PropertyNames(s) => v.Object? ==> forall m <- v.members :: accepts(s, Str(m.key))
    case Plain(f) => FlatHolds(x, f, v)
  }

  ghost predicate OnlyOne<C(!new)>(cs: seq<C>, k: nat, v: Value, accepts: (C, Value) -> bool)
    requires k < |cs|
  {
    accepts(cs[k], v) && forall j :: 0 <= j < |cs| && j != k ==> !accepts(cs[j], v)
  }

  /** Item k satisfies its own subschema, or the additional one, which must then exist. */
  ghost predicate ItemHolds<C(!new)>(cs: seq<C>, additional: Option<C>, k: nat, item: Value,
                                     accepts: (C, Value) -> bool) {
    if k < |cs| then accepts(cs[k], item) else additional.Some? && accepts(additional.value, item)
  }

  /** A member satisfies the subschema of its name and those of all patterns found in its name; if
      there is none of either, the additional subschema must exist and be satisfied. */
  ghost predicate MemberHolds<C(!new)>(x: Externals, named: seq<Named<C>>, patterns: seq<Named<C>>,
                                       additional: Option<C>,
                                       m: Member, accepts: (C, Value) -> bool)
  {
    && NamedHolds(named, m, accepts)
    && PatternsHold(x, patterns, m, accepts)
    && (Matched(x, named, patterns, m.key) || (additional.Some? && accepts(additional.value, m.value)))
  }

  ghost predicate NamedHolds<C(!new)>(named: seq<Named<C>>, m: Member, accepts: (C, Value) -> bool) {
    forall k :: 0 <= k < |named| && named[k].name == m.key ==> accepts(named[k].child, m.value)
  }

  ghost predicate PatternsHold<C(!new)>(x: Externals, patterns: seq<Named<C>>, m: Member, accepts: (C, Value) -> bool) {
    forall k :: 0 <= k < |patterns| && x.regexSearch(patterns[k].name, m.key) ==> accepts(patterns[k].child, m.value)
  }

  ghost predicate Matched<C>(x: Externals, named: seq<Named<C>>, patterns: seq<Named<C>>, key: string) {
    (exists k :: 0 <= k < |named| && named[k].name == key) ||
    (exists k :: 0 <= k < |patterns| && x.regexSearch(patterns[k].name, key))
  }

  // ---- Documents ----

  /** The slot leads to a concrete node in the domain of interest. */
  ghost predicate LeadsInto(x: Externals, doc: Value, s: Slot, nodes: set<Value>) {
    s.At? ==>
      && Pointers(s.node) <= Pointers(doc)
      && Chase(x, doc, s.node, {}, false).Concrete?
      && Chase(x, doc, s.node, {}, false).node in nodes
  }

  /** `nodes` contains the node the root leads to, every node in it is readable, and with a node it
      contains every node its subschemas lead to. */
  ghost predicate Closed(x: Externals, doc: Value, nodes: set<Value>) {
    && Chase(x, doc, doc, {}, true).Concrete?
    && Chase(x, doc, doc, {}, true).node in nodes
    && forall n :: n in nodes ==> NodeClosed(x, doc, n, nodes)
  }

  ghost predicate NodeClosed(x: Externals, doc: Value, n: Value, nodes: set<Value>) {
    && Pointers(n) <= Pointers(doc)
    && Read(x, n).Some?
    && forall c <- Read(x, n).value.constraints ::
         && (forall s <- InPlace(c) :: LeadsInto(x, doc, s, nodes))
         && (forall s <- Inside(c) :: LeadsInto(x, doc, s, nodes))
  }

  /** All that the root reaches can be read: every keyword has an acceptable value, every reference
      resolves within the document. */
  ghost predicate Readable(x: Externals, doc: Value) {
    exists nodes :: Closed(x, doc, nodes)
  }

  /** Ranks fall along subschemas that apply to the same value.  With such ranks every cycle of
      subschemas descends into the value, so validation comes to an end. */
  ghost predicate Ranks(x: Externals, doc: Value, rank: map<Value, nat>) {
    && Closed(x, doc, rank.Keys)
    && forall n :: n in rank.Keys ==> NodeRanked(x, doc, rank, n)
  }

  ghost predicate NodeRanked(x: Externals, doc: Value, rank: map<Value, nat>, n: Value)
    requires Closed(x, doc, rank.Keys) && n in rank
  {
    assert NodeClosed(x, doc, n, rank.Keys);
    forall c <- Read(x, n).value.constraints :: forall s <- InPlace(c) ::
      s.At? ==> rank[Chase(x, doc, s.node, {}, false).node] < rank[n]
  }

  ghost predicate Guarded(x: Externals, doc: Value) {
    exists rank :: Ranks(x, doc, rank)
  }

  ghost function RankOf(x: Externals, doc: Value): (rank: map<Value, nat>)
    requires Guarded(x, doc)
    ensures Ranks(x, doc, rank)
  {
    var rank :| Ranks(x, doc, rank); rank
  }

  /** The verdict of schema node n of the document on v. */
  ghost predicate DocumentAccepts(x: Externals, doc: Value, n: Value, v: Value)
    requires Guarded(x, doc) && n in RankOf(x, doc)
    decreases Size(v), RankOf(x, doc)[n], 1
  {
    assert NodeClosed(x, doc, n, RankOf(x, doc).Keys);
    var s := Read(x, n).value;
    !s.alwaysInvalid && forall c <- s.constraints :: Holds(x, c, v, SlotAccepts(x, doc, n, v))
  }

  /** Verdicts of the subschemas of n on v and on what is inside v: references are followed anew
      each time.  The bounds hold for all subschemas of n, because ranks fall. */
  ghost function SlotAccepts(x: Externals, doc: Value, n: Value, v: Value): (Slot, Value) -> bool
    requires Guarded(x, doc) && n in RankOf(x, doc)
    decreases Size(v), RankOf(x, doc)[n], 0
  {
    var rank := RankOf(x, doc);
    (s: Slot, w: Value) =>
      s.EmptySchema? ||
      (LeadsInto(x, doc, s, rank.Keys) &&
       (Size(w) < Size(v) || (w == v && rank[Chase(x, doc, s.node, {}, false).node] < rank[n])) &&
       DocumentAccepts(x, doc, Chase(x, doc, s.node, {}, false).node, w))
  }

  /** The verdict of a whole document. */
  ghost predicate SchemaAccepts(x: Externals, doc: Value, v: Value)
    requires Guarded(x, doc)
  {
    DocumentAccepts(x, doc, Chase(x, doc, doc, {}, true).node, v)
  }

  // ---- Graphs ----

  type Graph = seq<Subschema<Pointer>>

  ghost predicate GraphRanks(g: Graph, rank: seq<nat>) {
    |rank| == |g| && forall p :: 0 <= p < |g| ==> SubschemaRanked(g, rank, p)
  }

  ghost predicate SubschemaRanked(g: Graph, rank: seq<nat>, p: Pointer)
    requires |rank| == |g| && p < |g|
  {
    forall c <- g[p].constraints ::
      && (forall q <- InPlace(c) :: q < |g| && rank[q] < rank[p])
      && (forall q <- Inside(c) :: q < |g|)
  }

  ghost predicate GraphGuarded(g: Graph) {
    exists rank :: GraphRanks(g, rank)
  }

  ghost function GraphRankOf(g: Graph): (rank: seq<nat>)
    requires GraphGuarded(g)
    ensures GraphRanks(g, rank)
  {
    var rank :| GraphRanks(g, rank); rank
  }

  /** The verdict of subschema p on v. */
  ghost predicate Accepts(x: Externals, g: Graph, p: Pointer, v: Value)
    requires GraphGuarded(g) && p < |g|
    decreases Size(v), GraphRankOf(g)[p], 1
  {
    !g[p].alwaysInvalid && forall c <- g[p].constraints :: Holds(x, c, v, ChildAccepts(x, g, p, v))
  }

  ghost function ChildAccepts(x: Externals, g: Graph, p: Pointer, v: Value): (Pointer, Value) -> bool
    requires GraphGuarded(g) && p < |g|
    decreases Size(v), GraphRankOf(g)[p], 0
  {
    (q: Pointer, w: Value) =>
      q < |g| && (Size(w) < Size(v) || (w == v && GraphRankOf(g)[q] < GraphRankOf(g)[p])) && Accepts(x, g, q, w)
  }
}
