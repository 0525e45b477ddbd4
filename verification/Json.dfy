/** JSON values as the adapters present them, and strict equality on them.

    An object is the list of its members in the adapter's iteration order.  Member names
    are distinct (`WellFormed`), as in the tree the nlohmann adapter wraps. */
module Json {
  import opened Wrappers

  datatype Member = Member(key: string, value: Value)

  datatype Value =
    | Null
    | Bool(b: bool)
    | Int(i: int)
    | Double(d: real)
    | Str(s: string)
    | Array(items: seq<Value>)
    | Object(members: seq<Member>)

  /** A size under which array elements, member values and member names (as strings) are
      smaller than what holds them.  It bounds every recursion into a document. */
  function Size(v: Value): (n: nat)
    ensures n >= 1
    ensures v.Array? ==> forall k :: 0 <= k < |v.items| ==> Size(v.items[k]) < n
    ensures v.Object? ==> forall k :: 0 <= k < |v.members| ==> Size(v.members[k].value) < n && 1 < n
  {
    match v
    case Array(items) => SizeItems(items) + 1
    case Object(members) => SizeMembers(members) + 1
    case _ => 1
  }

  function SizeItems(items: seq<Value>): (n: nat)
    ensures forall k :: 0 <= k < |items| ==> Size(items[k]) <= n
  {
    if items == [] then 0 else
      var rest := SizeItems(items[1..]);
      assert forall k :: 1 <= k < |items| ==> items[k] == items[1..][k - 1];
      Size(items[0]) + rest
  }

  function SizeMembers(members: seq<Member>): (n: nat)
    ensures forall k :: 0 <= k < |members| ==> Size(members[k].value) <= n
    ensures members != [] ==> n >= 1
  {
    if members == [] then 0 else
      var rest := SizeMembers(members[1..]);
      assert forall k :: 1 <= k < |members| ==> members[k] == members[1..][k - 1];
      Size(members[0].value) + rest
  }

  /** The adapter's `find`: the value of the named member, if there is one. */
  function Find(members: seq<Member>, key: string): (r: Option<Value>)
    ensures r.Some? <==> exists k :: 0 <= k < |members| && members[k].key == key
    ensures r.Some? ==> exists k :: 0 <= k < |members| && members[k] == Member(key, r.value)
  {
    if members == [] then None
    else if members[0].key == key then
      assert members[0] == Member(key, members[0].value);
      Some(members[0].value)
    else
      var r := Find(members[1..], key);
      assert forall k :: 0 <= k < |members[1..]| ==> members[1..][k] == members[k + 1];
      assert forall k :: 1 <= k < |members| ==> members[k] == members[1..][k - 1];
      r
  }

  ghost predicate DistinctKeys(members: seq<Member>) {
    forall j, k :: 0 <= j < k < |members| ==> members[j].key != members[k].key
  }

  ghost predicate WellFormed(v: Value) {
    match v
    case Array(items) => forall k :: 0 <= k < |items| ==> WellFormed(items[k])
    case Object(members) =>
      DistinctKeys(members) && forall k :: 0 <= k < |members| ==> WellFormed(members[k].value)
    case _ => true
  }

  lemma {:induction false} FindAt(members: seq<Member>, k: nat)
    requires DistinctKeys(members) && k < |members|
    ensures Find(members, members[k].key) == Some(members[k].value)
  {
    var r := Find(members, members[k].key);
    var j :| 0 <= j < |members| && members[j] == Member(members[k].key, r.value);
    assert j == k;
  }

  // ---- Numbers ----

  const TWO_TO_53: nat := 0x20_0000_0000_0000

  /** Spacing of doubles around n: the least power of two u with n / u below 2^53. */
  function Ulp(n: nat): (u: nat)
    ensures u >= 1
  {
    if n < TWO_TO_53 then 1 else 2 * Ulp(n / 2)
  }

  /** `static_cast<double>(int64_t)` on a magnitude: to 53 significant bits, ties to even. */
  function RoundMagnitude(n: nat): nat {
    var u := Ulp(n);
    var q, r := n / u, n % u;
    if 2 * r > u || (2 * r == u && q % 2 == 1) then (q + 1) * u else q * u
  }

  function DoubleOfInt(i: int): real {
    if i >= 0 then RoundMagnitude(i) as real else -(RoundMagnitude(-i) as real)
  }

  predicate IsNumber(v: Value) { v.Int? || v.Double? }

  /** `getNumber`: the double image of an integer or a double. */
  function NumberOf(v: Value): real
    requires IsNumber(v)
  {
    if v.Int? then DoubleOfInt(v.i) else v.d
  }

  // ---- Strict equality ----

  /** `equalTo` with strict types.  Objects must agree in size, and every member of `b` must be
      found in `a` (`ObjectComparisonFunctor`) with an equal value. */
  predicate EqualTo(a: Value, b: Value)
    decreases Size(a), 1
  {
    match a
    case Null => b.Null?
    case Bool(x) => b.Bool? && b.b == x
    case Int(_) => IsNumber(b) && NumberOf(b) == NumberOf(a)
    case Double(_) => IsNumber(b) && NumberOf(b) == NumberOf(a)
    case Str(s) => b.Str? && b.s == s
    case Array(items) =>
      b.Array? && |items| == |b.items| &&
      forall k :: 0 <= k < |b.items| ==> EqualTo(items[k], b.items[k])
    case Object(members) =>
      b.Object? && |b.members| == |members| &&
      forall k :: 0 <= k < |b.members| ==> MemberEqual(a, b.members[k])
  }

  predicate MemberEqual(baseline: Value, m: Member)
    requires baseline.Object?
    decreases Size(baseline), 0
  {
    var found := Find(baseline.members, m.key);
    found.Some? && EqualTo(found.value, m.value)
  }

  /** What a JSON value denotes: numbers as doubles, objects as maps. */
  datatype Denotation =
    | DNull
    | DBool(b: bool)
    | DNumber(x: real)
    | DString(s: string)
    | DArray(items: seq<Denotation>)
    | DObject(fields: map<string, Denotation>)

  function Denote(v: Value): Denotation {
    match v
    case Null => DNull
    case Bool(b) => DBool(b)
    case Int(i) => DNumber(DoubleOfInt(i))
    case Double(d) => DNumber(d)
    case Str(s) => DString(s)
    case Array(items) => DArray(DenoteItems(items))
    case Object(members) => DObject(DenoteMembers(members))
  }

  function DenoteItems(items: seq<Value>): (ds: seq<Denotation>)
    ensures |ds| == |items|
    ensures forall k :: 0 <= k < |items| ==> ds[k] == Denote(items[k])
  {
    if items == [] then [] else [Denote(items[0])] + DenoteItems(items[1..])
  }

  function DenoteMembers(members: seq<Member>): (m: map<string, Denotation>)
    ensures m.Keys == set k | 0 <= k < |members| :: members[k].key
  {
    if members == [] then map[] else
      var rest := DenoteMembers(members[1..]);
      assert forall k :: 1 <= k < |members| ==> members[k] == members[1..][k - 1];
      assert forall k :: 0 <= k < |members[1..]| ==> members[1..][k] == members[k + 1];
      rest[members[0].key := Denote(members[0].value)]
  }

  lemma {:induction false} DenoteMembersAt(members: seq<Member>, k: nat)
    requires DistinctKeys(members) && k < |members|
    ensures members[k].key in DenoteMembers(members)
    ensures DenoteMembers(members)[members[k].key] == Denote(members[k].value)
  {
    if k > 0 {
      assert members[1..][k - 1] == members[k];
      DenoteMembersAt(members[1..], k - 1);
    }
  }

  lemma {:induction false} DenoteMembersSize(members: seq<Member>)
    requires DistinctKeys(members)
    ensures |DenoteMembers(members)| == |members|
  {
    if members != [] {
      var rest := DenoteMembers(members[1..]);
      DenoteMembersSize(members[1..]);
      assert members[0].key !in rest by {
        assert forall k :: 0 <= k < |members[1..]| ==> members[1..][k] == members[k + 1];
      }
      assert DenoteMembers(members).Keys == rest.Keys + {members[0].key};
    }
  }

  /** Main result on equality: two well-formed values are strictly equal exactly when they
      denote the same thing.  In spite of its one-sided member search, `equalTo` is the kernel
      of a function, hence an equivalence. */
  lemma {:induction false} EqualIffSameDenotation(a: Value, b: Value)
    requires WellFormed(a) && WellFormed(b)
    ensures EqualTo(a, b) <==> Denote(a) == Denote(b)
    decreases Size(a), 2
  {
    match a
    case Array(items) =>
      if b.Array? && |items| == |b.items| {
        forall k | 0 <= k < |items|
          ensures EqualTo(items[k], b.items[k]) <==> DenoteItems(items)[k] == DenoteItems(b.items)[k]
        {
          EqualIffSameDenotation(items[k], b.items[k]);
        }
        assert DenoteItems(items) == DenoteItems(b.items)
          <==> forall k :: 0 <= k < |items| ==> DenoteItems(items)[k] == DenoteItems(b.items)[k];
      } else if b.Array? {
        assert |DenoteItems(items)| != |DenoteItems(b.items)|;
      }
    case Object(members) =>
      if b.Object? {
        EqualObjects(a, b);
      }
    case _ =>
  }

  lemma {:induction false} EqualObjects(a: Value, b: Value)
    requires WellFormed(a) && WellFormed(b) && a.Object? && b.Object?
    ensures EqualTo(a, b) <==> DenoteMembers(a.members) == DenoteMembers(b.members)
    decreases Size(a), 1
  {
    var da, db := DenoteMembers(a.members), DenoteMembers(b.members);
    DenoteMembersSize(a.members);
    DenoteMembersSize(b.members);
    assert |da.Keys| == |a.members| && |db.Keys| == |b.members|;
    forall k | 0 <= k < |b.members|
      ensures SameUnder(da, db, b.members[k].key) <==> MemberEqual(a, b.members[k])
    {
      MemberEqualIff(a, b, k);
    }
    MembersDecide(a, b, da, db);
  }

  lemma MembersDecide(a: Value, b: Value, da: map<string, Denotation>, db: map<string, Denotation>)
    requires a.Object? && b.Object? && |da.Keys| == |a.members| && |db.Keys| == |b.members|
    requires forall key :: key in db <==> exists k :: 0 <= k < |b.members| && b.members[k].key == key
    requires forall k :: 0 <= k < |b.members| ==>
      (SameUnder(da, db, b.members[k].key) <==> MemberEqual(a, b.members[k]))
    ensures EqualTo(a, b) <==> da == db
  {
    hide MemberEqual, EqualTo, Size;
    EqualObjectsIs(a, b);
    if EqualTo(a, b) {
      forall key | key in db ensures SameUnder(da, db, key) {
        var k :| 0 <= k < |b.members| && b.members[k].key == key;
        assert MemberEqual(a, b.members[k]);
      }
      SameSizeSubset(db.Keys, da.Keys);
    }
    if da == db {
      forall k | 0 <= k < |b.members| ensures MemberEqual(a, b.members[k]) {
        assert b.members[k].key in db;
        assert SameUnder(da, db, b.members[k].key);
      }
    }
  }

  lemma EqualObjectsIs(a: Value, b: Value)
    requires a.Object? && b.Object?
    ensures EqualTo(a, b) <==>
      (|b.members| == |a.members| && forall k :: 0 <= k < |b.members| ==> MemberEqual(a, b.members[k]))
  {
    hide MemberEqual;
  }

  ghost predicate SameUnder(da: map<string, Denotation>, db: map<string, Denotation>, key: string) {
    key in da && key in db && da[key] == db[key]
  }

  lemma {:induction false} MemberEqualIff(a: Value, b: Value, k: nat)
    requires WellFormed(a) && WellFormed(b) && a.Object? && b.Object? && k < |b.members|
    ensures SameUnder(DenoteMembers(a.members), DenoteMembers(b.members), b.members[k].key)
      <==> MemberEqual(a, b.members[k])
    decreases Size(a), 0
  {
    var m := b.members[k];
    DenoteMembersAt(b.members, k);
    if Find(a.members, m.key).Some? {
      var j :| 0 <= j < |a.members| && a.members[j].key == m.key;
      FindAt(a.members, j);
      DenoteMembersAt(a.members, j);
      EqualIffSameDenotation(a.members[j].value, m.value);
    }
  }

  lemma SameSizeSubset<T>(small: set<T>, large: set<T>)
    requires small <= large && |small| == |large|
    ensures small == large
  {
    assert |large - small| == |large| - |small|;
  }

  lemma EqualToIsEquivalence(a: Value, b: Value, c: Value)
    requires WellFormed(a) && WellFormed(b) && WellFormed(c)
    ensures EqualTo(a, a)
    ensures EqualTo(a, b) ==> EqualTo(b, a)
    ensures EqualTo(a, b) && EqualTo(b, c) ==> EqualTo(a, c)
  {
    EqualIffSameDenotation(a, a);
    EqualIffSameDenotation(a, b);
    EqualIffSameDenotation(b, a);
    EqualIffSameDenotation(b, c);
    EqualIffSameDenotation(a, c);
  }

  /** Distinct names are needed for that: with a repeated name `equalTo` is not even symmetric.  The
      nlohmann adapter never presents such an object, because its trees hold members in a map. */
  lemma RepeatedNamesBreakSymmetry()
    ensures var a := Object([Member("x", Null), Member("y", Null)]);
      var b := Object([Member("x", Null), Member("x", Null)]);
      EqualTo(a, b) && !EqualTo(b, a)
  {
    var a := Object([Member("x", Null), Member("y", Null)]);
    var b := Object([Member("x", Null), Member("x", Null)]);
    assert Find(b.members, "y").None?;
    assert !MemberEqual(b, a.members[1]);
    assert MemberEqual(a, b.members[0]) && MemberEqual(a, b.members[1]);
  }

  lemma {:induction false} SmallIntegersAreExact(i: int)
    requires -(TWO_TO_53 as int) <= i <= TWO_TO_53
    ensures DoubleOfInt(i) == i as real
  {
    var n := if i >= 0 then i else -i;
    if n == TWO_TO_53 {
      assert Ulp(n / 2) == 1;
      assert Ulp(n) == 2;
      assert n / 2 * 2 == n;
    } else {
      assert Ulp(n) == 1;
    }
  }

  /** Integers that differ can be strictly equal: they are compared through doubles. */
  lemma DistinctIntegersCanBeEqual()
    ensures EqualTo(Int(TWO_TO_53), Int(TWO_TO_53 + 1))
  {
    var n := TWO_TO_53 + 1;
    assert Ulp(n / 2) == 1;
    assert Ulp(n) == 2 && n % 2 == 1 && (n / 2) % 2 == 0;
    SmallIntegersAreExact(TWO_TO_53);
  }

  predicate Within(i: int, b: int) { -b <= i <= b }

  /** Two to the 53rd is exactly how far from zero strict equality tells integers apart. */
  lemma IntegersApart(b: nat)
    ensures (forall i: int, j: int | Within(i, b) && Within(j, b) :: EqualTo(Int(i), Int(j)) <==> i == j) <==>
      b <= TWO_TO_53
  {
    hide Ulp, DoubleOfInt;
    if b <= TWO_TO_53 {
      forall i: int, j: int | Within(i, b) && Within(j, b) ensures EqualTo(Int(i), Int(j)) <==> i == j {
        SmallIntegersAreExact(i);
        SmallIntegersAreExact(j);
      }
    } else {
      DistinctIntegersCanBeEqual();
      var i, j := TWO_TO_53 as int, TWO_TO_53 as int + 1;
      assert Within(i, b) && Within(j, b) && EqualTo(Int(i), Int(j)) && i != j;
    }
  }

  // ---- The comparison loops ----

  /** `ArrayComparisonFunctor` run by `applyToArray`: the iterator `itr` into `a` advances by one
      at each call, and iteration stops at the first callback that returns false. */
  method EqualToByIteration(a: Value, b: Value) returns (r: bool)
    ensures r == EqualTo(a, b)
    decreases Size(a)
  {
    match a
    case Null => return b.Null?;
    case Bool(x) => return b.Bool? && b.b == x;
    case Int(_) => return IsNumber(b) && NumberOf(b) == NumberOf(a);
    case Double(_) => return IsNumber(b) && NumberOf(b) == NumberOf(a);
    case Str(s) => return b.Str? && b.s == s;
    case Array(items) =>
      if !b.Array? || |items| != |b.items| { return false; }
      var itr := 0;
      for n := 0 to |b.items|
        invariant itr == n
        invariant forall k :: 0 <= k < n ==> EqualTo(items[k], b.items[k])
      {
        if itr == |items| { return false; }
        var same := EqualToByIteration(items[itr], b.items[n]);
        itr := itr + 1;
        if !same { return false; }
      }
      return true;
    case Object(members) =>
      if !b.Object? || |b.members| != |members| { return false; }
      for n := 0 to |b.members|
        invariant forall k :: 0 <= k < n ==> MemberEqual(a, b.members[k])
      {
        var found := Find(members, b.members[n].key);
        if found.None? { return false; }
        var same := EqualToByIteration(found.value, b.members[n].value);
        if !same { return false; }
      }
      return true;
  }
}
