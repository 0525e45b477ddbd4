/** The in-memory payload adapter: a first-in, first-out cache with high and low marks. */
module PayloadCache {
  import opened Wrappers

  const TWO_TO_64: nat := 0x1_0000_0000_0000_0000
  const MEGABYTE: nat := 1024 * 1024

  // ---- Payloads and requests ----

  datatype Payload = Payload(id: string, pid: string, flavor: string, directory: string, structName: string,
                             uri: string,
                             createTime: int, deactiveTime: int, beginTime: int, endTime: int, run: int, seqNumber: int,
                             mode: int, dataSize: nat)
  {
    predicate Valid() {
      && directory != "" && structName != ""
      && (beginTime > 0 || run > 0)
      && (beginTime > 0 && endTime != 0 ==> beginTime < endTime)
    }

    predicate Ready() { Valid() && flavor != "" && pid != "" && (uri != "" || dataSize > 0) }
  }

  /** A decoded request path. */
  datatype Path = Path(flavors: seq<string>, directory: string, structName: string, valid: bool)

  datatype Moment = Moment(maxEntryTime: int, eventTime: int, run: int, seqNumber: int)

  predicate Matches(p: Payload, flavor: string, path: Path, m: Moment) {
    && p.flavor == flavor && p.structName == path.structName && p.directory == path.directory
    && (m.maxEntryTime > 0 ==> p.createTime <= m.maxEntryTime)
    && (m.maxEntryTime > 0 && p.deactiveTime > 0 ==> p.deactiveTime < m.maxEntryTime)
    && ((p.mode == 1 && p.beginTime <= m.eventTime <= p.endTime) ||
        (p.mode == 2 && p.run == m.run && p.seqNumber == m.seqNumber))
  }

  /** An unsigned 64-bit number assigned to a signed one. */
  function Signed(n: nat): int
    requires n < TWO_TO_64
  {
    if n < TWO_TO_64 / 2 then n else n - TWO_TO_64
  }

  datatype Override = Override(path: string, time: UnsignedTime)
  type UnsignedTime = n: nat | n < TWO_TO_64

  /** The entry time limit of the first override, in the order of iteration, whose path starts the
      requested one. */
  function EntryTime(overrides: seq<Override>, dirpath: string, otherwise: int): int {
    if overrides == [] then otherwise
    else if overrides[0].path <= dirpath then Signed(overrides[0].time)
    else EntryTime(overrides[1..], dirpath, otherwise)
  }

  function Flavors(path: Path, serviceFlavors: seq<string>): seq<string> {
    if path.flavors != [] then path.flavors else serviceFlavors
  }

  /** What a request asks for. */
  function Asked(path: Path, overrides: seq<Override>, m: Moment): Moment {
    m.(maxEntryTime := EntryTime(overrides, path.directory + "/" + path.structName, m.maxEntryTime))
  }

  // ---- What is asked for, field by field ----

  /** The payload lies in the directory, has the flavor, was entered and not yet deactivated at the limit,
      if there is one, and applies at that moment: by its interval in mode 1, by run and sequence number
      in mode 2. */
  ghost predicate Suits(p: Payload, flavor: string, path: Path, limit: int, m: Moment) {
    && p.flavor == flavor && p.directory == path.directory && p.structName == path.structName
    && (limit > 0 ==> p.createTime <= limit && (p.deactiveTime <= 0 || p.deactiveTime < limit))
    && (p.mode == 1 || p.mode == 2)
    && (p.mode == 1 ==> p.beginTime <= m.eventTime && m.eventTime <= p.endTime)
    && (p.mode == 2 ==> p.run == m.run && p.seqNumber == m.seqNumber)
  }

  /** The path of the override is how the requested one begins. */
  ghost predicate Begins(o: Override, dirpath: string) {
    |o.path| <= |dirpath| && dirpath[..|o.path|] == o.path
  }

  /** The limit comes from the first override with such a path, read as a signed number, or if there is
      none from the request. */
  ghost predicate IsLimit(limit: int, overrides: seq<Override>, dirpath: string, otherwise: int) {
    if exists i :: 0 <= i < |overrides| && Begins(overrides[i], dirpath) then
      exists i :: 0 <= i < |overrides| && IsFirst(overrides, dirpath, i) &&
        limit == if overrides[i].time < TWO_TO_64 / 2 then overrides[i].time else overrides[i].time - TWO_TO_64
    else limit == otherwise
  }

  ghost predicate IsFirst(overrides: seq<Override>, dirpath: string, i: nat)
    requires i < |overrides|
  {
    Begins(overrides[i], dirpath) && forall j :: 0 <= j < i ==> !Begins(overrides[j], dirpath)
  }

  lemma {:induction false} EntryTimeIsLimit(overrides: seq<Override>, dirpath: string, otherwise: int)
    ensures IsLimit(EntryTime(overrides, dirpath, otherwise), overrides, dirpath, otherwise)
  {
    if overrides != [] {
      var rest := overrides[1..];
      EntryTimeIsLimit(rest, dirpath, otherwise);
      assert overrides[0].path <= dirpath <==> Begins(overrides[0], dirpath);
      hide Begins;
      if Begins(overrides[0], dirpath) {
        assert IsFirst(overrides, dirpath, 0);
      } else {
        assert forall i :: 0 <= i < |rest| ==> rest[i] == overrides[i + 1];
        assert forall i :: 0 < i < |overrides| ==> overrides[i] == rest[i - 1];
        LimitOfRest(EntryTime(rest, dirpath, otherwise), overrides, dirpath, otherwise);
      }
    }
  }

  lemma LimitOfRest(limit: int, overrides: seq<Override>, dirpath: string, otherwise: int)
    requires overrides != [] && !Begins(overrides[0], dirpath) && IsLimit(limit, overrides[1..], dirpath, otherwise)
    ensures IsLimit(limit, overrides, dirpath, otherwise)
  {
    hide Begins;
    var rest := overrides[1..];
    if i: nat :| i < |rest| && Begins(rest[i], dirpath) {
      assert Begins(overrides[i + 1], dirpath);
      LimitGoesOn(limit, overrides, dirpath, otherwise);
    } else {
      forall i | 0 <= i < |overrides| ensures !Begins(overrides[i], dirpath) {
        assert i > 0 ==> !Begins(rest[i - 1], dirpath);
      }
    }
  }

  lemma LimitGoesOn(limit: int, overrides: seq<Override>, dirpath: string, otherwise: int)
    requires overrides != [] && !Begins(overrides[0], dirpath) && IsLimit(limit, overrides[1..], dirpath, otherwise)
    requires exists i :: 0 <= i < |overrides[1..]| && Begins(overrides[1..][i], dirpath)
    ensures exists i :: 0 <= i < |overrides| && IsFirst(overrides, dirpath, i) &&
              limit == if overrides[i].time < TWO_TO_64 / 2 then overrides[i].time else overrides[i].time - TWO_TO_64
  {
    hide Begins;
    var rest := overrides[1..];
    var i :| 0 <= i < |rest| && IsFirst(rest, dirpath, i) &&
             limit == if rest[i].time < TWO_TO_64 / 2 then rest[i].time else rest[i].time - TWO_TO_64;
    FirstOfRest(overrides, dirpath, i);
  }

  lemma FirstOfRest(overrides: seq<Override>, dirpath: string, i: nat)
    requires i + 1 < |overrides| && !Begins(overrides[0], dirpath) && IsFirst(overrides[1..], dirpath, i)
    ensures IsFirst(overrides, dirpath, i + 1)
  {
    hide Begins;
    forall j | 0 <= j < i + 1 ensures !Begins(overrides[j], dirpath) {
      assert j > 0 ==> overrides[j] == overrides[1..][j - 1];
    }
  }

  /** There is only one such limit. */
  lemma OneLimit(a: int, b: int, overrides: seq<Override>, dirpath: string, otherwise: int)
    requires IsLimit(a, overrides, dirpath, otherwise) && IsLimit(b, overrides, dirpath, otherwise)
    ensures a == b
  {
    hide Begins;
  }

  lemma MatchesIsSuits(p: Payload, flavor: string, path: Path, m: Moment)
    ensures Matches(p, flavor, path, m) <==> Suits(p, flavor, path, m.maxEntryTime, m)
  {
  }

  /** Item i is the oldest that suits flavor k, and nothing suits an earlier flavor. */
  ghost predicate Answers(cache: seq<Payload>, flavors: seq<string>, path: Path, limit: int, m: Moment,
                          k: nat, i: nat) {
    && k < |flavors| && i < |cache| && Suits(cache[i], flavors[k], path, limit, m)
    && (forall j :: 0 <= j < i ==> !Suits(cache[j], flavors[k], path, limit, m))
    && (forall l, j :: 0 <= l < k && 0 <= j < |cache| ==> !Suits(cache[j], flavors[l], path, limit, m))
  }

  ghost predicate IsAnswer(cache: seq<Payload>, flavors: seq<string>, path: Path, limit: int, m: Moment, p: Payload) {
    exists k, i: nat :: Answers(cache, flavors, path, limit, m, k, i) && p == cache[i]
  }

  ghost predicate NoAnswer(cache: seq<Payload>, flavors: seq<string>, path: Path, limit: int, m: Moment) {
    forall l, j :: 0 <= l < |flavors| && 0 <= j < |cache| ==> !Suits(cache[j], flavors[l], path, limit, m)
  }

  /** There is at most one answer. */
  lemma OneAnswer(cache: seq<Payload>, flavors: seq<string>, path: Path, limit: int, m: Moment,
                  k: nat, i: nat, k': nat, i': nat)
    requires Answers(cache, flavors, path, limit, m, k, i) && Answers(cache, flavors, path, limit, m, k', i')
    ensures k == k' && i == i'
  {
    hide Suits;
  }

  // ---- Limits ----

  datatype Limits = Limits(sizeLow: nat, sizeHigh: nat, itemLow: nat, itemHigh: nat)

  const DEFAULT_LIMITS: Limits := Limits(50 * MEGABYTE, 100 * MEGABYTE, 5000, 10000)

  function TotalSize(cache: seq<Payload>): nat {
    if cache == [] then 0 else cache[0].dataSize + TotalSize(cache[1..])
  }

  lemma {:induction false} TotalSizeAppend(cache: seq<Payload>, p: Payload)
    ensures TotalSize(cache + [p]) == TotalSize(cache) + p.dataSize
  {
    if cache != [] {
      assert (cache + [p])[1..] == cache[1..] + [p];
      TotalSizeAppend(cache[1..], p);
    }
  }

  /** Eviction starts when there are several items and one of the high marks has been reached. */
  predicate Full(l: Limits, count: nat, bytes: nat) { count > 1 && (bytes >= l.sizeHigh || count >= l.itemHigh) }

  predicate Low(l: Limits, count: nat, bytes: nat) { bytes <= l.sizeLow && count <= l.itemLow }

  /** The counter of bytes, which wraps around. */
  function Bytes(cache: seq<Payload>): nat { TotalSize(cache) % TWO_TO_64 }

  /** How many items have to go from the front until both low marks are met. */
  function Excess(l: Limits, cache: seq<Payload>): (n: nat)
    ensures n <= |cache|
  {
    if cache == [] || Low(l, |cache|, Bytes(cache)) then 0 else 1 + Excess(l, cache[1..])
  }

  /** Eviction stops at the first moment at which both low marks are met, and it always gets there. */
  lemma {:induction false} ExcessIsLeast(l: Limits, cache: seq<Payload>)
    ensures var n := Excess(l, cache);
      && Bytes(cache[n..]) <= l.sizeLow && |cache| - n <= l.itemLow
      && forall k :: 0 <= k < n ==> Bytes(cache[k..]) > l.sizeLow || |cache| - k > l.itemLow
  {
    if cache != [] && !Low(l, |cache|, Bytes(cache)) {
      ExcessIsLeast(l, cache[1..]);
      var n := Excess(l, cache);
      assert cache[n..] == cache[1..][n - 1..];
      forall k | 0 <= k < n ensures Bytes(cache[k..]) > l.sizeLow || |cache| - k > l.itemLow {
        assert k > 0 ==> cache[k..] == cache[1..][k - 1..];
      }
    }
  }

  /** The cache after one accepted payload. */
  function Accept(l: Limits, cache: seq<Payload>, p: Payload): seq<Payload> {
    var more := cache + [p];
    if Full(l, |more|, Bytes(more)) then more[Excess(l, more)..] else more
  }

  /** The calls that change an adapter. */
  datatype Call = SetPayload(payload: Payload) | SetCacheSizeLimit(lo: nat, hi: nat) | SetCacheItemLimit(lo: nat,
      hi: nat)

  datatype CacheState = CacheState(limits: Limits, cache: seq<Payload>)

  predicate Accepted(c: Call) { c.SetPayload? && c.payload.Ready() && c.payload.endTime != 0 }

  function Next(s: CacheState, c: Call): CacheState {
    match c
    case SetPayload(p) => if Accepted(c) then s.(cache := Accept(s.limits, s.cache, p)) else s
    case SetCacheSizeLimit(lo, hi) => s.(limits := s.limits.(sizeLow := lo, sizeHigh := hi))
    case SetCacheItemLimit(lo, hi) => s.(limits := ItemLimitAsWritten(s.limits, lo, hi))
  }

  /** The state after a run of calls on a new adapter. */
  function After(calls: seq<Call>): CacheState {
    if calls == [] then CacheState(DEFAULT_LIMITS, []) else Next(After(calls[..|calls| - 1]), calls[|calls| - 1])
  }

  /** The payloads of a run that were accepted. */
  function History(calls: seq<Call>): seq<Payload> {
    if calls == [] then [] else
      var last := calls[|calls| - 1];
      History(calls[..|calls| - 1]) + if Accepted(last) then [last.payload] else []
  }

  predicate SuffixOf(s: seq<Payload>, t: seq<Payload>) {
    |s| <= |t| && s == t[|t| - |s|..]
  }

  /** A single item, or both high marks are kept, or both low marks are met. */
  ghost predicate WithinMarks(l: Limits, cache: seq<Payload>) {
    || |cache| <= 1
    || (Bytes(cache) < l.sizeHigh && |cache| < l.itemHigh)
    || (Bytes(cache) <= l.sizeLow && |cache| <= l.itemLow)
  }

  lemma AcceptKeepsSuffix(l: Limits, cache: seq<Payload>, p: Payload, history: seq<Payload>)
    requires SuffixOf(cache + [p], history)
    ensures var kept := Accept(l, cache, p);
      && SuffixOf(kept, history)
      && WithinMarks(l, kept)
  {
    hide Bytes;
    ExcessIsLeast(l, cache + [p]);
  }

  /** Over any run of calls, limits changed in between or not, the cache is a suffix of what was
      accepted; and right after a payload has been accepted, it holds no more than the high marks of
      that moment allow, unless it holds a single item or meets both low marks. */
  lemma {:induction false} RunsKeepSuffix(calls: seq<Call>)
    ensures var s := After(calls);
      && SuffixOf(s.cache, History(calls))
      && (calls != [] && Accepted(calls[|calls| - 1]) ==>
            WithinMarks(s.limits, s.cache))
  {
    hide Accept, WithinMarks, SuffixOf, After, History;
    LastCall(calls);
    if calls != [] {
      var before, last := calls[..|calls| - 1], calls[|calls| - 1];
      RunsKeepSuffix(before);
      if Accepted(last) {
        var s := After(before);
        OneMoreKept(s.cache, History(before), last.payload);
        AcceptKeepsSuffix(s.limits, s.cache, last.payload, History(calls));
      }
    }
  }

  lemma LastCall(calls: seq<Call>)
    ensures calls == [] ==> After(calls).cache == [] && History(calls) == [] && SuffixOf([], [])
    ensures calls != [] ==>
      var before, last := calls[..|calls| - 1], calls[|calls| - 1];
      var s := After(before);
      && (Accepted(last) ==>
            After(calls) == s.(cache := Accept(s.limits, s.cache, last.payload)) &&
            History(calls) == History(before) + [last.payload])
      && (!Accepted(last) ==> After(calls).cache == s.cache && History(calls) == History(before))
  {
    hide Accept, Bytes;
  }

  lemma OneMoreKept(cache: seq<Payload>, history: seq<Payload>, p: Payload)
    requires SuffixOf(cache, history)
    ensures SuffixOf(cache + [p], history + [p])
  {
  }

  class PayloadAdapterMemory {
    var cache: seq<Payload>
    var cacheSizeBytes: nat
    var limits: Limits

    /** The counter is the sum of the sizes of what is cached, modulo 2^64. */
    ghost predicate Valid()
      reads this
    {
      cacheSizeBytes == Bytes(cache)
    }

    ghost function State(): CacheState
      reads this
    {
      CacheState(limits, cache)
    }

    constructor ()
      ensures Valid() && cache == [] && limits == Limits(50 * 1024 * 1024, 100 * 1024 * 1024, 5000, 10000)
      ensures State() == After([])
    {
      cache := [];
      cacheSizeBytes := 0;
      limits := DEFAULT_LIMITS;
    }

    /** `setPayload`: None stands for the refusal. */
    method SetPayload(p: Payload) returns (r: Option<string>)
      requires Valid()
      modifies this
      ensures Valid() && limits == old(limits)
      ensures r.Some? ==> r.value == p.id
      ensures r.Some? <==>
        && p.directory != "" && p.structName != "" && p.flavor != "" && p.pid != "" && (p.uri != "" || p.dataSize > 0)
        && p.endTime != 0 && (p.beginTime > 0 || p.run > 0) && (p.beginTime > 0 ==> p.beginTime < p.endTime)
      ensures cache == if r.Some? then Accept(limits, old(cache), p) else old(cache)
      ensures State() == Next(old(State()), Call.SetPayload(p))
    {
      if !p.Ready() || p.endTime == 0 { return None; }
      TotalSizeAppend(cache, p);
      cache := cache + [p];
      cacheSizeBytes := (cacheSizeBytes + p.dataSize) % TWO_TO_64;
      var _ := MaintainCacheWithinLimits();
      return Some(p.id);
    }

    /** `maintainCacheWithinLimits`: never takes an item from an empty cache. */
    method MaintainCacheWithinLimits() returns (evicted: bool)
      requires Valid()
      modifies this
      ensures Valid() && limits == old(limits)
      ensures evicted <==>
        |old(cache)| > 1 && (Bytes(old(cache)) >= limits.sizeHigh || |old(cache)| >= limits.itemHigh)
      ensures evicted ==> Bytes(cache) <= limits.sizeLow && |cache| <= limits.itemLow
      ensures cache == if evicted then old(cache)[Excess(limits, old(cache))..] else old(cache)
    {
      if |cache| <= 1 { return false; }
      if cacheSizeBytes < limits.sizeHigh && |cache| < limits.itemHigh { return false; }
      ghost var n: nat := 0;
      while cacheSizeBytes > limits.sizeLow || |cache| > limits.itemLow
        invariant Valid() && limits == old(limits)
        invariant n <= |old(cache)| && cache == old(cache)[n..]
        invariant Excess(limits, old(cache)) == n + Excess(limits, cache)
        decreases |cache|
      {
        assert cache != [];
        var size := cache[0].dataSize;
        WrapDifference(size, TotalSize(cache[1..]));
        cache := cache[1..];
        cacheSizeBytes := (cacheSizeBytes - size) % TWO_TO_64;
        n := n + 1;
      }
      return true;
    }

    /** `setCacheSizeLimit`. */
    method SetCacheSizeLimit(lo: nat, hi: nat)
      requires Valid()
      modifies this`limits
      ensures Valid() && limits == old(limits).(sizeLow := lo, sizeHigh := hi)
      ensures State() == Next(old(State()), Call.SetCacheSizeLimit(lo, hi))
    {
      limits := limits.(sizeLow := lo, sizeHigh := hi);
    }

    /** `setCacheItemLimit`, as written: the second argument becomes the high mark for bytes. */
    method SetCacheItemLimit(lo: nat, hi: nat)
      requires Valid()
      modifies this`limits
      ensures Valid() && limits == ItemLimitAsWritten(old(limits), lo, hi)
      ensures State() == Next(old(State()), Call.SetCacheItemLimit(lo, hi))
    {
      limits := limits.(itemLow := lo);
      limits := limits.(sizeHigh := hi);
    }

    /** `getPayload`: the oldest match of the first flavor that has one; the flavors of the path if it has
        any, otherwise those of the service. */
    method GetPayload(path: Path, serviceFlavors: seq<string>, overrides: seq<Override>,
                      m: Moment) returns (r: Option<Payload>)
      ensures r.Some? ==>
        path.valid && path.directory != "" && path.structName != "" && (path.flavors != [] || serviceFlavors != [])
      ensures var flavors := if path.flavors == [] then serviceFlavors else path.flavors;
        exists limit ::
          && IsLimit(limit, overrides, path.directory + "/" + path.structName, m.maxEntryTime)
          && (r.Some? ==> IsAnswer(cache, flavors, path, limit, m, r.value))
          && (path.valid && path.directory != "" && path.structName != "" ==>
                (r.None? <==> NoAnswer(cache, flavors, path, limit, m)))
    {
      hide Matches, Suits, EntryTime, IsLimit;
      ghost var dirpath := path.directory + "/" + path.structName;
      EntryTimeIsLimit(overrides, dirpath, m.maxEntryTime);
      ghost var limit := EntryTime(overrides, dirpath, m.maxEntryTime);
      if !path.valid || (|serviceFlavors| == 0 && |path.flavors| == 0) { return None; }
      if |path.directory| == 0 || |path.structName| == 0 { return None; }
      var asked := Asked(path, overrides, m);
      var flavors := Flavors(path, serviceFlavors);
      for k := 0 to |flavors|
        invariant forall l, j :: 0 <= l < k && 0 <= j < |cache| ==> !Suits(cache[j], flavors[l], path, limit, m)
      {
        var i := FindMatch(flavors[k], path, asked);
        AskedIs(cache, flavors[k], path, overrides, m);
        if i < |cache| {
          assert Answers(cache, flavors, path, limit, m, k, i);
          return Some(cache[i]);
        }
      }
      return None;
    }

    /** `std::find_if` over the cache. */
    method FindMatch(flavor: string, path: Path, m: Moment) returns (i: nat)
      ensures i <= |cache| && forall j :: 0 <= j < i ==> !Matches(cache[j], flavor, path, m)
      ensures i < |cache| ==> Matches(cache[i], flavor, path, m)
    {
      hide Matches;
      i := 0;
      while i < |cache| && !Matches(cache[i], flavor, path, m)
        invariant i <= |cache| && forall j :: 0 <= j < i ==> !Matches(cache[j], flavor, path, m)
      {
        i := i + 1;
      }
    }
  }

  /** With the limit in place of the entry time asked for, matching is suiting. */
  lemma AskedIs(cache: seq<Payload>, flavor: string, path: Path, overrides: seq<Override>, m: Moment)
    ensures var limit := EntryTime(overrides, path.directory + "/" + path.structName, m.maxEntryTime);
      forall j :: 0 <= j < |cache| ==>
        (Matches(cache[j], flavor, path, Asked(path, overrides, m)) <==> Suits(cache[j], flavor, path, limit, m))
  {
    hide Matches, Suits, EntryTime;
    var dirpath := path.directory + "/" + path.structName;
    forall j | 0 <= j < |cache|
      ensures Matches(cache[j], flavor, path, Asked(path, overrides, m)) <==>
        Suits(cache[j], flavor, path, EntryTime(overrides, dirpath, m.maxEntryTime), m)
    {
      MatchesIsSuits(cache[j], flavor, path, Asked(path, overrides, m));
      SameMoment(cache[j], flavor, path, overrides, m);
    }
  }

  lemma SameMoment(p: Payload, flavor: string, path: Path, overrides: seq<Override>, m: Moment)
    ensures var asked := Asked(path, overrides, m);
      Suits(p, flavor, path, asked.maxEntryTime, asked) <==> Suits(p, flavor, path, asked.maxEntryTime, m)
  {
    hide EntryTime;
  }

  lemma WrapDifference(a: nat, b: nat)
    ensures ((a + b) % TWO_TO_64 - a) % TWO_TO_64 == b % TWO_TO_64
  {
  }

  // ---- The item limit ----

  function ItemLimitAsWritten(l: Limits, lo: nat, hi: nat): Limits { l.(itemLow := lo, sizeHigh := hi) }
  function ItemLimitAsNamed(l: Limits, lo: nat, hi: nat): Limits { l.(itemLow := lo, itemHigh := hi) }

  /** The condition under which the slip makes no difference: the new mark equals both old high marks,
      or eviction starts at every second item either way. */
  predicate SlipIsHarmless(l: Limits, hi: nat) {
    (hi == l.sizeHigh && hi == l.itemHigh) || ((hi == 0 || l.itemHigh <= 2) && (l.sizeHigh == 0 || hi <= 2))
  }

  /** What the function does and what its name says start eviction at the same moments exactly under
      that condition. */
  lemma ItemLimitSlip(l: Limits, lo: nat, hi: nat)
    ensures (forall count, bytes ::
               Full(ItemLimitAsWritten(l, lo, hi), count, bytes) == Full(ItemLimitAsNamed(l, lo, hi), count, bytes))
      <==> SlipIsHarmless(l, hi)
  {
    var w, d := ItemLimitAsWritten(l, lo, hi), ItemLimitAsNamed(l, lo, hi);
    if forall count, bytes :: Full(w, count, bytes) == Full(d, count, bytes) {
      assert Full(w, 2, 0) == Full(d, 2, 0);
      assert Full(w, 2, hi) == Full(d, 2, hi);
      assert Full(w, 2, l.sizeHigh) == Full(d, 2, l.sizeHigh);
      assert Full(w, l.itemHigh, 0) == Full(d, l.itemHigh, 0);
      assert Full(w, hi, 0) == Full(d, hi, 0);
    }
  }

  /** With the default limits, asking for at most 100 items makes eviction start at 100 bytes. */
  lemma HundredItemsBecomeHundredBytes(count: nat, bytes: nat)
    ensures Full(ItemLimitAsWritten(DEFAULT_LIMITS, 50, 100), count, bytes) <==>
      count > 1 && (bytes >= 100 || count >= 10000)
    ensures !SlipIsHarmless(DEFAULT_LIMITS, 100)
  {
  }
}
