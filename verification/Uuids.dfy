/** Universally unique identifiers: printing, parsing, and version 1 identifiers. */
module Uuids {
  import opened Strings

  const TWO_TO_64: nat := 0x1_0000_0000_0000_0000

  type Half = n: nat | n < TWO_TO_64

  datatype Uuid = Uuid(ab: Half, cd: Half)

  // ---- Hexadecimal notation ----

  function HexDigit(d: nat): char
    requires d < 16
  {
    if d < 10 then '0' + d as char else 'a' + (d - 10) as char
  }

  /** The last n hexadecimal digits of x. */
  function HexDigits(x: nat, n: nat): (s: string)
    ensures |s| == n && forall k :: 0 <= k < n ==> s[k] != '-'
  {
    if n == 0 then "" else HexDigits(x / 16, n - 1) + [HexDigit(x % 16)]
  }

  /** `decode`: anything that is not a hexadecimal digit counts as zero. */
  function HexValue(c: char): (d: nat)
    ensures d < 16
  {
    if 'a' <= c <= 'f' then c as nat - 'a' as nat + 10
    else if 'A' <= c <= 'F' then c as nat - 'A' as nat + 10
    else if '0' <= c <= '9' then c as nat - '0' as nat
    else 0
  }

  /** Shifting in the digits of s one after the other, modulo 2^64. */
  function FoldHex(s: string, acc: Half): Half {
    if s == "" then acc else (16 * FoldHex(s[..|s| - 1], acc) % TWO_TO_64 + HexValue(s[|s| - 1])) % TWO_TO_64
  }

  function Power(base: nat, n: nat): nat { if n == 0 then 1 else base * Power(base, n - 1) }

  lemma HexBack(d: nat)
    requires d < 16
    ensures HexValue(HexDigit(d)) == d
  {
  }

  lemma ShiftBack(x: nat)
    requires x < TWO_TO_64
    ensures (16 * (x / 16) % TWO_TO_64 + x % 16) % TWO_TO_64 == x
  {
    assert 16 * (x / 16) + x % 16 == x;
  }

  lemma {:induction false} FoldHexDigits(x: nat, n: nat)
    requires x < Power(16, n) && x < TWO_TO_64
    ensures FoldHex(HexDigits(x, n), 0) == x
  {
    hide HexDigit, HexValue;
    if n > 0 {
      var s := HexDigits(x, n);
      assert s[..|s| - 1] == HexDigits(x / 16, n - 1);
      FoldHexDigits(x / 16, n - 1);
      HexBack(x % 16);
      ShiftBack(x);
    }
  }

  /** The digit that shifting by four times `bit` brings to the end. */
  function Nibble(x: nat, bit: nat): (d: nat)
    ensures d < 16
  {
    if bit == 0 then x % 16 else Nibble(x / 16, bit - 1)
  }

  lemma {:induction false} HexDigitAt(x: nat, n: nat, k: nat)
    requires k < n
    ensures HexDigits(x, n)[k] == HexDigit(Nibble(x, n - 1 - k))
  {
    hide HexDigit;
    if k < n - 1 { HexDigitAt(x / 16, n - 1, k); }
  }

  /** `str`: eight, four, four, four and twelve digits. */
  function Str(u: Uuid): (s: string)
    ensures |s| == 36
  {
    var a, c := HexDigits(u.ab, 16), HexDigits(u.cd, 16);
    a[..8] + "-" + a[8..12] + "-" + a[12..] + "-" + c[..4] + "-" + c[4..]
  }

  // ---- Base 62 notation ----

  function Digit62(d: nat): (c: char)
    requires d < 62
    ensures c != '-'
  {
    if d < 10 then '0' + d as char else if d < 36 then 'A' + (d - 10) as char else 'a' + (d - 36) as char
  }

  function Digits62(x: nat): (s: string)
    ensures s != "" && forall k :: 0 <= k < |s| ==> s[k] != '-'
  {
    if x < 62 then [Digit62(x)] else Digits62(x / 62) + [Digit62(x % 62)]
  }

  function Base62(u: Uuid): string { Digits62(u.ab) + "-" + Digits62(u.cd) }

  /** `strpos`, on a signed character; a negative difference wraps around. */
  function Value62(c: char): Half {
    var ch := if c as int < 128 then c as int else c as int - 256;
    if ch >= 97 then (ch - 61) % TWO_TO_64 else if ch >= 65 then ch - 55 else (ch - 48) % TWO_TO_64
  }

  /** `rebase62`: the first character counts even if there is none to count. */
  function Rebase62(s: string): Half
    requires s != ""
  {
    if |s| == 1 then Value62(s[0]) else (62 * Rebase62(s[..|s| - 1]) + Value62(s[|s| - 1])) % TWO_TO_64
  }

  lemma Value62Digit(d: nat)
    requires d < 62
    ensures Value62(Digit62(d)) == d
  {
  }

  lemma {:induction false} Rebase62Digits(x: nat)
    requires x < TWO_TO_64
    ensures Rebase62(Digits62(x)) == x
  {
    Value62Digit(x % 62);
    hide Value62, Digit62;
    if x >= 62 {
      var s := Digits62(x);
      assert s[..|s| - 1] == Digits62(x / 62);
      Rebase62Digits(x / 62);
    }
  }

  lemma {:induction false} Digits62Length(x: nat, n: nat)
    requires n > 0 && x < Power(62, n)
    ensures |Digits62(x)| <= n
  {
    if x >= 62 { Digits62Length(x / 62, n - 1); }
  }

  /** A half has at most eleven digits. */
  lemma ElevenDigits(x: Half)
    ensures |Digits62(x)| <= 11
  {
    assert Power(62, 5) == 916132832;
    assert Power(62, 11) == 62 * 62 * 62 * 62 * 62 * 62 * 916132832;
    Digits62Length(x, 11);
  }

  // ---- What is read ----

  /** What `rebase62` reads between two positions. */
  function Taken(s: string, from: nat, to: nat): (t: string)
    requires from <= to <= |s|
    ensures t != ""
  {
    if from < to then s[from..to] else if from < |s| then [s[from]] else ['\0']
  }

  predicate HasTwoDashes(s: string) {
    var i := IndexFrom(s, '-', 0);
    i < |s| && IndexFrom(s, '-', i + 1) < |s|
  }

  /** A string can be read at its length, where it is terminated, but not beyond. */
  function CharAt(s: string, k: nat): char { if k < |s| then s[k] else '\0' }

  predicate HoldsHex(k: nat) { k != 8 && k != 13 && k != 18 && k != 23 }

  function HexPositions(): (r: set<nat>)
    ensures 35 in r && forall k <- r :: k <= 35
  {
    set k: nat | k < 36 && HoldsHex(k)
  }

  /** Positions read while a separator is looked for at these; the first one that is found has the
      hexadecimal digits read. */
  ghost function Touched(s: string, checks: seq<nat>): set<nat> {
    if checks == [] then {}
    else {checks[0]} + if CharAt(s, checks[0]) == '-' then HexPositions() else Touched(s, checks[1..])
  }

  /** Positions that `rebase62` reads, given where it starts and its limit: the first one in any case. */
  function ReadIn62(from: nat, limit: nat): (r: set<nat>)
    ensures forall k :: k in r <==> k == from || from < k < from + limit
  {
    if limit <= 1 then {from} else ReadIn62(from, limit - 1) + {from + limit - 1}
  }

  /** All positions read by index, in either notation. */
  ghost function PositionsRead(s: string): set<nat> {
    var i := IndexFrom(s, '-', 0);
    if i == |s| then {}
    else if IndexFrom(s, '-', i + 1) == |s| then ReadIn62(0, i) + ReadIn62(i + 1, |s| - (i + 1))
    else Touched(s, [8, 13, 18, 23])
  }

  /** None of them lies beyond the end. */
  ghost predicate StaysInside(s: string) { forall k <- PositionsRead(s) :: k <= |s| }

  predicate NoDashChecked(s: string) {
    CharAt(s, 8) != '-' && CharAt(s, 13) != '-' && CharAt(s, 18) != '-' && CharAt(s, 23) != '-'
  }

  /** Up to one separator, or 35 characters, or 23 without a separator where one is looked for. */
  predicate LongEnough(s: string) {
    HasTwoDashes(s) ==> |s| >= 35 || (|s| >= 23 && NoDashChecked(s))
  }

  /** The exact condition for `rebuild` to read nothing beyond the end of its argument. */
  lemma InsideExactly(s: string)
    ensures StaysInside(s) <==> LongEnough(s)
  {
    hide Touched, HasTwoDashes, HexPositions, PositionsRead;
    if HasTwoDashes(s) { InHexExactly(s); } else { In62Inside(s); }
    TouchedOne(s, [8, 13, 18, 23]);
    TouchedOne(s, [13, 18, 23]);
    TouchedOne(s, [18, 23]);
    TouchedOne(s, [23]);
  }

  /** In base 62 notation the characters taken are those at the positions read, the terminator included. */
  lemma TakenIsRead(s: string, from: nat, limit: nat) returns (t: string)
    requires from + limit <= |s|
    ensures t == Taken(s, from, from + limit)
    ensures forall k :: k in ReadIn62(from, limit) <==> from <= k < from + |t|
    ensures forall j :: 0 <= j < |t| ==> t[j] == CharAt(s, from + j)
  {
    t := Taken(s, from, from + limit);
  }

  /** With two separators, only positions below 36 are read, or those where a separator is looked for. */
  lemma InHexExactly(s: string)
    requires HasTwoDashes(s)
    ensures PositionsRead(s) == Touched(s, [8, 13, 18, 23])
  {
    hide Touched, ReadIn62;
  }

  /** With one separator, nothing beyond the end is read. */
  lemma In62Inside(s: string)
    requires !HasTwoDashes(s)
    ensures StaysInside(s)
  {
    hide Touched, IndexFrom;
  }

  lemma TouchedOne(s: string, checks: seq<nat>)
    requires checks != []
    ensures Touched(s, checks) ==
      {checks[0]} + if CharAt(s, checks[0]) == '-' then HexPositions() else Touched(s, checks[1..])
    ensures |checks| == 4 ==> checks[1..] == [checks[1], checks[2], checks[3]]
    ensures |checks| == 3 ==> checks[1..] == [checks[1], checks[2]]
    ensures |checks| == 2 ==> checks[1..] == [checks[1]]
    ensures |checks| == 1 ==> Touched(s, checks[1..]) == {}
  {
  }

  // ---- Round trips ----

  /** The string with its terminator, if it takes that for the last digit. */
  function Terminated(s: string): string { if |s| == 35 then s + ['\0'] else s }

  function Rebuild(s: string): Uuid
    requires LongEnough(s)
  {
    var i := IndexFrom(s, '-', 0);
    if i == |s| then Uuid(0, 0)
    else if IndexFrom(s, '-', i + 1) == |s| then Uuid(Rebase62(Taken(s, 0, i)), Rebase62(Taken(s, i + 1, |s|)))
    else if NoDashChecked(s) then Uuid(0, 0)
    else
      var t := Terminated(s);
      Uuid(FoldHex(t[..8] + t[9..13] + t[14..18], 0), FoldHex(t[19..23] + t[24..36], 0))
  }

  lemma DashAt(s: string, from: nat, k: nat)
    requires from <= k < |s| && s[k] == '-' && forall j :: from <= j < k ==> s[j] != '-'
    ensures IndexFrom(s, '-', from) == k
  {
    var i := IndexFrom(s, '-', from);
    assert i <= k ==> s[i] == '-';
  }

  lemma NoDash(s: string, from: nat)
    requires from <= |s| && forall k :: from <= k < |s| ==> s[k] != '-'
    ensures IndexFrom(s, '-', from) == |s|
  {
  }

  /** Parsing the hexadecimal form gives back the identifier. */
  lemma RebuildStr(u: Uuid)
    ensures LongEnough(Str(u)) && Rebuild(Str(u)) == u
  {
    hide FoldHex, HexDigits;
    var s, a, c := Str(u), HexDigits(u.ab, 16), HexDigits(u.cd, 16);
    DashAt(s, 0, 8);
    assert forall j :: 9 <= j < 13 ==> s[j] == a[j - 1];
    DashAt(s, 9, 13);
    assert s[..8] + s[9..13] + s[14..18] == a;
    assert s[19..23] + s[24..36] == c;
    assert Power(16, 4) == 0x1_0000;
    assert Power(16, 8) == 0x1_0000_0000;
    assert Power(16, 12) == 0x1_0000_0000_0000;
    assert Power(16, 16) == TWO_TO_64;
    FoldHexDigits(u.ab, 16);
    FoldHexDigits(u.cd, 16);
  }

  /** Parsing the base 62 form gives back the identifier. */
  lemma RebuildBase62(u: Uuid)
    ensures LongEnough(Base62(u)) && Rebuild(Base62(u)) == u
  {
    hide Rebase62, Digits62;
    var s, a, c := Base62(u), Digits62(u.ab), Digits62(u.cd);
    assert s == a + ("-" + c);
    DashAt(s, 0, |a|);
    forall k | |a| + 1 <= k < |s| ensures s[k] != '-' {
      assert s[k] == c[k - |a| - 1];
    }
    NoDash(s, |a| + 1);
    assert s[0..|a|] == a && s[|a| + 1..|s|] == c;
    Rebase62Digits(u.ab);
    Rebase62Digits(u.cd);
  }

  // ---- The loops ----

  method PrintHex(u: Uuid) returns (s: string)
    ensures s == Str(u)
  {
    hide HexDigit, HexDigits, Nibble, Str;
    var uustr := new char[36](i => if i == 8 || i == 13 || i == 18 || i == 23 then '-' else '0');
    var bit := 15;
    for i := 0 to 18
      invariant bit == 15 - i + (if i > 8 then 1 else 0) + (if i > 13 then 1 else 0)
      invariant forall k :: 0 <= k < 36 ==>
        uustr[k] == if k < i then Str(u)[k] else if k == 8 || k == 13 || k == 18 || k == 23 then '-' else '0'
    {
      StrAt(u, i);
      if i == 8 || i == 13 { continue; }
      uustr[i] := HexDigit(Nibble(u.ab, bit));
      bit := bit - 1;
    }
    bit := 15;
    for i := 18 to 36
      invariant bit == 15 - (i - 18) + (if i > 18 then 1 else 0) + (if i > 23 then 1 else 0)
      invariant forall k :: 0 <= k < 36 ==>
        uustr[k] == if k < i then Str(u)[k] else if k == 18 || k == 23 then '-' else '0'
    {
      StrAt(u, i);
      if i == 18 || i == 23 { continue; }
      uustr[i] := HexDigit(Nibble(u.cd, bit));
      bit := bit - 1;
    }
    return uustr[..];
  }

  lemma StrAt(u: Uuid, i: nat)
    requires i < 36
    ensures Str(u)[i] ==
      if i == 8 || i == 13 || i == 18 || i == 23 then '-'
      else if i < 8 then HexDigit(Nibble(u.ab, 15 - i))
      else if i < 13 then HexDigit(Nibble(u.ab, 16 - i))
      else if i < 18 then HexDigit(Nibble(u.ab, 17 - i))
      else if i < 23 then HexDigit(Nibble(u.cd, 34 - i))
      else HexDigit(Nibble(u.cd, 35 - i))
  {
    hide HexDigit, HexDigits, Nibble;
    if i < 18 && i != 8 && i != 13 {
      HexDigitAt(u.ab, 16, if i < 8 then i else if i < 13 then i - 1 else i - 2);
    } else if i > 18 && i != 23 {
      HexDigitAt(u.cd, 16, if i < 23 then i - 19 else i - 20);
    }
  }

  lemma DigitsStep(x: nat)
    ensures Digits62(x) == (if x / 62 > 0 then Digits62(x / 62) else "") + [Digit62(x % 62)]
  {
    hide Digit62;
  }

  /** Writes the digits of x so that they end before `end`; at least one, even for zero. */
  method WriteDigits(x: Half, res: array<char>, end: nat) returns (e: nat)
    requires |Digits62(x)| <= end <= res.Length
    modifies res
    ensures e == end - |Digits62(x)| && res[e..end] == Digits62(x)
    ensures forall k :: 0 <= k < res.Length && !(e <= k < end) ==> res[k] == old(res[k])
  {
    hide Digit62, Digits62;
    DigitsStep(x);
    var rest: nat := x;
    e := end - 1;
    res[e] := Digit62(rest % 62);
    rest := rest / 62;
    while rest > 0
      invariant 0 < |Digits62(rest)| && e < end && (rest > 0 ==> |Digits62(rest)| <= e)
      invariant Digits62(x) == (if rest > 0 then Digits62(rest) else "") + res[e..end]
      invariant forall k :: 0 <= k < res.Length && !(e <= k < end) ==> res[k] == old(res[k])
      decreases rest
    {
      ghost var done := res[e..end];
      DigitsStep(rest);
      e := e - 1;
      res[e] := Digit62(rest % 62);
      assert res[e..end] == [Digit62(rest % 62)] + done;
      rest := rest / 62;
    }
  }

  /** `base62`: the buffer of 24 characters is never too small. */
  method PrintBase62(u: Uuid) returns (s: string)
    ensures s == Base62(u)
  {
    hide Digits62;
    ElevenDigits(u.ab);
    ElevenDigits(u.cd);
    var res := new char[24](i => '\0');
    var end := 23;
    res[end] := '\0';
    var low := WriteDigits(u.cd, res, end);
    ghost var digits := res[low..end];
    low := low - 1;
    res[low] := '-';
    assert res[low..end] == "-" + digits;
    var high := WriteDigits(u.ab, res, low);
    assert res[high..end] == res[high..low] + "-" + digits;
    return res[high..end];
  }

  method ReadBase62(s: string) returns (x: Half)
    requires s != ""
    ensures x == Rebase62(s)
  {
    hide Value62;
    x := Value62(s[0]);
    assert s[..1] == [s[0]];
    for i := 1 to |s|
      invariant x == Rebase62(s[..i])
    {
      assert s[..i + 1][..i] == s[..i];
      x := (62 * x + Value62(s[i])) % TWO_TO_64;
    }
    assert s[..|s|] == s;
  }

  method ReadHex(s: string, from: nat, to: nat, skips: set<nat>, ghost kept: string) returns (x: Half)
    requires from <= to <= |s| && kept == Kept(s, from, to, skips)
    ensures x == FoldHex(kept, 0)
  {
    hide HexValue, Kept, FoldHex;
    x := 0;
    NothingKept(s, from, skips);
    for i := from to to
      invariant x == FoldHex(Kept(s, from, i, skips), 0)
    {
      KeptNext(s, from, i, skips);
      if i in skips { continue; }
      x := (16 * x % TWO_TO_64 + HexValue(s[i])) % TWO_TO_64;
    }
  }

  /** The characters from one position to another, without those at the positions skipped. */
  function Kept(s: string, from: nat, to: nat, skips: set<nat>): string
    requires from <= to <= |s|
  {
    if from == to then "" else Kept(s, from, to - 1, skips) + if to - 1 in skips then "" else [s[to - 1]]
  }

  lemma NothingKept(s: string, from: nat, skips: set<nat>)
    requires from <= |s|
    ensures Kept(s, from, from, skips) == "" && FoldHex("", 0) == 0
  {
  }

  lemma KeptNext(s: string, from: nat, i: nat, skips: set<nat>)
    requires from <= i < |s|
    ensures Kept(s, from, i + 1, skips) == Kept(s, from, i, skips) + if i in skips then "" else [s[i]]
    ensures i in skips ==> Kept(s, from, i + 1, skips) == Kept(s, from, i, skips)
    ensures i !in skips ==>
      (FoldHex(Kept(s, from, i + 1, skips), 0) == (16 * FoldHex(Kept(s, from, i, skips),
                                                                0) % TWO_TO_64 + HexValue(s[i])) % TWO_TO_64)
  {
    hide HexValue, FoldHex;
    if i !in skips { FoldHexNext(Kept(s, from, i, skips), s[i]); }
  }

  lemma FoldHexNext(before: string, c: char)
    ensures FoldHex(before + [c], 0) == (16 * FoldHex(before, 0) % TWO_TO_64 + HexValue(c)) % TWO_TO_64
  {
    hide HexValue;
    assert (before + [c])[..|before|] == before;
  }

  lemma {:induction false} KeptAll(s: string, from: nat, to: nat, skips: set<nat>)
    requires from <= to <= |s| && forall k :: from <= k < to ==> k !in skips
    ensures Kept(s, from, to, skips) == s[from..to]
  {
    if from < to { KeptAll(s, from, to - 1, skips); }
  }

  lemma {:induction false} KeptApart(s: string, from: nat, mid: nat, to: nat, skips: set<nat>)
    requires from <= mid <= to <= |s|
    ensures Kept(s, from, to, skips) == Kept(s, from, mid, skips) + Kept(s, mid, to, skips)
  {
    if mid < to { KeptApart(s, from, mid, to - 1, skips); }
  }

  lemma KeptAround(s: string, from: nat, skip: nat, to: nat, skips: set<nat>)
    requires from <= skip < to <= |s| && skip in skips
    requires forall k :: from <= k < to && k != skip ==> k !in skips
    ensures Kept(s, from, to, skips) == s[from..skip] + s[skip + 1..to]
  {
    hide Kept;
    KeptApart(s, from, skip + 1, to, skips);
    KeptNext(s, from, skip, skips);
    KeptAll(s, from, skip, skips);
    KeptAll(s, skip + 1, to, skips);
  }

  /** `rebuild`: the number of separators tells the notations apart. */
  method Parse(s: string) returns (u: Uuid)
    requires LongEnough(s)
    ensures u == Rebuild(s)
  {
    hide FoldHex, Rebase62, Kept;
    var i := IndexFrom(s, '-', 0);
    if i == |s| { return Uuid(0, 0); }
    if IndexFrom(s, '-', i + 1) == |s| {
      var ab := ReadBase62(Taken(s, 0, i));
      var cd := ReadBase62(Taken(s, i + 1, |s|));
      return Uuid(ab, cd);
    }
    if NoDashChecked(s) { return Uuid(0, 0); }
    u := ParseHex(Terminated(s));
  }

  method ParseHex(s: string) returns (u: Uuid)
    requires |s| >= 36
    ensures u == Uuid(FoldHex(s[..8] + s[9..13] + s[14..18], 0), FoldHex(s[19..23] + s[24..36], 0))
  {
    hide FoldHex, Kept;
    KeptApart(s, 0, 9, 18, {8, 13});
    KeptAround(s, 0, 8, 9, {8, 13});
    KeptAround(s, 9, 13, 18, {8, 13});
    KeptAround(s, 19, 23, 36, {23});
    assert s[0..8] + s[9..9] + (s[9..13] + s[14..18]) == s[..8] + s[9..13] + s[14..18];
    var ab := ReadHex(s, 0, 18, {8, 13}, s[..8] + s[9..13] + s[14..18]);
    var cd := ReadHex(s, 19, 36, {23}, s[19..23] + s[24..36]);
    return Uuid(ab, cd);
  }
}
