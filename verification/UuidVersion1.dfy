/** Version 1 identifiers: the clock that never repeats, the packed fields, and their extraction.
    Words are numbers below 2^64; shifts and masks are divisions and remainders, and `|` only ever
    joins disjoint bits, as a sum. */
module UuidVersion1 {
  import opened Uuids

  /** From the Gregorian calendar to the Unix epoch, in units of 100 ns. */
  const GREGORIAN: Half := 0x01b2_1dd2_1381_4000

  const MAX: Half := 0xffff_ffff_ffff_ffff

  // ---- The clock ----

  /** The reading in units of 100 ns. */
  function Reading(seconds: Half, nanoseconds: Half): Half {
    (seconds * 10000000 % TWO_TO_64 + nanoseconds / 100) % TWO_TO_64
  }

  /** The clock after a reading: the reading if it is later, otherwise one tick more. */
  function Tick(last: Half, reading: Half): Half {
    if last >= reading then (last + 1) % TWO_TO_64 else reading
  }

  /** `get_time`, with its thread-local variable. */
  class Clock {
    var lastUuidTime: Half

    constructor ()
      ensures lastUuidTime == 0
    {
      lastUuidTime := 0;
    }

    method GetTime(seconds: Half, nanoseconds: Half, offset: Half) returns (time: Half)
      modifies this
      ensures lastUuidTime == Tick(old(lastUuidTime), Reading(seconds, nanoseconds))
      ensures time == (lastUuidTime + offset) % TWO_TO_64
    {
      var uuidTime: Half := seconds * 10000000 % TWO_TO_64;
      uuidTime := (uuidTime + nanoseconds / 100) % TWO_TO_64;
      if lastUuidTime >= uuidTime {
        lastUuidTime := (lastUuidTime + 1) % TWO_TO_64;
        uuidTime := lastUuidTime;
      } else {
        lastUuidTime := uuidTime;
      }
      return (uuidTime + offset) % TWO_TO_64;
    }
  }

  /** The clock moves forward unless it stands at its very end. */
  lemma TickForward(last: Half, reading: Half)
    ensures Tick(last, reading) > last <==> last != MAX
  {
  }

  /** The new time is the least one that is after the last and not before the reading. */
  lemma TickIsLeast(last: Half, reading: Half, other: Half)
    requires last != MAX
    ensures var t := Tick(last, reading);
      && t > last && t >= reading
      && (other > last && other >= reading ==> t <= other)
  {
  }

  /** The clock after the first n readings. */
  function TimeAfter(start: Half, readings: seq<Half>, n: nat): Half
    requires n <= |readings|
  {
    if n == 0 then start else Tick(TimeAfter(start, readings, n - 1), readings[n - 1])
  }

  /** The clock has not come to its end before reading n. */
  ghost predicate Running(start: Half, readings: seq<Half>, n: nat) {
    n <= |readings| && forall k :: 0 <= k < n ==> TimeAfter(start, readings, k) != MAX
  }

  /** Whatever the readings are, stalled or going backwards: times increase strictly over any part
      of a run in which the clock does not come to its end. */
  lemma {:induction false} TimesIncrease(start: Half, readings: seq<Half>, i: nat, j: nat)
    requires i < j && Running(start, readings, j)
    ensures TimeAfter(start, readings, i) < TimeAfter(start, readings, j)
  {
    TickForward(TimeAfter(start, readings, j - 1), readings[j - 1]);
    if i < j - 1 { TimesIncrease(start, readings, i, j - 1); }
  }

  /** A bound on the readings, which a caller can check, keeps the clock from its end. */
  lemma {:induction false} BoundedReadings(start: Half, readings: seq<Half>, n: nat, bound: nat)
    requires n <= |readings| && start <= bound
    requires (forall k :: 0 <= k < n ==> readings[k] <= bound) && bound + n < TWO_TO_64
    ensures Running(start, readings, n) && TimeAfter(start, readings, n) <= bound + n
  {
    if n > 0 { BoundedReadings(start, readings, n - 1, bound); }
  }

  // ---- Packing ----

  function ClockSeq(t: Half): nat { t % 0x4000 }

  /** `upper_`: time low, mid and high, then the version over the four highest bits of the latter. */
  function Upper(t: Half): Half {
    var upper := t % 0x1_0000_0000 * 0x1_0000_0000 + t / 0x1_0000_0000 % 0x1_0000 * 0x1_0000 +
      t / 0x1_0000_0000_0000 % 0x1000;
    upper - upper / 0x1000 % 0x10 * 0x1000 + 0x1000
  }

  /** `lower_`: clock sequence and MAC address, then the variant over the two highest bits. */
  function Lower(t: Half, mac: nat): Half
    requires mac < 0x1_0000_0000_0000
  {
    var high, low := ClockSeq(t) / 0x100 % 0x40, ClockSeq(t) % 0x100;
    var lower := (high * 0x100 + low) * 0x1_0000_0000_0000 + mac;
    lower % 0x4000_0000_0000_0000 + 0x8000_0000_0000_0000
  }

  // ---- Extraction, as `pretty` does it ----

  function Version(u: Uuid): nat { u.ab % 0x1_0000_0000 % 0x1_0000 / 0x1000 }
  function Variant(u: Uuid): nat { u.cd / 0x4000_0000_0000_0000 }

  function Timestamp(u: Uuid): nat {
    var a, b := u.ab / 0x1_0000_0000, u.ab % 0x1_0000_0000;
    b % 0x1000 * 0x1_0000_0000_0000 + b / 0x1_0000 * 0x1_0000_0000 + a
  }

  function Mac(u: Uuid): nat { u.cd / 0x1_0000_0000 % 0x1_0000 * 0x1_0000_0000 + u.cd % 0x1_0000_0000 }
  function Sequence(u: Uuid): nat { u.cd / 0x1_0000_0000 / 0x1_0000 % 0x4000 }

  function Pack(t: Half, mac: nat): Uuid
    requires mac < 0x1_0000_0000_0000
  {
    Uuid(Upper(t), Lower(t, mac))
  }

  const TWO_TO_60: nat := 0x1000_0000_0000_0000

  /** The upper half, field by field. */
  lemma UpperFields(t: Half, low: nat, mid: nat, high: nat)
    requires low == t % 0x1_0000_0000 && mid == t / 0x1_0000_0000 % 0x1_0000 && high == t / 0x1_0000_0000_0000 % 0x1000
    ensures Upper(t) == low * 0x1_0000_0000 + mid * 0x1_0000 + 0x1000 + high
  {
    var upper := low * 0x1_0000_0000 + mid * 0x1_0000 + high;
    assert upper / 0x1000 == low * 0x10_0000 + mid * 0x10;
    assert upper / 0x1000 % 0x10 == 0;
  }

  /** The lower half: the variant and 14 bits of clock sequence, then the MAC address. */
  lemma LowerFields(t: Half, mac: nat)
    requires mac < 0x1_0000_0000_0000
    ensures Lower(t, mac) == (0x8000 + t % 0x4000) * 0x1_0000_0000_0000 + mac
  {
    var seq14 := ClockSeq(t);
    assert seq14 / 0x100 % 0x40 * 0x100 + seq14 % 0x100 == seq14;
  }

  lemma SixtyBits(t: Half)
    ensures t % TWO_TO_60 ==
      t / 0x1_0000_0000_0000 % 0x1000 * 0x1_0000_0000_0000 +
      t / 0x1_0000_0000 % 0x1_0000 * 0x1_0000_0000 + t % 0x1_0000_0000
  {
  }

  /** Extraction recovers the low 60 bits of the time and the version ... */
  lemma UpperRecovers(t: Half, mac: nat)
    requires mac < 0x1_0000_0000_0000
    ensures Version(Pack(t, mac)) == 1 && Timestamp(Pack(t, mac)) == t % TWO_TO_60
  {
    var low, mid, high := t % 0x1_0000_0000, t / 0x1_0000_0000 % 0x1_0000, t / 0x1_0000_0000_0000 % 0x1000;
    UpperFields(t, low, mid, high);
    SixtyBits(t);
    hide Upper, Lower;
    var b := mid * 0x1_0000 + 0x1000 + high;
    assert Upper(t) / 0x1_0000_0000 == low && Upper(t) % 0x1_0000_0000 == b;
    assert b % 0x1_0000 == 0x1000 + high && b / 0x1_0000 == mid && b % 0x1000 == high;
  }

  /** ... and the clock sequence, taken from the low 14 bits of the time, the MAC address and the
      variant. */
  lemma LowerRecovers(t: Half, mac: nat)
    requires mac < 0x1_0000_0000_0000
    ensures Variant(Pack(t, mac)) == 2 && Sequence(Pack(t, mac)) == t % 0x4000 && Mac(Pack(t, mac)) == mac
  {
    var seq14 := ClockSeq(t);
    LowerFields(t, mac);
    hide Lower, Upper;
    var cd := Lower(t, mac);
    assert cd / 0x1_0000_0000 / 0x1_0000 == seq14 + 0x8000;
    assert cd / 0x1_0000_0000 % 0x1_0000 == mac / 0x1_0000_0000 && cd % 0x1_0000_0000 == mac % 0x1_0000_0000;
  }

  /** Two identifiers with the same MAC address are equal exactly if their times agree in the low 60
      bits, in particular never if they are less than 2^60 ticks apart. */
  lemma SameIdentifier(s: Half, t: Half, mac: nat)
    requires mac < 0x1_0000_0000_0000
    ensures Pack(s, mac) == Pack(t, mac) <==> s % TWO_TO_60 == t % TWO_TO_60
  {
    hide Timestamp;
    UpperRecovers(s, mac);
    UpperRecovers(t, mac);
    if s % TWO_TO_60 == t % TWO_TO_60 {
      UpperDepends(s);
      UpperDepends(t);
      LowerDepends(s, mac);
      LowerDepends(t, mac);
    }
  }

  lemma UpperDepends(t: Half)
    ensures Upper(t) == Upper(t % TWO_TO_60)
  {
    hide Upper;
    var low, mid, high := t % 0x1_0000_0000, t / 0x1_0000_0000 % 0x1_0000, t / 0x1_0000_0000_0000 % 0x1000;
    SixtyBits(t);
    FieldsOf(t % TWO_TO_60, low, mid, high);
    UpperFields(t, low, mid, high);
    UpperFields(t % TWO_TO_60, low, mid, high);
  }

  lemma FieldsOf(n: nat, low: nat, mid: nat, high: nat)
    requires low < 0x1_0000_0000 && mid < 0x1_0000 && high < 0x1000
    requires n == high * 0x1_0000_0000_0000 + mid * 0x1_0000_0000 + low
    ensures low == n % 0x1_0000_0000 && mid == n / 0x1_0000_0000 % 0x1_0000 && high == n / 0x1_0000_0000_0000 % 0x1000
  {
    assert n / 0x1_0000_0000 == high * 0x1_0000 + mid;
    assert n / 0x1_0000_0000_0000 == high;
  }

  lemma LowerDepends(t: Half, mac: nat)
    requires mac < 0x1_0000_0000_0000
    ensures Lower(t, mac) == Lower(t % TWO_TO_60, mac)
  {
    assert t % TWO_TO_60 % 0x4000 == t % 0x4000;
  }

  /** `uuid1`; `mac` is what `get_any_mac48` found. */
  method Uuid1(clock: Clock, seconds: Half, nanoseconds: Half, mac: nat) returns (u: Uuid)
    requires mac < 0x1_0000_0000_0000
    modifies clock
    ensures clock.lastUuidTime == Tick(old(clock.lastUuidTime), Reading(seconds, nanoseconds))
    ensures u == Pack((clock.lastUuidTime + GREGORIAN) % TWO_TO_64, mac)
  {
    var t := clock.GetTime(seconds, nanoseconds, GREGORIAN);
    return Pack(t, mac);
  }

  /** The identifier made at reading n of a run. */
  function IdentifierAt(start: Half, readings: seq<Half>, n: nat, mac: nat): Uuid
    requires n <= |readings| && mac < 0x1_0000_0000_0000
  {
    Pack((TimeAfter(start, readings, n) + GREGORIAN) % TWO_TO_64, mac)
  }

  /** Any two identifiers of one run differ if the clock moved by less than 2^60 ticks between them. */
  lemma RunOfIdentifiers(start: Half, readings: seq<Half>, i: nat, j: nat, mac: nat)
    requires i < j && Running(start, readings, j) && mac < 0x1_0000_0000_0000
    requires TimeAfter(start, readings, j) < TimeAfter(start, readings, i) + TWO_TO_60
    ensures IdentifierAt(start, readings, i, mac) != IdentifierAt(start, readings, j, mac)
  {
    hide Pack, TimeAfter;
    TimesIncrease(start, readings, i, j);
    var s, t := TimeAfter(start, readings, i) + GREGORIAN, TimeAfter(start, readings, j) + GREGORIAN;
    SameIdentifier(s % TWO_TO_64, t % TWO_TO_64, mac);
    WrapKeepsSixty(s);
    WrapKeepsSixty(t);
    CloseRemainders(s, t);
  }

  lemma WrapKeepsSixty(n: nat)
    ensures n % TWO_TO_64 % TWO_TO_60 == n % TWO_TO_60
  {
  }

  lemma CloseRemainders(s: nat, t: nat)
    requires s < t < s + TWO_TO_60
    ensures s % TWO_TO_60 != t % TWO_TO_60
  {
  }
}
