/** Digits, notation and epoch of identifiers, against the calendar and an example of RFC 4122. */
module UuidExamples {
  import opened Uuids
  import opened UuidVersion1

  // ---- Digits ----

  lemma HexDigitIs(d: nat)
    requires d < 16
    ensures HexDigit(d) == "0123456789abcdef"[d]
  {
  }

  /** Digits are read in either case; anything else counts as zero. */
  lemma HexValueIs(d: nat, c: char)
    requires d < 16
    ensures HexValue("0123456789abcdef"[d]) == d && HexValue("0123456789ABCDEF"[d]) == d
    ensures !('0' <= c <= '9') && !('a' <= c <= 'f') && !('A' <= c <= 'F') ==> HexValue(c) == 0
  {
  }

  /** The digits of base 62: decimal digits, capital letters, small letters. */
  lemma Digit62Is(d: nat)
    requires d < 62
    ensures Digit62(d) == if d < 10 then "0123456789"[d]
                          else if d < 36 then "ABCDEFGHIJKLMNOPQRSTUVWXYZ"[d - 10]
                          else "abcdefghijklmnopqrstuvwxyz"[d - 36]
  {
    if 10 <= d < 36 {
      CapitalIs(d);
    } else if d >= 36 {
      SmallIs(d);
    }
  }

  lemma CapitalIs(d: nat)
    requires 10 <= d < 36
    ensures Digit62(d) == "ABCDEFGHIJKLMNOPQRSTUVWXYZ"[d - 10]
  {
  }

  lemma SmallIs(d: nat)
    requires 36 <= d < 62
    ensures Digit62(d) == "abcdefghijklmnopqrstuvwxyz"[d - 36]
  {
  }

  // ---- The example of section 3 of RFC 4122 ----

  lemma UpperHalf()
    ensures HexDigits(0xf81d4fae7dec11d0, 16) == "f81d4fae7dec11d0"
  {
    assert HexDigits(0xf, 1) == "f";
    assert HexDigits(0xf8, 2) == "f8";
    assert HexDigits(0xf81, 3) == "f81";
    assert HexDigits(0xf81d, 4) == "f81d";
    assert HexDigits(0xf81d4, 5) == "f81d4";
    assert HexDigits(0xf81d4f, 6) == "f81d4f";
    assert HexDigits(0xf81d4fa, 7) == "f81d4fa";
    assert HexDigits(0xf81d4fae, 8) == "f81d4fae";
    assert HexDigits(0xf81d4fae7, 9) == "f81d4fae7";
    assert HexDigits(0xf81d4fae7d, 10) == "f81d4fae7d";
    assert HexDigits(0xf81d4fae7de, 11) == "f81d4fae7de";
    assert HexDigits(0xf81d4fae7dec, 12) == "f81d4fae7dec";
    assert HexDigits(0xf81d4fae7dec1, 13) == "f81d4fae7dec1";
    assert HexDigits(0xf81d4fae7dec11, 14) == "f81d4fae7dec11";
    assert HexDigits(0xf81d4fae7dec11d, 15) == "f81d4fae7dec11d";
  }

  lemma LowerHalf()
    ensures HexDigits(0xa76500a0c91e6bf6, 16) == "a76500a0c91e6bf6"
  {
    assert HexDigits(0xa, 1) == "a";
    assert HexDigits(0xa7, 2) == "a7";
    assert HexDigits(0xa76, 3) == "a76";
    assert HexDigits(0xa765, 4) == "a765";
    assert HexDigits(0xa7650, 5) == "a7650";
    assert HexDigits(0xa76500, 6) == "a76500";
    assert HexDigits(0xa76500a, 7) == "a76500a";
    assert HexDigits(0xa76500a0, 8) == "a76500a0";
    assert HexDigits(0xa76500a0c, 9) == "a76500a0c";
    assert HexDigits(0xa76500a0c9, 10) == "a76500a0c9";
    assert HexDigits(0xa76500a0c91, 11) == "a76500a0c91";
    assert HexDigits(0xa76500a0c91e, 12) == "a76500a0c91e";
    assert HexDigits(0xa76500a0c91e6, 13) == "a76500a0c91e6";
    assert HexDigits(0xa76500a0c91e6b, 14) == "a76500a0c91e6b";
    assert HexDigits(0xa76500a0c91e6bf, 15) == "a76500a0c91e6bf";
  }

  lemma UpperParts(a: string)
    requires a == "f81d4fae7dec11d0"
    ensures a[..8] == "f81d4fae" && a[8..12] == "7dec" && a[12..] == "11d0"
  {
  }

  lemma LowerParts(c: string)
    requires c == "a76500a0c91e6bf6"
    ensures c[..4] == "a765" && c[4..] == "00a0c91e6bf6"
  {
  }

  lemma StrExample()
    ensures Str(Uuid(0xf81d4fae7dec11d0, 0xa76500a0c91e6bf6)) ==
      "f81d4fae" + "-" + "7dec" + "-" + "11d0" + "-" + "a765" + "-" + "00a0c91e6bf6"
  {
    UpperHalf();
    LowerHalf();
    hide HexDigits;
    UpperParts(HexDigits(0xf81d4fae7dec11d0, 16));
    LowerParts(HexDigits(0xa76500a0c91e6bf6, 16));
  }

  // ---- The epoch ----

  predicate Leap(year: nat) { year % 4 == 0 && (year % 100 != 0 || year % 400 == 0) }

  /** The days of the years from one to another, the latter excluded. */
  function Days(from: nat, to: nat): nat
  {
    if to <= from then 0 else Days(from, to - 1) + if Leap(to - 1) then 366 else 365
  }

  /** Leap days in all years before this one. */
  function LeapDays(year: nat): int { (year - 1) / 4 - (year - 1) / 100 + (year - 1) / 400 }

  lemma {:induction false} DaysAre(from: nat, to: nat)
    requires 0 < from <= to
    ensures Days(from, to) == 365 * (to - from) + LeapDays(to) - LeapDays(from)
  {
    if from < to {
      hide LeapDays, Leap;
      DaysAre(from, to - 1);
      NextYear(to - 1);
    }
  }

  lemma NextYear(year: nat)
    requires year > 0
    ensures LeapDays(year + 1) == LeapDays(year) + if Leap(year) then 1 else 0
  {
    Fourth(year);
    Century(year);
    FourthCentury(year);
  }

  lemma Fourth(n: nat)
    requires n > 0
    ensures n / 4 == (n - 1) / 4 + if n % 4 == 0 then 1 else 0
  {
  }

  lemma Century(n: nat)
    requires n > 0
    ensures n / 100 == (n - 1) / 100 + if n % 100 == 0 then 1 else 0
    ensures n % 100 == 0 ==> n % 4 == 0
  {
    var q := n / 100;
    assert n % 100 == 0 ==> n == 4 * (25 * q);
  }

  lemma FourthCentury(n: nat)
    requires n > 0
    ensures n / 400 == (n - 1) / 400 + if n % 400 == 0 then 1 else 0
    ensures n % 400 == 0 ==> n % 100 == 0
  {
    var q := n / 400;
    assert n % 400 == 0 ==> n == 100 * (4 * q);
  }

  /** From 15 October 1582, with 17 days left in October after it begins, November and December, to
      1 January 1970, in units of 100 ns. */
  lemma GregorianIs(from: nat, to: nat)
    requires from == 1583 && to == 1970
    ensures GREGORIAN == (17 + 30 + 31 + Days(from, to)) * 24 * 60 * 60 * 10_000_000
  {
    hide Days;
    DaysAre(from, to);
  }

  /** A reading that does not overflow is the number of whole units of 100 ns. */
  lemma ReadingIsWholeUnits(seconds: Half, nanoseconds: Half)
    requires seconds * 10_000_000 + nanoseconds / 100 < TWO_TO_64
    ensures var time, n := seconds * 1_000_000_000 + nanoseconds, Reading(seconds, nanoseconds);
      n * 100 <= time < (n + 1) * 100
  {
  }
}
