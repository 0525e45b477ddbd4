/** The constants of SHA-256, and where they come from (sections 4.2.2 and 5.3.3 of FIPS 180-4). */
module ShaConstants {
  /** The 64 round constants, eight to a row. */
  function KRow(row: nat): (r: seq<nat>)
    requires row < 8
    ensures |r| == 8 && forall i :: 0 <= i < 8 ==> r[i] < 0x1_0000_0000
  {
    match row
    case 0 => [0x428a2f98, 0x71374491, 0xb5c0fbcf, 0xe9b5dba5, 0x3956c25b, 0x59f111f1, 0x923f82a4, 0xab1c5ed5]
    case 1 => [0xd807aa98, 0x12835b01, 0x243185be, 0x550c7dc3, 0x72be5d74, 0x80deb1fe, 0x9bdc06a7, 0xc19bf174]
    case 2 => [0xe49b69c1, 0xefbe4786, 0x0fc19dc6, 0x240ca1cc, 0x2de92c6f, 0x4a7484aa, 0x5cb0a9dc, 0x76f988da]
    case 3 => [0x983e5152, 0xa831c66d, 0xb00327c8, 0xbf597fc7, 0xc6e00bf3, 0xd5a79147, 0x06ca6351, 0x14292967]
    case 4 => [0x27b70a85, 0x2e1b2138, 0x4d2c6dfc, 0x53380d13, 0x650a7354, 0x766a0abb, 0x81c2c92e, 0x92722c85]
    case 5 => [0xa2bfe8a1, 0xa81a664b, 0xc24b8b70, 0xc76c51a3, 0xd192e819, 0xd6990624, 0xf40e3585, 0x106aa070]
    case 6 => [0x19a4c116, 0x1e376c08, 0x2748774c, 0x34b0bcb5, 0x391c0cb3, 0x4ed8aa4a, 0x5b9cca4f, 0x682e6ff3]
    case _ => [0x748f82ee, 0x78a5636f, 0x84c87814, 0x8cc70208, 0x90befffa, 0xa4506ceb, 0xbef9a3f7, 0xc67178f2]
  }

  /** The first 64 prime numbers, eight to a row. */
  function PrimeRow(row: nat): (r: seq<nat>)
    requires row < 8
    ensures |r| == 8
  {
    match row
    case 0 => [2, 3, 5, 7, 11, 13, 17, 19]
    case 1 => [23, 29, 31, 37, 41, 43, 47, 53]
    case 2 => [59, 61, 67, 71, 73, 79, 83, 89]
    case 3 => [97, 101, 103, 107, 109, 113, 127, 131]
    case 4 => [137, 139, 149, 151, 157, 163, 167, 173]
    case 5 => [179, 181, 191, 193, 197, 199, 211, 223]
    case 6 => [227, 229, 233, 239, 241, 251, 257, 263]
    case _ => [269, 271, 277, 281, 283, 293, 307, 311]
  }

  /** The initial digest. */
  const INITIAL_VALUES: seq<nat> := [0x6a09e667, 0xbb67ae85, 0x3c6ef372, 0xa54ff53a, 0x510e527f, 0x9b05688c,
                                     0x1f83d9ab, 0x5be0cd19]

  /** k is the first 32 bits of the fractional part of the cube root of p, whose integer part is a. */
  predicate CubeRoot(p: nat, a: nat, k: nat) {
    var x := a * 0x1_0000_0000 + k;
    k < 0x1_0000_0000 && x * x * x <= p * 0x1_0000_0000_0000_0000_0000_0000 < (x + 1) * (x + 1) * (x + 1)
  }

  /** The same for the square root. */
  predicate SquareRoot(p: nat, a: nat, h: nat) {
    var x := a * 0x1_0000_0000 + h;
    h < 0x1_0000_0000 && x * x <= p * 0x1_0000_0000_0000_0000 < (x + 1) * (x + 1)
  }

  lemma KRoot(row: nat, i: nat, p: nat, a: nat, k: nat)
    requires row < 8 && i < 8 && PrimeRow(row)[i] == p && KRow(row)[i] == k && CubeRoot(p, a, k)
    ensures exists a :: CubeRoot(PrimeRow(row)[i], a, KRow(row)[i])
  {
  }

  lemma KRoots0(i: nat)
    requires i < 8
    ensures exists a :: CubeRoot(PrimeRow(0)[i], a, KRow(0)[i])
  {
    match i
    case 0 => KRoot(0, i, 2, 1, 0x428a2f98);
    case 1 => KRoot(0, i, 3, 1, 0x71374491);
    case 2 => KRoot(0, i, 5, 1, 0xb5c0fbcf);
    case 3 => KRoot(0, i, 7, 1, 0xe9b5dba5);
    case 4 => KRoot(0, i, 11, 2, 0x3956c25b);
    case 5 => KRoot(0, i, 13, 2, 0x59f111f1);
    case 6 => KRoot(0, i, 17, 2, 0x923f82a4);
    case _ => KRoot(0, i, 19, 2, 0xab1c5ed5);
  }

  lemma KRoots1(i: nat)
    requires i < 8
    ensures exists a :: CubeRoot(PrimeRow(1)[i], a, KRow(1)[i])
  {
    match i
    case 0 => KRoot(1, i, 23, 2, 0xd807aa98);
    case 1 => KRoot(1, i, 29, 3, 0x12835b01);
    case 2 => KRoot(1, i, 31, 3, 0x243185be);
    case 3 => KRoot(1, i, 37, 3, 0x550c7dc3);
    case 4 => KRoot(1, i, 41, 3, 0x72be5d74);
    case 5 => KRoot(1, i, 43, 3, 0x80deb1fe);
    case 6 => KRoot(1, i, 47, 3, 0x9bdc06a7);
    case _ => KRoot(1, i, 53, 3, 0xc19bf174);
  }

  lemma KRoots2(i: nat)
    requires i < 8
    ensures exists a :: CubeRoot(PrimeRow(2)[i], a, KRow(2)[i])
  {
    match i
    case 0 => KRoot(2, i, 59, 3, 0xe49b69c1);
    case 1 => KRoot(2, i, 61, 3, 0xefbe4786);
    case 2 => KRoot(2, i, 67, 4, 0x0fc19dc6);
    case 3 => KRoot(2, i, 71, 4, 0x240ca1cc);
    case 4 => KRoot(2, i, 73, 4, 0x2de92c6f);
    case 5 => KRoot(2, i, 79, 4, 0x4a7484aa);
    case 6 => KRoot(2, i, 83, 4, 0x5cb0a9dc);
    case _ => KRoot(2, i, 89, 4, 0x76f988da);
  }

  lemma KRoots3(i: nat)
    requires i < 8
    ensures exists a :: CubeRoot(PrimeRow(3)[i], a, KRow(3)[i])
  {
    match i
    case 0 => KRoot(3, i, 97, 4, 0x983e5152);
    case 1 => KRoot(3, i, 101, 4, 0xa831c66d);
    case 2 => KRoot(3, i, 103, 4, 0xb00327c8);
    case 3 => KRoot(3, i, 107, 4, 0xbf597fc7);
    case 4 => KRoot(3, i, 109, 4, 0xc6e00bf3);
    case 5 => KRoot(3, i, 113, 4, 0xd5a79147);
    case 6 => KRoot(3, i, 127, 5, 0x06ca6351);
    case _ => KRoot(3, i, 131, 5, 0x14292967);
  }

  lemma KRoots4(i: nat)
    requires i < 8
    ensures exists a :: CubeRoot(PrimeRow(4)[i], a, KRow(4)[i])
  {
    match i
    case 0 => KRoot(4, i, 137, 5, 0x27b70a85);
    case 1 => KRoot(4, i, 139, 5, 0x2e1b2138);
    case 2 => KRoot(4, i, 149, 5, 0x4d2c6dfc);
    case 3 => KRoot(4, i, 151, 5, 0x53380d13);
    case 4 => KRoot(4, i, 157, 5, 0x650a7354);
    case 5 => KRoot(4, i, 163, 5, 0x766a0abb);
    case 6 => KRoot(4, i, 167, 5, 0x81c2c92e);
    case _ => KRoot(4, i, 173, 5, 0x92722c85);
  }

  lemma KRoots5(i: nat)
    requires i < 8
    ensures exists a :: CubeRoot(PrimeRow(5)[i], a, KRow(5)[i])
  {
    match i
    case 0 => KRoot(5, i, 179, 5, 0xa2bfe8a1);
    case 1 => KRoot(5, i, 181, 5, 0xa81a664b);
    case 2 => KRoot(5, i, 191, 5, 0xc24b8b70);
    case 3 => KRoot(5, i, 193, 5, 0xc76c51a3);
    case 4 => KRoot(5, i, 197, 5, 0xd192e819);
    case 5 => KRoot(5, i, 199, 5, 0xd6990624);
    case 6 => KRoot(5, i, 211, 5, 0xf40e3585);
    case _ => KRoot(5, i, 223, 6, 0x106aa070);
  }

  lemma KRoots6(i: nat)
    requires i < 8
    ensures exists a :: CubeRoot(PrimeRow(6)[i], a, KRow(6)[i])
  {
    match i
    case 0 => KRoot(6, i, 227, 6, 0x19a4c116);
    case 1 => KRoot(6, i, 229, 6, 0x1e376c08);
    case 2 => KRoot(6, i, 233, 6, 0x2748774c);
    case 3 => KRoot(6, i, 239, 6, 0x34b0bcb5);
    case 4 => KRoot(6, i, 241, 6, 0x391c0cb3);
    case 5 => KRoot(6, i, 251, 6, 0x4ed8aa4a);
    case 6 => KRoot(6, i, 257, 6, 0x5b9cca4f);
    case _ => KRoot(6, i, 263, 6, 0x682e6ff3);
  }

  lemma KRoots7(i: nat)
    requires i < 8
    ensures exists a :: CubeRoot(PrimeRow(7)[i], a, KRow(7)[i])
  {
    match i
    case 0 => KRoot(7, i, 269, 6, 0x748f82ee);
    case 1 => KRoot(7, i, 271, 6, 0x78a5636f);
    case 2 => KRoot(7, i, 277, 6, 0x84c87814);
    case 3 => KRoot(7, i, 281, 6, 0x8cc70208);
    case 4 => KRoot(7, i, 283, 6, 0x90befffa);
    case 5 => KRoot(7, i, 293, 6, 0xa4506ceb);
    case 6 => KRoot(7, i, 307, 6, 0xbef9a3f7);
    case _ => KRoot(7, i, 311, 6, 0xc67178f2);
  }

  /** The round constants are the fractional parts of the cube roots of the first 64 primes. */
  lemma KIsCubeRoots(row: nat, i: nat)
    requires row < 8 && i < 8
    ensures exists a :: CubeRoot(PrimeRow(row)[i], a, KRow(row)[i])
  {
    match row
    case 0 => KRoots0(i);
    case 1 => KRoots1(i);
    case 2 => KRoots2(i);
    case 3 => KRoots3(i);
    case 4 => KRoots4(i);
    case 5 => KRoots5(i);
    case 6 => KRoots6(i);
    case _ => KRoots7(i);
  }

  /** The initial digest is made of the fractional parts of the square roots of the first eight. */
  lemma InitialIsSquareRoots(i: nat)
    requires i < 8
    ensures exists a :: SquareRoot(PrimeRow(0)[i], a, INITIAL_VALUES[i])
  {
    match i
    case 0 => assert SquareRoot(2, 1, 0x6a09e667); assert PrimeRow(0)[i] == 2 && INITIAL_VALUES[i] == 0x6a09e667;
    case 1 => assert SquareRoot(3, 1, 0xbb67ae85); assert PrimeRow(0)[i] == 3 && INITIAL_VALUES[i] == 0xbb67ae85;
    case 2 => assert SquareRoot(5, 2, 0x3c6ef372); assert PrimeRow(0)[i] == 5 && INITIAL_VALUES[i] == 0x3c6ef372;
    case 3 => assert SquareRoot(7, 2, 0xa54ff53a); assert PrimeRow(0)[i] == 7 && INITIAL_VALUES[i] == 0xa54ff53a;
    case 4 => assert SquareRoot(11, 3, 0x510e527f); assert PrimeRow(0)[i] == 11 && INITIAL_VALUES[i] == 0x510e527f;
    case 5 => assert SquareRoot(13, 3, 0x9b05688c); assert PrimeRow(0)[i] == 13 && INITIAL_VALUES[i] == 0x9b05688c;
    case 6 => assert SquareRoot(17, 4, 0x1f83d9ab); assert PrimeRow(0)[i] == 17 && INITIAL_VALUES[i] == 0x1f83d9ab;
    case _ => assert SquareRoot(19, 4, 0x5be0cd19); assert PrimeRow(0)[i] == 19 && INITIAL_VALUES[i] == 0x5be0cd19;
  }

  // ---- The first 64 primes ----

  predicate Divides(d: nat, n: nat)
    requires d > 0
  {
    n % d == 0
  }

  ghost predicate Prime(n: nat) { n >= 2 && forall d :: 2 <= d < n ==> !Divides(d, n) }

  predicate HasSmallFactor(n: nat) {
    n % 2 == 0 || n % 3 == 0 || n % 5 == 0 || n % 7 == 0 || n % 11 == 0 || n % 13 == 0 || n % 17 == 0
  }

  predicate IsSmallPrime(n: nat) { n == 2 || n == 3 || n == 5 || n == 7 || n == 11 || n == 13 || n == 17 }

  predicate PassesTrial(n: nat) { n >= 2 && (IsSmallPrime(n) || !HasSmallFactor(n)) }

  lemma FactorOfProduct(p: nat, d: nat, e: nat)
    requires p > 0 && d % p == 0
    ensures (d * e) % p == 0
  {
    var q := d / p;
    assert d * e == p * (q * e);
    MultipleIsDivisible(p, q * e);
  }

  lemma MultipleIsDivisible(p: nat, q: nat)
    requires p > 0
    ensures (p * q) % p == 0
  {
    var t, r := (p * q) / p, (p * q) % p;
    assert p * q == p * t + r;
    Remainder(p, q - t, r);
  }

  lemma Remainder(p: nat, k: int, r: nat)
    requires r < p && p * k == r
    ensures r == 0
  {
    assert k >= 1 ==> p * k >= p;
    assert k <= -1 ==> p * k <= p * -1;
  }

  lemma SmallFactors(d: nat, e: nat)
    requires 2 <= d <= 18
    ensures HasSmallFactor(d * e)
  {
    hide HasSmallFactor;
    var p := if d % 2 == 0 then 2 else if d % 3 == 0 then 3 else if d % 5 == 0 then 5 else d;
    SmallDivisor(d);
    FactorOfProduct(p, d, e);
    DividedBySmall(p, d * e);
  }

  lemma SmallDivisor(d: nat)
    requires 2 <= d <= 18
    ensures d % 2 == 0 || d % 3 == 0 || d % 5 == 0 || IsSmallPrime(d)
  {
  }

  lemma DividedBySmall(p: nat, n: nat)
    requires IsSmallPrime(p) && n % p == 0
    ensures HasSmallFactor(n)
  {
  }

  /** Below 19 squared, trial division by the primes up to 17 decides. */
  lemma TrialDecides(n: nat)
    requires n < 361
    ensures Prime(n) <==> PassesTrial(n)
  {
    if n >= 2 && !IsSmallPrime(n) {
      if !HasSmallFactor(n) {
        forall d: nat | 2 <= d < n ensures !Divides(d, n) {
          if Divides(d, n) { Factors(n, d); }
        }
      } else {
        var p := if n % 2 == 0 then 2 else if n % 3 == 0 then 3 else if n % 5 == 0 then 5 else if n % 7 == 0 then 7
                 else if n % 11 == 0 then 11 else if n % 13 == 0 then 13 else 17;
        assert Divides(p, n) && p < n;
      }
    } else if IsSmallPrime(n) {
      assert forall d: nat :: 2 <= d < n ==> !Divides(d, n);
    }
  }

  lemma Factors(n: nat, d: nat)
    requires 2 <= d < n < 361 && n % d == 0
    ensures HasSmallFactor(n)
  {
    var e := n / d;
    assert n == d * e;
    if d <= 18 {
      SmallFactors(d, e);
    } else {
      assert e <= 18 by { if e >= 19 { LargeProduct(d, e); } }
      assert e >= 2;
      SmallFactors(e, d);
    }
  }

  lemma LargeProduct(d: nat, e: nat)
    requires d >= 19 && e >= 19
    ensures d * e >= 361
  {
    assert d * e >= 19 * e;
  }

  function RowOf(n: nat): nat {
    if n < 23 then 0 else if n < 59 then 1 else if n < 97 then 2 else if n < 137 then 3
    else if n < 179 then 4 else if n < 227 then 5 else if n < 269 then 6 else 7
  }

  lemma RowsPass(row: nat, i: nat)
    requires row < 8 && i < 8
    ensures PassesTrial(PrimeRow(row)[i])
  {
  }

  /** Without the factors 2, 3 and 5, only eight remainders modulo 30 are left. */
  lemma ModuloThirty(n: nat)
    requires n % 2 != 0 && n % 3 != 0 && n % 5 != 0
    ensures n % 30 in {1, 7, 11, 13, 17, 19, 23, 29}
  {
    RemainderDivides(n, 2, 15);
    RemainderDivides(n, 3, 10);
    RemainderDivides(n, 5, 6);
    SmallRemainder(n % 30);
  }

  lemma RemainderDivides(n: nat, p: nat, m: nat)
    requires p > 0 && p * m == 30
    ensures (n % 30) % p == 0 ==> n % p == 0
  {
    var q, r := n / 30, n % 30;
    ThirtyTimes(p, m, q);
    if r % p == 0 {
      Sum(p, m * q, r / p);
      MultipleIsDivisible(p, m * q + r / p);
      assert n == p * (m * q + r / p);
    }
  }

  lemma ThirtyTimes(p: nat, m: nat, q: nat)
    requires p * m == 30
    ensures 30 * q == p * (m * q)
  {
  }

  lemma Sum(p: nat, a: nat, b: nat)
    ensures p * (a + b) == p * a + p * b
  {
  }

  lemma SmallRemainder(r: nat)
    requires r < 30 && r % 2 != 0 && r % 3 != 0 && r % 5 != 0
    ensures r in {1, 7, 11, 13, 17, 19, 23, 29}
  {
  }

  /** So the numbers that pass are among these. */
  lemma LowCandidates(n: nat)
    requires 6 <= n < 60 && !HasSmallFactor(n)
    ensures n in PrimeRow(RowOf(n))
  {
    ModuloThirty(n);
    match n / 30
    case 0 => assert n in {7, 11, 13, 17, 19, 23, 29};
    case _ => assert n in {31, 37, 41, 43, 47, 49, 53, 59};
  }

  lemma MiddleCandidates(n: nat)
    requires 60 <= n < 150 && !HasSmallFactor(n)
    ensures n in PrimeRow(RowOf(n))
  {
    ModuloThirty(n);
    match n / 30
    case 2 => assert n in {61, 67, 71, 73, 77, 79, 83, 89};
    case 3 => assert n in {91, 97, 101, 103, 107, 109, 113, 119};
    case _ => assert n in {121, 127, 131, 133, 137, 139, 143, 149};
  }

  lemma HighCandidates(n: nat)
    requires 150 <= n < 312 && !HasSmallFactor(n)
    ensures n in PrimeRow(RowOf(n))
  {
    ModuloThirty(n);
    match n / 30
    case 5 => assert n in {151, 157, 161, 163, 167, 169, 173, 179};
    case 6 => assert n in {181, 187, 191, 193, 197, 199, 203, 209};
    case 7 => assert n in {211, 217, 221, 223, 227, 229, 233, 239};
    case 8 => assert n in {241, 247, 251, 253, 257, 259, 263, 269};
    case 9 => assert n in {271, 277, 281, 283, 287, 289, 293, 299};
    case _ => assert n in {301, 307, 311};
  }

  lemma RowBounds(row: nat)
    requires row < 8
    ensures forall i :: 0 <= i < 8 ==> 2 <= PrimeRow(row)[i] < 312 && RowOf(PrimeRow(row)[i]) == row
  {
  }

  lemma OnlyRow(n: nat, row: nat)
    requires row < 8 && n in PrimeRow(row)
    ensures 2 <= n < 312 && row == RowOf(n)
  {
    hide PrimeRow, RowOf;
    RowBounds(row);
    var i :| 0 <= i < 8 && PrimeRow(row)[i] == n;
  }

  lemma RowDecides(n: nat)
    requires 2 <= n < 312
    ensures RowOf(n) < 8
    ensures n in PrimeRow(RowOf(n)) <==> PassesTrial(n)
  {
    if PassesTrial(n) {
      if !IsSmallPrime(n) {
        if n < 60 { LowCandidates(n); } else if n < 150 { MiddleCandidates(n); } else { HighCandidates(n); }
      }
    }
    if i :| 0 <= i < 8 && PrimeRow(RowOf(n))[i] == n { RowsPass(RowOf(n), i); }
  }

  /** The rows hold exactly the primes below 312. */
  lemma FirstPrimes(n: nat)
    requires n < 312
    ensures Prime(n) <==> exists row :: 0 <= row < 8 && n in PrimeRow(row)
  {
    hide PrimeRow, PassesTrial, RowOf, Prime;
    TrialDecides(n);
    if n < 2 {
      NotPrime(n);
    } else {
      RowDecides(n);
    }
    if row :| 0 <= row < 8 && n in PrimeRow(row) { OnlyRow(n, row); }
  }

  lemma NotPrime(n: nat)
    requires n < 2
    ensures !PassesTrial(n)
  {
  }

  /** They are in increasing order, so none is listed twice. */
  lemma PrimesIncrease(row: nat, i: nat)
    requires row < 8 && i < 8 && (row < 7 || i < 7)
    ensures PrimeRow(row)[i] < if i < 7 then PrimeRow(row)[i + 1] else PrimeRow(row + 1)[0]
  {
  }
}
