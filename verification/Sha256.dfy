/** SHA-256 as FIPS 180-4 defines it, on 32-bit words and whole messages. */
module Sha256 {
  import opened ShaConstants

  type Byte = bv8
  type Word = bv32

  // ---- Section 4.1.2 and 4.2.2 ----

  function Ch(x: Word, y: Word, z: Word): Word { (x & y) ^ (!x & z) }
  function Maj(x: Word, y: Word, z: Word): Word { (x & y) ^ (x & z) ^ (y & z) }
  function RotR(x: Word, n: bv32): Word
    requires 0 < n < 32
  {
    (x >> n) | (x << (32 - n))
  }
  function Xor(x: Word, y: Word, z: Word): Word { x ^ y ^ z }
  function Shr(x: Word, n: bv32): Word
    requires 0 < n < 32
  {
    x >> n
  }
  function BigSigma0(x: Word): Word { Xor(RotR(x, 2), RotR(x, 13), RotR(x, 22)) }
  function BigSigma1(x: Word): Word { Xor(RotR(x, 6), RotR(x, 11), RotR(x, 25)) }
  function SmallSigma0(x: Word): Word { Xor(RotR(x, 7), RotR(x, 18), Shr(x, 3)) }
  function SmallSigma1(x: Word): Word { Xor(RotR(x, 17), RotR(x, 19), Shr(x, 10)) }

  function K(t: nat): Word
    requires t < 64
  {
    KRow(t / 8)[t % 8] as Word
  }

  // ---- Section 6.2.2: one block ----

  datatype Digest = Digest(a: Word, b: Word, c: Word, d: Word, e: Word, f: Word, g: Word, h: Word)

  type Block = s: seq<Byte> | |s| == 64 witness seq(64, i => 0)

  function BytesWord(a: Byte, b: Byte, c: Byte, d: Byte): Word {
    ((a as Word) << 24) | ((b as Word) << 16) | ((c as Word) << 8) | (d as Word)
  }

  function BlockWord(block: Block, t: nat): Word
    requires t < 16
  {
    BytesWord(block[4 * t], block[4 * t + 1], block[4 * t + 2], block[4 * t + 3])
  }

  function ScheduleWord(a: Word, b: Word, c: Word, d: Word): Word { a + b + c + d }

  /** The first n words of the message schedule. */
  function Schedule(block: Block, n: nat): (w: seq<Word>)
    requires n <= 64
    ensures |w| == n
  {
    if n == 0 then [] else
      var w := Schedule(block, n - 1);
      w + [if n <= 16 then BlockWord(block, n - 1)
           else ScheduleWord(SmallSigma1(w[n - 3]), w[n - 8], SmallSigma0(w[n - 16]), w[n - 17])]
  }

  /** d plus T1, and T1 plus T2, where T1 is the sum of five words and T2 that of two. */
  function RoundE(d: Word, h: Word, s1: Word, c: Word, k: Word, w: Word): Word { d + (h + s1 + c + k + w) }
  function RoundA(h: Word, s1: Word, c: Word, k: Word, w: Word, s0: Word,
                  m: Word): Word { h + s1 + c + k + w + (s0 + m) }

  function Round(s: Digest, k: Word, w: Word): Digest {
    var s1, c := BigSigma1(s.e), Ch(s.e, s.f, s.g);
    Digest(RoundA(s.h, s1, c, k, w, BigSigma0(s.a), Maj(s.a, s.b, s.c)), s.a, s.b, s.c,
           RoundE(s.d, s.h, s1, c, k, w), s.e, s.f, s.g)
  }

  function Rounds(s: Digest, block: Block, t: nat): Digest
    requires t <= 64
  {
    if t == 0 then s else Round(Rounds(s, block, t - 1), K(t - 1), Schedule(block, 64)[t - 1])
  }

  function Compress(s: Digest, block: Block): Digest {
    var r := Rounds(s, block, 64);
    Digest(Add(s.a, r.a), Add(s.b, r.b), Add(s.c, r.c), Add(s.d, r.d), Add(s.e, r.e), Add(s.f, r.f), Add(s.g, r.g),
           Add(s.h, r.h))
  }

  function Add(x: Word, y: Word): Word { x + y }

  /** Round t uses the first 32 bits of the fractional part of the cube root of the t-th prime, counted
      from zero. */
  lemma KIsCubeRoot(t: nat)
    requires t < 64
    ensures exists a, k :: CubeRoot(PrimeRow(t / 8)[t % 8], a, k) && K(t) == k as Word
  {
    hide KRow, PrimeRow, CubeRoot;
    KIsCubeRoots(t / 8, t % 8);
    var a :| CubeRoot(PrimeRow(t / 8)[t % 8], a, KRow(t / 8)[t % 8]);
  }

  // ---- Sections 5.1.1 and 5.3.3: whole messages ----

  function ToWord(n: nat): Word
    requires n < 0x1_0000_0000
  {
    n as Word
  }

  function DigestFrom(v: seq<nat>): Digest
    requires |v| == 8 && forall i :: 0 <= i < 8 ==> v[i] < 0x1_0000_0000
  {
    Digest(ToWord(v[0]), ToWord(v[1]), ToWord(v[2]), ToWord(v[3]),
           ToWord(v[4]), ToWord(v[5]), ToWord(v[6]), ToWord(v[7]))
  }

  const INITIAL: Digest := DigestFrom(INITIAL_VALUES)

  /** Word i of the initial digest is that of the square root of the i-th prime. */
  lemma InitialIsSquareRoot(i: nat)
    requires i < 8
    ensures exists a, h :: SquareRoot(PrimeRow(0)[i], a, h) && DigestWord(INITIAL, i) == h as Word
  {
    InitialIsSquareRoots(i);
    hide PrimeRow, DigestFrom, DigestWord;
    var a :| SquareRoot(PrimeRow(0)[i], a, INITIAL_VALUES[i]);
    WordFrom(INITIAL_VALUES, i);
  }

  lemma WordFrom(v: seq<nat>, i: nat)
    requires |v| == 8 && (forall k :: 0 <= k < 8 ==> v[k] < 0x1_0000_0000) && i < 8
    ensures DigestWord(DigestFrom(v), i) == ToWord(v[i])
  {
    hide ToWord;
  }

  const TWO_TO_64: nat := 0x1_0000_0000_0000_0000

  function ToByte(n: nat): Byte { (n % 256) as Byte }

  function BigEndian(n: nat, width: nat): (s: seq<Byte>)
    ensures |s| == width
  {
    if width == 0 then [] else BigEndian(n / 256, width - 1) + [ToByte(n)]
  }

  /** How many zero bytes follow the byte 0x80. */
  function Zeros(length: nat): (k: nat)
    ensures k < 64 && (length + 1 + k) % 64 == 56
  {
    (55 - length) % 64
  }

  function ZeroBytes(n: nat): (s: seq<Byte>)
    ensures |s| == n && forall k :: 0 <= k < n ==> s[k] == 0
  {
    seq(n, i => 0)
  }

  function LengthField(length: nat): (s: seq<Byte>)
    ensures |s| == 8
  {
    BigEndian(8 * length % TWO_TO_64, 8)
  }

  /** The padding, whose last eight bytes hold the length in bits.  The standard is for messages
      shorter than 2^61 bytes; the length of longer ones is taken modulo 2^64. */
  function Padding(length: nat): (p: seq<Byte>)
    ensures (length + |p|) % 64 == 0
  {
    [0x80] + ZeroBytes(Zeros(length)) + LengthField(length)
  }

  /** Compression of all complete blocks of s, from the left. */
  function Absorb(d: Digest, s: seq<Byte>): Digest
    decreases |s|
  {
    if |s| < 64 then d else Absorb(Compress(d, s[..64]), s[64..])
  }

  function DigestOf(message: seq<Byte>): Digest {
    Absorb(INITIAL, message + Padding(|message|))
  }

  function WordBytes(w: Word): (s: seq<Byte>)
    ensures |s| == 4
  {
    [((w >> 24) & 0xff) as Byte, ((w >> 16) & 0xff) as Byte, ((w >> 8) & 0xff) as Byte, (w & 0xff) as Byte]
  }

  function DigestWord(d: Digest, n: nat): Word
    requires n < 8
  {
    [d.a, d.b, d.c, d.d, d.e, d.f, d.g, d.h][n]
  }

  function DigestBytes(d: Digest): (s: seq<Byte>)
    ensures |s| == 32
  {
    seq(32, k requires 0 <= k < 32 => WordBytes(DigestWord(d, k / 4))[k % 4])
  }

  /** Complete blocks may be absorbed in two steps. */
  lemma {:induction false} AbsorbAppend(d: Digest, s: seq<Byte>, t: seq<Byte>)
    requires |s| % 64 == 0
    ensures Absorb(d, s + t) == Absorb(Absorb(d, s), t)
    decreases |s|
  {
    hide Compress;
    if s == [] {
      assert s + t == t;
    } else {
      assert (s + t)[..64] == s[..64] && (s + t)[64..] == s[64..] + t;
      AbsorbAppend(Compress(d, s[..64]), s[64..], t);
    }
  }

  /** The length of all complete blocks. */
  function Whole(n: nat): (q: nat)
    ensures q % 64 == 0 && q <= n < q + 64
  {
    n - n % 64
  }

  /** An incomplete block at the end is left alone. */
  lemma AbsorbComplete(d: Digest, s: seq<Byte>)
    ensures Absorb(d, s) == Absorb(d, s[..Whole(|s|)])
  {
    var q := Whole(|s|);
    assert s == s[..q] + s[q..];
    AbsorbAppend(d, s[..q], s[q..]);
  }

  lemma AbsorbOne(d: Digest, s: seq<Byte>, block: Block)
    requires |s| % 64 == 0
    ensures Absorb(d, s + block) == Compress(Absorb(d, s), block)
  {
    AbsorbAppend(d, s, block);
    var e := Absorb(d, s);
    assert block[..64] == block && block[64..] == [];
    assert Absorb(Compress(e, block), []) == Compress(e, block);
  }

  /** The number of zeros is the least that makes the padded length a whole number of blocks. */
  lemma FewestZeros(length: nat, k: nat)
    requires (length + 1 + k + 8) % 64 == 0
    ensures Zeros(length) <= k
  {
    if k < 64 { assert (length + 1 + k) % 64 == 56; }
  }

  /** The base 256 digits of n, most significant first, and the value of such digits. */
  function Digits(n: nat, width: nat): (s: seq<nat>)
    ensures |s| == width
  {
    if width == 0 then [] else Digits(n / 256, width - 1) + [n % 256]
  }

  function DigitsValue(s: seq<nat>): nat {
    if s == [] then 0 else 256 * DigitsValue(s[..|s| - 1]) + s[|s| - 1]
  }

  function Power256(width: nat): nat { if width == 0 then 1 else 256 * Power256(width - 1) }

  lemma {:induction false} DigitsHaveValue(n: nat, width: nat)
    requires n < Power256(width)
    ensures DigitsValue(Digits(n, width)) == n
  {
    if width > 0 {
      DigitsHaveValue(n / 256, width - 1);
      assert Digits(n, width)[..width - 1] == Digits(n / 256, width - 1);
    }
  }

  lemma {:induction false} BigEndianDigits(n: nat, width: nat)
    ensures forall k :: 0 <= k < width ==> BigEndian(n, width)[k] == ToByte(Digits(n, width)[k])
  {
    hide ToByte;
    if width > 0 {
      BigEndianDigits(n / 256, width - 1);
      LastByte(n);
    }
  }

  lemma LastByte(n: nat)
    ensures ToByte(n) == ToByte(n % 256)
  {
  }

  /** For messages the standard is for, the field holds the digits of the exact length in bits. */
  lemma LengthIsExact(length: nat)
    requires length < 0x2000_0000_0000_0000
    ensures DigitsValue(Digits(8 * length, 8)) == 8 * length
    ensures forall k :: 0 <= k < 8 ==> LengthField(length)[k] == ToByte(Digits(8 * length, 8)[k])
  {
    hide BigEndian, Digits, DigitsValue, ToByte;
    assert Power256(8) == TWO_TO_64;
    DigitsHaveValue(8 * length, 8);
    BigEndianDigits(8 * length, 8);
  }
}
