/** The incremental hasher: 64-bit words, masked late, and a buffer of incomplete blocks. */
module Picosha2 {
  import opened Sha256

  type WideWord = bv64

  function Mask32(x: WideWord): WideWord { x & 0xffff_ffff }
  function WideCh(x: WideWord, y: WideWord, z: WideWord): WideWord { (x & y) ^ (!x & z) }
  function WideMaj(x: WideWord, y: WideWord, z: WideWord): WideWord { (x & y) ^ (x & z) ^ (y & z) }
  function WideRotR(x: WideWord, n: bv64): WideWord
    requires 0 < n < 32
  {
    Mask32((x >> n) | (x << (32 - n)))
  }
  function WideShr(x: WideWord, n: bv64): WideWord
    requires 0 < n < 32
  {
    x >> n
  }
  function Xor3(x: WideWord, y: WideWord, z: WideWord): WideWord { x ^ y ^ z }
  function WideBSig0(x: WideWord): WideWord { Xor3(WideRotR(x, 2), WideRotR(x, 13), WideRotR(x, 22)) }
  function WideBSig1(x: WideWord): WideWord { Xor3(WideRotR(x, 6), WideRotR(x, 11), WideRotR(x, 25)) }
  function WideSSig0(x: WideWord): WideWord { Xor3(WideRotR(x, 7), WideRotR(x, 18), WideShr(x, 3)) }
  function WideSSig1(x: WideWord): WideWord { Xor3(WideRotR(x, 17), WideRotR(x, 19), WideShr(x, 10)) }

  // ---- Words that hold 32 bits ----

  /** A 32-bit word in a 64-bit one.  The lemmas below speak of conversions first, where bit vectors
      simplify, and only then of `Wide`. */
  function Wide(x: Word): WideWord { x as WideWord }

  lemma RotrBits2And13(x: Word)
    ensures WideRotR(x as WideWord, 2) == RotR(x, 2) as WideWord
    ensures WideRotR(x as WideWord, 13) == RotR(x, 13) as WideWord
  {
  }

  lemma RotrBits22And6(x: Word)
    ensures WideRotR(x as WideWord, 22) == RotR(x, 22) as WideWord
    ensures WideRotR(x as WideWord, 6) == RotR(x, 6) as WideWord
  {
  }

  lemma RotrBits11And25(x: Word)
    ensures WideRotR(x as WideWord, 11) == RotR(x, 11) as WideWord
    ensures WideRotR(x as WideWord, 25) == RotR(x, 25) as WideWord
  {
  }

  lemma RotrBits7And18(x: Word)
    ensures WideRotR(x as WideWord, 7) == RotR(x, 7) as WideWord
    ensures WideRotR(x as WideWord, 18) == RotR(x, 18) as WideWord
  {
  }

  lemma RotrBits17And19(x: Word)
    ensures WideRotR(x as WideWord, 17) == RotR(x, 17) as WideWord
    ensures WideRotR(x as WideWord, 19) == RotR(x, 19) as WideWord
  {
  }

  lemma ShiftBits(x: Word)
    ensures WideShr(x as WideWord, 3) == Shr(x, 3) as WideWord && WideShr(x as WideWord, 10) == Shr(x, 10) as WideWord
  {
  }

  lemma XorBits(x: Word, y: Word, z: Word)
    ensures Xor3(x as WideWord, y as WideWord, z as WideWord) == (x ^ y ^ z) as WideWord
  {
  }

  lemma XorWideBits(x: Word, y: Word, z: Word)
    ensures Xor3(Wide(x), Wide(y), Wide(z)) == Wide(x ^ y ^ z)
  {
    hide Xor3;
    XorBits(x, y, z);
  }

  lemma XorWide(x: Word, y: Word, z: Word)
    ensures Xor3(Wide(x), Wide(y), Wide(z)) == Wide(Xor(x, y, z))
  {
    hide Wide, Xor3;
    XorWideBits(x, y, z);
  }

  lemma ShiftWide(x: Word)
    ensures WideShr(Wide(x), 3) == Wide(Shr(x, 3)) && WideShr(Wide(x), 10) == Wide(Shr(x, 10))
  {
    hide WideShr, Shr;
    ShiftBits(x);
  }

  lemma Rotr2And13(x: Word)
    ensures WideRotR(Wide(x), 2) == Wide(RotR(x, 2)) && WideRotR(Wide(x), 13) == Wide(RotR(x, 13))
  {
    hide WideRotR, RotR;
    RotrBits2And13(x);
  }

  lemma Rotr22And6(x: Word)
    ensures WideRotR(Wide(x), 22) == Wide(RotR(x, 22)) && WideRotR(Wide(x), 6) == Wide(RotR(x, 6))
  {
    hide WideRotR, RotR;
    RotrBits22And6(x);
  }

  lemma Rotr11And25(x: Word)
    ensures WideRotR(Wide(x), 11) == Wide(RotR(x, 11)) && WideRotR(Wide(x), 25) == Wide(RotR(x, 25))
  {
    hide WideRotR, RotR;
    RotrBits11And25(x);
  }

  lemma Rotr7And18(x: Word)
    ensures WideRotR(Wide(x), 7) == Wide(RotR(x, 7)) && WideRotR(Wide(x), 18) == Wide(RotR(x, 18))
  {
    hide WideRotR, RotR;
    RotrBits7And18(x);
  }

  lemma Rotr17And19(x: Word)
    ensures WideRotR(Wide(x), 17) == Wide(RotR(x, 17)) && WideRotR(Wide(x), 19) == Wide(RotR(x, 19))
  {
    hide WideRotR, RotR;
    RotrBits17And19(x);
  }

  lemma BigSigmaWide(x: Word)
    ensures WideBSig0(Wide(x)) == Wide(BigSigma0(x)) && WideBSig1(Wide(x)) == Wide(BigSigma1(x))
  {
    hide Wide, WideRotR, RotR, Xor3, Xor;
    Rotr2And13(x);
    Rotr22And6(x);
    Rotr11And25(x);
    XorWide(RotR(x, 2), RotR(x, 13), RotR(x, 22));
    XorWide(RotR(x, 6), RotR(x, 11), RotR(x, 25));
  }

  lemma SmallSigmaWide(x: Word)
    ensures WideSSig0(Wide(x)) == Wide(SmallSigma0(x)) && WideSSig1(Wide(x)) == Wide(SmallSigma1(x))
  {
    hide Wide, WideRotR, RotR, Xor3, Xor, WideShr, Shr;
    Rotr7And18(x);
    Rotr17And19(x);
    ShiftWide(x);
    XorWide(RotR(x, 7), RotR(x, 18), Shr(x, 3));
    XorWide(RotR(x, 17), RotR(x, 19), Shr(x, 10));
  }

  lemma ChoiceWide(x: Word, y: Word, z: Word)
    ensures WideCh(Wide(x), Wide(y), Wide(z)) == Wide(Ch(x, y, z))
    ensures WideMaj(Wide(x), Wide(y), Wide(z)) == Wide(Maj(x, y, z))
  {
  }

  function LoadWord(a: Byte, b: Byte, c: Byte, d: Byte): WideWord {
    ((a as WideWord) << 24) | ((b as WideWord) << 16) | ((c as WideWord) << 8) | (d as WideWord)
  }

  lemma LoadBits(a: Byte, b: Byte, c: Byte, d: Byte)
    ensures LoadWord(a, b, c, d) == BytesWord(a, b, c, d) as WideWord
  {
  }

  lemma LoadWide(a: Byte, b: Byte, c: Byte, d: Byte)
    ensures LoadWord(a, b, c, d) == Wide(BytesWord(a, b, c, d))
  {
    hide LoadWord, BytesWord;
    LoadBits(a, b, c, d);
  }

  // ---- Sums that are masked late ----

  function ScheduleSum(a: WideWord, b: WideWord, c: WideWord, d: WideWord): WideWord { Mask32(a + b + c + d) }

  /** The new `e` and `a` of a round: d plus `temp1`, and `temp1` plus `temp2`. */
  function NextE(d: WideWord, h: WideWord, s1: WideWord, c: WideWord, k: WideWord, w: WideWord): WideWord {
    Mask32(d + (h + s1 + c + k + w))
  }
  function NextA(h: WideWord, s1: WideWord, c: WideWord, k: WideWord, w: WideWord, s0: WideWord,
                 m: WideWord): WideWord {
    Mask32(h + s1 + c + k + w + (s0 + m))
  }

  function Plus(x: WideWord, y: WideWord): WideWord { x + y }
  function FinalSum(x: WideWord, y: WideWord): WideWord { Mask32(x + y) }

  lemma SumBits(a: Word, b: Word, c: Word, d: Word)
    ensures ScheduleSum(a as WideWord, b as WideWord, c as WideWord, d as WideWord) == (a + b + c + d) as WideWord
    ensures FinalSum(a as WideWord, b as WideWord) == (a + b) as WideWord
  {
  }

  lemma SumWideBits(a: Word, b: Word, c: Word, d: Word)
    ensures ScheduleSum(Wide(a), Wide(b), Wide(c), Wide(d)) == Wide(a + b + c + d)
    ensures FinalSum(Wide(a), Wide(b)) == Wide(a + b)
  {
    hide ScheduleSum, FinalSum;
    SumBits(a, b, c, d);
  }

  lemma SumWide(a: Word, b: Word, c: Word, d: Word)
    ensures ScheduleSum(Wide(a), Wide(b), Wide(c), Wide(d)) == Wide(ScheduleWord(a, b, c, d))
    ensures FinalSum(Wide(a), Wide(b)) == Wide(Add(a, b))
  {
    hide Wide, ScheduleSum, FinalSum;
    SumWideBits(a, b, c, d);
  }

  lemma NextBits(d: Word, h: Word, s1: Word, c: Word, k: Word, w: Word, s0: Word, m: Word)
    ensures NextE(d as bv64, h as bv64, s1 as bv64, c as bv64, k as bv64, w as bv64) ==
      (d + (h + s1 + c + k + w)) as bv64
    ensures NextA(h as bv64, s1 as bv64, c as bv64, k as bv64, w as bv64, s0 as bv64, m as bv64)
      == (h + s1 + c + k + w + (s0 + m)) as bv64
  {
  }

  lemma NextWideBits(d: Word, h: Word, s1: Word, c: Word, k: Word, w: Word, s0: Word, m: Word)
    ensures NextE(Wide(d), Wide(h), Wide(s1), Wide(c), Wide(k), Wide(w)) == Wide(d + (h + s1 + c + k + w))
    ensures NextA(Wide(h), Wide(s1), Wide(c), Wide(k), Wide(w), Wide(s0), Wide(m)) ==
      Wide(h + s1 + c + k + w + (s0 + m))
  {
    hide NextE, NextA;
    NextBits(d, h, s1, c, k, w, s0, m);
  }

  /** The sums of one round, masked at the end only, are the sums of the standard. */
  lemma NextWide(d: Word, h: Word, s1: Word, c: Word, k: Word, w: Word, s0: Word, m: Word)
    ensures NextE(Wide(d), Wide(h), Wide(s1), Wide(c), Wide(k), Wide(w)) == Wide(RoundE(d, h, s1, c, k, w))
    ensures NextA(Wide(h), Wide(s1), Wide(c), Wide(k), Wide(w), Wide(s0), Wide(m)) ==
      Wide(RoundA(h, s1, c, k, w, s0, m))
  {
    hide Wide, NextE, NextA;
    NextWideBits(d, h, s1, c, k, w, s0, m);
  }

  /** No sum of a round overflows 64 bits: computed in 80 bits, it is the same. */
  lemma SumsAreExact(d: Word, h: Word, s1: Word, c: Word, k: Word, w: Word, s0: Word, m: Word)
    ensures ((h as bv64) + (s1 as bv64) + (c as bv64) + (k as bv64) + (w as bv64)) as bv80
      == (h as bv80) + (s1 as bv80) + (c as bv80) + (k as bv80) + (w as bv80)
    ensures ((s0 as bv64) + (m as bv64)) as bv80 == (s0 as bv80) + (m as bv80)
    ensures ((d as bv64) + ((h as bv64) + (s1 as bv64) + (c as bv64) + (k as bv64) + (w as bv64))) as bv80
      == (d as bv80) + ((h as bv80) + (s1 as bv80) + (c as bv80) + (k as bv80) + (w as bv80))
    ensures (((h as bv64) + (s1 as bv64) + (c as bv64) + (k as bv64) + (w as bv64)) +
             ((s0 as bv64) + (m as bv64))) as bv80
      == ((h as bv80) + (s1 as bv80) + (c as bv80) + (k as bv80) + (w as bv80)) + ((s0 as bv80) + (m as bv80))
  {
  }

  // ---- One block ----

  function Words(d: Digest): (w: seq<WideWord>)
    ensures |w| == 8
  {
    [Wide(d.a), Wide(d.b), Wide(d.c), Wide(d.d), Wide(d.e), Wide(d.f), Wide(d.g), Wide(d.h)]
  }

  /** The eight words, each below 2^32, hold the digest. */
  ghost predicate Holds(h: array<WideWord>, d: Digest)
    reads h
  {
    h[..] == Words(d)
  }

  lemma ScheduleStays(block: Block, m: nat, n: nat)
    requires m <= n <= 64
    ensures Schedule(block, n)[..m] == Schedule(block, m)
  {
    if m < n { ScheduleStays(block, m, n - 1); }
  }

  lemma ScheduleAt(block: Block, t: nat)
    requires 16 <= t < 64
    ensures
      var w := Schedule(block, 64);
      w[t] == ScheduleWord(SmallSigma1(w[t - 2]), w[t - 7], SmallSigma0(w[t - 15]), w[t - 16])
  {
    ScheduleStays(block, t + 1, 64);
    ScheduleStays(block, t, 64);
    var w, v := Schedule(block, 64), Schedule(block, t);
    assert forall k :: 0 <= k < t ==> v[k] == w[..t][k];
    assert w[..t + 1][t] == w[t];
  }

  /** Fills in the message schedule. */
  method ExpandBlock(block: Block) returns (w: array<WideWord>)
    ensures fresh(w) && w.Length == 64
    ensures forall t :: 0 <= t < 64 ==> w[t] == Wide(Schedule(block, 64)[t])
  {
    hide Wide, WideSSig0, WideSSig1, SmallSigma0, SmallSigma1, ScheduleSum, ScheduleWord, BytesWord, LoadWord;
    w := new WideWord[64](i => 0);
    for i := 0 to 16
      invariant forall t :: 0 <= t < i ==> w[t] == Wide(Schedule(block, 64)[t])
    {
      w[i] := LoadWord(block[i * 4], block[i * 4 + 1], block[i * 4 + 2], block[i * 4 + 3]);
      LoadWide(block[i * 4], block[i * 4 + 1], block[i * 4 + 2], block[i * 4 + 3]);
      ScheduleStays(block, i + 1, 64);
      assert Schedule(block, 64)[i] == Schedule(block, 64)[..i + 1][i];
    }
    for i := 16 to 64
      invariant forall t :: 0 <= t < i ==> w[t] == Wide(Schedule(block, 64)[t])
    {
      ghost var s := Schedule(block, 64);
      ScheduleAt(block, i);
      SmallSigmaWide(s[i - 2]);
      SmallSigmaWide(s[i - 15]);
      SumWide(SmallSigma1(s[i - 2]), s[i - 7], SmallSigma0(s[i - 15]), s[i - 16]);
      w[i] := ScheduleSum(WideSSig1(w[i - 2]), w[i - 7], WideSSig0(w[i - 15]), w[i - 16]);
    }
  }

  lemma RoundWide(s: Digest, k: Word, w: Word)
    ensures
      var r := Round(s, k, w);
      var s1, c := WideBSig1(Wide(s.e)), WideCh(Wide(s.e), Wide(s.f), Wide(s.g));
      && NextE(Wide(s.d), Wide(s.h), s1, c, Wide(k), Wide(w)) == Wide(r.e)
      && NextA(Wide(s.h), s1, c, Wide(k), Wide(w), WideBSig0(Wide(s.a)),
               WideMaj(Wide(s.a), Wide(s.b), Wide(s.c))) == Wide(r.a)
  {
    hide Wide, WideBSig0, WideBSig1, WideCh, WideMaj, NextE, NextA, RoundE, RoundA, BigSigma0, BigSigma1, Ch, Maj;
    BigSigmaWide(s.e);
    BigSigmaWide(s.a);
    ChoiceWide(s.e, s.f, s.g);
    ChoiceWide(s.a, s.b, s.c);
    NextWide(s.d, s.h, BigSigma1(s.e), Ch(s.e, s.f, s.g), k, w, BigSigma0(s.a), Maj(s.a, s.b, s.c));
  }

  /** `hash256_block`: sums are taken in 64 bits and masked once a round. */
  method HashBlock(digest: array<WideWord>, block: Block, ghost s: Digest)
    requires digest.Length == 8 && Holds(digest, s)
    modifies digest
    ensures Holds(digest, Compress(s, block))
  {
    hide Wide, WideBSig0, WideBSig1, WideCh, WideMaj, NextE, NextA, Mask32, FinalSum, RoundE, RoundA, BigSigma0,
         BigSigma1, Ch, Maj, Add, Schedule, K;
    var w := ExpandBlock(block);
    assert Holds(digest, s);
    var a, b, c, d := digest[0], digest[1], digest[2], digest[3];
    var e, f, g, h := digest[4], digest[5], digest[6], digest[7];
    for i := 0 to 64
      invariant Holds(digest, s) && forall t :: 0 <= t < 64 ==> w[t] == Wide(Schedule(block, 64)[t])
      invariant [a, b, c, d, e, f, g, h] == Words(Rounds(s, block, i))
    {
      ghost var r := Rounds(s, block, i);
      SameWords([a, b, c, d, e, f, g, h], r);
      assert Rounds(s, block, i + 1) == Round(r, K(i), Schedule(block, 64)[i]);
      RoundWide(r, K(i), Schedule(block, 64)[i]);
      var nextE := NextE(d, h, WideBSig1(e), WideCh(e, f, g), Wide(K(i)), w[i]);
      var nextA := NextA(h, WideBSig1(e), WideCh(e, f, g), Wide(K(i)), w[i], WideBSig0(a), WideMaj(a, b, c));
      h := g;
      g := f;
      f := e;
      e := nextE;
      d := c;
      c := b;
      b := a;
      a := nextA;
    }
    AddAndMask(digest, [a, b, c, d, e, f, g, h], s, Rounds(s, block, 64));
  }

  lemma WordsAt(d: Digest)
    ensures Words(d)[0] == Wide(d.a) && Words(d)[1] == Wide(d.b) && Words(d)[2] == Wide(d.c) && Words(d)[3] == Wide(d.d)
    ensures Words(d)[4] == Wide(d.e) && Words(d)[5] == Wide(d.f) && Words(d)[6] == Wide(d.g) && Words(d)[7] == Wide(d.h)
  {
    hide Wide;
  }

  lemma SameWords(w: seq<WideWord>, d: Digest)
    requires w == Words(d)
    ensures w[0] == Wide(d.a) && w[1] == Wide(d.b) && w[2] == Wide(d.c) && w[3] == Wide(d.d)
    ensures w[4] == Wide(d.e) && w[5] == Wide(d.f) && w[6] == Wide(d.g) && w[7] == Wide(d.h)
  {
    hide Wide, Words;
    WordsAt(d);
  }

  /** The end of `hash256_block`: all sums first, then all masks. */
  method AddAndMask(digest: array<WideWord>, w: seq<WideWord>, ghost s: Digest, ghost r: Digest)
    requires digest.Length == 8 && Holds(digest, s) && w == Words(r)
    modifies digest
    ensures Holds(digest, Digest(Add(s.a, r.a), Add(s.b, r.b), Add(s.c, r.c), Add(s.d, r.d),
                                 Add(s.e, r.e), Add(s.f, r.f), Add(s.g, r.g), Add(s.h, r.h)))
  {
    hide Mask32, Wide, Add, Plus, Words, FinalSum;
    for i := 0 to 8
      invariant forall k :: 0 <= k < i ==> digest[k] == Plus(old(digest[k]), w[k])
      invariant forall k :: i <= k < 8 ==> digest[k] == old(digest[k])
    {
      digest[i] := Plus(digest[i], w[i]);
    }
    for i := 0 to 8
      invariant forall k :: 0 <= k < i ==> digest[k] == FinalSum(old(digest[k]), w[k])
      invariant forall k :: i <= k < 8 ==> digest[k] == Plus(old(digest[k]), w[k])
    {
      MaskOfPlus(old(digest[i]), w[i]);
      digest[i] := Mask32(digest[i]);
    }
    WordsAdd(s, r);
  }

  lemma MaskOfPlus(x: WideWord, y: WideWord)
    ensures Mask32(Plus(x, y)) == FinalSum(x, y)
  {
  }

  lemma WordsAdd(s: Digest, r: Digest)
    ensures
      var sum := Digest(Add(s.a, r.a), Add(s.b, r.b), Add(s.c, r.c), Add(s.d, r.d), Add(s.e, r.e), Add(s.f, r.f),
                        Add(s.g, r.g), Add(s.h, r.h));
      forall k :: 0 <= k < 8 ==> FinalSum(Words(s)[k], Words(r)[k]) == Words(sum)[k]
  {
    hide Wide, Add, FinalSum, Words;
    WordsAt(s);
    WordsAt(r);
    WordsAt(Digest(Add(s.a, r.a), Add(s.b, r.b), Add(s.c, r.c), Add(s.d, r.d), Add(s.e, r.e), Add(s.f, r.f),
                   Add(s.g, r.g), Add(s.h, r.h)));
    SumsWide(s.a, r.a, s.b, r.b);
    SumsWide(s.c, r.c, s.d, r.d);
    SumsWide(s.e, r.e, s.f, r.f);
    SumsWide(s.g, r.g, s.h, r.h);
  }

  lemma SumsWide(a: Word, b: Word, c: Word, d: Word)
    ensures FinalSum(Wide(a), Wide(b)) == Wide(Add(a, b)) && FinalSum(Wide(c), Wide(d)) == Wide(Add(c, d))
  {
    hide Wide, Add, FinalSum, ScheduleSum, ScheduleWord;
    SumWide(a, b, a, b);
    SumWide(c, d, c, d);
  }

  // ---- The hasher ----

  /** The value of limbs of sixteen bits, least significant first. */
  function LimbsValue(d: seq<nat>): nat
    requires |d| == 4
  {
    d[0] + 0x1_0000 * d[1] + 0x1_0000_0000 * d[2] + 0x1_0000_0000_0000 * d[3]
  }

  ghost predicate LimbsSmall(d: seq<nat>) {
    |d| == 4 && forall k :: 0 <= k < 4 ==> d[k] < 0x1_0000
  }

  /** 65536 to the power of i. */
  function LimbWeight(i: nat): nat
    requires i <= 4
  {
    if i == 0 then 1 else if i == 1 then 0x1_0000
    else if i == 2 then 0x1_0000_0000 else if i == 3 then 0x1_0000_0000_0000
    else TWO_TO_64
  }

  /** All limbs are small, except the first before it has been looked at. */
  ghost predicate SmallBut(d: seq<nat>, i: nat) {
    |d| == 4 && forall k :: 0 <= k < 4 ==> d[k] < 0x1_0000 || (k == i == 0)
  }

  /** Moving a carry from one limb to the next keeps the value. */
  lemma CarryStep(d: seq<nat>, i: nat, carry: nat)
    requires i < 4 && SmallBut(d, i)
    ensures
      var s := d[i] + carry;
      var e := d[i := s % 0x1_0000];
      LimbsValue(e) + LimbWeight(i + 1) * (s / 0x1_0000) == LimbsValue(d) + LimbWeight(i) * carry && LimbsSmall(e)
  {
    hide LimbsValue;
    var e := d[i := (d[i] + carry) % 0x1_0000];
    LimbsDiffer(d, e, i);
    assert d[i] + carry == (d[i] + carry) / 0x1_0000 * 0x1_0000 + e[i];
  }

  lemma LimbsDiffer(d: seq<nat>, e: seq<nat>, i: nat)
    requires |d| == |e| == 4 && i < 4 && forall k :: 0 <= k < 4 && k != i ==> d[k] == e[k]
    ensures LimbsValue(d) - LimbWeight(i) * d[i] == LimbsValue(e) - LimbWeight(i) * e[i]
  {
  }

  lemma CarryStop(d: seq<nat>, i: nat, carry: nat)
    requires i < 4 && SmallBut(d, i) && d[i] + carry < 0x1_0000
    ensures var e := d[i := d[i] + carry]; LimbsValue(e) == LimbsValue(d) + LimbWeight(i) * carry && LimbsSmall(e)
  {
    hide LimbsValue;
    LimbsDiffer(d, d[i := d[i] + carry], i);
  }

  lemma FirstLimb(d: seq<nat>, n: nat)
    requires LimbsSmall(d)
    ensures LimbsValue(d[0 := d[0] + n]) == LimbsValue(d) + n && SmallBut(d[0 := d[0] + n], 0)
  {
  }

  lemma SmallIsSmallBut(d: seq<nat>, i: nat)
    requires LimbsSmall(d)
    ensures SmallBut(d, i)
  {
  }

  lemma SmallLimbsBound(d: seq<nat>)
    requires LimbsSmall(d)
    ensures LimbsValue(d) < TWO_TO_64 && LimbsValue(d) % TWO_TO_64 == LimbsValue(d)
  {
  }

  /** A carry out of the last limb is lost. */
  lemma CarriedOut(d: seq<nat>, carry: nat, total: nat)
    requires LimbsSmall(d) && LimbsValue(d) + LimbWeight(4) * carry == total
    ensures LimbsValue(d) == total % TWO_TO_64
  {
    SmallLimbsBound(d);
    hide LimbsValue;
  }

  lemma NothingProcessed()
    ensures Absorb(INITIAL, []) == INITIAL && LimbsSmall([0, 0, 0, 0]) && LimbsValue([0, 0, 0, 0]) == 0 % TWO_TO_64
  {
  }

  class Hasher {
    var buffer: seq<Byte>
    var digits: seq<nat>
    const h: array<WideWord>
    ghost var message: seq<Byte>

    /** After processing `message`: its complete blocks are in the digest, the rest is in the buffer,
        and the limbs count its bytes modulo 2^64. */
    ghost predicate Valid()
      reads this, h
    {
      && h.Length == 8
      && Holds(h, Absorb(INITIAL, message))
      && buffer == message[Whole(|message|)..]
      && LimbsSmall(digits) && LimbsValue(digits) == |message| % TWO_TO_64
    }

    constructor ()
      ensures Valid() && message == [] && fresh(h)
    {
      hide Words, Absorb, LimbsValue, LimbsSmall, INITIAL;
      NothingProcessed();
      buffer := [];
      digits := [0, 0, 0, 0];
      message := [];
      h := new WideWord[8](i requires 0 <= i < 8 => Words(INITIAL)[i]);
      new;
      assert h[..] == Words(INITIAL);
    }

    /** `add_to_data_length`: n is a distance between iterators. */
    method AddToDataLength(n: nat)
      requires LimbsSmall(digits) && n < 0x8000_0000_0000_0000
      modifies this`digits
      ensures LimbsSmall(digits)
      ensures LimbsValue(digits) == (LimbsValue(old(digits)) + n) % TWO_TO_64
    {
      assert |digits| == 4 && digits[0] < 0x1_0000;
      hide LimbsValue, LimbsSmall, LimbWeight;
      ghost var total := LimbsValue(digits) + n;
      FirstLimb(digits, n);
      digits := digits[0 := digits[0] + n];
      var carry: nat := 0;
      for i := 0 to 4
        invariant SmallBut(digits, i) && (i > 0 ==> LimbsSmall(digits))
        invariant LimbsValue(digits) + LimbWeight(i) * carry == total
        invariant carry < 0x1_0000_0000_0000 && (i == 0 ==> carry == 0 && digits[0] < TWO_TO_64)
      {
        var sum := digits[i] + carry;
        assert sum < TWO_TO_64;
        if sum < 0x1_0000 {
          CarryStop(digits, i, carry);
          digits := digits[i := sum];
          SmallLimbsBound(digits);
          return;
        }
        CarryStep(digits, i, carry);
        carry := sum / 0x1_0000;
        digits := digits[i := sum % 0x1_0000];
        SmallIsSmallBut(digits, i + 1);
      }
      CarriedOut(digits, carry, total);
    }

    /** `process`: the digest takes in every block that is complete, the buffer keeps the rest. */
    method Process(chunk: seq<Byte>)
      requires Valid() && |chunk| < 0x8000_0000_0000_0000
      modifies this, h
      ensures Valid() && message == old(message) + chunk
    {
      hide Holds, Absorb, LimbsValue, LimbsSmall, INITIAL;
      AddToDataLength(|chunk|);
      buffer := buffer + chunk;
      var i := AbsorbBlocks(h, buffer, Absorb(INITIAL, message));
      Processed(message, chunk, old(buffer), i);
      WrapSum(|message|, |chunk|);
      buffer := buffer[i..];
      message := message + chunk;
    }

    /** `write_data_bit_length`: the bit count, most significant byte first. */
    method WriteDataBitLength(temp: array<Byte>, begin: nat)
      requires LimbsSmall(digits) && begin + 8 <= temp.Length
      modifies temp
      ensures temp[begin..begin + 8] == BigEndian(8 * LimbsValue(digits) % TWO_TO_64, 8)
      ensures forall k :: 0 <= k < temp.Length && !(begin <= k < begin + 8) ==> temp[k] == old(temp[k])
    {
      hide LimbsValue, BigEndian, LimbBytes;
      var bits := ShiftLimbs(digits);
      BigEndianLimbs(bits);
      WriteLimbs(temp, begin, bits);
    }

    /** `finish`: pads into one block, or into two when fewer than nine bytes of the block are free. */
    method Finish()
      requires Valid()
      modifies h
      ensures Holds(h, DigestOf(message))
    {
      hide Holds, Absorb, Compress, INITIAL, LimbsValue, LimbsSmall, BigEndian, DigestOf, Padding, Whole;
      var temp := new Byte[64](i => 0);
      var remains := |buffer|;
      assert remains < 64;
      CopyInto(temp, buffer);
      temp[remains] := 0x80;
      ghost var d := Absorb(INITIAL, message);
      if remains > 55 {
        Clear(temp, remains + 1, 64);
        FirstOfTwo(temp[..], buffer);
        HashBlock(h, temp[..], d);
        d := Compress(d, FullBlock(buffer));
        Clear(temp, 0, 60);
      } else {
        Clear(temp, remains + 1, 60);
      }
      WriteDataBitLength(temp, 56);
      LengthOfCount(|message|);
      assert temp[..][56..] == temp[56..64];
      LastBlockIs(temp[..], buffer, |message|);
      HashBlock(h, temp[..], d);
      Finished(message, buffer);
    }

    /** `get_hash_bytes`: as many bytes of the digest as there is room for. */
    method GetHashBytes(out: array<Byte>, ghost d: Digest)
      requires h.Length == 8 && Holds(h, d)
      modifies out
      ensures forall k :: 0 <= k < out.Length ==> out[k] == if k < 32 then DigestBytes(d)[k] else old(out[k])
    {
      hide Wide, WordBytes;
      WordsAt(d);
      var next := 0;
      for n := 0 to 8
        invariant next <= out.Length && next == if 4 * n < out.Length then 4 * n else out.Length
        invariant forall k :: 0 <= k < out.Length ==> out[k] == if k < next then DigestBytes(d)[k] else old(out[k])
      {
        var word := h[n];
        DigestByte(d, n);
        for i := 0 to 4
          invariant next <= out.Length && next == if 4 * n + i < out.Length then 4 * n + i else out.Length
          invariant forall k :: 0 <= k < out.Length ==> out[k] == if k < next then DigestBytes(d)[k] else old(out[k])
        {
          if next == out.Length { break; }
          out[next] := ByteOf(word, i);
          next := next + 1;
        }
      }
    }
  }

  /** Byte i of a 32-bit word, most significant first. */
  function ByteOf(word: WideWord, i: nat): Byte
    requires i < 4
  {
    if i == 0 then Cut(word >> 24) else if i == 1 then Cut(word >> 16) else if i == 2 then Cut(word >> 8) else Cut(word)
  }

  function Cut(word: WideWord): Byte { (word & 0xff) as Byte }

  method CopyInto(temp: array<Byte>, source: seq<Byte>)
    requires |source| <= temp.Length
    modifies temp
    ensures forall k :: 0 <= k < temp.Length ==> temp[k] == if k < |source| then source[k] else old(temp[k])
  {
    for i := 0 to |source|
      invariant forall k :: 0 <= k < temp.Length ==> temp[k] == if k < i then source[k] else old(temp[k])
    {
      temp[i] := source[i];
    }
  }

  method Clear(temp: array<Byte>, lo: nat, hi: nat)
    requires lo <= hi <= temp.Length
    modifies temp
    ensures forall k :: 0 <= k < temp.Length ==> temp[k] == if lo <= k < hi then 0 else old(temp[k])
  {
    for i := lo to hi
      invariant forall k :: 0 <= k < temp.Length ==> temp[k] == if lo <= k < i then 0 else old(temp[k])
    {
      temp[i] := 0;
    }
  }

  /** The first of two last blocks. */
  function FullBlock(rest: seq<Byte>): Block
    requires 55 < |rest| < 64
  {
    rest + [0x80] + ZeroBytes(63 - |rest|)
  }

  /** The last block: after a full block only zeros and the length. */
  function LastBlock(rest: seq<Byte>, length: nat): Block
    requires |rest| < 64
  {
    (if |rest| > 55 then ZeroBytes(56) else rest + [0x80] + ZeroBytes(55 - |rest|)) + LengthField(length)
  }

  lemma FirstOfTwo(temp: seq<Byte>, rest: seq<Byte>)
    requires |temp| == 64 && 55 < |rest| < 64
    requires forall k :: 0 <= k < 64 ==> temp[k] == if k < |rest| then rest[k] else if k == |rest| then 0x80 else 0
    ensures temp == FullBlock(rest)
  {
  }

  lemma LastBlockIs(temp: seq<Byte>, rest: seq<Byte>, length: nat)
    requires |temp| == 64 && |rest| < 64 && temp[56..] == LengthField(length)
    requires forall k :: 0 <= k < 56 ==>
      temp[k] == if |rest| > 55 then 0 else if k < |rest| then rest[k] else if k == |rest| then 0x80 else 0
    ensures temp == LastBlock(rest, length)
  {
    assert temp == temp[..56] + temp[56..];
  }

  lemma LengthOfCount(n: nat)
    ensures BigEndian(8 * (n % TWO_TO_64) % TWO_TO_64, 8) == LengthField(n)
  {
    hide BigEndian;
    EightTimesWrapped(n);
  }

  lemma EightTimesWrapped(n: nat)
    ensures 8 * (n % TWO_TO_64) % TWO_TO_64 == 8 * n % TWO_TO_64
  {
    var q, r := n / TWO_TO_64, n % TWO_TO_64;
    assert 8 * n == 8 * r + TWO_TO_64 * (8 * q);
  }

  /** The padded message, cut into its complete blocks and the one or two blocks of `finish`. */
  lemma Finished(message: seq<Byte>, rest: seq<Byte>)
    requires rest == message[Whole(|message|)..]
    ensures
      var d := Absorb(INITIAL, message);
      DigestOf(message) ==
        if |rest| > 55 then Compress(Compress(d, FullBlock(rest)), LastBlock(rest, |message|)) else Compress(d,
            LastBlock(rest, |message|))
  {
    hide Absorb, Compress, INITIAL, Padding, FullBlock, LastBlock, Whole;
    var n := |message|;
    var whole := message[..Whole(n)];
    AbsorbComplete(INITIAL, message);
    PaddedRest(n, rest);
    PaddedMessage(message, rest);
    if |rest| > 55 {
      AbsorbTwo(INITIAL, whole, FullBlock(rest), LastBlock(rest, n));
    } else {
      AbsorbOne(INITIAL, whole, LastBlock(rest, n));
    }
  }

  lemma PaddedMessage(message: seq<Byte>, rest: seq<Byte>)
    requires rest == message[Whole(|message|)..]
    ensures message + Padding(|message|) == message[..Whole(|message|)] + (rest + Padding(|message|))
  {
    hide Padding, Whole;
    assert message == message[..Whole(|message|)] + rest;
    Regroup(message[..Whole(|message|)], rest, Padding(|message|));
  }

  lemma Regroup<T>(a: seq<T>, b: seq<T>, c: seq<T>)
    ensures a + b + c == a + (b + c)
  {
  }

  lemma AbsorbTwo(d: Digest, whole: seq<Byte>, first: Block, second: Block)
    requires |whole| % 64 == 0
    ensures Absorb(d, whole + (first + second)) == Compress(Compress(Absorb(d, whole), first), second)
  {
    hide Absorb, Compress;
    Regroup(whole, first, second);
    AbsorbOne(d, whole, first);
    AbsorbOne(d, whole + first, second);
  }

  lemma PaddedRest(n: nat, rest: seq<Byte>)
    requires |rest| == n - Whole(n)
    ensures rest + Padding(n) == if |rest| > 55 then FullBlock(rest) + LastBlock(rest, n) else LastBlock(rest, n)
  {
    hide LengthField;
    PaddingLength(n, |rest|);
    hide Zeros, Whole;
    if |rest| > 55 {
      assert ZeroBytes(119 - |rest|) == ZeroBytes(63 - |rest|) + ZeroBytes(56);
    }
  }

  lemma PaddingLength(n: nat, rest: nat)
    requires rest == n - Whole(n)
    ensures Zeros(n) == if rest > 55 then 119 - rest else 55 - rest
  {
  }

  lemma Cut24(w: Word)
    ensures Cut((w as WideWord) >> 24) == ((w >> 24) & 0xff) as Byte
  {
  }

  lemma Cut24Wide(w: Word)
    ensures Cut(Wide(w) >> 24) == ((w >> 24) & 0xff) as Byte
  {
    hide Cut;
    Cut24(w);
  }

  lemma Cut16(w: Word)
    ensures Cut((w as WideWord) >> 16) == ((w >> 16) & 0xff) as Byte
  {
  }

  lemma Cut16Wide(w: Word)
    ensures Cut(Wide(w) >> 16) == ((w >> 16) & 0xff) as Byte
  {
    hide Cut;
    Cut16(w);
  }

  lemma Cut8(w: Word)
    ensures Cut((w as WideWord) >> 8) == ((w >> 8) & 0xff) as Byte
  {
  }

  lemma Cut8Wide(w: Word)
    ensures Cut(Wide(w) >> 8) == ((w >> 8) & 0xff) as Byte
  {
    hide Cut;
    Cut8(w);
  }

  lemma Cut0(w: Word)
    ensures Cut((w as WideWord)) == ((w) & 0xff) as Byte
  {
  }

  lemma Cut0Wide(w: Word)
    ensures Cut(Wide(w)) == ((w) & 0xff) as Byte
  {
    hide Cut;
    Cut0(w);
  }

  lemma ByteOfWide(w: Word, i: nat)
    requires i < 4
    ensures ByteOf(Wide(w), i) == WordBytes(w)[i]
  {
    hide Cut, Wide;
    Cut24Wide(w);
    Cut16Wide(w);
    Cut8Wide(w);
    Cut0Wide(w);
  }

  lemma DigestByte(d: Digest, n: nat)
    requires n < 8
    ensures forall i :: 0 <= i < 4 ==> DigestBytes(d)[4 * n + i] == ByteOf(Words(d)[n], i)
  {
    hide Wide, ByteOf, WordBytes, Words, DigestWord;
    DigestWords(d, n);
    forall i | 0 <= i < 4 ensures DigestBytes(d)[4 * n + i] == ByteOf(Words(d)[n], i) {
      ByteOfWide(DigestWord(d, n), i);
      assert (4 * n + i) / 4 == n && (4 * n + i) % 4 == i;
    }
  }

  lemma DigestWords(d: Digest, n: nat)
    requires n < 8
    ensures Words(d)[n] == Wide(DigestWord(d, n))
  {
    hide Wide, Words;
    WordsAt(d);
  }

  /** The second half of `write_data_bit_length`. */
  method WriteLimbs(temp: array<Byte>, begin: nat, bits: seq<nat>)
    requires |bits| == 4 && begin + 8 <= temp.Length
    modifies temp
    ensures temp[begin..begin + 8] == LimbBytes(bits)
    ensures forall k :: 0 <= k < temp.Length && !(begin <= k < begin + 8) ==> temp[k] == old(temp[k])
  {
    hide ToByte;
    for i := 0 to 4
      invariant forall k :: 0 <= k < 2 * i ==> temp[begin + k] == LimbBytes(bits)[k]
      invariant forall k :: 0 <= k < temp.Length && !(begin <= k < begin + 2 * i) ==> temp[k] == old(temp[k])
    {
      temp[begin + 2 * i] := ToByte(bits[3 - i] / 256);
      temp[begin + 2 * i + 1] := ToByte(bits[3 - i]);
    }
    assert temp[begin..begin + 8] == LimbBytes(bits);
  }

  /** The first half of `write_data_bit_length`: eight times the byte count, shifted limb by limb.
      The source's `|` only joins disjoint bits there and is written as a sum. */
  method ShiftLimbs(digits: seq<nat>) returns (bits: seq<nat>)
    requires LimbsSmall(digits)
    ensures LimbsSmall(bits) && LimbsValue(bits) == 8 * LimbsValue(digits) % TWO_TO_64
  {
    hide LimbsValue, PartialValue, LimbWeight;
    bits := digits;
    var carry := 0;
    NoLimbs(bits);
    NoLimbs(digits);
    for i := 0 to 4
      invariant |bits| == 4 && carry < 8
      invariant forall k :: 0 <= k < 4 ==> bits[k] < 0x1_0000 && (k >= i ==> bits[k] == digits[k])
      invariant PartialValue(bits, i) + LimbWeight(i) * carry == 8 * PartialValue(digits, i)
    {
      var before := bits[i];
      ShiftStep(digits, bits, i, carry);
      bits := bits[i := (before * 8 + carry) % 0x1_0000];
      carry := before / 0x2000 % 0x1_0000;
    }
    PartialIsValue(bits);
    PartialIsValue(digits);
    CarriedOut(bits, carry, 8 * LimbsValue(digits));
  }

  lemma NoLimbs(d: seq<nat>)
    requires |d| == 4
    ensures PartialValue(d, 0) == 0 && LimbWeight(0) == 1
  {
  }

  /** The value of the first i limbs. */
  function PartialValue(d: seq<nat>, i: nat): nat
    requires |d| == 4 && i <= 4
  {
    if i == 0 then 0 else PartialValue(d, i - 1) + LimbWeight(i - 1) * d[i - 1]
  }

  lemma PartialIsValue(d: seq<nat>)
    requires |d| == 4
    ensures PartialValue(d, 4) == LimbsValue(d)
  {
    assert PartialValue(d, 1) == d[0];
    assert PartialValue(d, 2) == d[0] + 0x1_0000 * d[1];
    assert PartialValue(d, 3) == d[0] + 0x1_0000 * d[1] + 0x1_0000_0000 * d[2];
  }

  lemma {:induction false} PartialSame(d: seq<nat>, e: seq<nat>, i: nat)
    requires |d| == |e| == 4 && i <= 4 && forall k :: 0 <= k < i ==> d[k] == e[k]
    ensures PartialValue(d, i) == PartialValue(e, i)
  {
    if i > 0 { PartialSame(d, e, i - 1); }
  }

  /** Shifting one limb left by three, with the three bits carried in from below. */
  lemma ShiftStep(d: seq<nat>, bits: seq<nat>, i: nat, carry: nat)
    requires |d| == |bits| == 4 && i < 4 && carry < 8 && bits[i] == d[i] < 0x1_0000
    requires PartialValue(bits, i) + LimbWeight(i) * carry == 8 * PartialValue(d, i)
    ensures d[i] / 0x2000 % 0x1_0000 < 8
    ensures
      var e := bits[i := (d[i] * 8 + carry) % 0x1_0000];
      PartialValue(e, i + 1) + LimbWeight(i + 1) * (d[i] / 0x2000 % 0x1_0000) == 8 * PartialValue(d, i + 1)
  {
    var low, out := (d[i] * 8 + carry) % 0x1_0000, d[i] / 0x2000 % 0x1_0000;
    var e := bits[i := low];
    PartialSame(bits, e, i);
    ShiftOut(d[i], carry);
    assert PartialValue(e, i + 1) == PartialValue(e, i) + LimbWeight(i) * low;
    assert PartialValue(d, i + 1) == PartialValue(d, i) + LimbWeight(i) * d[i];
  }

  lemma ShiftOut(limb: nat, carry: nat)
    requires limb < 0x1_0000 && carry < 8
    ensures limb / 0x2000 % 0x1_0000 < 8
    ensures limb * 8 + carry == (limb * 8 + carry) % 0x1_0000 + 0x1_0000 * (limb / 0x2000 % 0x1_0000)
  {
  }

  function LimbBytes(b: seq<nat>): seq<Byte>
    requires |b| == 4
  {
    [ToByte(b[3] / 256), ToByte(b[3]), ToByte(b[2] / 256), ToByte(b[2]),
     ToByte(b[1] / 256), ToByte(b[1]), ToByte(b[0] / 256), ToByte(b[0])]
  }

  lemma BigEndianTwo(n: nat, width: nat)
    ensures BigEndian(n, width + 2) ==
      BigEndian(n / 0x1_0000, width) + [ToByte(n % 0x1_0000 / 256), ToByte(n % 0x1_0000)]
  {
    assert n / 256 / 256 == n / 0x1_0000;
    assert n / 256 % 256 == n % 0x1_0000 / 256;
    assert n % 0x1_0000 % 256 == n % 256;
    assert BigEndian(n, width + 2) == BigEndian(n / 256 / 256, width) + [ToByte(n / 256)] + [ToByte(n)];
  }

  lemma BigEndianLimbs(b: seq<nat>)
    requires LimbsSmall(b)
    ensures BigEndian(LimbsValue(b), 8) == LimbBytes(b)
  {
    var n1 := b[1] + 0x1_0000 * b[2] + 0x1_0000_0000 * b[3];
    var n2 := b[2] + 0x1_0000 * b[3];
    LowLimb(LimbsValue(b), n1, b[0]);
    LowLimb(n1, n2, b[1]);
    LowLimb(n2, b[3], b[2]);
    LowLimb(b[3], 0, b[3]);
    hide LimbsValue, BigEndian, ToByte, LimbsSmall;
    BigEndianTwo(LimbsValue(b), 6);
    BigEndianTwo(n1, 4);
    BigEndianTwo(n2, 2);
    BigEndianTwo(b[3], 0);
    NoBytes(0);
  }

  lemma NoBytes(n: nat)
    ensures BigEndian(n, 0) == []
  {
  }

  lemma LowLimb(n: nat, high: nat, low: nat)
    requires n == 0x1_0000 * high + low && low < 0x1_0000
    ensures n / 0x1_0000 == high && n % 0x1_0000 == low
  {
  }

  /** Takes in all complete blocks of the buffer, and says where the rest begins. */
  method AbsorbBlocks(h: array<WideWord>, buffer: seq<Byte>, ghost d: Digest) returns (i: nat)
    requires h.Length == 8 && Holds(h, d)
    modifies h
    ensures i % 64 == 0 && i <= |buffer| < i + 64
    ensures Holds(h, Absorb(d, buffer[..i]))
  {
    hide Holds, Absorb, Compress;
    i := 0;
    AbsorbNothing(d);
    assert buffer[..0] == [];
    while i + 64 <= |buffer|
      invariant i % 64 == 0 && i <= |buffer| && Holds(h, Absorb(d, buffer[..i]))
    {
      ghost var done := buffer[..i];
      HashBlock(h, buffer[i..i + 64], Absorb(d, done));
      AbsorbOne(d, done, buffer[i..i + 64]);
      assert buffer[..i + 64] == done + buffer[i..i + 64];
      i := i + 64;
    }
  }

  lemma AbsorbNothing(d: Digest)
    ensures Absorb(d, []) == d
  {
  }

  lemma WrapSum(a: nat, b: nat)
    ensures (a % TWO_TO_64 + b) % TWO_TO_64 == (a + b) % TWO_TO_64
  {
  }

  /** What has been absorbed and what is kept, after a chunk was added to what was kept before. */
  lemma Processed(m: seq<Byte>, chunk: seq<Byte>, kept: seq<Byte>, i: nat)
    requires kept == m[Whole(|m|)..]
    requires i % 64 == 0 && i <= |kept + chunk| < i + 64
    ensures Absorb(INITIAL, m + chunk) == Absorb(Absorb(INITIAL, m), (kept + chunk)[..i])
    ensures (kept + chunk)[i..] == (m + chunk)[Whole(|m + chunk|)..]
  {
    hide Absorb, INITIAL, Whole;
    var q := Whole(|m|);
    var whole, rest := m[..q], kept + chunk;
    assert m == whole + kept;
    Regroup(whole, kept, chunk);
    CompletePart(|rest|, i, 0);
    CompletePart(|m + chunk|, i, q);
    AbsorbComplete(INITIAL, m);
    AbsorbSplit(INITIAL, whole, rest, i);
    DropBoth(whole, rest, i);
  }

  lemma DropBoth(whole: seq<Byte>, rest: seq<Byte>, i: nat)
    requires i <= |rest|
    ensures (whole + rest)[|whole| + i..] == rest[i..]
  {
  }

  lemma AbsorbSplit(d: Digest, whole: seq<Byte>, rest: seq<Byte>, i: nat)
    requires |whole| % 64 == 0 && Whole(|rest|) == i
    ensures Absorb(d, whole + rest) == Absorb(Absorb(d, whole), rest[..i])
  {
    hide Absorb;
    AbsorbAppend(d, whole, rest);
    AbsorbComplete(Absorb(d, whole), rest);
  }

  lemma CompletePart(n: nat, i: nat, q: nat)
    requires i % 64 == 0 && q % 64 == 0 && q + i <= n < q + i + 64
    ensures Whole(n) == q + i
  {
  }

  // ---- One-shot hashing ----

  ghost predicate IsHashOf(out: seq<Byte>, message: seq<Byte>) {
    forall k :: 0 <= k < |out| && k < 32 ==> out[k] == DigestBytes(DigestOf(message))[k]
  }

  /** `hash256_impl` for random access iterators: everything in one call. */
  method HashWhole(source: seq<Byte>, out: array<Byte>)
    requires |source| < 0x8000_0000_0000_0000
    modifies out
    ensures IsHashOf(out[..], source)
  {
    hide DigestOf, DigestBytes, Holds, Absorb, INITIAL, LimbsValue, LimbsSmall, Whole;
    var hasher := new Hasher();
    hasher.Process(source);
    assert hasher.message == source;
    hasher.Finish();
    hasher.GetHashBytes(out, DigestOf(source));
  }

  /** `hash256_impl` for input iterators: a buffer at a time, for every positive buffer size. */
  method HashBuffered(source: seq<Byte>, out: array<Byte>, bufferSize: int)
    requires 0 < bufferSize < 0x8000_0000
    modifies out
    ensures IsHashOf(out[..], source)
  {
    hide DigestOf, DigestBytes, Holds, Absorb, INITIAL, LimbsValue, LimbsSmall, Whole;
    var buffer := new Byte[bufferSize];
    var hasher := new Hasher();
    var first := 0;
    while first != |source|
      invariant first <= |source| && hasher.Valid() && hasher.message == source[..first]
      invariant fresh(hasher) && fresh(hasher.h) && fresh(buffer)
      decreases |source| - first
    {
      var size := FillBuffer(source, first, buffer);
      hasher.Process(buffer[..size]);
      assert source[..first + size] == source[..first] + source[first..first + size];
      first := first + size;
    }
    assert source[..|source|] == source;
    hasher.Finish();
    hasher.GetHashBytes(out, DigestOf(source));
  }

  /** The inner loop: as much as fits, or as much as is left. */
  method FillBuffer(source: seq<Byte>, first: nat, buffer: array<Byte>) returns (size: nat)
    requires first < |source| && buffer.Length > 0
    modifies buffer
    ensures 0 < size <= buffer.Length && first + size <= |source|
    ensures size < buffer.Length ==> first + size == |source|
    ensures buffer[..size] == source[first..first + size]
  {
    size := buffer.Length;
    var i := 0;
    while i != buffer.Length
      invariant i <= buffer.Length == size && first + i <= |source|
      invariant buffer[..i] == source[first..first + i]
    {
      if first + i == |source| {
        size := i;
        break;
      }
      buffer[i] := source[first + i];
      i := i + 1;
    }
  }
}
