/** Published outputs of the generators, from the seed and the states of their reference tests. */
module XoshiroExamples {
  import opened LinearMachine
  import opened Xoshiro

  // ---- SplitMix64, seeded with 1234567 ----

  lemma Seeded1()
    ensures Advance(0x12d687) == 0x9e3779b97f5d529c && Mix(0x9e3779b97f5d529c) == 6457827717110365317
  {
  }

  lemma Seeded2()
    ensures Advance(0x9e3779b97f5d529c) == 0x3c6ef372fea7ceb1 && Mix(0x3c6ef372fea7ceb1) == 3203168211198807973
  {
  }

  lemma Seeded3()
    ensures Advance(0x3c6ef372fea7ceb1) == 0xdaa66d2c7df24ac6 && Mix(0xdaa66d2c7df24ac6) == 9817491932198370423
  {
  }

  lemma Seeded4()
    ensures Advance(0xdaa66d2c7df24ac6) == 0x78dde6e5fd3cc6db && Mix(0x78dde6e5fd3cc6db) == 4593380528125082431
  {
  }

  /** The first four outputs. */
  lemma SplitMixOutputs()
    ensures var seed: Word := 1234567;
      && Mix(Counter(seed, 1)) == 6457827717110365317
      && Mix(Counter(seed, 2)) == 3203168211198807973
      && Mix(Counter(seed, 3)) == 9817491932198370423
      && Mix(Counter(seed, 4)) == 4593380528125082431
  {
    hide Mix, Advance;
    Seeded1();
    Seeded2();
    Seeded3();
    Seeded4();
    var seed: Word := 1234567;
    assert Counter(seed, 0) == seed;
    assert Counter(seed, 1) == 0x9e3779b97f5d529c;
    assert Counter(seed, 2) == 0x3c6ef372fea7ceb1;
    assert Counter(seed, 3) == 0xdaa66d2c7df24ac6;
    assert Counter(seed, 4) == 0x78dde6e5fd3cc6db;
  }

  // ---- xoshiro256, from the state 1, 2, 3, 4 ----

  const WIDE_0: State4 := State4(1, 2, 3, 4)
  const WIDE_1: State4 := State4(0x7, 0x0, 0x40002, 0xc00000000000)
  const WIDE_2: State4 := State4(0xc00000000007, 0x40005, 0x40005, 0x18000000)
  const WIDE_3: State4 := State4(0xc00018040002, 0xc00000000007, 0xc008000e0002, 0x8000a00000000300)

  lemma WideStep1()
    ensures Step4(WIDE_0) == WIDE_1
  {
  }

  lemma WideStep2()
    ensures Step4(WIDE_1) == WIDE_2
  {
  }

  lemma WideStep3()
    ensures Step4(WIDE_2) == WIDE_3
  {
  }

  lemma WideOutputs1()
    ensures Scramble4(Plus, WIDE_0) == 5
    ensures Scramble4(PlusPlus, WIDE_0) == 41943041
    ensures Scramble4(StarStar, WIDE_0) == 11520
  {
  }

  lemma WideOutputs2()
    ensures Scramble4(Plus, WIDE_1) == 211106232532999
    ensures Scramble4(PlusPlus, WIDE_1) == 58720359
    ensures Scramble4(StarStar, WIDE_1) == 0
  {
  }

  lemma WideOutputs3()
    ensures Scramble4(Plus, WIDE_2) == 211106635186183
    ensures Scramble4(PlusPlus, WIDE_2) == 3588806011781223
    ensures Scramble4(StarStar, WIDE_2) == 1509978240
  {
  }

  lemma WideOutputs4()
    ensures Scramble4(Plus, WIDE_3) == 9223759065350669058
    ensures Scramble4(PlusPlus, WIDE_3) == 3591011842654386
    ensures Scramble4(StarStar, WIDE_3) == 1215971899390074240
  {
  }

  /** The n-th output of xoshiro256 from a state. */
  ghost function Output256(r: Scrambler, s: State4, n: nat): Word { Scramble4(r, Run(Xoshiro256Machine(), s, n)) }

  lemma WideRun()
    ensures var m := Xoshiro256Machine();
      Run(m, WIDE_0, 0) == WIDE_0 && Run(m, WIDE_0, 1) == WIDE_1 && Run(m, WIDE_0, 2) == WIDE_2 &&
      Run(m, WIDE_0, 3) == WIDE_3
  {
    WideStep1();
    WideStep2();
    WideStep3();
    hide Step4, WIDE_0, WIDE_1, WIDE_2, WIDE_3;
  }

  /** The first four outputs of each of the three generators. */
  lemma Xoshiro256Outputs()
    ensures var s := State4(1, 2, 3, 4);
      && Output256(Plus, s, 0) == 5
      && Output256(Plus, s, 1) == 211106232532999
      && Output256(Plus, s, 2) == 211106635186183
      && Output256(Plus, s, 3) == 9223759065350669058
      && Output256(PlusPlus, s, 0) == 41943041
      && Output256(PlusPlus, s, 1) == 58720359
      && Output256(PlusPlus, s, 2) == 3588806011781223
      && Output256(PlusPlus, s, 3) == 3591011842654386
      && Output256(StarStar, s, 0) == 11520
      && Output256(StarStar, s, 1) == 0
      && Output256(StarStar, s, 2) == 1509978240
      && Output256(StarStar, s, 3) == 1215971899390074240
  {
    assert WIDE_0 == State4(1, 2, 3, 4);
    hide Scramble4, Step4, Run;
    WideRun();
    hide WIDE_0, WIDE_1, WIDE_2, WIDE_3;
    WideOutputs1();
    WideOutputs2();
    WideOutputs3();
    WideOutputs4();
  }

  // ---- xoroshiro128, from the state 1, 2 ----

  const NARROW_0: State2 := State2(1, 2)
  const NARROW_1: State2 := State2(0x1030003, 0x6000000000)
  const NARROW_2: State2 := State2(0x61026302000003, 0x2060006000000c00)
  const NARROW_3: State2 := State2(0x410000030d036d01, 0x4001806400204060)
  const NARROW_PP_1: State2 := State2(0x2000000600003, 0x30000000)
  const NARROW_PP_2: State2 := State2(0x20c04300000c3, 0x306000030002000)
  const NARROW_PP_3: State2 := State2(0x82020c04006840c3, 0x4000020c303040c0)

  lemma NarrowStep1(r: Scrambler)
    requires !r.PlusPlus?
    ensures Step2(r, NARROW_0) == NARROW_1
  {
  }

  lemma NarrowStepPlusPlus1()
    ensures Step2(PlusPlus, NARROW_0) == NARROW_PP_1
  {
  }

  lemma NarrowStep2(r: Scrambler)
    requires !r.PlusPlus?
    ensures Step2(r, NARROW_1) == NARROW_2
  {
  }

  lemma NarrowStepPlusPlus2()
    ensures Step2(PlusPlus, NARROW_PP_1) == NARROW_PP_2
  {
  }

  lemma NarrowStep3(r: Scrambler)
    requires !r.PlusPlus?
    ensures Step2(r, NARROW_2) == NARROW_3
  {
  }

  lemma NarrowStepPlusPlus3()
    ensures Step2(PlusPlus, NARROW_PP_2) == NARROW_PP_3
  {
  }

  lemma NarrowOutputs1()
    ensures Scramble2(Plus, NARROW_0) == 3
    ensures Scramble2(StarStar, NARROW_0) == 5760
    ensures Scramble2(PlusPlus, NARROW_0) == 393217
  {
  }

  lemma NarrowOutputs2()
    ensures Scramble2(Plus, NARROW_1) == 412333834243
    ensures Scramble2(StarStar, NARROW_1) == 97769243520
    ensures Scramble2(PlusPlus, NARROW_PP_1) == 669327710093319
  {
  }

  lemma NarrowOutputs3()
    ensures Scramble2(Plus, NARROW_2) == 2360170716294286339
    ensures Scramble2(StarStar, NARROW_2) == 9706862127477703552
    ensures Scramble2(PlusPlus, NARROW_PP_2) == 1732421326133921491
  {
  }

  lemma NarrowOutputs4()
    ensures Scramble2(Plus, NARROW_3) == 9295852285959843169
    ensures Scramble2(StarStar, NARROW_3) == 9223447511460779954
    ensures Scramble2(PlusPlus, NARROW_PP_3) == 11394790081659126983
  {
  }

  /** The n-th output of xoroshiro128 from a state. */
  ghost function Output128(r: Scrambler, s: State2, n: nat): Word { Scramble2(r, Run(Xoroshiro128Machine(r), s, n)) }

  lemma NarrowRun(r: Scrambler)
    requires !r.PlusPlus?
    ensures var m := Xoroshiro128Machine(r);
      Run(m, NARROW_0, 0) == NARROW_0 && Run(m, NARROW_0, 1) == NARROW_1 && Run(m, NARROW_0, 2) == NARROW_2 &&
      Run(m, NARROW_0, 3) == NARROW_3
  {
    NarrowStep1(r);
    NarrowStep2(r);
    NarrowStep3(r);
    hide Step2, NARROW_0, NARROW_1, NARROW_2, NARROW_3;
  }

  lemma NarrowRunPlusPlus()
    ensures var m := Xoroshiro128Machine(PlusPlus);
      Run(m, NARROW_0, 0) == NARROW_0 && Run(m, NARROW_0, 1) == NARROW_PP_1 && Run(m, NARROW_0, 2) == NARROW_PP_2 &&
      Run(m, NARROW_0, 3) == NARROW_PP_3
  {
    NarrowStepPlusPlus1();
    NarrowStepPlusPlus2();
    NarrowStepPlusPlus3();
    hide Step2, NARROW_0, NARROW_PP_1, NARROW_PP_2, NARROW_PP_3;
  }

  /** The first four outputs of each of the three generators. */
  lemma Xoroshiro128Outputs()
    ensures var s := State2(1, 2);
      && Output128(Plus, s, 0) == 3
      && Output128(Plus, s, 1) == 412333834243
      && Output128(Plus, s, 2) == 2360170716294286339
      && Output128(Plus, s, 3) == 9295852285959843169
      && Output128(PlusPlus, s, 0) == 393217
      && Output128(PlusPlus, s, 1) == 669327710093319
      && Output128(PlusPlus, s, 2) == 1732421326133921491
      && Output128(PlusPlus, s, 3) == 11394790081659126983
      && Output128(StarStar, s, 0) == 5760
      && Output128(StarStar, s, 1) == 97769243520
      && Output128(StarStar, s, 2) == 9706862127477703552
      && Output128(StarStar, s, 3) == 9223447511460779954
  {
    assert NARROW_0 == State2(1, 2);
    hide Scramble2, Step2, Run;
    NarrowRun(Plus);
    NarrowRun(StarStar);
    NarrowRunPlusPlus();
    hide NARROW_0, NARROW_1, NARROW_2, NARROW_3, NARROW_PP_1, NARROW_PP_2, NARROW_PP_3;
    NarrowOutputs1();
    NarrowOutputs2();
    NarrowOutputs3();
    NarrowOutputs4();
  }

  // ---- The jump polynomials ----

  /** Words that are zero but for digit b of word i are the polynomial whose only term is the one of
      exponent 64 i + b. */
  lemma OneTerm(words: seq<Word>, i: nat, b: nat, k: nat)
    requires i < |words| && b < 64 && k < 64 * |words|
    requires forall j :: 0 <= j < |words| ==> words[j] == if j == i then (1 as Word) << b else 0
    ensures Bits(words)[k] <==> k == 64 * i + b
  {
    OneDigit(b, k % 64);
    NoDigit(k % 64);
    hide Bit;
  }

  lemma OneDigit(b: nat, c: nat)
    requires b < 64 && c < 64
    ensures Bit((1 as Word) << b, c) <==> b == c
  {
    if b == c {
      SameDigit(b);
    } else if b < 16 {
      OtherThanFirst(b, c);
    } else if b < 32 {
      OtherThanSecond(b, c);
    } else if b < 48 {
      OtherThanThird(b, c);
    } else {
      OtherThanLast(b, c);
    }
    hide Bit;
  }

  lemma SameDigit(b: nat)
    requires b < 64
    ensures Bit((1 as Word) << b, b)
  {
  }

  lemma OtherThanFirst(b: nat, c: nat)
    requires b < 16 && c < 64 && b != c
    ensures !Bit((1 as Word) << b, c)
  {
  }

  lemma OtherThanSecond(b: nat, c: nat)
    requires 16 <= b < 32 && c < 64 && b != c
    ensures !Bit((1 as Word) << b, c)
  {
  }

  lemma OtherThanThird(b: nat, c: nat)
    requires 32 <= b < 48 && c < 64 && b != c
    ensures !Bit((1 as Word) << b, c)
  {
  }

  lemma OtherThanLast(b: nat, c: nat)
    requires 48 <= b < 64 && c < 64 && b != c
    ensures !Bit((1 as Word) << b, c)
  {
  }

  lemma NoDigit(c: nat)
    requires c < 64
    ensures !Bit(0, c)
  {
  }
}
