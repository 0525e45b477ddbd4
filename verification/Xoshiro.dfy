/** The 64-bit generators: SplitMix64, the xoshiro256 and the xoroshiro128 families. */
module Xoshiro {
  import opened LinearMachine

  type Word = bv64

  // ---- Words ----

  function Xor(x: Word, y: Word): Word { x ^ y }
  function Shl(x: Word, s: bv64): Word
    requires 0 < s < 64
  {
    x << s
  }
  function RotL(x: Word, s: bv64): Word
    requires 0 < s < 64
  {
    (x << s) | (x >> (64 - s))
  }

  lemma XorLaws(x: Word, y: Word)
    ensures Xor(x, y) == Xor(y, x) && Xor(x, 0) == x && Xor(x, x) == 0
  {
  }

  lemma XorLeft(x: Word, y: Word, z: Word)
    ensures Xor(Xor(x, y), z) == x ^ y ^ z
  {
  }

  lemma XorRight(x: Word, y: Word, z: Word)
    ensures Xor(x, Xor(y, z)) == x ^ y ^ z
  {
  }

  lemma XorAssociates(x: Word, y: Word, z: Word)
    ensures Xor(Xor(x, y), z) == Xor(x, Xor(y, z))
  {
    hide Xor;
    XorLeft(x, y, z);
    XorRight(x, y, z);
  }

  lemma XorExchange(a: Word, b: Word, c: Word, d: Word)
    ensures Xor(Xor(a, b), Xor(c, d)) == Xor(Xor(a, c), Xor(b, d))
  {
    hide Xor;
    XorAssociates(a, b, Xor(c, d));
    XorAssociates(b, c, d);
    XorLaws(b, c);
    XorAssociates(c, b, d);
    XorAssociates(a, c, Xor(b, d));
  }

  /** Xor-ing the same word twice. */
  lemma XorCancels(x: Word, y: Word)
    ensures Xor(Xor(x, y), y) == x && Xor(x, Xor(x, y)) == y && Xor(Xor(x, y), x) == y
  {
    hide Xor;
    XorLaws(x, y);
    XorLaws(y, x);
    XorLaws(Xor(x, y), x);
    XorLaws(y, y);
    XorLaws(x, x);
    XorAssociates(x, y, y);
    XorAssociates(y, x, x);
    XorAssociates(x, x, y);
  }

  lemma Rotation24(x: Word, y: Word)
    ensures RotL(Xor(x, y), 24) == Xor(RotL(x, 24), RotL(y, 24))
  {
  }

  lemma Rotation37(x: Word, y: Word)
    ensures RotL(Xor(x, y), 37) == Xor(RotL(x, 37), RotL(y, 37))
  {
  }

  lemma Rotation49(x: Word, y: Word)
    ensures RotL(Xor(x, y), 49) == Xor(RotL(x, 49), RotL(y, 49))
  {
  }

  lemma Rotation28(x: Word, y: Word)
    ensures RotL(Xor(x, y), 28) == Xor(RotL(x, 28), RotL(y, 28))
  {
  }

  lemma Rotation45(x: Word, y: Word)
    ensures RotL(Xor(x, y), 45) == Xor(RotL(x, 45), RotL(y, 45))
  {
  }

  lemma Rotation24Back(x: Word)
    ensures RotL(RotL(x, 24), 40) == x && RotL(RotL(x, 40), 24) == x
  {
  }

  lemma Rotation37Back(x: Word)
    ensures RotL(RotL(x, 37), 27) == x && RotL(RotL(x, 27), 37) == x
  {
  }

  lemma Rotation49Back(x: Word)
    ensures RotL(RotL(x, 49), 15) == x && RotL(RotL(x, 15), 49) == x
  {
  }

  lemma Rotation28Back(x: Word)
    ensures RotL(RotL(x, 28), 36) == x && RotL(RotL(x, 36), 28) == x
  {
  }

  lemma Rotation45Back(x: Word)
    ensures RotL(RotL(x, 45), 19) == x && RotL(RotL(x, 19), 45) == x
  {
  }

  lemma Shift16(x: Word, y: Word)
    ensures Shl(Xor(x, y), 16) == Xor(Shl(x, 16), Shl(y, 16))
  {
  }

  lemma Shift17(x: Word, y: Word)
    ensures Shl(Xor(x, y), 17) == Xor(Shl(x, 17), Shl(y, 17))
  {
  }

  lemma Shift21(x: Word, y: Word)
    ensures Shl(Xor(x, y), 21) == Xor(Shl(x, 21), Shl(y, 21))
  {
  }

  /** Undoes the xor of a word with itself shifted. */
  function Unshift17(x: Word): Word { x ^ (x << 17) ^ (x << 34) ^ (x << 51) }

  lemma Unshift17Bits(x: Word)
    ensures Unshift17(x ^ (x << 17)) == x
  {
  }

  lemma Shift17Bits(x: Word)
    ensures Xor(x ^ (x << 17) ^ (x << 34) ^ (x << 51), (x ^ (x << 17) ^ (x << 34) ^ (x << 51)) << 17) == x
  {
  }

  lemma XorWithShiftBits(x: Word)
    ensures Xor(x, x << 17) == x ^ (x << 17)
  {
  }

  lemma XorWithShift(x: Word)
    ensures Xor(x, Shl(x, 17)) == x ^ (x << 17)
  {
    hide Xor;
    XorWithShiftBits(x);
  }

  lemma Unshift17Undoes(x: Word)
    ensures Unshift17(Xor(x, Shl(x, 17))) == x
  {
    hide Xor, Shl, Unshift17;
    Unshift17Bits(x);
    XorWithShift(x);
  }

  lemma Unshift17IsUndone(x: Word)
    ensures Xor(Unshift17(x), Shl(Unshift17(x), 17)) == x
  {
    hide Xor;
    Shift17Bits(x);
  }

  // ---- SplitMix64 ----

  const GAMMA: Word := 0x9e3779b97f4a7c15

  function Fold30(z: Word): Word { z ^ (z >> 30) }
  function Fold27(z: Word): Word { z ^ (z >> 27) }
  function Fold31(z: Word): Word { z ^ (z >> 31) }
  function Times1(z: Word): Word { z * 0xbf58476d1ce4e5b9 }
  function Times2(z: Word): Word { z * 0x94d049bb133111eb }

  /** The output function: two rounds of a shift and a multiplication, and a last shift. */
  function Mix(z: Word): Word { Fold31(Times2(Fold27(Times1(Fold30(z))))) }

  function Unfold30(z: Word): Word { z ^ (z >> 30) ^ (z >> 60) }
  function Unfold27(z: Word): Word { z ^ (z >> 27) ^ (z >> 54) }
  function Unfold31(z: Word): Word { z ^ (z >> 31) ^ (z >> 62) }

  /** Division by the multipliers, which are odd. */
  function Over1(z: Word): Word { z * 0x96de1b173f119089 }
  function Over2(z: Word): Word { z * 0x319642b2d24d8ec3 }

  function Unmix(z: Word): Word { Unfold30(Over1(Unfold27(Over2(Unfold31(z))))) }

  lemma Unfold30Bits(z: Word)
    ensures Unfold30(z ^ (z >> 30)) == z && Fold30(z ^ (z >> 30) ^ (z >> 60)) == z
  {
  }

  lemma Unfold30UndoesFold30(z: Word)
    ensures Unfold30(Fold30(z)) == z
  {
    Unfold30Bits(z);
    hide Unfold30;
  }

  lemma Fold30UndoesUnfold30(z: Word)
    ensures Fold30(Unfold30(z)) == z
  {
    Unfold30Bits(z);
    hide Fold30;
  }

  lemma Unfold27Bits(z: Word)
    ensures Unfold27(z ^ (z >> 27)) == z && Fold27(z ^ (z >> 27) ^ (z >> 54)) == z
  {
  }

  lemma Unfold27UndoesFold27(z: Word)
    ensures Unfold27(Fold27(z)) == z
  {
    Unfold27Bits(z);
    hide Unfold27;
  }

  lemma Fold27UndoesUnfold27(z: Word)
    ensures Fold27(Unfold27(z)) == z
  {
    Unfold27Bits(z);
    hide Fold27;
  }

  lemma Unfold31Bits(z: Word)
    ensures Unfold31(z ^ (z >> 31)) == z && Fold31(z ^ (z >> 31) ^ (z >> 62)) == z
  {
  }

  lemma Unfold31UndoesFold31(z: Word)
    ensures Unfold31(Fold31(z)) == z
  {
    Unfold31Bits(z);
    hide Unfold31;
  }

  lemma Fold31UndoesUnfold31(z: Word)
    ensures Fold31(Unfold31(z)) == z
  {
    Unfold31Bits(z);
    hide Fold31;
  }

  lemma Over1Bits(z: Word)
    ensures Over1(z * 0xbf58476d1ce4e5b9) == z && Times1(z * 0x96de1b173f119089) == z
  {
  }

  lemma Over1UndoesTimes1(z: Word)
    ensures Over1(Times1(z)) == z
  {
    Over1Bits(z);
    hide Over1;
  }

  lemma Times1UndoesOver1(z: Word)
    ensures Times1(Over1(z)) == z
  {
    Over1Bits(z);
    hide Times1;
  }

  lemma Over2Bits(z: Word)
    ensures Over2(z * 0x94d049bb133111eb) == z && Times2(z * 0x319642b2d24d8ec3) == z
  {
  }

  lemma Over2UndoesTimes2(z: Word)
    ensures Over2(Times2(z)) == z
  {
    Over2Bits(z);
    hide Over2;
  }

  lemma Times2UndoesOver2(z: Word)
    ensures Times2(Over2(z)) == z
  {
    Over2Bits(z);
    hide Times2;
  }

  /** The output function is a bijection. */
  lemma MixIsBijective(z: Word)
    ensures Unmix(Mix(z)) == z && Mix(Unmix(z)) == z
  {
    hide Fold30, Fold27, Fold31, Times1, Times2, Unfold30, Unfold27, Unfold31, Over1, Over2;
    var a, b, c, d := Fold30(z), Times1(Fold30(z)), Fold27(Times1(Fold30(z))), Times2(Fold27(Times1(Fold30(z))));
    Unfold30UndoesFold30(z);
    Over1UndoesTimes1(a);
    Unfold27UndoesFold27(b);
    Over2UndoesTimes2(c);
    Unfold31UndoesFold31(d);
    var e, f, g, h := Unfold31(z), Over2(Unfold31(z)), Unfold27(Over2(Unfold31(z))),
      Over1(Unfold27(Over2(Unfold31(z))));
    Fold31UndoesUnfold31(z);
    Times2UndoesOver2(e);
    Fold27UndoesUnfold27(f);
    Times1UndoesOver1(g);
    Fold30UndoesUnfold30(h);
  }

  /** The generator's state after n calls. */
  function Counter(seed: Word, n: nat): Word { if n == 0 then seed else Advance(Counter(seed, n - 1)) }
  function Advance(state: Word): Word { state + GAMMA }

  class SplitMix64 {
    var state: Word

    constructor (state: Word)
      ensures this.state == state
    {
      this.state := state;
    }

    method Next() returns (r: Word)
      modifies this
      ensures state == Advance(old(state)) && r == Mix(state)
    {
      hide Advance, Fold30, Fold27, Fold31, Times1, Times2;
      state := Advance(state);
      var z := state;
      z := Times1(Fold30(z));
      z := Times2(Fold27(z));
      return Fold31(z);
    }

    /** `generateSeedSequence`. */
    method GenerateSeedSequence(n: nat) returns (seeds: seq<Word>)
      modifies this
      ensures |seeds| == n && forall i :: 0 <= i < n ==> seeds[i] == Mix(Counter(old(state), i + 1))
      ensures state == Counter(old(state), n)
    {
      hide Mix, Advance;
      seeds := [];
      for i := 0 to n
        invariant |seeds| == i && state == Counter(old(state), i)
        invariant forall k :: 0 <= k < i ==> seeds[k] == Mix(Counter(old(state), k + 1))
      {
        var seed := Next();
        seeds := seeds + [seed];
      }
    }
  }

  // ---- xoshiro256: the linear transition ----

  datatype State4 = State4(s0: Word, s1: Word, s2: Word, s3: Word)

  function Xor4(s: State4, t: State4): State4 {
    State4(Xor(s.s0, t.s0), Xor(s.s1, t.s1), Xor(s.s2, t.s2), Xor(s.s3, t.s3))
  }

  /** All four new words in terms of the old ones. */
  function Step4(s: State4): State4 {
    State4(Xor(Xor(s.s0, s.s1), s.s3), Xor(Xor(s.s0, s.s1), s.s2), Xor(Xor(s.s0, s.s2), Shl(s.s1, 17)),
           RotL(Xor(s.s1, s.s3), 45))
  }

  function Back4(s: State4): State4 {
    var d := RotL(s.s3, 19);
    var s0, s1 := Xor(s.s0, d), Unshift17(Xor(s.s1, s.s2));
    State4(s0, s1, Xor(Xor(s.s1, s0), s1), Xor(d, s1))
  }

  const ZERO4: State4 := State4(0, 0, 0, 0)

  ghost function Xoshiro256Machine(): Machine<State4> {
    Machine(s => Step4(s), s => Back4(s), (s, t) => Xor4(s, t), ZERO4)
  }

  lemma Xor3Is(a: Word, b: Word, c: Word, a': Word, b': Word, c': Word)
    ensures Xor(Xor(Xor(a, a'), Xor(b, b')), Xor(c, c')) == Xor(Xor(Xor(a, b), c), Xor(Xor(a', b'), c'))
  {
    hide Xor;
    XorExchange(a, a', b, b');
    XorExchange(Xor(a, b), Xor(a', b'), c, c');
  }

  lemma Step4IsLinear(s: State4, t: State4)
    ensures Step4(Xor4(s, t)) == Xor4(Step4(s), Step4(t))
  {
    hide Xor, Shl, RotL;
    Xor3Is(s.s0, s.s1, s.s3, t.s0, t.s1, t.s3);
    Xor3Is(s.s0, s.s1, s.s2, t.s0, t.s1, t.s2);
    Shift17(s.s1, t.s1);
    Xor3Is(s.s0, s.s2, Shl(s.s1, 17), t.s0, t.s2, Shl(t.s1, 17));
    XorExchange(s.s1, t.s1, s.s3, t.s3);
    Rotation45(Xor(s.s1, s.s3), Xor(t.s1, t.s3));
  }

  lemma Xor4IsGroup(s: State4, t: State4, u: State4)
    ensures Xor4(Xor4(s, t), u) == Xor4(s, Xor4(t, u)) && Xor4(s, t) == Xor4(t, s)
    ensures Xor4(s, ZERO4) == s && Xor4(s, s) == ZERO4
  {
    hide Xor;
    XorAssociates(s.s0, t.s0, u.s0);
    XorAssociates(s.s1, t.s1, u.s1);
    XorAssociates(s.s2, t.s2, u.s2);
    XorAssociates(s.s3, t.s3, u.s3);
    XorLaws(s.s0, t.s0);
    XorLaws(s.s1, t.s1);
    XorLaws(s.s2, t.s2);
    XorLaws(s.s3, t.s3);
  }

  lemma Back4Undoes(s: State4)
    ensures Back4(Step4(s)) == s
  {
    hide Xor, Shl, RotL, Unshift17;
    var (a, b, c, d) := (s.s0, s.s1, s.s2, s.s3);
    var e := Shl(b, 17);
    Rotation45Back(Xor(b, d));
    XorAssociates(a, b, d);
    XorCancels(a, Xor(b, d));
    XorLaws(a, b);
    XorAssociates(a, b, c);
    XorCommutedPair(a, b, c, e);
    Unshift17Undoes(b);
    XorCancels(a, Xor(b, c));
    XorCancels(b, c);
    XorCancels(b, d);
  }

  lemma XorCommutedPair(a: Word, b: Word, c: Word, e: Word)
    ensures Xor(Xor(Xor(a, b), c), Xor(Xor(a, c), e)) == Xor(b, e)
  {
    hide Xor;
    XorAssociates(a, b, c);
    XorLaws(b, c);
    XorAssociates(a, c, b);
    XorExchange(Xor(a, c), b, Xor(a, c), e);
    XorLaws(Xor(a, c), 0);
    XorLaws(0, Xor(b, e));
    XorLaws(Xor(b, e), 0);
  }

  lemma Back4IsUndone(s: State4)
    ensures Step4(Back4(s)) == s
  {
    hide Xor, Shl, RotL, Unshift17;
    var (p, q, r, d) := (s.s0, s.s1, s.s2, RotL(s.s3, 19));
    var a, b := Xor(p, d), Unshift17(Xor(q, r));
    XorCommutedPair(a, b, q, d);
    XorExchange(a, b, d, b);
    XorLaws(b, b);
    XorLaws(Xor(a, d), 0);
    XorCancels(p, d);
    XorExchange(a, b, Xor(q, a), b);
    XorLaws(a, Xor(q, a));
    XorCancels(q, a);
    XorLaws(q, 0);
    XorAssociates(q, a, b);
    XorLaws(q, Xor(a, b));
    XorCancels(Xor(a, b), q);
    XorAssociates(a, Xor(q, a), b);
    XorAssociates(q, b, Shl(b, 17));
    Unshift17IsUndone(Xor(q, r));
    XorCancels(q, r);
    XorLaws(d, b);
    XorCancels(d, b);
    XorCancels(b, d);
    Rotation45Back(s.s3);
  }

  lemma Xoshiro256IsLinear()
    ensures Linear(Xoshiro256Machine())
  {
    hide Xor4, Step4, Back4;
    forall s, t, u ensures Xor4(Xor4(s, t), u) == Xor4(s, Xor4(t, u)) {
      Xor4IsGroup(s, t, u);
    }
    forall s, t ensures Xor4(s, t) == Xor4(t, s) && Xor4(s, ZERO4) == s && Xor4(s, s) == ZERO4 {
      Xor4IsGroup(s, t, t);
    }
    forall s, t ensures Step4(Xor4(s, t)) == Xor4(Step4(s), Step4(t)) {
      Step4IsLinear(s, t);
    }
    forall s ensures Back4(Step4(s)) == s && Step4(Back4(s)) == s {
      Back4Undoes(s);
      Back4IsUndone(s);
    }
  }

  // ---- xoshiro256: the class ----

  /** The three classes of the family differ only in how they scramble the state into a result. */
  datatype Scrambler = Plus | PlusPlus | StarStar

  function Scramble4(scrambler: Scrambler, s: State4): Word {
    match scrambler
    case Plus => s.s0 + s.s3
    case PlusPlus => RotL(s.s0 + s.s3, 23) + s.s0
    case StarStar => RotL(s.s1 * 5, 7) * 9
  }

  predicate Bit(word: Word, b: nat)
    requires b < 64
  {
    word & ((1 as Word) << b) != 0
  }

  /** The bits of a polynomial, least significant word and bit first. */
  function Bits(words: seq<Word>): (bits: seq<bool>)
    ensures |bits| == 64 * |words|
  {
    seq(64 * |words|, k requires 0 <= k < 64 * |words| => Bit(words[k / 64], k % 64))
  }

  const JUMP_256: seq<Word> := [0x180ec6d33cfd0aba, 0xd5a61266f0c9392c, 0xa9582618e03fc9aa, 0x39abdc4529b1661c]
  const LONG_JUMP_256: seq<Word> := [0x76e15d3efefdcbbf, 0xc5004e441c522fb3, 0x77710069854ee241, 0x39109bb02acbe635]

  function SeedState4(seed: Word): State4 {
    State4(Mix(Counter(seed, 1)), Mix(Counter(seed, 2)), Mix(Counter(seed, 3)), Mix(Counter(seed, 4)))
  }

  lemma InPlaceIsStep4(s: State4)
    ensures
      var s2, s3 := Xor(s.s2, s.s0), Xor(s.s3, s.s1);
      Step4(s) == State4(Xor(s.s0, s3), Xor(s.s1, s2), Xor(s2, Shl(s.s1, 17)), RotL(s3, 45))
  {
    hide Xor, Shl, RotL;
    XorLaws(s.s2, s.s0);
    XorLaws(s.s3, s.s1);
    XorAssociates(s.s0, s.s1, s.s3);
    XorAssociates(s.s1, s.s0, s.s2);
    XorLaws(s.s0, s.s1);
  }

  class Xoshiro256 {
    const scrambler: Scrambler
    const state: array<Word>

    ghost predicate Valid() { state.Length == 4 }

    function State(): State4
      requires Valid()
      reads state
    {
      State4(state[0], state[1], state[2], state[3])
    }

    constructor (scrambler: Scrambler, seed: Word)
      ensures Valid() && fresh(state) && this.scrambler == scrambler && State() == SeedState4(seed)
    {
      hide Mix;
      var splitMix := new SplitMix64(seed);
      var seeds := splitMix.GenerateSeedSequence(4);
      this.scrambler := scrambler;
      state := new Word[4](i requires 0 <= i < 4 => seeds[i]);
    }

    constructor FromState(scrambler: Scrambler, s: State4)
      ensures Valid() && fresh(state) && this.scrambler == scrambler && State() == s
    {
      this.scrambler := scrambler;
      state := new Word[4][s.s0, s.s1, s.s2, s.s3];
    }

    method Next() returns (result: Word)
      requires Valid()
      modifies state
      ensures result == Scramble4(scrambler, old(State())) && State() == Step4(old(State()))
    {
      hide Xor, Shl, RotL, Scramble4, Step4;
      InPlaceIsStep4(State());
      result := Scramble4(scrambler, State4(state[0], state[1], state[2], state[3]));
      var t := Shl(state[1], 17);
      state[2] := Xor(state[2], state[0]);
      state[3] := Xor(state[3], state[1]);
      state[1] := Xor(state[1], state[2]);
      state[0] := Xor(state[0], state[3]);
      state[2] := Xor(state[2], t);
      state[3] := RotL(state[3], 45);
    }

    /** Evaluates the polynomial whose coefficients are the bits of the words. */
    method Evaluate(words: seq<Word>)
      requires Valid()
      modifies state
      ensures State() == LinearMachine.Jump(Xoshiro256Machine(), old(State()), Bits(words))
    {
      hide Xor4, Step4, Bits, Xoshiro256Machine, Sum, Run;
      ghost var start := State();
      var s := ZERO4;
      NothingYet256(start, Bits(words));
      for i := 0 to |words|
        invariant Progress256(start, Bits(words), 64 * i, State(), s)
      {
        s := EvaluateWord(words, i, s, start);
      }
      state[0], state[1], state[2], state[3] := s.s0, s.s1, s.s2, s.s3;
    }

    /** The inner loop: one word of the polynomial. */
    method EvaluateWord(words: seq<Word>, i: nat, sum: State4, ghost start: State4) returns (s: State4)
      requires Valid() && i < |words| && Progress256(start, Bits(words), 64 * i, State(), sum)
      modifies state
      ensures Progress256(start, Bits(words), 64 * i + 64, State(), s)
    {
      hide Xor4, Step4, Bit, Xoshiro256Machine, Sum, Run, Progress256;
      s := sum;
      for b := 0 to 64
        invariant Progress256(start, Bits(words), 64 * i + b, State(), s)
      {
        OneMore256(start, Bits(words), 64 * i + b, State(), s);
        assert Bits(words)[64 * i + b] == Bit(words[i], b);
        if Bit(words[i], b) { s := Xor4(s, State()); }
        var _ := Next();
      }
    }

    method Jump()
      requires Valid()
      modifies state
      ensures State() == LinearMachine.Jump(Xoshiro256Machine(), old(State()), Bits(
        [0x180ec6d33cfd0aba, 0xd5a61266f0c9392c, 0xa9582618e03fc9aa, 0x39abdc4529b1661c]))
    {
      Evaluate(JUMP_256);
    }

    method LongJump()
      requires Valid()
      modifies state
      ensures State() == LinearMachine.Jump(Xoshiro256Machine(), old(State()), Bits(
        [0x76e15d3efefdcbbf, 0xc5004e441c522fb3, 0x77710069854ee241, 0x39109bb02acbe635]))
    {
      Evaluate(LONG_JUMP_256);
    }
  }

  /** After n bits of the polynomial: the current state, and the sum so far. */
  ghost predicate Progress256(start: State4, bits: seq<bool>, n: nat, now: State4, sum: State4) {
    n <= |bits| && now == Run(Xoshiro256Machine(), start, n) && sum == Sum(Xoshiro256Machine(), start, bits, n)
  }

  lemma NothingYet256(start: State4, bits: seq<bool>)
    ensures Progress256(start, bits, 0, start, ZERO4)
  {
  }

  lemma OneMore256(start: State4, bits: seq<bool>, n: nat, now: State4, sum: State4)
    requires Progress256(start, bits, n, now, sum) && n < |bits|
    ensures Progress256(start, bits, n + 1, Step4(now), if bits[n] then Xor4(sum, now) else sum)
  {
    hide Step4, Xor4;
  }

  // ---- Seeded generators ----

  function Minus(x: Word, y: Word): Word { x - y }
  function Twice(x: Word): Word { x + x }

  /** x doubled n times. */
  function Doubled(x: Word, n: nat): Word
    decreases n
  {
    if n == 0 then x else Doubled(Twice(x), n - 1)
  }

  predicate Covers(x: Word, e: Word) { x & e == e }

  lemma AdvanceIs(x: Word)
    ensures Advance(x) == x + GAMMA
  {
  }

  lemma MinusSums(x: Word, y: Word)
    ensures Minus(x + GAMMA, y + GAMMA) == Minus(x, y)
  {
  }

  lemma AdvanceMinus(x: Word, y: Word)
    ensures Minus(Advance(x), Advance(y)) == Minus(x, y)
  {
    hide *;
    AdvanceIs(x);
    AdvanceIs(y);
    MinusSums(x, y);
  }

  lemma MinusItself(x: Word)
    ensures Minus(x, 0) == x
  {
  }

  lemma MinusNothing(x: Word, y: Word)
    ensures Minus(x, y) == x ==> y == 0
  {
  }

  lemma MinusHalf(x: Word, y: Word)
    ensures Minus(y, x) == x ==> y == Twice(x)
  {
  }

  /** Counters that start apart stay as far apart. */
  lemma {:induction false} CounterFrom(seed: Word, n: nat)
    ensures Minus(Counter(seed, n), Counter(0, n)) == seed
  {
    hide Advance, Minus;
    if n == 0 {
      MinusItself(seed);
    } else {
      CounterFrom(seed, n - 1);
      AdvanceMinus(Counter(seed, n - 1), Counter(0, n - 1));
    }
  }

  lemma {:induction false} CounterOn(seed: Word, i: nat, n: nat)
    ensures Counter(seed, i + n) == Counter(Counter(seed, i), n)
  {
    hide Advance;
    if n > 0 { CounterOn(seed, i, n - 1); }
  }

  /** The increment is odd, so the counter from zero alternates between even and odd. */
  lemma AdvanceParity(x: Word)
    ensures Covers(Advance(x), 1) <==> !Covers(x, 1)
  {
  }

  lemma ZeroIsEven()
    ensures !Covers(0, 1)
  {
  }

  lemma {:induction false} CounterParity(n: nat)
    ensures Covers(Counter(0, n), 1) <==> n % 2 == 1
  {
    hide Advance, Covers;
    if n == 0 {
      ZeroIsEven();
    } else {
      CounterParity(n - 1);
      AdvanceParity(Counter(0, n - 1));
    }
  }

  lemma TwiceBit(x: Word, e: Word)
    requires Covers(x, e)
    ensures Covers(Twice(x), Twice(e))
  {
  }

  lemma {:induction false} DoubledBit(x: Word, e: Word, n: nat)
    requires Covers(x, e)
    ensures Covers(Doubled(x, n), Doubled(e, n))
    decreases n
  {
    hide Covers, Twice;
    if n > 0 {
      TwiceBit(x, e);
      DoubledBit(Twice(x), Twice(e), n - 1);
    }
  }

  lemma {:induction false} DoubledOn(x: Word, m: nat, n: nat)
    ensures Doubled(x, m + n) == Doubled(Doubled(x, m), n)
    decreases m
  {
    hide Twice;
    if m > 0 { DoubledOn(Twice(x), m - 1, n); }
  }

  lemma {:induction false} DoubledZero(n: nat)
    ensures Doubled(0, n) == 0
  {
    if n > 0 {
      assert Twice(0) == 0;
      DoubledZero(n - 1);
    }
  }

  lemma TwiceFour(x: Word)
    ensures Twice(Twice(Twice(Twice(x)))) == x << 4
  {
  }

  lemma DoubledFour(x: Word, n: nat)
    ensures Doubled(x, n + 4) == Doubled(x << 4, n)
  {
    hide Twice;
    TwiceFour(x);
    assert Doubled(x, n + 4) == Doubled(Twice(x), n + 3);
    assert Doubled(Twice(x), n + 3) == Doubled(Twice(Twice(x)), n + 2);
    assert Doubled(Twice(Twice(x)), n + 2) == Doubled(Twice(Twice(Twice(x))), n + 1);
    assert Doubled(Twice(Twice(Twice(x))), n + 1) == Doubled(Twice(Twice(Twice(Twice(x)))), n);
  }

  lemma DoubledThree(x: Word)
    ensures Doubled(x, 3) == x << 3
  {
    DoubledFew(x);
    hide Twice;
    assert Doubled(x, 3) == Twice(Twice(Twice(x)));
  }

  lemma DoubledFew(x: Word)
    ensures Twice(Twice(Twice(x))) == x << 3
  {
  }

  lemma TopBit()
    ensures Doubled(1, 63) != 0
  {
    hide Doubled;
    DoubledFour(0x1, 59);
    DoubledFour(0x10, 55);
    DoubledFour(0x100, 51);
    DoubledFour(0x1000, 47);
    DoubledFour(0x10000, 43);
    DoubledFour(0x100000, 39);
    DoubledFour(0x1000000, 35);
    DoubledFour(0x10000000, 31);
    DoubledFour(0x100000000, 27);
    DoubledFour(0x1000000000, 23);
    DoubledFour(0x10000000000, 19);
    DoubledFour(0x100000000000, 15);
    DoubledFour(0x1000000000000, 11);
    DoubledFour(0x10000000000000, 7);
    DoubledFour(0x100000000000000, 3);
    DoubledThree(0x1000000000000000);
  }

  /** An odd word keeps a bit until it has been doubled 64 times. */
  lemma OddDoubled(x: Word, n: nat)
    requires Covers(x, 1) && n <= 63
    ensures Doubled(x, n) != 0
  {
    hide Covers, Twice;
    DoubledBit(x, 1, n);
    if Doubled(x, n) == 0 {
      NoBit(Doubled(1, n));
      DoubledOn(1, n, 63 - n);
      DoubledZero(63 - n);
      TopBit();
    }
  }

  lemma NoBit(e: Word)
    ensures Covers(0, e) ==> e == 0
  {
  }

  function Power(k: nat): nat { if k == 0 then 1 else 2 * Power(k - 1) }

  /** Fewer than 2^k steps of the counter, doubled as often as 2^k is short of 2^64, do not vanish. */
  lemma {:induction false} CounterDoubled(n: nat, k: nat)
    requires 0 < n < Power(k) && k <= 64
    ensures Doubled(Counter(0, n), 64 - k) != 0
  {
    hide Advance, Twice, Minus, Covers;
    if n % 2 == 1 {
      CounterParity(n);
      OddDoubled(Counter(0, n), 64 - k);
    } else {
      var m := n / 2;
      CounterOn(0, m, m);
      CounterFrom(Counter(0, m), m);
      MinusHalf(Counter(0, m), Counter(0, n));
      assert Counter(0, n) == Twice(Counter(0, m));
      CounterDoubled(m, k - 1);
    }
  }

  lemma PowerOn(k: nat)
    ensures Power(k + 8) == 256 * Power(k)
  {
    assert Power(k + 2) == 4 * Power(k);
    assert Power(k + 4) == 4 * Power(k + 2);
    assert Power(k + 6) == 4 * Power(k + 4);
  }

  lemma PowerOf64()
    ensures Power(64) == 0x1_0000_0000_0000_0000
  {
    hide Power;
    PowerOn(56);
    PowerOn(48);
    PowerOn(40);
    PowerOn(32);
    PowerOn(24);
    PowerOn(16);
    PowerOn(8);
    PowerOn(0);
    PowerOfNone();
  }

  lemma PowerOfNone()
    ensures Power(0) == 1
  {
  }

  /** No two of the words of a seed sequence are equal, however long it is. */
  lemma SeedWordsDiffer(seed: Word, i: nat, j: nat)
    requires i < j < i + 0x1_0000_0000_0000_0000
    ensures Mix(Counter(seed, i)) != Mix(Counter(seed, j))
  {
    hide Mix, Unmix, Advance, Minus;
    var x := Counter(seed, i);
    CounterOn(seed, i, j - i);
    CounterFrom(x, j - i);
    PowerOf64();
    CounterDoubled(j - i, 64);
    MinusNothing(x, Counter(0, j - i));
    MixIsBijective(x);
    MixIsBijective(Counter(seed, j));
  }

  /** A seeded generator never reaches the state that it could not leave. */
  lemma {:induction false} SeededNeverZero256(seed: Word, n: nat)
    ensures Run(Xoshiro256Machine(), SeedState4(seed), n) != ZERO4
  {
    hide Mix;
    SeedWordsDiffer(seed, 1, 2);
    Xoshiro256IsLinear();
    NeverZero(Xoshiro256Machine(), SeedState4(seed), n);
  }

  // ---- xoroshiro128 ----

  datatype State2 = State2(s0: Word, s1: Word)

  function Xor2(s: State2, t: State2): State2 { State2(Xor(s.s0, t.s0), Xor(s.s1, t.s1)) }

  /** xoroshiro128++ turns by other amounts than the rest of its family. */
  function TurnA(scrambler: Scrambler, x: Word): Word { if scrambler.PlusPlus? then RotL(x, 49) else RotL(x, 24) }
  function TurnB(scrambler: Scrambler, x: Word): Word { if scrambler.PlusPlus? then Shl(x, 21) else Shl(x, 16) }
  function TurnC(scrambler: Scrambler, x: Word): Word { if scrambler.PlusPlus? then RotL(x, 28) else RotL(x, 37) }
  function UnturnA(scrambler: Scrambler, x: Word): Word { if scrambler.PlusPlus? then RotL(x, 15) else RotL(x, 40) }
  function UnturnC(scrambler: Scrambler, x: Word): Word { if scrambler.PlusPlus? then RotL(x, 36) else RotL(x, 27) }

  function Step2(scrambler: Scrambler, s: State2): State2 {
    var x := Xor(s.s1, s.s0);
    State2(Xor(Xor(TurnA(scrambler, s.s0), x), TurnB(scrambler, x)), TurnC(scrambler, x))
  }

  function Back2(scrambler: Scrambler, s: State2): State2 {
    var x := UnturnC(scrambler, s.s1);
    var s0 := UnturnA(scrambler, Xor(Xor(s.s0, TurnB(scrambler, x)), x));
    State2(s0, Xor(x, s0))
  }

  const ZERO2: State2 := State2(0, 0)

  ghost function Xoroshiro128Machine(scrambler: Scrambler): Machine<State2> {
    Machine(s => Step2(scrambler, s), s => Back2(scrambler, s), (s, t) => Xor2(s, t), ZERO2)
  }

  lemma TurnsAreLinear(scrambler: Scrambler, x: Word, y: Word)
    ensures TurnA(scrambler, Xor(x, y)) == Xor(TurnA(scrambler, x), TurnA(scrambler, y))
    ensures TurnB(scrambler, Xor(x, y)) == Xor(TurnB(scrambler, x), TurnB(scrambler, y))
    ensures TurnC(scrambler, Xor(x, y)) == Xor(TurnC(scrambler, x), TurnC(scrambler, y))
  {
    hide Xor, RotL, Shl;
    Rotation24(x, y);
    Rotation49(x, y);
    Rotation37(x, y);
    Rotation28(x, y);
    Shift16(x, y);
    Shift21(x, y);
  }

  lemma TurnsBack(scrambler: Scrambler, x: Word)
    ensures UnturnA(scrambler, TurnA(scrambler, x)) == x && TurnA(scrambler, UnturnA(scrambler, x)) == x
    ensures UnturnC(scrambler, TurnC(scrambler, x)) == x && TurnC(scrambler, UnturnC(scrambler, x)) == x
  {
    hide RotL;
    Rotation24Back(x);
    Rotation49Back(x);
    Rotation37Back(x);
    Rotation28Back(x);
  }

  lemma Step2IsLinear(r: Scrambler, s: State2, t: State2)
    ensures Step2(r, Xor2(s, t)) == Xor2(Step2(r, s), Step2(r, t))
  {
    hide Xor, TurnA, TurnB, TurnC;
    var x, y := Xor(s.s1, s.s0), Xor(t.s1, t.s0);
    XorExchange(s.s1, t.s1, s.s0, t.s0);
    TurnsAreLinear(r, s.s0, t.s0);
    TurnsAreLinear(r, x, y);
    Xor3Is(TurnA(r, s.s0), x, TurnB(r, x), TurnA(r, t.s0), y, TurnB(r, y));
  }

  lemma Xor2IsGroup(s: State2, t: State2, u: State2)
    ensures Xor2(Xor2(s, t), u) == Xor2(s, Xor2(t, u)) && Xor2(s, t) == Xor2(t, s)
    ensures Xor2(s, ZERO2) == s && Xor2(s, s) == ZERO2
  {
    hide Xor;
    XorAssociates(s.s0, t.s0, u.s0);
    XorAssociates(s.s1, t.s1, u.s1);
    XorLaws(s.s0, t.s0);
    XorLaws(s.s1, t.s1);
  }

  lemma Back2Undoes(r: Scrambler, s: State2)
    ensures Back2(r, Step2(r, s)) == s && Step2(r, Back2(r, s)) == s
  {
    hide Xor, TurnA, TurnB, TurnC, UnturnA, UnturnC;
    var x := Xor(s.s1, s.s0);
    TurnsBack(r, x);
    TurnsBack(r, s.s0);
    XorCancels(Xor(TurnA(r, s.s0), x), TurnB(r, x));
    XorCancels(TurnA(r, s.s0), x);
    XorCancels(s.s1, s.s0);
    var y := UnturnC(r, s.s1);
    var z := Xor(Xor(s.s0, TurnB(r, y)), y);
    TurnsBack(r, s.s1);
    TurnsBack(r, z);
    XorCancels(y, UnturnA(r, z));
    XorCancels(Xor(s.s0, TurnB(r, y)), y);
    XorCancels(s.s0, TurnB(r, y));
  }

  lemma Xoroshiro128IsLinear(r: Scrambler)
    ensures Linear(Xoroshiro128Machine(r))
  {
    hide Xor2, Step2, Back2;
    forall s, t, u ensures Xor2(Xor2(s, t), u) == Xor2(s, Xor2(t, u)) {
      Xor2IsGroup(s, t, u);
    }
    forall s, t ensures Xor2(s, t) == Xor2(t, s) && Xor2(s, ZERO2) == s && Xor2(s, s) == ZERO2 {
      Xor2IsGroup(s, t, t);
    }
    forall s, t ensures Step2(r, Xor2(s, t)) == Xor2(Step2(r, s), Step2(r, t)) {
      Step2IsLinear(r, s, t);
    }
    forall s ensures Back2(r, Step2(r, s)) == s && Step2(r, Back2(r, s)) == s {
      Back2Undoes(r, s);
    }
  }

  function Scramble2(scrambler: Scrambler, s: State2): Word {
    match scrambler
    case Plus => s.s0 + s.s1
    case PlusPlus => RotL(s.s0 + s.s1, 17) + s.s0
    case StarStar => RotL(s.s0 * 5, 7) * 9
  }

  function Jump128(scrambler: Scrambler): seq<Word> {
    if scrambler.PlusPlus? then [0x2bd7a6a6e99c2ddc, 0x0992ccaf6a6fca05] else [0xdf900294d8f554a5, 0x170865df4b3201fc]
  }

  function LongJump128(scrambler: Scrambler): seq<Word> {
    if scrambler.PlusPlus? then [0x360fd5f2cf8d5d99, 0x9c6e6877736c46e3] else [0xd2a98b26625eee7b, 0xdddf9b1090aa7ac1]
  }

  function SeedState2(seed: Word): State2 { State2(Mix(Counter(seed, 1)), Mix(Counter(seed, 2))) }

  class Xoroshiro128 {
    const scrambler: Scrambler
    const state: array<Word>

    ghost predicate Valid() { state.Length == 2 }

    function State(): State2
      requires Valid()
      reads state
    {
      State2(state[0], state[1])
    }

    constructor (scrambler: Scrambler, seed: Word)
      ensures Valid() && fresh(state) && this.scrambler == scrambler && State() == SeedState2(seed)
    {
      hide Mix;
      var splitMix := new SplitMix64(seed);
      var seeds := splitMix.GenerateSeedSequence(2);
      this.scrambler := scrambler;
      state := new Word[2](i requires 0 <= i < 2 => seeds[i]);
    }

    method Next() returns (result: Word)
      requires Valid()
      modifies state
      ensures result == Scramble2(scrambler, old(State())) && State() == Step2(scrambler, old(State()))
    {
      hide Xor, TurnA, TurnB, TurnC, Scramble2;
      result := Scramble2(scrambler, State());
      var s0, s1 := state[0], state[1];
      s1 := Xor(s1, s0);
      state[0] := Xor(Xor(TurnA(scrambler, s0), s1), TurnB(scrambler, s1));
      state[1] := TurnC(scrambler, s1);
    }

    method Evaluate(words: seq<Word>)
      requires Valid()
      modifies state
      ensures State() == LinearMachine.Jump(Xoroshiro128Machine(scrambler), old(State()), Bits(words))
    {
      hide Xor2, Step2, Bits, Xoroshiro128Machine, Sum, Run;
      ghost var start := State();
      var s := ZERO2;
      NothingYet128(scrambler, start, Bits(words));
      for i := 0 to |words|
        invariant Progress128(scrambler, start, Bits(words), 64 * i, State(), s)
      {
        s := EvaluateWord(words, i, s, start);
      }
      state[0], state[1] := s.s0, s.s1;
    }

    method EvaluateWord(words: seq<Word>, i: nat, sum: State2, ghost start: State2) returns (s: State2)
      requires Valid() && i < |words| && Progress128(scrambler, start, Bits(words), 64 * i, State(), sum)
      modifies state
      ensures Progress128(scrambler, start, Bits(words), 64 * i + 64, State(), s)
    {
      hide Xor2, Step2, Bit, Xoroshiro128Machine, Sum, Run, Progress128;
      s := sum;
      for b := 0 to 64
        invariant Progress128(scrambler, start, Bits(words), 64 * i + b, State(), s)
      {
        OneMore128(scrambler, start, Bits(words), 64 * i + b, State(), s);
        assert Bits(words)[64 * i + b] == Bit(words[i], b);
        if Bit(words[i], b) { s := Xor2(s, State()); }
        var _ := Next();
      }
    }

    method Jump()
      requires Valid()
      modifies state
      ensures State() == LinearMachine.Jump(Xoroshiro128Machine(scrambler), old(State()), Bits(
        if scrambler.PlusPlus? then [0x2bd7a6a6e99c2ddc, 0x0992ccaf6a6fca05]
        else [0xdf900294d8f554a5, 0x170865df4b3201fc]))
    {
      Evaluate(Jump128(scrambler));
    }

    method LongJump()
      requires Valid()
      modifies state
      ensures State() == LinearMachine.Jump(Xoroshiro128Machine(scrambler), old(State()), Bits(
        if scrambler.PlusPlus? then [0x360fd5f2cf8d5d99, 0x9c6e6877736c46e3]
        else [0xd2a98b26625eee7b, 0xdddf9b1090aa7ac1]))
    {
      Evaluate(LongJump128(scrambler));
    }
  }

  ghost predicate Progress128(r: Scrambler, start: State2, bits: seq<bool>, n: nat, now: State2, sum: State2) {
    n <= |bits| && now == Run(Xoroshiro128Machine(r), start, n) && sum == Sum(Xoroshiro128Machine(r), start, bits, n)
  }

  lemma NothingYet128(r: Scrambler, start: State2, bits: seq<bool>)
    ensures Progress128(r, start, bits, 0, start, ZERO2)
  {
  }

  lemma OneMore128(r: Scrambler, start: State2, bits: seq<bool>, n: nat, now: State2, sum: State2)
    requires Progress128(r, start, bits, n, now, sum) && n < |bits|
    ensures Progress128(r, start, bits, n + 1, Step2(r, now), if bits[n] then Xor2(sum, now) else sum)
  {
    hide Step2, Xor2;
  }

  lemma {:induction false} SeededNeverZero128(r: Scrambler, seed: Word, n: nat)
    ensures Run(Xoroshiro128Machine(r), SeedState2(seed), n) != ZERO2
  {
    hide Mix;
    SeedWordsDiffer(seed, 1, 2);
    Xoroshiro128IsLinear(r);
    NeverZero(Xoroshiro128Machine(r), SeedState2(seed), n);
  }

  // ---- Jumps of real generators ----

  /** `jump` and `longJump` of xoshiro256 commute with each other and with any number of calls. */
  lemma {:induction false} Jumps256(s: State4, n: nat)
    ensures
      var m, j, l := Xoshiro256Machine(), Bits(JUMP_256), Bits(LONG_JUMP_256);
      && LinearMachine.Jump(m, LinearMachine.Jump(m, s, j), l) == LinearMachine.Jump(m, LinearMachine.Jump(m, s, l), j)
      && Run(m, LinearMachine.Jump(m, s, j), n) == LinearMachine.Jump(m, Run(m, s, n), j)
      && Run(m, LinearMachine.Jump(m, s, l), n) == LinearMachine.Jump(m, Run(m, s, n), l)
  {
    hide Bits, Xoshiro256Machine, LinearMachine.Jump, Run;
    var m, j, l := Xoshiro256Machine(), Bits(JUMP_256), Bits(LONG_JUMP_256);
    Xoshiro256IsLinear();
    JumpsCommute(m, s, l, j);
    JumpCommutesWithRun(m, s, j, n);
    JumpCommutesWithRun(m, s, l, n);
  }

  /** The same for xoroshiro128. */
  lemma {:induction false} Jumps128(r: Scrambler, s: State2, n: nat)
    ensures
      var m, j, l := Xoroshiro128Machine(r), Bits(Jump128(r)), Bits(LongJump128(r));
      && LinearMachine.Jump(m, LinearMachine.Jump(m, s, j), l) == LinearMachine.Jump(m, LinearMachine.Jump(m, s, l), j)
      && Run(m, LinearMachine.Jump(m, s, j), n) == LinearMachine.Jump(m, Run(m, s, n), j)
      && Run(m, LinearMachine.Jump(m, s, l), n) == LinearMachine.Jump(m, Run(m, s, n), l)
  {
    hide Bits, Xoroshiro128Machine, LinearMachine.Jump, Run;
    var m, j, l := Xoroshiro128Machine(r), Bits(Jump128(r)), Bits(LongJump128(r));
    Xoroshiro128IsLinear(r);
    JumpsCommute(m, s, l, j);
    JumpCommutesWithRun(m, s, j, n);
    JumpCommutesWithRun(m, s, l, n);
  }
}
