/** The first example of FIPS 180-4: the digest of "abc", computed word by word and round by round. */
module ShaExample {
  import opened ShaConstants
  import opened Sha256
  import opened Picosha2

  const ABC: seq<Byte> := [0x61, 0x62, 0x63]

  // ---- The one block ----

  /** The message, the bit after it, zeros, and its length of 24 bits. */
  function AbcBlock(): Block {
    ABC + [0x80] + ZeroBytes(52) + [0, 0, 0, 0, 0, 0, 0, 24]
  }

  lemma AbcPadded()
    ensures ABC + Padding(3) == AbcBlock()
  {
    LengthOfAbc();
    assert Zeros(3) == 52;
    hide ZeroBytes, LengthField, Zeros;
    assert ABC + ([0x80] + ZeroBytes(52) + [0, 0, 0, 0, 0, 0, 0, 24]) == AbcBlock();
  }

  lemma LengthOfAbc()
    ensures LengthField(3) == [0, 0, 0, 0, 0, 0, 0, 24]
  {
    hide BigEndian, ToByte, ZeroBytes;
    LastByteFirst(24, 8);
    NoBytes(7);
    ByteIs(24, 24);
    assert ZeroBytes(7) + [24] == [0, 0, 0, 0, 0, 0, 0, 24];
  }

  lemma ByteIs(n: nat, b: Byte)
    requires b as nat == n
    ensures ToByte(n) == b
  {
    CastByte(n, b);
    assert n % 256 == n;
  }

  lemma CastByte(n: nat, b: Byte)
    requires b as nat == n
    ensures n < 256 && n as Byte == b
  {
  }

  lemma LastByteFirst(n: nat, width: nat)
    requires width > 0
    ensures BigEndian(n, width) == BigEndian(n / 256, width - 1) + [ToByte(n)]
  {
    hide ToByte;
  }

  lemma {:induction false} NoBytes(width: nat)
    ensures BigEndian(0, width) == ZeroBytes(width)
  {
    if width > 0 {
      ByteIs(0, 0);
      hide ToByte;
      NoBytes(width - 1);
    }
  }

  function WordRow(row: nat): (r: seq<Word>)
    requires row < 8
    ensures |r| == 8
  {
    match row
    case 0 => [0x61626380, 0x00000000, 0x00000000, 0x00000000, 0x00000000, 0x00000000, 0x00000000, 0x00000000]
    case 1 => [0x00000000, 0x00000000, 0x00000000, 0x00000000, 0x00000000, 0x00000000, 0x00000000, 0x00000018]
    case 2 => [0x61626380, 0x000f0000, 0x7da86405, 0x600003c6, 0x3e9d7b78, 0x0183fc00, 0x12dcbfdb, 0xe2e2c38e]
    case 3 => [0xc8215c1a, 0xb73679a2, 0xe5bc3909, 0x32663c5b, 0x9d209d67, 0xec8726cb, 0x702138a4, 0xd3b7973b]
    case 4 => [0x93f5997f, 0x3b68ba73, 0xaff4ffc1, 0xf10a5c62, 0x0a8b3996, 0x72af830a, 0x9409e33e, 0x24641522]
    case 5 => [0x9f47bf94, 0xf0a64f5a, 0x3e246a79, 0x27333ba3, 0x0c4763f2, 0x840abf27, 0x7a290d5d, 0x065c43da]
    case 6 => [0xfb3e89cb, 0xcc7617db, 0xb9e66c34, 0xa9993667, 0x84badedd, 0xc21462bc, 0x1487472c, 0xb20f7a99]
    case _ => [0xef57b9cd, 0xebe6b238, 0x9fe3095e, 0x78bc8d4b, 0xa43fcf15, 0x668b2ff8, 0xeeaba2cc, 0x12b1edeb]
  }

  function WordAt(t: nat): Word
    requires t < 64
  {
    WordRow(t / 8)[t % 8]
  }

  /** Word t of the schedule is the one in the table. */
  ghost predicate WordIs(t: nat) { t < 64 && Schedule(AbcBlock(), 64)[t] == WordAt(t) }

  lemma FirstWord(t: nat)
    requires t < 16 && BlockWord(AbcBlock(), t) == WordAt(t)
    ensures WordIs(t)
  {
    hide BlockWord, AbcBlock, WordAt;
    ScheduleStays(AbcBlock(), t + 1, 64);
    assert Schedule(AbcBlock(), 64)[..t + 1][t] == Schedule(AbcBlock(), 64)[t];
  }

  lemma MessageWord()
    ensures WordIs(0) && WordIs(15)
  {
    hide WordIs;
    FirstWord(0);
    FirstWord(15);
  }

  lemma ZeroWord(t: nat)
    requires 1 <= t < 15
    ensures WordIs(t)
  {
    hide WordIs;
    var block := AbcBlock();
    assert block[4 * t] == 0 && block[4 * t + 1] == 0 && block[4 * t + 2] == 0 && block[4 * t + 3] == 0;
    FirstWord(t);
  }

  /** One step of the recurrence. */
  lemma NextWord(t: nat, a: Word, b: Word, c: Word, d: Word, w: Word)
    requires 16 <= t < 64 && WordIs(t - 2) && WordIs(t - 7) && WordIs(t - 15) && WordIs(t - 16)
    requires WordAt(t - 2) == a && WordAt(t - 7) == b && WordAt(t - 15) == c && WordAt(t - 16) == d
    requires WordAt(t) == w == ScheduleWord(SmallSigma1(a), b, SmallSigma0(c), d)
    ensures WordIs(t)
  {
    hide AbcBlock, Schedule, SmallSigma0, SmallSigma1, ScheduleWord, WordAt;
    ScheduleAt(AbcBlock(), t);
  }

  lemma Table0()
    ensures WordAt(0) == 0x61626380 && WordAt(1) == 0x00000000 && WordAt(2) == 0x00000000 && WordAt(3) == 0x00000000
    ensures WordAt(4) == 0x00000000 && WordAt(5) == 0x00000000 && WordAt(6) == 0x00000000 && WordAt(7) == 0x00000000
  {
  }

  lemma Table1()
    ensures WordAt(8) == 0x00000000 && WordAt(9) == 0x00000000 && WordAt(10) == 0x00000000 && WordAt(11) == 0x00000000
    ensures WordAt(12) == 0x00000000 && WordAt(13) == 0x00000000 && WordAt(14) == 0x00000000 && WordAt(15) == 0x00000018
  {
  }

  lemma Table2()
    ensures WordAt(16) == 0x61626380 && WordAt(17) == 0x000f0000 && WordAt(18) == 0x7da86405 && WordAt(19) == 0x600003c6
    ensures WordAt(20) == 0x3e9d7b78 && WordAt(21) == 0x0183fc00 && WordAt(22) == 0x12dcbfdb && WordAt(23) == 0xe2e2c38e
  {
  }

  lemma Table3()
    ensures WordAt(24) == 0xc8215c1a && WordAt(25) == 0xb73679a2 && WordAt(26) == 0xe5bc3909 && WordAt(27) == 0x32663c5b
    ensures WordAt(28) == 0x9d209d67 && WordAt(29) == 0xec8726cb && WordAt(30) == 0x702138a4 && WordAt(31) == 0xd3b7973b
  {
  }

  lemma Table4()
    ensures WordAt(32) == 0x93f5997f && WordAt(33) == 0x3b68ba73 && WordAt(34) == 0xaff4ffc1 && WordAt(35) == 0xf10a5c62
    ensures WordAt(36) == 0x0a8b3996 && WordAt(37) == 0x72af830a && WordAt(38) == 0x9409e33e && WordAt(39) == 0x24641522
  {
  }

  lemma Table5()
    ensures WordAt(40) == 0x9f47bf94 && WordAt(41) == 0xf0a64f5a && WordAt(42) == 0x3e246a79 && WordAt(43) == 0x27333ba3
    ensures WordAt(44) == 0x0c4763f2 && WordAt(45) == 0x840abf27 && WordAt(46) == 0x7a290d5d && WordAt(47) == 0x065c43da
  {
  }

  lemma Table6()
    ensures WordAt(48) == 0xfb3e89cb && WordAt(49) == 0xcc7617db && WordAt(50) == 0xb9e66c34 && WordAt(51) == 0xa9993667
    ensures WordAt(52) == 0x84badedd && WordAt(53) == 0xc21462bc && WordAt(54) == 0x1487472c && WordAt(55) == 0xb20f7a99
  {
  }

  lemma Table7()
    ensures WordAt(56) == 0xef57b9cd && WordAt(57) == 0xebe6b238 && WordAt(58) == 0x9fe3095e && WordAt(59) == 0x78bc8d4b
    ensures WordAt(60) == 0xa43fcf15 && WordAt(61) == 0x668b2ff8 && WordAt(62) == 0xeeaba2cc && WordAt(63) == 0x12b1edeb
  {
  }

  lemma Words16To19()
    requires forall t :: 0 <= t < 16 ==> WordIs(t)
    ensures forall t :: 16 <= t < 20 ==> WordIs(t)
  {
    hide WordIs, WordAt;
    Table0();
    Table1();
    Table2();
    NextWord(16, 0x00000000, 0x00000000, 0x00000000, 0x61626380, 0x61626380);
    NextWord(17, 0x00000018, 0x00000000, 0x00000000, 0x00000000, 0x000f0000);
    NextWord(18, 0x61626380, 0x00000000, 0x00000000, 0x00000000, 0x7da86405);
    NextWord(19, 0x000f0000, 0x00000000, 0x00000000, 0x00000000, 0x600003c6);
  }

  lemma Words20To23()
    requires forall t :: 4 <= t < 20 ==> WordIs(t)
    ensures forall t :: 20 <= t < 24 ==> WordIs(t)
  {
    hide WordIs, WordAt;
    Table0();
    Table1();
    Table2();
    NextWord(20, 0x7da86405, 0x00000000, 0x00000000, 0x00000000, 0x3e9d7b78);
    NextWord(21, 0x600003c6, 0x00000000, 0x00000000, 0x00000000, 0x0183fc00);
    NextWord(22, 0x3e9d7b78, 0x00000018, 0x00000000, 0x00000000, 0x12dcbfdb);
    NextWord(23, 0x0183fc00, 0x61626380, 0x00000000, 0x00000000, 0xe2e2c38e);
  }

  lemma Words24To27()
    requires forall t :: 8 <= t < 24 ==> WordIs(t)
    ensures forall t :: 24 <= t < 28 ==> WordIs(t)
  {
    hide WordIs, WordAt;
    Table1();
    Table2();
    Table3();
    NextWord(24, 0x12dcbfdb, 0x000f0000, 0x00000000, 0x00000000, 0xc8215c1a);
    NextWord(25, 0xe2e2c38e, 0x7da86405, 0x00000000, 0x00000000, 0xb73679a2);
    NextWord(26, 0xc8215c1a, 0x600003c6, 0x00000000, 0x00000000, 0xe5bc3909);
    NextWord(27, 0xb73679a2, 0x3e9d7b78, 0x00000000, 0x00000000, 0x32663c5b);
  }

  lemma Words28To31()
    requires forall t :: 12 <= t < 28 ==> WordIs(t)
    ensures forall t :: 28 <= t < 32 ==> WordIs(t)
  {
    hide WordIs, WordAt;
    Table1();
    Table2();
    Table3();
    NextWord(28, 0xe5bc3909, 0x0183fc00, 0x00000000, 0x00000000, 0x9d209d67);
    NextWord(29, 0x32663c5b, 0x12dcbfdb, 0x00000000, 0x00000000, 0xec8726cb);
    NextWord(30, 0x9d209d67, 0xe2e2c38e, 0x00000018, 0x00000000, 0x702138a4);
    NextWord(31, 0xec8726cb, 0xc8215c1a, 0x61626380, 0x00000018, 0xd3b7973b);
  }

  lemma Words32To35()
    requires forall t :: 16 <= t < 32 ==> WordIs(t)
    ensures forall t :: 32 <= t < 36 ==> WordIs(t)
  {
    hide WordIs, WordAt;
    Table2();
    Table3();
    Table4();
    NextWord(32, 0x702138a4, 0xb73679a2, 0x000f0000, 0x61626380, 0x93f5997f);
    NextWord(33, 0xd3b7973b, 0xe5bc3909, 0x7da86405, 0x000f0000, 0x3b68ba73);
    NextWord(34, 0x93f5997f, 0x32663c5b, 0x600003c6, 0x7da86405, 0xaff4ffc1);
    NextWord(35, 0x3b68ba73, 0x9d209d67, 0x3e9d7b78, 0x600003c6, 0xf10a5c62);
  }

  lemma Words36To39()
    requires forall t :: 20 <= t < 36 ==> WordIs(t)
    ensures forall t :: 36 <= t < 40 ==> WordIs(t)
  {
    hide WordIs, WordAt;
    Table2();
    Table3();
    Table4();
    NextWord(36, 0xaff4ffc1, 0xec8726cb, 0x0183fc00, 0x3e9d7b78, 0x0a8b3996);
    NextWord(37, 0xf10a5c62, 0x702138a4, 0x12dcbfdb, 0x0183fc00, 0x72af830a);
    NextWord(38, 0x0a8b3996, 0xd3b7973b, 0xe2e2c38e, 0x12dcbfdb, 0x9409e33e);
    NextWord(39, 0x72af830a, 0x93f5997f, 0xc8215c1a, 0xe2e2c38e, 0x24641522);
  }

  lemma Words40To43()
    requires forall t :: 24 <= t < 40 ==> WordIs(t)
    ensures forall t :: 40 <= t < 44 ==> WordIs(t)
  {
    hide WordIs, WordAt;
    Table3();
    Table4();
    Table5();
    NextWord(40, 0x9409e33e, 0x3b68ba73, 0xb73679a2, 0xc8215c1a, 0x9f47bf94);
    NextWord(41, 0x24641522, 0xaff4ffc1, 0xe5bc3909, 0xb73679a2, 0xf0a64f5a);
    NextWord(42, 0x9f47bf94, 0xf10a5c62, 0x32663c5b, 0xe5bc3909, 0x3e246a79);
    NextWord(43, 0xf0a64f5a, 0x0a8b3996, 0x9d209d67, 0x32663c5b, 0x27333ba3);
  }

  lemma Words44To47()
    requires forall t :: 28 <= t < 44 ==> WordIs(t)
    ensures forall t :: 44 <= t < 48 ==> WordIs(t)
  {
    hide WordIs, WordAt;
    Table3();
    Table4();
    Table5();
    NextWord(44, 0x3e246a79, 0x72af830a, 0xec8726cb, 0x9d209d67, 0x0c4763f2);
    NextWord(45, 0x27333ba3, 0x9409e33e, 0x702138a4, 0xec8726cb, 0x840abf27);
    NextWord(46, 0x0c4763f2, 0x24641522, 0xd3b7973b, 0x702138a4, 0x7a290d5d);
    NextWord(47, 0x840abf27, 0x9f47bf94, 0x93f5997f, 0xd3b7973b, 0x065c43da);
  }

  lemma Words48To51()
    requires forall t :: 32 <= t < 48 ==> WordIs(t)
    ensures forall t :: 48 <= t < 52 ==> WordIs(t)
  {
    hide WordIs, WordAt;
    Table4();
    Table5();
    Table6();
    NextWord(48, 0x7a290d5d, 0xf0a64f5a, 0x3b68ba73, 0x93f5997f, 0xfb3e89cb);
    NextWord(49, 0x065c43da, 0x3e246a79, 0xaff4ffc1, 0x3b68ba73, 0xcc7617db);
    NextWord(50, 0xfb3e89cb, 0x27333ba3, 0xf10a5c62, 0xaff4ffc1, 0xb9e66c34);
    NextWord(51, 0xcc7617db, 0x0c4763f2, 0x0a8b3996, 0xf10a5c62, 0xa9993667);
  }

  lemma Words52To55()
    requires forall t :: 36 <= t < 52 ==> WordIs(t)
    ensures forall t :: 52 <= t < 56 ==> WordIs(t)
  {
    hide WordIs, WordAt;
    Table4();
    Table5();
    Table6();
    NextWord(52, 0xb9e66c34, 0x840abf27, 0x72af830a, 0x0a8b3996, 0x84badedd);
    NextWord(53, 0xa9993667, 0x7a290d5d, 0x9409e33e, 0x72af830a, 0xc21462bc);
    NextWord(54, 0x84badedd, 0x065c43da, 0x24641522, 0x9409e33e, 0x1487472c);
    NextWord(55, 0xc21462bc, 0xfb3e89cb, 0x9f47bf94, 0x24641522, 0xb20f7a99);
  }

  lemma Words56To59()
    requires forall t :: 40 <= t < 56 ==> WordIs(t)
    ensures forall t :: 56 <= t < 60 ==> WordIs(t)
  {
    hide WordIs, WordAt;
    Table5();
    Table6();
    Table7();
    NextWord(56, 0x1487472c, 0xcc7617db, 0xf0a64f5a, 0x9f47bf94, 0xef57b9cd);
    NextWord(57, 0xb20f7a99, 0xb9e66c34, 0x3e246a79, 0xf0a64f5a, 0xebe6b238);
    NextWord(58, 0xef57b9cd, 0xa9993667, 0x27333ba3, 0x3e246a79, 0x9fe3095e);
    NextWord(59, 0xebe6b238, 0x84badedd, 0x0c4763f2, 0x27333ba3, 0x78bc8d4b);
  }

  lemma Words60To63()
    requires forall t :: 44 <= t < 60 ==> WordIs(t)
    ensures forall t :: 60 <= t < 64 ==> WordIs(t)
  {
    hide WordIs, WordAt;
    Table5();
    Table6();
    Table7();
    NextWord(60, 0x9fe3095e, 0xc21462bc, 0x840abf27, 0x0c4763f2, 0xa43fcf15);
    NextWord(61, 0x78bc8d4b, 0x1487472c, 0x7a290d5d, 0x840abf27, 0x668b2ff8);
    NextWord(62, 0xa43fcf15, 0xb20f7a99, 0x065c43da, 0x7a290d5d, 0xeeaba2cc);
    NextWord(63, 0x668b2ff8, 0xef57b9cd, 0xfb3e89cb, 0x065c43da, 0x12b1edeb);
  }

  lemma AllWords()
    ensures forall t :: 0 <= t < 64 ==> WordIs(t)
  {
    hide WordIs;
    MessageWord();
    forall t | 1 <= t < 15 ensures WordIs(t) { ZeroWord(t); }
    Words16To19();
    Words20To23();
    Words24To27();
    Words28To31();
    Words32To35();
    Words36To39();
    Words40To43();
    Words44To47();
    Words48To51();
    Words52To55();
    Words56To59();
    Words60To63();
  }

  // ---- The rounds ----

  /** The eight words of the state after t rounds. */
  ghost predicate After(t: nat, a: Word, b: Word, c: Word, d: Word, e: Word, f: Word, g: Word, h: Word) {
    t <= 64 && Rounds(INITIAL, AbcBlock(), t) == Digest(a, b, c, d, e, f, g, h)
  }

  lemma Next(t: nat, a: Word, b: Word, c: Word, d: Word, e: Word, f: Word, g: Word, h: Word,
             k: Word, w: Word, newA: Word, newE: Word)
    requires t < 64 && After(t, a, b, c, d, e, f, g, h) && K(t) == k && WordAt(t) == w
    requires Round(Digest(a, b, c, d, e, f, g, h), k, w) == Digest(newA, a, b, c, newE, e, f, g)
    ensures After(t + 1, newA, a, b, c, newE, e, f, g)
  {
    hide AbcBlock, Schedule, Round, K, INITIAL, WordAt;
    AllWords();
    assert WordIs(t);
  }

  lemma Cast(n: nat, w: Word)
    requires w as nat == n
    ensures n < 0x1_0000_0000 && n as Word == w
  {
  }

  lemma ConstantIs(t: nat, k: Word)
    requires t < 64 && KRow(t / 8)[t % 8] == k as nat
    ensures K(t) == k
  {
    hide KRow;
    Cast(KRow(t / 8)[t % 8], k);
  }

  lemma Row0()
    ensures K(0) == 0x428a2f98 && K(1) == 0x71374491 && K(2) == 0xb5c0fbcf && K(3) == 0xe9b5dba5
    ensures K(4) == 0x3956c25b && K(5) == 0x59f111f1 && K(6) == 0x923f82a4 && K(7) == 0xab1c5ed5
    ensures WordAt(0) == 0x61626380 && WordAt(1) == 0x00000000 && WordAt(2) == 0x00000000 && WordAt(3) == 0x00000000
    ensures WordAt(4) == 0x00000000 && WordAt(5) == 0x00000000 && WordAt(6) == 0x00000000 && WordAt(7) == 0x00000000
  {
    hide K, WordAt;
    Table0();
    ConstantIs(0, 0x428a2f98);
    ConstantIs(1, 0x71374491);
    ConstantIs(2, 0xb5c0fbcf);
    ConstantIs(3, 0xe9b5dba5);
    ConstantIs(4, 0x3956c25b);
    ConstantIs(5, 0x59f111f1);
    ConstantIs(6, 0x923f82a4);
    ConstantIs(7, 0xab1c5ed5);
  }

  lemma Row1()
    ensures K(8) == 0xd807aa98 && K(9) == 0x12835b01 && K(10) == 0x243185be && K(11) == 0x550c7dc3
    ensures K(12) == 0x72be5d74 && K(13) == 0x80deb1fe && K(14) == 0x9bdc06a7 && K(15) == 0xc19bf174
    ensures WordAt(8) == 0x00000000 && WordAt(9) == 0x00000000 && WordAt(10) == 0x00000000 && WordAt(11) == 0x00000000
    ensures WordAt(12) == 0x00000000 && WordAt(13) == 0x00000000 && WordAt(14) == 0x00000000 && WordAt(15) == 0x00000018
  {
    hide K, WordAt;
    Table1();
    ConstantIs(8, 0xd807aa98);
    ConstantIs(9, 0x12835b01);
    ConstantIs(10, 0x243185be);
    ConstantIs(11, 0x550c7dc3);
    ConstantIs(12, 0x72be5d74);
    ConstantIs(13, 0x80deb1fe);
    ConstantIs(14, 0x9bdc06a7);
    ConstantIs(15, 0xc19bf174);
  }

  lemma Row2()
    ensures K(16) == 0xe49b69c1 && K(17) == 0xefbe4786 && K(18) == 0x0fc19dc6 && K(19) == 0x240ca1cc
    ensures K(20) == 0x2de92c6f && K(21) == 0x4a7484aa && K(22) == 0x5cb0a9dc && K(23) == 0x76f988da
    ensures WordAt(16) == 0x61626380 && WordAt(17) == 0x000f0000 && WordAt(18) == 0x7da86405 && WordAt(19) == 0x600003c6
    ensures WordAt(20) == 0x3e9d7b78 && WordAt(21) == 0x0183fc00 && WordAt(22) == 0x12dcbfdb && WordAt(23) == 0xe2e2c38e
  {
    hide K, WordAt;
    Table2();
    ConstantIs(16, 0xe49b69c1);
    ConstantIs(17, 0xefbe4786);
    ConstantIs(18, 0x0fc19dc6);
    ConstantIs(19, 0x240ca1cc);
    ConstantIs(20, 0x2de92c6f);
    ConstantIs(21, 0x4a7484aa);
    ConstantIs(22, 0x5cb0a9dc);
    ConstantIs(23, 0x76f988da);
  }

  lemma Row3()
    ensures K(24) == 0x983e5152 && K(25) == 0xa831c66d && K(26) == 0xb00327c8 && K(27) == 0xbf597fc7
    ensures K(28) == 0xc6e00bf3 && K(29) == 0xd5a79147 && K(30) == 0x06ca6351 && K(31) == 0x14292967
    ensures WordAt(24) == 0xc8215c1a && WordAt(25) == 0xb73679a2 && WordAt(26) == 0xe5bc3909 && WordAt(27) == 0x32663c5b
    ensures WordAt(28) == 0x9d209d67 && WordAt(29) == 0xec8726cb && WordAt(30) == 0x702138a4 && WordAt(31) == 0xd3b7973b
  {
    hide K, WordAt;
    Table3();
    ConstantIs(24, 0x983e5152);
    ConstantIs(25, 0xa831c66d);
    ConstantIs(26, 0xb00327c8);
    ConstantIs(27, 0xbf597fc7);
    ConstantIs(28, 0xc6e00bf3);
    ConstantIs(29, 0xd5a79147);
    ConstantIs(30, 0x06ca6351);
    ConstantIs(31, 0x14292967);
  }

  lemma Row4()
    ensures K(32) == 0x27b70a85 && K(33) == 0x2e1b2138 && K(34) == 0x4d2c6dfc && K(35) == 0x53380d13
    ensures K(36) == 0x650a7354 && K(37) == 0x766a0abb && K(38) == 0x81c2c92e && K(39) == 0x92722c85
    ensures WordAt(32) == 0x93f5997f && WordAt(33) == 0x3b68ba73 && WordAt(34) == 0xaff4ffc1 && WordAt(35) == 0xf10a5c62
    ensures WordAt(36) == 0x0a8b3996 && WordAt(37) == 0x72af830a && WordAt(38) == 0x9409e33e && WordAt(39) == 0x24641522
  {
    hide K, WordAt;
    Table4();
    ConstantIs(32, 0x27b70a85);
    ConstantIs(33, 0x2e1b2138);
    ConstantIs(34, 0x4d2c6dfc);
    ConstantIs(35, 0x53380d13);
    ConstantIs(36, 0x650a7354);
    ConstantIs(37, 0x766a0abb);
    ConstantIs(38, 0x81c2c92e);
    ConstantIs(39, 0x92722c85);
  }

  lemma Row5()
    ensures K(40) == 0xa2bfe8a1 && K(41) == 0xa81a664b && K(42) == 0xc24b8b70 && K(43) == 0xc76c51a3
    ensures K(44) == 0xd192e819 && K(45) == 0xd6990624 && K(46) == 0xf40e3585 && K(47) == 0x106aa070
    ensures WordAt(40) == 0x9f47bf94 && WordAt(41) == 0xf0a64f5a && WordAt(42) == 0x3e246a79 && WordAt(43) == 0x27333ba3
    ensures WordAt(44) == 0x0c4763f2 && WordAt(45) == 0x840abf27 && WordAt(46) == 0x7a290d5d && WordAt(47) == 0x065c43da
  {
    hide K, WordAt;
    Table5();
    ConstantIs(40, 0xa2bfe8a1);
    ConstantIs(41, 0xa81a664b);
    ConstantIs(42, 0xc24b8b70);
    ConstantIs(43, 0xc76c51a3);
    ConstantIs(44, 0xd192e819);
    ConstantIs(45, 0xd6990624);
    ConstantIs(46, 0xf40e3585);
    ConstantIs(47, 0x106aa070);
  }

  lemma Row6()
    ensures K(48) == 0x19a4c116 && K(49) == 0x1e376c08 && K(50) == 0x2748774c && K(51) == 0x34b0bcb5
    ensures K(52) == 0x391c0cb3 && K(53) == 0x4ed8aa4a && K(54) == 0x5b9cca4f && K(55) == 0x682e6ff3
    ensures WordAt(48) == 0xfb3e89cb && WordAt(49) == 0xcc7617db && WordAt(50) == 0xb9e66c34 && WordAt(51) == 0xa9993667
    ensures WordAt(52) == 0x84badedd && WordAt(53) == 0xc21462bc && WordAt(54) == 0x1487472c && WordAt(55) == 0xb20f7a99
  {
    hide K, WordAt;
    Table6();
    ConstantIs(48, 0x19a4c116);
    ConstantIs(49, 0x1e376c08);
    ConstantIs(50, 0x2748774c);
    ConstantIs(51, 0x34b0bcb5);
    ConstantIs(52, 0x391c0cb3);
    ConstantIs(53, 0x4ed8aa4a);
    ConstantIs(54, 0x5b9cca4f);
    ConstantIs(55, 0x682e6ff3);
  }

  lemma Row7()
    ensures K(56) == 0x748f82ee && K(57) == 0x78a5636f && K(58) == 0x84c87814 && K(59) == 0x8cc70208
    ensures K(60) == 0x90befffa && K(61) == 0xa4506ceb && K(62) == 0xbef9a3f7 && K(63) == 0xc67178f2
    ensures WordAt(56) == 0xef57b9cd && WordAt(57) == 0xebe6b238 && WordAt(58) == 0x9fe3095e && WordAt(59) == 0x78bc8d4b
    ensures WordAt(60) == 0xa43fcf15 && WordAt(61) == 0x668b2ff8 && WordAt(62) == 0xeeaba2cc && WordAt(63) == 0x12b1edeb
  {
    hide K, WordAt;
    Table7();
    ConstantIs(56, 0x748f82ee);
    ConstantIs(57, 0x78a5636f);
    ConstantIs(58, 0x84c87814);
    ConstantIs(59, 0x8cc70208);
    ConstantIs(60, 0x90befffa);
    ConstantIs(61, 0xa4506ceb);
    ConstantIs(62, 0xbef9a3f7);
    ConstantIs(63, 0xc67178f2);
  }

  lemma Round0()
    requires After(0, 0x6a09e667, 0xbb67ae85, 0x3c6ef372, 0xa54ff53a, 0x510e527f, 0x9b05688c, 0x1f83d9ab, 0x5be0cd19)
    ensures After(1, 0x5d6aebcd, 0x6a09e667, 0xbb67ae85, 0x3c6ef372, 0xfa2a4622, 0x510e527f, 0x9b05688c, 0x1f83d9ab)
  {
    hide After, K, WordAt;
    Row0();
    Next(0, 0x6a09e667, 0xbb67ae85, 0x3c6ef372, 0xa54ff53a, 0x510e527f, 0x9b05688c, 0x1f83d9ab, 0x5be0cd19,
         0x428a2f98, 0x61626380, 0x5d6aebcd, 0xfa2a4622);
  }

  lemma Round1()
    requires After(1, 0x5d6aebcd, 0x6a09e667, 0xbb67ae85, 0x3c6ef372, 0xfa2a4622, 0x510e527f, 0x9b05688c, 0x1f83d9ab)
    ensures After(2, 0x5a6ad9ad, 0x5d6aebcd, 0x6a09e667, 0xbb67ae85, 0x78ce7989, 0xfa2a4622, 0x510e527f, 0x9b05688c)
  {
    hide After, K, WordAt;
    Row0();
    Next(1, 0x5d6aebcd, 0x6a09e667, 0xbb67ae85, 0x3c6ef372, 0xfa2a4622, 0x510e527f, 0x9b05688c, 0x1f83d9ab,
         0x71374491, 0x00000000, 0x5a6ad9ad, 0x78ce7989);
  }

  lemma Round2()
    requires After(2, 0x5a6ad9ad, 0x5d6aebcd, 0x6a09e667, 0xbb67ae85, 0x78ce7989, 0xfa2a4622, 0x510e527f, 0x9b05688c)
    ensures After(3, 0xc8c347a7, 0x5a6ad9ad, 0x5d6aebcd, 0x6a09e667, 0xf92939eb, 0x78ce7989, 0xfa2a4622, 0x510e527f)
  {
    hide After, K, WordAt;
    Row0();
    Next(2, 0x5a6ad9ad, 0x5d6aebcd, 0x6a09e667, 0xbb67ae85, 0x78ce7989, 0xfa2a4622, 0x510e527f, 0x9b05688c,
         0xb5c0fbcf, 0x00000000, 0xc8c347a7, 0xf92939eb);
  }

  lemma Round3()
    requires After(3, 0xc8c347a7, 0x5a6ad9ad, 0x5d6aebcd, 0x6a09e667, 0xf92939eb, 0x78ce7989, 0xfa2a4622, 0x510e527f)
    ensures After(4, 0xd550f666, 0xc8c347a7, 0x5a6ad9ad, 0x5d6aebcd, 0x24e00850, 0xf92939eb, 0x78ce7989, 0xfa2a4622)
  {
    hide After, K, WordAt;
    Row0();
    Next(3, 0xc8c347a7, 0x5a6ad9ad, 0x5d6aebcd, 0x6a09e667, 0xf92939eb, 0x78ce7989, 0xfa2a4622, 0x510e527f,
         0xe9b5dba5, 0x00000000, 0xd550f666, 0x24e00850);
  }

  lemma Round4()
    requires After(4, 0xd550f666, 0xc8c347a7, 0x5a6ad9ad, 0x5d6aebcd, 0x24e00850, 0xf92939eb, 0x78ce7989, 0xfa2a4622)
    ensures After(5, 0x04409a6a, 0xd550f666, 0xc8c347a7, 0x5a6ad9ad, 0x43ada245, 0x24e00850, 0xf92939eb, 0x78ce7989)
  {
    hide After, K, WordAt;
    Row0();
    Next(4, 0xd550f666, 0xc8c347a7, 0x5a6ad9ad, 0x5d6aebcd, 0x24e00850, 0xf92939eb, 0x78ce7989, 0xfa2a4622,
         0x3956c25b, 0x00000000, 0x04409a6a, 0x43ada245);
  }

  lemma Round5()
    requires After(5, 0x04409a6a, 0xd550f666, 0xc8c347a7, 0x5a6ad9ad, 0x43ada245, 0x24e00850, 0xf92939eb, 0x78ce7989)
    ensures After(6, 0x2b4209f5, 0x04409a6a, 0xd550f666, 0xc8c347a7, 0x714260ad, 0x43ada245, 0x24e00850, 0xf92939eb)
  {
    hide After, K, WordAt;
    Row0();
    Next(5, 0x04409a6a, 0xd550f666, 0xc8c347a7, 0x5a6ad9ad, 0x43ada245, 0x24e00850, 0xf92939eb, 0x78ce7989,
         0x59f111f1, 0x00000000, 0x2b4209f5, 0x714260ad);
  }

  lemma Round6()
    requires After(6, 0x2b4209f5, 0x04409a6a, 0xd550f666, 0xc8c347a7, 0x714260ad, 0x43ada245, 0x24e00850, 0xf92939eb)
    ensures After(7, 0xe5030380, 0x2b4209f5, 0x04409a6a, 0xd550f666, 0x9b27a401, 0x714260ad, 0x43ada245, 0x24e00850)
  {
    hide After, K, WordAt;
    Row0();
    Next(6, 0x2b4209f5, 0x04409a6a, 0xd550f666, 0xc8c347a7, 0x714260ad, 0x43ada245, 0x24e00850, 0xf92939eb,
         0x923f82a4, 0x00000000, 0xe5030380, 0x9b27a401);
  }

  lemma Round7()
    requires After(7, 0xe5030380, 0x2b4209f5, 0x04409a6a, 0xd550f666, 0x9b27a401, 0x714260ad, 0x43ada245, 0x24e00850)
    ensures After(8, 0x85a07b5f, 0xe5030380, 0x2b4209f5, 0x04409a6a, 0x0c657a79, 0x9b27a401, 0x714260ad, 0x43ada245)
  {
    hide After, K, WordAt;
    Row0();
    Next(7, 0xe5030380, 0x2b4209f5, 0x04409a6a, 0xd550f666, 0x9b27a401, 0x714260ad, 0x43ada245, 0x24e00850,
         0xab1c5ed5, 0x00000000, 0x85a07b5f, 0x0c657a79);
  }

  lemma Round8()
    requires After(8, 0x85a07b5f, 0xe5030380, 0x2b4209f5, 0x04409a6a, 0x0c657a79, 0x9b27a401, 0x714260ad, 0x43ada245)
    ensures After(9, 0x8e04ecb9, 0x85a07b5f, 0xe5030380, 0x2b4209f5, 0x32ca2d8c, 0x0c657a79, 0x9b27a401, 0x714260ad)
  {
    hide After, K, WordAt;
    Row1();
    Next(8, 0x85a07b5f, 0xe5030380, 0x2b4209f5, 0x04409a6a, 0x0c657a79, 0x9b27a401, 0x714260ad, 0x43ada245,
         0xd807aa98, 0x00000000, 0x8e04ecb9, 0x32ca2d8c);
  }

  lemma Round9()
    requires After(9, 0x8e04ecb9, 0x85a07b5f, 0xe5030380, 0x2b4209f5, 0x32ca2d8c, 0x0c657a79, 0x9b27a401, 0x714260ad)
    ensures After(10, 0x8c87346b, 0x8e04ecb9, 0x85a07b5f, 0xe5030380, 0x1cc92596, 0x32ca2d8c, 0x0c657a79, 0x9b27a401)
  {
    hide After, K, WordAt;
    Row1();
    Next(9, 0x8e04ecb9, 0x85a07b5f, 0xe5030380, 0x2b4209f5, 0x32ca2d8c, 0x0c657a79, 0x9b27a401, 0x714260ad,
         0x12835b01, 0x00000000, 0x8c87346b, 0x1cc92596);
  }

  lemma Round10()
    requires After(10, 0x8c87346b, 0x8e04ecb9, 0x85a07b5f, 0xe5030380, 0x1cc92596, 0x32ca2d8c, 0x0c657a79, 0x9b27a401)
    ensures After(11, 0x4798a3f4, 0x8c87346b, 0x8e04ecb9, 0x85a07b5f, 0x436b23e8, 0x1cc92596, 0x32ca2d8c, 0x0c657a79)
  {
    hide After, K, WordAt;
    Row1();
    Next(10, 0x8c87346b, 0x8e04ecb9, 0x85a07b5f, 0xe5030380, 0x1cc92596, 0x32ca2d8c, 0x0c657a79, 0x9b27a401,
         0x243185be, 0x00000000, 0x4798a3f4, 0x436b23e8);
  }

  lemma Round11()
    requires After(11, 0x4798a3f4, 0x8c87346b, 0x8e04ecb9, 0x85a07b5f, 0x436b23e8, 0x1cc92596, 0x32ca2d8c, 0x0c657a79)
    ensures After(12, 0xf71fc5a9, 0x4798a3f4, 0x8c87346b, 0x8e04ecb9, 0x816fd6e9, 0x436b23e8, 0x1cc92596, 0x32ca2d8c)
  {
    hide After, K, WordAt;
    Row1();
    Next(11, 0x4798a3f4, 0x8c87346b, 0x8e04ecb9, 0x85a07b5f, 0x436b23e8, 0x1cc92596, 0x32ca2d8c, 0x0c657a79,
         0x550c7dc3, 0x00000000, 0xf71fc5a9, 0x816fd6e9);
  }

  lemma Round12()
    requires After(12, 0xf71fc5a9, 0x4798a3f4, 0x8c87346b, 0x8e04ecb9, 0x816fd6e9, 0x436b23e8, 0x1cc92596, 0x32ca2d8c)
    ensures After(13, 0x87912990, 0xf71fc5a9, 0x4798a3f4, 0x8c87346b, 0x1e578218, 0x816fd6e9, 0x436b23e8, 0x1cc92596)
  {
    hide After, K, WordAt;
    Row1();
    Next(12, 0xf71fc5a9, 0x4798a3f4, 0x8c87346b, 0x8e04ecb9, 0x816fd6e9, 0x436b23e8, 0x1cc92596, 0x32ca2d8c,
         0x72be5d74, 0x00000000, 0x87912990, 0x1e578218);
  }

  lemma Round13()
    requires After(13, 0x87912990, 0xf71fc5a9, 0x4798a3f4, 0x8c87346b, 0x1e578218, 0x816fd6e9, 0x436b23e8, 0x1cc92596)
    ensures After(14, 0xd932eb16, 0x87912990, 0xf71fc5a9, 0x4798a3f4, 0x745a48de, 0x1e578218, 0x816fd6e9, 0x436b23e8)
  {
    hide After, K, WordAt;
    Row1();
    Next(13, 0x87912990, 0xf71fc5a9, 0x4798a3f4, 0x8c87346b, 0x1e578218, 0x816fd6e9, 0x436b23e8, 0x1cc92596,
         0x80deb1fe, 0x00000000, 0xd932eb16, 0x745a48de);
  }

  lemma Round14()
    requires After(14, 0xd932eb16, 0x87912990, 0xf71fc5a9, 0x4798a3f4, 0x745a48de, 0x1e578218, 0x816fd6e9, 0x436b23e8)
    ensures After(15, 0xc0645fde, 0xd932eb16, 0x87912990, 0xf71fc5a9, 0x0b92f20c, 0x745a48de, 0x1e578218, 0x816fd6e9)
  {
    hide After, K, WordAt;
    Row1();
    Next(14, 0xd932eb16, 0x87912990, 0xf71fc5a9, 0x4798a3f4, 0x745a48de, 0x1e578218, 0x816fd6e9, 0x436b23e8,
         0x9bdc06a7, 0x00000000, 0xc0645fde, 0x0b92f20c);
  }

  lemma Round15()
    requires After(15, 0xc0645fde, 0xd932eb16, 0x87912990, 0xf71fc5a9, 0x0b92f20c, 0x745a48de, 0x1e578218, 0x816fd6e9)
    ensures After(16, 0xb0fa238e, 0xc0645fde, 0xd932eb16, 0x87912990, 0x07590dcd, 0x0b92f20c, 0x745a48de, 0x1e578218)
  {
    hide After, K, WordAt;
    Row1();
    Next(15, 0xc0645fde, 0xd932eb16, 0x87912990, 0xf71fc5a9, 0x0b92f20c, 0x745a48de, 0x1e578218, 0x816fd6e9,
         0xc19bf174, 0x00000018, 0xb0fa238e, 0x07590dcd);
  }

  lemma Round16()
    requires After(16, 0xb0fa238e, 0xc0645fde, 0xd932eb16, 0x87912990, 0x07590dcd, 0x0b92f20c, 0x745a48de, 0x1e578218)
    ensures After(17, 0x21da9a9b, 0xb0fa238e, 0xc0645fde, 0xd932eb16, 0x8034229c, 0x07590dcd, 0x0b92f20c, 0x745a48de)
  {
    hide After, K, WordAt;
    Row2();
    Next(16, 0xb0fa238e, 0xc0645fde, 0xd932eb16, 0x87912990, 0x07590dcd, 0x0b92f20c, 0x745a48de, 0x1e578218,
         0xe49b69c1, 0x61626380, 0x21da9a9b, 0x8034229c);
  }

  lemma Round17()
    requires After(17, 0x21da9a9b, 0xb0fa238e, 0xc0645fde, 0xd932eb16, 0x8034229c, 0x07590dcd, 0x0b92f20c, 0x745a48de)
    ensures After(18, 0xc2fbd9d1, 0x21da9a9b, 0xb0fa238e, 0xc0645fde, 0x846ee454, 0x8034229c, 0x07590dcd, 0x0b92f20c)
  {
    hide After, K, WordAt;
    Row2();
    Next(17, 0x21da9a9b, 0xb0fa238e, 0xc0645fde, 0xd932eb16, 0x8034229c, 0x07590dcd, 0x0b92f20c, 0x745a48de,
         0xefbe4786, 0x000f0000, 0xc2fbd9d1, 0x846ee454);
  }

  lemma Round18()
    requires After(18, 0xc2fbd9d1, 0x21da9a9b, 0xb0fa238e, 0xc0645fde, 0x846ee454, 0x8034229c, 0x07590dcd, 0x0b92f20c)
    ensures After(19, 0xfe777bbf, 0xc2fbd9d1, 0x21da9a9b, 0xb0fa238e, 0xcc899961, 0x846ee454, 0x8034229c, 0x07590dcd)
  {
    hide After, K, WordAt;
    Row2();
    Next(18, 0xc2fbd9d1, 0x21da9a9b, 0xb0fa238e, 0xc0645fde, 0x846ee454, 0x8034229c, 0x07590dcd, 0x0b92f20c,
         0x0fc19dc6, 0x7da86405, 0xfe777bbf, 0xcc899961);
  }

  lemma Round19()
    requires After(19, 0xfe777bbf, 0xc2fbd9d1, 0x21da9a9b, 0xb0fa238e, 0xcc899961, 0x846ee454, 0x8034229c, 0x07590dcd)
    ensures After(20, 0xe1f20c33, 0xfe777bbf, 0xc2fbd9d1, 0x21da9a9b, 0xb0638179, 0xcc899961, 0x846ee454, 0x8034229c)
  {
    hide After, K, WordAt;
    Row2();
    Next(19, 0xfe777bbf, 0xc2fbd9d1, 0x21da9a9b, 0xb0fa238e, 0xcc899961, 0x846ee454, 0x8034229c, 0x07590dcd,
         0x240ca1cc, 0x600003c6, 0xe1f20c33, 0xb0638179);
  }

  lemma Round20()
    requires After(20, 0xe1f20c33, 0xfe777bbf, 0xc2fbd9d1, 0x21da9a9b, 0xb0638179, 0xcc899961, 0x846ee454, 0x8034229c)
    ensures After(21, 0x9dc68b63, 0xe1f20c33, 0xfe777bbf, 0xc2fbd9d1, 0x8ada8930, 0xb0638179, 0xcc899961, 0x846ee454)
  {
    hide After, K, WordAt;
    Row2();
    Next(20, 0xe1f20c33, 0xfe777bbf, 0xc2fbd9d1, 0x21da9a9b, 0xb0638179, 0xcc899961, 0x846ee454, 0x8034229c,
         0x2de92c6f, 0x3e9d7b78, 0x9dc68b63, 0x8ada8930);
  }

  lemma Round21()
    requires After(21, 0x9dc68b63, 0xe1f20c33, 0xfe777bbf, 0xc2fbd9d1, 0x8ada8930, 0xb0638179, 0xcc899961, 0x846ee454)
    ensures After(22, 0xc2606d6d, 0x9dc68b63, 0xe1f20c33, 0xfe777bbf, 0xe1257970, 0x8ada8930, 0xb0638179, 0xcc899961)
  {
    hide After, K, WordAt;
    Row2();
    Next(21, 0x9dc68b63, 0xe1f20c33, 0xfe777bbf, 0xc2fbd9d1, 0x8ada8930, 0xb0638179, 0xcc899961, 0x846ee454,
         0x4a7484aa, 0x0183fc00, 0xc2606d6d, 0xe1257970);
  }

  lemma Round22()
    requires After(22, 0xc2606d6d, 0x9dc68b63, 0xe1f20c33, 0xfe777bbf, 0xe1257970, 0x8ada8930, 0xb0638179, 0xcc899961)
    ensures After(23, 0xa7a3623f, 0xc2606d6d, 0x9dc68b63, 0xe1f20c33, 0x49f5114a, 0xe1257970, 0x8ada8930, 0xb0638179)
  {
    hide After, K, WordAt;
    Row2();
    Next(22, 0xc2606d6d, 0x9dc68b63, 0xe1f20c33, 0xfe777bbf, 0xe1257970, 0x8ada8930, 0xb0638179, 0xcc899961,
         0x5cb0a9dc, 0x12dcbfdb, 0xa7a3623f, 0x49f5114a);
  }

  lemma Round23()
    requires After(23, 0xa7a3623f, 0xc2606d6d, 0x9dc68b63, 0xe1f20c33, 0x49f5114a, 0xe1257970, 0x8ada8930, 0xb0638179)
    ensures After(24, 0xc5d53d8d, 0xa7a3623f, 0xc2606d6d, 0x9dc68b63, 0xaa47c347, 0x49f5114a, 0xe1257970, 0x8ada8930)
  {
    hide After, K, WordAt;
    Row2();
    Next(23, 0xa7a3623f, 0xc2606d6d, 0x9dc68b63, 0xe1f20c33, 0x49f5114a, 0xe1257970, 0x8ada8930, 0xb0638179,
         0x76f988da, 0xe2e2c38e, 0xc5d53d8d, 0xaa47c347);
  }

  lemma Round24()
    requires After(24, 0xc5d53d8d, 0xa7a3623f, 0xc2606d6d, 0x9dc68b63, 0xaa47c347, 0x49f5114a, 0xe1257970, 0x8ada8930)
    ensures After(25, 0x1c2c2838, 0xc5d53d8d, 0xa7a3623f, 0xc2606d6d, 0x2823ef91, 0xaa47c347, 0x49f5114a, 0xe1257970)
  {
    hide After, K, WordAt;
    Row3();
    Next(24, 0xc5d53d8d, 0xa7a3623f, 0xc2606d6d, 0x9dc68b63, 0xaa47c347, 0x49f5114a, 0xe1257970, 0x8ada8930,
         0x983e5152, 0xc8215c1a, 0x1c2c2838, 0x2823ef91);
  }

  lemma Round25()
    requires After(25, 0x1c2c2838, 0xc5d53d8d, 0xa7a3623f, 0xc2606d6d, 0x2823ef91, 0xaa47c347, 0x49f5114a, 0xe1257970)
    ensures After(26, 0xcde8037d, 0x1c2c2838, 0xc5d53d8d, 0xa7a3623f, 0x14383d8e, 0x2823ef91, 0xaa47c347, 0x49f5114a)
  {
    hide After, K, WordAt;
    Row3();
    Next(25, 0x1c2c2838, 0xc5d53d8d, 0xa7a3623f, 0xc2606d6d, 0x2823ef91, 0xaa47c347, 0x49f5114a, 0xe1257970,
         0xa831c66d, 0xb73679a2, 0xcde8037d, 0x14383d8e);
  }

  lemma Round26()
    requires After(26, 0xcde8037d, 0x1c2c2838, 0xc5d53d8d, 0xa7a3623f, 0x14383d8e, 0x2823ef91, 0xaa47c347, 0x49f5114a)
    ensures After(27, 0xb62ec4bc, 0xcde8037d, 0x1c2c2838, 0xc5d53d8d, 0xc74c6516, 0x14383d8e, 0x2823ef91, 0xaa47c347)
  {
    hide After, K, WordAt;
    Row3();
    Next(26, 0xcde8037d, 0x1c2c2838, 0xc5d53d8d, 0xa7a3623f, 0x14383d8e, 0x2823ef91, 0xaa47c347, 0x49f5114a,
         0xb00327c8, 0xe5bc3909, 0xb62ec4bc, 0xc74c6516);
  }

  lemma Round27()
    requires After(27, 0xb62ec4bc, 0xcde8037d, 0x1c2c2838, 0xc5d53d8d, 0xc74c6516, 0x14383d8e, 0x2823ef91, 0xaa47c347)
    ensures After(28, 0x77d37528, 0xb62ec4bc, 0xcde8037d, 0x1c2c2838, 0xedffbff8, 0xc74c6516, 0x14383d8e, 0x2823ef91)
  {
    hide After, K, WordAt;
    Row3();
    Next(27, 0xb62ec4bc, 0xcde8037d, 0x1c2c2838, 0xc5d53d8d, 0xc74c6516, 0x14383d8e, 0x2823ef91, 0xaa47c347,
         0xbf597fc7, 0x32663c5b, 0x77d37528, 0xedffbff8);
  }

  lemma Round28()
    requires After(28, 0x77d37528, 0xb62ec4bc, 0xcde8037d, 0x1c2c2838, 0xedffbff8, 0xc74c6516, 0x14383d8e, 0x2823ef91)
    ensures After(29, 0x363482c9, 0x77d37528, 0xb62ec4bc, 0xcde8037d, 0x6112a3b7, 0xedffbff8, 0xc74c6516, 0x14383d8e)
  {
    hide After, K, WordAt;
    Row3();
    Next(28, 0x77d37528, 0xb62ec4bc, 0xcde8037d, 0x1c2c2838, 0xedffbff8, 0xc74c6516, 0x14383d8e, 0x2823ef91,
         0xc6e00bf3, 0x9d209d67, 0x363482c9, 0x6112a3b7);
  }

  lemma Round29()
    requires After(29, 0x363482c9, 0x77d37528, 0xb62ec4bc, 0xcde8037d, 0x6112a3b7, 0xedffbff8, 0xc74c6516, 0x14383d8e)
    ensures After(30, 0xa0060b30, 0x363482c9, 0x77d37528, 0xb62ec4bc, 0xade79437, 0x6112a3b7, 0xedffbff8, 0xc74c6516)
  {
    hide After, K, WordAt;
    Row3();
    Next(29, 0x363482c9, 0x77d37528, 0xb62ec4bc, 0xcde8037d, 0x6112a3b7, 0xedffbff8, 0xc74c6516, 0x14383d8e,
         0xd5a79147, 0xec8726cb, 0xa0060b30, 0xade79437);
  }

  lemma Round30()
    requires After(30, 0xa0060b30, 0x363482c9, 0x77d37528, 0xb62ec4bc, 0xade79437, 0x6112a3b7, 0xedffbff8, 0xc74c6516)
    ensures After(31, 0xea992a22, 0xa0060b30, 0x363482c9, 0x77d37528, 0x0109ab3a, 0xade79437, 0x6112a3b7, 0xedffbff8)
  {
    hide After, K, WordAt;
    Row3();
    Next(30, 0xa0060b30, 0x363482c9, 0x77d37528, 0xb62ec4bc, 0xade79437, 0x6112a3b7, 0xedffbff8, 0xc74c6516,
         0x06ca6351, 0x702138a4, 0xea992a22, 0x0109ab3a);
  }

  lemma Round31()
    requires After(31, 0xea992a22, 0xa0060b30, 0x363482c9, 0x77d37528, 0x0109ab3a, 0xade79437, 0x6112a3b7, 0xedffbff8)
    ensures After(32, 0x73b33bf5, 0xea992a22, 0xa0060b30, 0x363482c9, 0xba591112, 0x0109ab3a, 0xade79437, 0x6112a3b7)
  {
    hide After, K, WordAt;
    Row3();
    Next(31, 0xea992a22, 0xa0060b30, 0x363482c9, 0x77d37528, 0x0109ab3a, 0xade79437, 0x6112a3b7, 0xedffbff8,
         0x14292967, 0xd3b7973b, 0x73b33bf5, 0xba591112);
  }

  lemma Round32()
    requires After(32, 0x73b33bf5, 0xea992a22, 0xa0060b30, 0x363482c9, 0xba591112, 0x0109ab3a, 0xade79437, 0x6112a3b7)
    ensures After(33, 0x98e12507, 0x73b33bf5, 0xea992a22, 0xa0060b30, 0x9cd9f5f6, 0xba591112, 0x0109ab3a, 0xade79437)
  {
    hide After, K, WordAt;
    Row4();
    Next(32, 0x73b33bf5, 0xea992a22, 0xa0060b30, 0x363482c9, 0xba591112, 0x0109ab3a, 0xade79437, 0x6112a3b7,
         0x27b70a85, 0x93f5997f, 0x98e12507, 0x9cd9f5f6);
  }

  lemma Round33()
    requires After(33, 0x98e12507, 0x73b33bf5, 0xea992a22, 0xa0060b30, 0x9cd9f5f6, 0xba591112, 0x0109ab3a, 0xade79437)
    ensures After(34, 0xfe604df5, 0x98e12507, 0x73b33bf5, 0xea992a22, 0x59249dd3, 0x9cd9f5f6, 0xba591112, 0x0109ab3a)
  {
    hide After, K, WordAt;
    Row4();
    Next(33, 0x98e12507, 0x73b33bf5, 0xea992a22, 0xa0060b30, 0x9cd9f5f6, 0xba591112, 0x0109ab3a, 0xade79437,
         0x2e1b2138, 0x3b68ba73, 0xfe604df5, 0x59249dd3);
  }

  lemma Round34()
    requires After(34, 0xfe604df5, 0x98e12507, 0x73b33bf5, 0xea992a22, 0x59249dd3, 0x9cd9f5f6, 0xba591112, 0x0109ab3a)
    ensures After(35, 0xa9a7738c, 0xfe604df5, 0x98e12507, 0x73b33bf5, 0x085f3833, 0x59249dd3, 0x9cd9f5f6, 0xba591112)
  {
    hide After, K, WordAt;
    Row4();
    Next(34, 0xfe604df5, 0x98e12507, 0x73b33bf5, 0xea992a22, 0x59249dd3, 0x9cd9f5f6, 0xba591112, 0x0109ab3a,
         0x4d2c6dfc, 0xaff4ffc1, 0xa9a7738c, 0x085f3833);
  }

  lemma Round35()
    requires After(35, 0xa9a7738c, 0xfe604df5, 0x98e12507, 0x73b33bf5, 0x085f3833, 0x59249dd3, 0x9cd9f5f6, 0xba591112)
    ensures After(36, 0x65a0cfe4, 0xa9a7738c, 0xfe604df5, 0x98e12507, 0xf4b002d6, 0x085f3833, 0x59249dd3, 0x9cd9f5f6)
  {
    hide After, K, WordAt;
    Row4();
    Next(35, 0xa9a7738c, 0xfe604df5, 0x98e12507, 0x73b33bf5, 0x085f3833, 0x59249dd3, 0x9cd9f5f6, 0xba591112,
         0x53380d13, 0xf10a5c62, 0x65a0cfe4, 0xf4b002d6);
  }

  lemma Round36()
    requires After(36, 0x65a0cfe4, 0xa9a7738c, 0xfe604df5, 0x98e12507, 0xf4b002d6, 0x085f3833, 0x59249dd3, 0x9cd9f5f6)
    ensures After(37, 0x41a65cb1, 0x65a0cfe4, 0xa9a7738c, 0xfe604df5, 0x0772a26b, 0xf4b002d6, 0x085f3833, 0x59249dd3)
  {
    hide After, K, WordAt;
    Row4();
    Next(36, 0x65a0cfe4, 0xa9a7738c, 0xfe604df5, 0x98e12507, 0xf4b002d6, 0x085f3833, 0x59249dd3, 0x9cd9f5f6,
         0x650a7354, 0x0a8b3996, 0x41a65cb1, 0x0772a26b);
  }

  lemma Round37()
    requires After(37, 0x41a65cb1, 0x65a0cfe4, 0xa9a7738c, 0xfe604df5, 0x0772a26b, 0xf4b002d6, 0x085f3833, 0x59249dd3)
    ensures After(38, 0x34df1604, 0x41a65cb1, 0x65a0cfe4, 0xa9a7738c, 0xa507a53d, 0x0772a26b, 0xf4b002d6, 0x085f3833)
  {
    hide After, K, WordAt;
    Row4();
    Next(37, 0x41a65cb1, 0x65a0cfe4, 0xa9a7738c, 0xfe604df5, 0x0772a26b, 0xf4b002d6, 0x085f3833, 0x59249dd3,
         0x766a0abb, 0x72af830a, 0x34df1604, 0xa507a53d);
  }

  lemma Round38()
    requires After(38, 0x34df1604, 0x41a65cb1, 0x65a0cfe4, 0xa9a7738c, 0xa507a53d, 0x0772a26b, 0xf4b002d6, 0x085f3833)
    ensures After(39, 0x6dc57a8a, 0x34df1604, 0x41a65cb1, 0x65a0cfe4, 0xf0781bc8, 0xa507a53d, 0x0772a26b, 0xf4b002d6)
  {
    hide After, K, WordAt;
    Row4();
    Next(38, 0x34df1604, 0x41a65cb1, 0x65a0cfe4, 0xa9a7738c, 0xa507a53d, 0x0772a26b, 0xf4b002d6, 0x085f3833,
         0x81c2c92e, 0x9409e33e, 0x6dc57a8a, 0xf0781bc8);
  }

  lemma Round39()
    requires After(39, 0x6dc57a8a, 0x34df1604, 0x41a65cb1, 0x65a0cfe4, 0xf0781bc8, 0xa507a53d, 0x0772a26b, 0xf4b002d6)
    ensures After(40, 0x79ea687a, 0x6dc57a8a, 0x34df1604, 0x41a65cb1, 0x1efbc0a0, 0xf0781bc8, 0xa507a53d, 0x0772a26b)
  {
    hide After, K, WordAt;
    Row4();
    Next(39, 0x6dc57a8a, 0x34df1604, 0x41a65cb1, 0x65a0cfe4, 0xf0781bc8, 0xa507a53d, 0x0772a26b, 0xf4b002d6,
         0x92722c85, 0x24641522, 0x79ea687a, 0x1efbc0a0);
  }

  lemma Round40()
    requires After(40, 0x79ea687a, 0x6dc57a8a, 0x34df1604, 0x41a65cb1, 0x1efbc0a0, 0xf0781bc8, 0xa507a53d, 0x0772a26b)
    ensures After(41, 0xd6670766, 0x79ea687a, 0x6dc57a8a, 0x34df1604, 0x26352d63, 0x1efbc0a0, 0xf0781bc8, 0xa507a53d)
  {
    hide After, K, WordAt;
    Row5();
    Next(40, 0x79ea687a, 0x6dc57a8a, 0x34df1604, 0x41a65cb1, 0x1efbc0a0, 0xf0781bc8, 0xa507a53d, 0x0772a26b,
         0xa2bfe8a1, 0x9f47bf94, 0xd6670766, 0x26352d63);
  }

  lemma Round41()
    requires After(41, 0xd6670766, 0x79ea687a, 0x6dc57a8a, 0x34df1604, 0x26352d63, 0x1efbc0a0, 0xf0781bc8, 0xa507a53d)
    ensures After(42, 0xdf46652f, 0xd6670766, 0x79ea687a, 0x6dc57a8a, 0x838b2711, 0x26352d63, 0x1efbc0a0, 0xf0781bc8)
  {
    hide After, K, WordAt;
    Row5();
    Next(41, 0xd6670766, 0x79ea687a, 0x6dc57a8a, 0x34df1604, 0x26352d63, 0x1efbc0a0, 0xf0781bc8, 0xa507a53d,
         0xa81a664b, 0xf0a64f5a, 0xdf46652f, 0x838b2711);
  }

  lemma Round42()
    requires After(42, 0xdf46652f, 0xd6670766, 0x79ea687a, 0x6dc57a8a, 0x838b2711, 0x26352d63, 0x1efbc0a0, 0xf0781bc8)
    ensures After(43, 0x17aa0dfe, 0xdf46652f, 0xd6670766, 0x79ea687a, 0xdecd4715, 0x838b2711, 0x26352d63, 0x1efbc0a0)
  {
    hide After, K, WordAt;
    Row5();
    Next(42, 0xdf46652f, 0xd6670766, 0x79ea687a, 0x6dc57a8a, 0x838b2711, 0x26352d63, 0x1efbc0a0, 0xf0781bc8,
         0xc24b8b70, 0x3e246a79, 0x17aa0dfe, 0xdecd4715);
  }

  lemma Round43()
    requires After(43, 0x17aa0dfe, 0xdf46652f, 0xd6670766, 0x79ea687a, 0xdecd4715, 0x838b2711, 0x26352d63, 0x1efbc0a0)
    ensures After(44, 0x9d4baf93, 0x17aa0dfe, 0xdf46652f, 0xd6670766, 0xfda24c2e, 0xdecd4715, 0x838b2711, 0x26352d63)
  {
    hide After, K, WordAt;
    Row5();
    Next(43, 0x17aa0dfe, 0xdf46652f, 0xd6670766, 0x79ea687a, 0xdecd4715, 0x838b2711, 0x26352d63, 0x1efbc0a0,
         0xc76c51a3, 0x27333ba3, 0x9d4baf93, 0xfda24c2e);
  }

  lemma Round44()
    requires After(44, 0x9d4baf93, 0x17aa0dfe, 0xdf46652f, 0xd6670766, 0xfda24c2e, 0xdecd4715, 0x838b2711, 0x26352d63)
    ensures After(45, 0x26628815, 0x9d4baf93, 0x17aa0dfe, 0xdf46652f, 0xa80f11f0, 0xfda24c2e, 0xdecd4715, 0x838b2711)
  {
    hide After, K, WordAt;
    Row5();
    Next(44, 0x9d4baf93, 0x17aa0dfe, 0xdf46652f, 0xd6670766, 0xfda24c2e, 0xdecd4715, 0x838b2711, 0x26352d63,
         0xd192e819, 0x0c4763f2, 0x26628815, 0xa80f11f0);
  }

  lemma Round45()
    requires After(45, 0x26628815, 0x9d4baf93, 0x17aa0dfe, 0xdf46652f, 0xa80f11f0, 0xfda24c2e, 0xdecd4715, 0x838b2711)
    ensures After(46, 0x72ab4b91, 0x26628815, 0x9d4baf93, 0x17aa0dfe, 0xb7755da1, 0xa80f11f0, 0xfda24c2e, 0xdecd4715)
  {
    hide After, K, WordAt;
    Row5();
    Next(45, 0x26628815, 0x9d4baf93, 0x17aa0dfe, 0xdf46652f, 0xa80f11f0, 0xfda24c2e, 0xdecd4715, 0x838b2711,
         0xd6990624, 0x840abf27, 0x72ab4b91, 0xb7755da1);
  }

  lemma Round46()
    requires After(46, 0x72ab4b91, 0x26628815, 0x9d4baf93, 0x17aa0dfe, 0xb7755da1, 0xa80f11f0, 0xfda24c2e, 0xdecd4715)
    ensures After(47, 0xa14c14b0, 0x72ab4b91, 0x26628815, 0x9d4baf93, 0xd57b94a9, 0xb7755da1, 0xa80f11f0, 0xfda24c2e)
  {
    hide After, K, WordAt;
    Row5();
    Next(46, 0x72ab4b91, 0x26628815, 0x9d4baf93, 0x17aa0dfe, 0xb7755da1, 0xa80f11f0, 0xfda24c2e, 0xdecd4715,
         0xf40e3585, 0x7a290d5d, 0xa14c14b0, 0xd57b94a9);
  }

  lemma Round47()
    requires After(47, 0xa14c14b0, 0x72ab4b91, 0x26628815, 0x9d4baf93, 0xd57b94a9, 0xb7755da1, 0xa80f11f0, 0xfda24c2e)
    ensures After(48, 0x4172328d, 0xa14c14b0, 0x72ab4b91, 0x26628815, 0xfecf0bc6, 0xd57b94a9, 0xb7755da1, 0xa80f11f0)
  {
    hide After, K, WordAt;
    Row5();
    Next(47, 0xa14c14b0, 0x72ab4b91, 0x26628815, 0x9d4baf93, 0xd57b94a9, 0xb7755da1, 0xa80f11f0, 0xfda24c2e,
         0x106aa070, 0x065c43da, 0x4172328d, 0xfecf0bc6);
  }

  lemma Round48()
    requires After(48, 0x4172328d, 0xa14c14b0, 0x72ab4b91, 0x26628815, 0xfecf0bc6, 0xd57b94a9, 0xb7755da1, 0xa80f11f0)
    ensures After(49, 0x05757ceb, 0x4172328d, 0xa14c14b0, 0x72ab4b91, 0xbd714038, 0xfecf0bc6, 0xd57b94a9, 0xb7755da1)
  {
    hide After, K, WordAt;
    Row6();
    Next(48, 0x4172328d, 0xa14c14b0, 0x72ab4b91, 0x26628815, 0xfecf0bc6, 0xd57b94a9, 0xb7755da1, 0xa80f11f0,
         0x19a4c116, 0xfb3e89cb, 0x05757ceb, 0xbd714038);
  }

  lemma Round49()
    requires After(49, 0x05757ceb, 0x4172328d, 0xa14c14b0, 0x72ab4b91, 0xbd714038, 0xfecf0bc6, 0xd57b94a9, 0xb7755da1)
    ensures After(50, 0xf11bfaa8, 0x05757ceb, 0x4172328d, 0xa14c14b0, 0x6e5c390c, 0xbd714038, 0xfecf0bc6, 0xd57b94a9)
  {
    hide After, K, WordAt;
    Row6();
    Next(49, 0x05757ceb, 0x4172328d, 0xa14c14b0, 0x72ab4b91, 0xbd714038, 0xfecf0bc6, 0xd57b94a9, 0xb7755da1,
         0x1e376c08, 0xcc7617db, 0xf11bfaa8, 0x6e5c390c);
  }

  lemma Round50()
    requires After(50, 0xf11bfaa8, 0x05757ceb, 0x4172328d, 0xa14c14b0, 0x6e5c390c, 0xbd714038, 0xfecf0bc6, 0xd57b94a9)
    ensures After(51, 0x7a0508a1, 0xf11bfaa8, 0x05757ceb, 0x4172328d, 0x52f1ccf7, 0x6e5c390c, 0xbd714038, 0xfecf0bc6)
  {
    hide After, K, WordAt;
    Row6();
    Next(50, 0xf11bfaa8, 0x05757ceb, 0x4172328d, 0xa14c14b0, 0x6e5c390c, 0xbd714038, 0xfecf0bc6, 0xd57b94a9,
         0x2748774c, 0xb9e66c34, 0x7a0508a1, 0x52f1ccf7);
  }

  lemma Round51()
    requires After(51, 0x7a0508a1, 0xf11bfaa8, 0x05757ceb, 0x4172328d, 0x52f1ccf7, 0x6e5c390c, 0xbd714038, 0xfecf0bc6)
    ensures After(52, 0x886e7a22, 0x7a0508a1, 0xf11bfaa8, 0x05757ceb, 0x49231c1e, 0x52f1ccf7, 0x6e5c390c, 0xbd714038)
  {
    hide After, K, WordAt;
    Row6();
    Next(51, 0x7a0508a1, 0xf11bfaa8, 0x05757ceb, 0x4172328d, 0x52f1ccf7, 0x6e5c390c, 0xbd714038, 0xfecf0bc6,
         0x34b0bcb5, 0xa9993667, 0x886e7a22, 0x49231c1e);
  }

  lemma Round52()
    requires After(52, 0x886e7a22, 0x7a0508a1, 0xf11bfaa8, 0x05757ceb, 0x49231c1e, 0x52f1ccf7, 0x6e5c390c, 0xbd714038)
    ensures After(53, 0x101fd28f, 0x886e7a22, 0x7a0508a1, 0xf11bfaa8, 0x529e7d00, 0x49231c1e, 0x52f1ccf7, 0x6e5c390c)
  {
    hide After, K, WordAt;
    Row6();
    Next(52, 0x886e7a22, 0x7a0508a1, 0xf11bfaa8, 0x05757ceb, 0x49231c1e, 0x52f1ccf7, 0x6e5c390c, 0xbd714038,
         0x391c0cb3, 0x84badedd, 0x101fd28f, 0x529e7d00);
  }

  lemma Round53()
    requires After(53, 0x101fd28f, 0x886e7a22, 0x7a0508a1, 0xf11bfaa8, 0x529e7d00, 0x49231c1e, 0x52f1ccf7, 0x6e5c390c)
    ensures After(54, 0xf5702fdb, 0x101fd28f, 0x886e7a22, 0x7a0508a1, 0x9f4787c3, 0x529e7d00, 0x49231c1e, 0x52f1ccf7)
  {
    hide After, K, WordAt;
    Row6();
    Next(53, 0x101fd28f, 0x886e7a22, 0x7a0508a1, 0xf11bfaa8, 0x529e7d00, 0x49231c1e, 0x52f1ccf7, 0x6e5c390c,
         0x4ed8aa4a, 0xc21462bc, 0xf5702fdb, 0x9f4787c3);
  }

  lemma Round54()
    requires After(54, 0xf5702fdb, 0x101fd28f, 0x886e7a22, 0x7a0508a1, 0x9f4787c3, 0x529e7d00, 0x49231c1e, 0x52f1ccf7)
    ensures After(55, 0x3ec45cdb, 0xf5702fdb, 0x101fd28f, 0x886e7a22, 0xe50e1b4f, 0x9f4787c3, 0x529e7d00, 0x49231c1e)
  {
    hide After, K, WordAt;
    Row6();
    Next(54, 0xf5702fdb, 0x101fd28f, 0x886e7a22, 0x7a0508a1, 0x9f4787c3, 0x529e7d00, 0x49231c1e, 0x52f1ccf7,
         0x5b9cca4f, 0x1487472c, 0x3ec45cdb, 0xe50e1b4f);
  }

  lemma Round55()
    requires After(55, 0x3ec45cdb, 0xf5702fdb, 0x101fd28f, 0x886e7a22, 0xe50e1b4f, 0x9f4787c3, 0x529e7d00, 0x49231c1e)
    ensures After(56, 0x38cc9913, 0x3ec45cdb, 0xf5702fdb, 0x101fd28f, 0x54cb266b, 0xe50e1b4f, 0x9f4787c3, 0x529e7d00)
  {
    hide After, K, WordAt;
    Row6();
    Next(55, 0x3ec45cdb, 0xf5702fdb, 0x101fd28f, 0x886e7a22, 0xe50e1b4f, 0x9f4787c3, 0x529e7d00, 0x49231c1e,
         0x682e6ff3, 0xb20f7a99, 0x38cc9913, 0x54cb266b);
  }

  lemma Round56()
    requires After(56, 0x38cc9913, 0x3ec45cdb, 0xf5702fdb, 0x101fd28f, 0x54cb266b, 0xe50e1b4f, 0x9f4787c3, 0x529e7d00)
    ensures After(57, 0xfcd1887b, 0x38cc9913, 0x3ec45cdb, 0xf5702fdb, 0x9b5e906c, 0x54cb266b, 0xe50e1b4f, 0x9f4787c3)
  {
    hide After, K, WordAt;
    Row7();
    Next(56, 0x38cc9913, 0x3ec45cdb, 0xf5702fdb, 0x101fd28f, 0x54cb266b, 0xe50e1b4f, 0x9f4787c3, 0x529e7d00,
         0x748f82ee, 0xef57b9cd, 0xfcd1887b, 0x9b5e906c);
  }

  lemma Round57()
    requires After(57, 0xfcd1887b, 0x38cc9913, 0x3ec45cdb, 0xf5702fdb, 0x9b5e906c, 0x54cb266b, 0xe50e1b4f, 0x9f4787c3)
    ensures After(58, 0xc062d46f, 0xfcd1887b, 0x38cc9913, 0x3ec45cdb, 0x7e44008e, 0x9b5e906c, 0x54cb266b, 0xe50e1b4f)
  {
    hide After, K, WordAt;
    Row7();
    Next(57, 0xfcd1887b, 0x38cc9913, 0x3ec45cdb, 0xf5702fdb, 0x9b5e906c, 0x54cb266b, 0xe50e1b4f, 0x9f4787c3,
         0x78a5636f, 0xebe6b238, 0xc062d46f, 0x7e44008e);
  }

  lemma Round58()
    requires After(58, 0xc062d46f, 0xfcd1887b, 0x38cc9913, 0x3ec45cdb, 0x7e44008e, 0x9b5e906c, 0x54cb266b, 0xe50e1b4f)
    ensures After(59, 0xffb70472, 0xc062d46f, 0xfcd1887b, 0x38cc9913, 0x6d83bfc6, 0x7e44008e, 0x9b5e906c, 0x54cb266b)
  {
    hide After, K, WordAt;
    Row7();
    Next(58, 0xc062d46f, 0xfcd1887b, 0x38cc9913, 0x3ec45cdb, 0x7e44008e, 0x9b5e906c, 0x54cb266b, 0xe50e1b4f,
         0x84c87814, 0x9fe3095e, 0xffb70472, 0x6d83bfc6);
  }

  lemma Round59()
    requires After(59, 0xffb70472, 0xc062d46f, 0xfcd1887b, 0x38cc9913, 0x6d83bfc6, 0x7e44008e, 0x9b5e906c, 0x54cb266b)
    ensures After(60, 0xb6ae8fff, 0xffb70472, 0xc062d46f, 0xfcd1887b, 0xb21bad3d, 0x6d83bfc6, 0x7e44008e, 0x9b5e906c)
  {
    hide After, K, WordAt;
    Row7();
    Next(59, 0xffb70472, 0xc062d46f, 0xfcd1887b, 0x38cc9913, 0x6d83bfc6, 0x7e44008e, 0x9b5e906c, 0x54cb266b,
         0x8cc70208, 0x78bc8d4b, 0xb6ae8fff, 0xb21bad3d);
  }

  lemma Round60()
    requires After(60, 0xb6ae8fff, 0xffb70472, 0xc062d46f, 0xfcd1887b, 0xb21bad3d, 0x6d83bfc6, 0x7e44008e, 0x9b5e906c)
    ensures After(61, 0xb85e2ce9, 0xb6ae8fff, 0xffb70472, 0xc062d46f, 0x961f4894, 0xb21bad3d, 0x6d83bfc6, 0x7e44008e)
  {
    hide After, K, WordAt;
    Row7();
    Next(60, 0xb6ae8fff, 0xffb70472, 0xc062d46f, 0xfcd1887b, 0xb21bad3d, 0x6d83bfc6, 0x7e44008e, 0x9b5e906c,
         0x90befffa, 0xa43fcf15, 0xb85e2ce9, 0x961f4894);
  }

  lemma Round61()
    requires After(61, 0xb85e2ce9, 0xb6ae8fff, 0xffb70472, 0xc062d46f, 0x961f4894, 0xb21bad3d, 0x6d83bfc6, 0x7e44008e)
    ensures After(62, 0x04d24d6c, 0xb85e2ce9, 0xb6ae8fff, 0xffb70472, 0x948d25b6, 0x961f4894, 0xb21bad3d, 0x6d83bfc6)
  {
    hide After, K, WordAt;
    Row7();
    Next(61, 0xb85e2ce9, 0xb6ae8fff, 0xffb70472, 0xc062d46f, 0x961f4894, 0xb21bad3d, 0x6d83bfc6, 0x7e44008e,
         0xa4506ceb, 0x668b2ff8, 0x04d24d6c, 0x948d25b6);
  }

  lemma Round62()
    requires After(62, 0x04d24d6c, 0xb85e2ce9, 0xb6ae8fff, 0xffb70472, 0x948d25b6, 0x961f4894, 0xb21bad3d, 0x6d83bfc6)
    ensures After(63, 0xd39a2165, 0x04d24d6c, 0xb85e2ce9, 0xb6ae8fff, 0xfb121210, 0x948d25b6, 0x961f4894, 0xb21bad3d)
  {
    hide After, K, WordAt;
    Row7();
    Next(62, 0x04d24d6c, 0xb85e2ce9, 0xb6ae8fff, 0xffb70472, 0x948d25b6, 0x961f4894, 0xb21bad3d, 0x6d83bfc6,
         0xbef9a3f7, 0xeeaba2cc, 0xd39a2165, 0xfb121210);
  }

  lemma Round63()
    requires After(63, 0xd39a2165, 0x04d24d6c, 0xb85e2ce9, 0xb6ae8fff, 0xfb121210, 0x948d25b6, 0x961f4894, 0xb21bad3d)
    ensures After(64, 0x506e3058, 0xd39a2165, 0x04d24d6c, 0xb85e2ce9, 0x5ef50f24, 0xfb121210, 0x948d25b6, 0x961f4894)
  {
    hide After, K, WordAt;
    Row7();
    Next(63, 0xd39a2165, 0x04d24d6c, 0xb85e2ce9, 0xb6ae8fff, 0xfb121210, 0x948d25b6, 0x961f4894, 0xb21bad3d,
         0xc67178f2, 0x12b1edeb, 0x506e3058, 0x5ef50f24);
  }

  lemma Rounds0To7()
    requires After(0, 0x6a09e667, 0xbb67ae85, 0x3c6ef372, 0xa54ff53a, 0x510e527f, 0x9b05688c, 0x1f83d9ab, 0x5be0cd19)
    ensures After(8, 0x85a07b5f, 0xe5030380, 0x2b4209f5, 0x04409a6a, 0x0c657a79, 0x9b27a401, 0x714260ad, 0x43ada245)
  {
    hide After;
    Round0();
    Round1();
    Round2();
    Round3();
    Round4();
    Round5();
    Round6();
    Round7();
  }

  lemma Rounds8To15()
    requires After(8, 0x85a07b5f, 0xe5030380, 0x2b4209f5, 0x04409a6a, 0x0c657a79, 0x9b27a401, 0x714260ad, 0x43ada245)
    ensures After(16, 0xb0fa238e, 0xc0645fde, 0xd932eb16, 0x87912990, 0x07590dcd, 0x0b92f20c, 0x745a48de, 0x1e578218)
  {
    hide After;
    Round8();
    Round9();
    Round10();
    Round11();
    Round12();
    Round13();
    Round14();
    Round15();
  }

  lemma Rounds16To23()
    requires After(16, 0xb0fa238e, 0xc0645fde, 0xd932eb16, 0x87912990, 0x07590dcd, 0x0b92f20c, 0x745a48de, 0x1e578218)
    ensures After(24, 0xc5d53d8d, 0xa7a3623f, 0xc2606d6d, 0x9dc68b63, 0xaa47c347, 0x49f5114a, 0xe1257970, 0x8ada8930)
  {
    hide After;
    Round16();
    Round17();
    Round18();
    Round19();
    Round20();
    Round21();
    Round22();
    Round23();
  }

  lemma Rounds24To31()
    requires After(24, 0xc5d53d8d, 0xa7a3623f, 0xc2606d6d, 0x9dc68b63, 0xaa47c347, 0x49f5114a, 0xe1257970, 0x8ada8930)
    ensures After(32, 0x73b33bf5, 0xea992a22, 0xa0060b30, 0x363482c9, 0xba591112, 0x0109ab3a, 0xade79437, 0x6112a3b7)
  {
    hide After;
    Round24();
    Round25();
    Round26();
    Round27();
    Round28();
    Round29();
    Round30();
    Round31();
  }

  lemma Rounds32To39()
    requires After(32, 0x73b33bf5, 0xea992a22, 0xa0060b30, 0x363482c9, 0xba591112, 0x0109ab3a, 0xade79437, 0x6112a3b7)
    ensures After(40, 0x79ea687a, 0x6dc57a8a, 0x34df1604, 0x41a65cb1, 0x1efbc0a0, 0xf0781bc8, 0xa507a53d, 0x0772a26b)
  {
    hide After;
    Round32();
    Round33();
    Round34();
    Round35();
    Round36();
    Round37();
    Round38();
    Round39();
  }

  lemma Rounds40To47()
    requires After(40, 0x79ea687a, 0x6dc57a8a, 0x34df1604, 0x41a65cb1, 0x1efbc0a0, 0xf0781bc8, 0xa507a53d, 0x0772a26b)
    ensures After(48, 0x4172328d, 0xa14c14b0, 0x72ab4b91, 0x26628815, 0xfecf0bc6, 0xd57b94a9, 0xb7755da1, 0xa80f11f0)
  {
    hide After;
    Round40();
    Round41();
    Round42();
    Round43();
    Round44();
    Round45();
    Round46();
    Round47();
  }

  lemma Rounds48To55()
    requires After(48, 0x4172328d, 0xa14c14b0, 0x72ab4b91, 0x26628815, 0xfecf0bc6, 0xd57b94a9, 0xb7755da1, 0xa80f11f0)
    ensures After(56, 0x38cc9913, 0x3ec45cdb, 0xf5702fdb, 0x101fd28f, 0x54cb266b, 0xe50e1b4f, 0x9f4787c3, 0x529e7d00)
  {
    hide After;
    Round48();
    Round49();
    Round50();
    Round51();
    Round52();
    Round53();
    Round54();
    Round55();
  }

  lemma Rounds56To63()
    requires After(56, 0x38cc9913, 0x3ec45cdb, 0xf5702fdb, 0x101fd28f, 0x54cb266b, 0xe50e1b4f, 0x9f4787c3, 0x529e7d00)
    ensures After(64, 0x506e3058, 0xd39a2165, 0x04d24d6c, 0xb85e2ce9, 0x5ef50f24, 0xfb121210, 0x948d25b6, 0x961f4894)
  {
    hide After;
    Round56();
    Round57();
    Round58();
    Round59();
    Round60();
    Round61();
    Round62();
    Round63();
  }

  lemma InitialIs()
    ensures INITIAL == Digest(
      0x6a09e667, 0xbb67ae85, 0x3c6ef372, 0xa54ff53a, 0x510e527f, 0x9b05688c, 0x1f83d9ab, 0x5be0cd19)
  {
    hide INITIAL, INITIAL_VALUES, ToWord;
    InitialWords();
  }

  lemma InitialWords()
    ensures INITIAL == DigestFrom(INITIAL_VALUES) && |INITIAL_VALUES| == 8
    ensures INITIAL_VALUES[0] < 0x1_0000_0000 && ToWord(INITIAL_VALUES[0]) == 0x6a09e667
    ensures INITIAL_VALUES[1] < 0x1_0000_0000 && ToWord(INITIAL_VALUES[1]) == 0xbb67ae85
    ensures INITIAL_VALUES[2] < 0x1_0000_0000 && ToWord(INITIAL_VALUES[2]) == 0x3c6ef372
    ensures INITIAL_VALUES[3] < 0x1_0000_0000 && ToWord(INITIAL_VALUES[3]) == 0xa54ff53a
    ensures INITIAL_VALUES[4] < 0x1_0000_0000 && ToWord(INITIAL_VALUES[4]) == 0x510e527f
    ensures INITIAL_VALUES[5] < 0x1_0000_0000 && ToWord(INITIAL_VALUES[5]) == 0x9b05688c
    ensures INITIAL_VALUES[6] < 0x1_0000_0000 && ToWord(INITIAL_VALUES[6]) == 0x1f83d9ab
    ensures INITIAL_VALUES[7] < 0x1_0000_0000 && ToWord(INITIAL_VALUES[7]) == 0x5be0cd19
  {
    Cast(INITIAL_VALUES[0], 0x6a09e667);
    Cast(INITIAL_VALUES[1], 0xbb67ae85);
    Cast(INITIAL_VALUES[2], 0x3c6ef372);
    Cast(INITIAL_VALUES[3], 0xa54ff53a);
    Cast(INITIAL_VALUES[4], 0x510e527f);
    Cast(INITIAL_VALUES[5], 0x9b05688c);
    Cast(INITIAL_VALUES[6], 0x1f83d9ab);
    Cast(INITIAL_VALUES[7], 0x5be0cd19);
  }

  lemma Start()
    ensures After(0, 0x6a09e667, 0xbb67ae85, 0x3c6ef372, 0xa54ff53a, 0x510e527f, 0x9b05688c, 0x1f83d9ab, 0x5be0cd19)
  {
    hide INITIAL;
    InitialIs();
  }

  lemma AllRounds()
    ensures After(64, 0x506e3058, 0xd39a2165, 0x04d24d6c, 0xb85e2ce9, 0x5ef50f24, 0xfb121210, 0x948d25b6, 0x961f4894)
  {
    hide After;
    Start();
    Rounds0To7();
    Rounds8To15();
    Rounds16To23();
    Rounds24To31();
    Rounds32To39();
    Rounds40To47();
    Rounds48To55();
    Rounds56To63();
  }

  /** The digest. */
  lemma AbcDigest()
    ensures DigestOf(ABC) == Digest(
      0xba7816bf, 0x8f01cfea, 0x414140de, 0x5dae2223, 0xb00361a3, 0x96177a9c, 0xb410ff61, 0xf20015ad)
  {
    hide Compress, AbcBlock, After;
    AbcPadded();
    AbcCompressed();
    assert Absorb(Compress(INITIAL, AbcBlock()), []) == Compress(INITIAL, AbcBlock());
    assert AbcBlock()[..64] == AbcBlock() && AbcBlock()[64..] == [];
  }

  lemma AbcCompressed()
    ensures Compress(INITIAL, AbcBlock()) == Digest(
      0xba7816bf, 0x8f01cfea, 0x414140de, 0x5dae2223, 0xb00361a3, 0x96177a9c, 0xb410ff61, 0xf20015ad)
  {
    hide Rounds, AbcBlock, INITIAL;
    AllRounds();
    InitialIs();
  }

  /** The 32 bytes of the example. */
  lemma AbcBytes()
    ensures DigestBytes(DigestOf(ABC)) == [
      0xba, 0x78, 0x16, 0xbf, 0x8f, 0x01, 0xcf, 0xea, 0x41, 0x41, 0x40, 0xde, 0x5d, 0xae, 0x22, 0x23,
      0xb0, 0x03, 0x61, 0xa3, 0x96, 0x17, 0x7a, 0x9c, 0xb4, 0x10, 0xff, 0x61, 0xf2, 0x00, 0x15, 0xad]
  {
    hide *;
    AbcDigest();
    ByWords(DigestOf(ABC));
    FirstWords();
    LastWords();
  }

  lemma ByWords(d: Digest)
    ensures DigestBytes(d) == WordBytes(d.a) + WordBytes(d.b) + WordBytes(d.c) + WordBytes(d.d) + WordBytes(d.e) +
                              WordBytes(d.f) + WordBytes(d.g) + WordBytes(d.h)
  {
    hide DigestBytes, WordBytes;
    FourByFour(DigestBytes(d));
    Slice(d, 0, d.a);
    Slice(d, 1, d.b);
    Slice(d, 2, d.c);
    Slice(d, 3, d.d);
    Slice(d, 4, d.e);
    Slice(d, 5, d.f);
    Slice(d, 6, d.g);
    Slice(d, 7, d.h);
  }

  lemma FirstWords()
    ensures WordBytes(0xba7816bf) == [0xba, 0x78, 0x16, 0xbf]
    ensures WordBytes(0x8f01cfea) == [0x8f, 0x01, 0xcf, 0xea]
    ensures WordBytes(0x414140de) == [0x41, 0x41, 0x40, 0xde]
    ensures WordBytes(0x5dae2223) == [0x5d, 0xae, 0x22, 0x23]
  {
  }

  lemma LastWords()
    ensures WordBytes(0xb00361a3) == [0xb0, 0x03, 0x61, 0xa3]
    ensures WordBytes(0x96177a9c) == [0x96, 0x17, 0x7a, 0x9c]
    ensures WordBytes(0xb410ff61) == [0xb4, 0x10, 0xff, 0x61]
    ensures WordBytes(0xf20015ad) == [0xf2, 0x00, 0x15, 0xad]
  {
  }

  lemma Slice(d: Digest, n: nat, w: Word)
    requires n < 8 && DigestWord(d, n) == w
    ensures DigestBytes(d)[4 * n..4 * n + 4] == WordBytes(w)
  {
    hide WordBytes;
  }

  lemma FourByFour(s: seq<Byte>)
    requires |s| == 32
    ensures s == s[0..4] + s[4..8] + s[8..12] + s[12..16] + s[16..20] + s[20..24] + s[24..28] + s[28..32]
  {
  }
}
