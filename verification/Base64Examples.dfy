/** The alphabets and the test vectors of RFC 4648, sections 4, 5 and 10. */
module Base64Examples {
  import opened Base64

  // ---- The alphabets ----

  lemma FirstSixteen()
    ensures
      EMap(0) == 'A' as Byte && EMap(1) == 'B' as Byte && EMap(2) == 'C' as Byte && EMap(3) == 'D' as Byte &&
      EMap(4) == 'E' as Byte && EMap(5) == 'F' as Byte && EMap(6) == 'G' as Byte && EMap(7) == 'H' as Byte &&
      EMap(8) == 'I' as Byte && EMap(9) == 'J' as Byte && EMap(10) == 'K' as Byte && EMap(11) == 'L' as Byte &&
      EMap(12) == 'M' as Byte && EMap(13) == 'N' as Byte && EMap(14) == 'O' as Byte && EMap(15) == 'P' as Byte
  {
  }

  lemma SecondSixteen()
    ensures
      EMap(16) == 'Q' as Byte && EMap(17) == 'R' as Byte && EMap(18) == 'S' as Byte && EMap(19) == 'T' as Byte &&
      EMap(20) == 'U' as Byte && EMap(21) == 'V' as Byte && EMap(22) == 'W' as Byte && EMap(23) == 'X' as Byte &&
      EMap(24) == 'Y' as Byte && EMap(25) == 'Z' as Byte && EMap(26) == 'a' as Byte && EMap(27) == 'b' as Byte &&
      EMap(28) == 'c' as Byte && EMap(29) == 'd' as Byte && EMap(30) == 'e' as Byte && EMap(31) == 'f' as Byte
  {
  }

  lemma ThirdSixteen()
    ensures
      EMap(32) == 'g' as Byte && EMap(33) == 'h' as Byte && EMap(34) == 'i' as Byte && EMap(35) == 'j' as Byte &&
      EMap(36) == 'k' as Byte && EMap(37) == 'l' as Byte && EMap(38) == 'm' as Byte && EMap(39) == 'n' as Byte &&
      EMap(40) == 'o' as Byte && EMap(41) == 'p' as Byte && EMap(42) == 'q' as Byte && EMap(43) == 'r' as Byte &&
      EMap(44) == 's' as Byte && EMap(45) == 't' as Byte && EMap(46) == 'u' as Byte && EMap(47) == 'v' as Byte
  {
  }

  lemma LastSixteen()
    ensures
      EMap(48) == 'w' as Byte && EMap(49) == 'x' as Byte && EMap(50) == 'y' as Byte && EMap(51) == 'z' as Byte &&
      EMap(52) == '0' as Byte && EMap(53) == '1' as Byte && EMap(54) == '2' as Byte && EMap(55) == '3' as Byte &&
      EMap(56) == '4' as Byte && EMap(57) == '5' as Byte && EMap(58) == '6' as Byte && EMap(59) == '7' as Byte &&
      EMap(60) == '8' as Byte && EMap(61) == '9' as Byte && EMap(62) == '+' as Byte && EMap(63) == '/' as Byte
  {
  }

  /** In the URL-safe alphabet two characters differ, and the padding is dropped. */
  lemma UriAlphabet()
    ensures UriCharacter('+' as Byte) == '-' as Byte && UriCharacter('/' as Byte) == '_' as Byte
    ensures PlainCharacter('-' as Byte) == '+' as Byte && PlainCharacter('_' as Byte) == '/' as Byte
    ensures forall c :: c != '+' as Byte && c != '/' as Byte ==> UriCharacter(c) == c
    ensures forall c :: c != '-' as Byte && c != '_' as Byte ==> PlainCharacter(c) == c
    ensures EQUALS == '=' as Byte
  {
  }

  // ---- The vectors ----

  lemma CodesOfFoo()
    ensures Code1(102) == 90 && Code2(102, 0) == 103
    ensures Code2(102, 111) == 109
    ensures Code3(111, 0) == 56
    ensures Code3(111, 111) == 57
    ensures Code4(111) == 118
  {
  }

  lemma CodesOfBar()
    ensures Code1(98) == 89 && Code2(98, 0) == 103
    ensures Code2(98, 97) == 109
    ensures Code3(97, 0) == 69
    ensures Code3(97, 114) == 70
    ensures Code4(114) == 121
  {
  }

  lemma EncodeNothing()
    ensures Encode([]) == []
  {
  }

  lemma EncodeOne(a: Byte)
    ensures Encode([a]) == [Code1(a), Code2(a, 0), EQUALS, EQUALS]
  {
    hide Code1, Code2;
  }

  lemma EncodeTwo(a: Byte, b: Byte)
    ensures Encode([a, b]) == [Code1(a), Code2(a, b), Code3(b, 0), EQUALS]
  {
    hide Code1, Code2, Code3;
  }

  lemma EncodeThree(a: Byte, b: Byte, c: Byte, rest: seq<Byte>)
    ensures Encode([a, b, c] + rest) == [Code1(a), Code2(a, b), Code3(b, c), Code4(c)] + Encode(rest)
  {
    hide Code1, Code2, Code3, Code4;
    assert ([a, b, c] + rest)[3..] == rest;
  }

  /** "f" gives "Zg==". */
  lemma EncodeF()
    ensures Encode([102]) == [90, 103, 61, 61]
  {
    CodesOfFoo();
    hide Encode, Code1, Code2, Code3, Code4;
    EncodeOne(102);
  }

  /** "fo" gives "Zm8=". */
  lemma EncodeFo()
    ensures Encode([102, 111]) == [90, 109, 56, 61]
  {
    CodesOfFoo();
    hide Encode, Code1, Code2, Code3, Code4;
    EncodeTwo(102, 111);
  }

  /** "foo" gives "Zm9v". */
  lemma EncodeFoo()
    ensures Encode([102, 111, 111]) == [90, 109, 57, 118]
  {
    CodesOfFoo();
    hide Encode, Code1, Code2, Code3, Code4;
    EncodeThree(102, 111, 111, []);
    EncodeNothing();
    var x: seq<Byte> := [102, 111, 111];
    assert x == x + [];
  }

  /** "foob" gives "Zm9vYg==". */
  lemma EncodeFoob()
    ensures Encode([102, 111, 111, 98]) == [90, 109, 57, 118, 89, 103, 61, 61]
  {
    CodesOfFoo();
    EncodeB();
    hide Encode, Code1, Code2, Code3, Code4;
    EncodeThree(102, 111, 111, [98]);
    var x: seq<Byte> := [102, 111, 111, 98];
    assert x == [102, 111, 111] + [98];
  }

  /** "fooba" gives "Zm9vYmE=". */
  lemma EncodeFooba()
    ensures Encode([102, 111, 111, 98, 97]) == [90, 109, 57, 118, 89, 109, 69, 61]
  {
    CodesOfFoo();
    EncodeBa();
    hide Encode, Code1, Code2, Code3, Code4;
    EncodeThree(102, 111, 111, [98, 97]);
    var x: seq<Byte> := [102, 111, 111, 98, 97];
    assert x == [102, 111, 111] + [98, 97];
  }

  /** "foobar" gives "Zm9vYmFy". */
  lemma EncodeFoobar()
    ensures Encode([102, 111, 111, 98, 97, 114]) == [90, 109, 57, 118, 89, 109, 70, 121]
  {
    CodesOfFoo();
    EncodeBar();
    hide Encode, Code1, Code2, Code3, Code4;
    EncodeThree(102, 111, 111, [98, 97, 114]);
    var x: seq<Byte> := [102, 111, 111, 98, 97, 114];
    assert x == [102, 111, 111] + [98, 97, 114];
  }

  lemma EncodeB()
    ensures Encode([98]) == [89, 103, 61, 61]
  {
    CodesOfBar();
    hide Encode, Code1, Code2, Code3, Code4;
    EncodeOne(98);
  }

  lemma EncodeBa()
    ensures Encode([98, 97]) == [89, 109, 69, 61]
  {
    CodesOfBar();
    hide Encode, Code1, Code2, Code3, Code4;
    EncodeTwo(98, 97);
  }

  lemma EncodeBar()
    ensures Encode([98, 97, 114]) == [89, 109, 70, 121]
  {
    CodesOfBar();
    hide Encode, Code1, Code2, Code3, Code4;
    EncodeThree(98, 97, 114, []);
    EncodeNothing();
    var x: seq<Byte> := [98, 97, 114];
    assert x == x + [];
  }

  lemma CodesForUri()
    ensures Code1(0xfb) == 43 && Code2(0xfb, 0xff) == 47
    ensures Code3(0xff, 0xfe) == 47 && Code4(0xfe) == 43
  {
  }

  /** Three bytes whose encoding needs both characters that differ: "+//+" and "-__-". */
  lemma EncodeForUri()
    ensures Encode([0xfb, 0xff, 0xfe]) == [43, 47, 47, 43]
    ensures UriEncode([43, 47, 47, 43]) ==
      [45, 95, 95, 45]
  {
    CodesForUri();
    UriAlphabet();
    hide Encode, Code1, Code2, Code3, Code4, UriCharacter, UriEncode;
    EncodeThree(0xfb, 0xff, 0xfe, []);
    EncodeNothing();
    var x: seq<Byte> := [0xfb, 0xff, 0xfe];
    assert x == x + [];
    var s: seq<Byte> := [43, 47, 47, 43];
    UriEncodeUnpadded(s, 4);
  }

  /** Padding is dropped: "Zg==" becomes "Zg". */
  lemma UriEncodeF()
    ensures UriEncode([90, 103, 61, 61]) == [90, 103]
  {
    UriAlphabet();
    hide UriCharacter, UriEncode;
    UriEncodeUnpadded([90, 103, 61, 61], 2);
  }
}
