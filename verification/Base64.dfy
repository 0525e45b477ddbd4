/** Base64 and its URL-safe variant, on bytes. */
module Base64 {
  type Byte = bv8

  const EQUALS: Byte := 61
  const PLUS: Byte := 43
  const SLASH: Byte := 47
  const DASH: Byte := 45
  const UNDERSCORE: Byte := 95

  function EncodingSize(n: nat): nat { 4 * ((n + 2) / 3) }
  function DecodingSize(n: nat): nat { n / 4 * 3 }

  // ---- The maps ----

  /** `EMap`: A to Z, a to z, 0 to 9, plus, slash. */
  function EMap(v: Byte): Byte
    requires v < 64
  {
    if v < 26 then v + 65 else if v < 52 then v + 71 else if v < 62 then v - 4 else if v == 62 then PLUS else SLASH
  }

  /** What `DMap` holds for bytes outside the alphabet: the signed character -1. */
  const BAD: Byte := 0xff

  /** `DMap`, for bytes of either half of the table. */
  function DMap(c: Byte): Byte {
    if 65 <= c <= 90 then c - 65
    else if 97 <= c <= 122 then c - 71
    else if 48 <= c <= 57 then c + 4
    else if c == PLUS then 62
    else if c == SLASH then 63
    else BAD
  }

  lemma MapsInverse(v: Byte)
    requires v < 64
    ensures DMap(EMap(v)) == v && EMap(v) != EQUALS && EMap(v) != DASH && EMap(v) != UNDERSCORE && EMap(v) < 128
  {
  }

  lemma DecodedIsSextet(c: Byte)
    ensures DMap(c) != BAD ==> DMap(c) < 64 && EMap(DMap(c)) == c
  {
  }

  // ---- Encoding ----

  function Sextet1(a: Byte): Byte { (a >> 2) & 0x3f }
  function Sextet2(a: Byte, b: Byte): Byte { ((a & 0x03) << 4) | ((b & 0xf0) >> 4) }
  function Sextet3(b: Byte, c: Byte): Byte { ((b & 0x0f) << 2) | ((c & 0xc0) >> 6) }
  function Sextet4(c: Byte): Byte { c & 0x3f }

  lemma Sextets(a: Byte, b: Byte, c: Byte)
    ensures Sextet1(a) < 64 && Sextet2(a, b) < 64 && Sextet3(b, c) < 64 && Sextet4(c) < 64
  {
  }

  function Code1(a: Byte): Byte { Sextets(a, 0, 0); EMap(Sextet1(a)) }
  function Code2(a: Byte, b: Byte): Byte { Sextets(a, b, 0); EMap(Sextet2(a, b)) }
  function Code3(b: Byte, c: Byte): Byte { Sextets(0, b, c); EMap(Sextet3(b, c)) }
  function Code4(c: Byte): Byte { Sextets(0, 0, c); EMap(Sextet4(c)) }

  /** Four characters for every three bytes; what is left is padded. */
  function Encode(x: seq<Byte>): (s: seq<Byte>)
    ensures |s| == EncodingSize(|x|)
  {
    if |x| == 0 then []
    else if |x| == 1 then [Code1(x[0]), Code2(x[0], 0), EQUALS, EQUALS]
    else if |x| == 2 then [Code1(x[0]), Code2(x[0], x[1]), Code3(x[1], 0), EQUALS]
    else [Code1(x[0]), Code2(x[0], x[1]), Code3(x[1], x[2]), Code4(x[2])] + Encode(x[3..])
  }

  // ---- Decoding ----

  /** Shifting a signed character to the right copies its sign. */
  function Asr(x: Byte, n: Byte): Byte
    requires n < 8
  {
    if x < 0x80 then x >> n else (x >> n) | !(0xff >> n)
  }

  function Byte1(c: Byte, d: Byte): Byte { (DMap(c) << 2) | Asr(DMap(d), 4) }
  function Byte2(d: Byte, e: Byte): Byte { (DMap(d) << 4) | Asr(DMap(e), 2) }
  function Byte3(e: Byte, f: Byte): Byte { (DMap(e) << 6) | DMap(f) }

  /** Without the bytes outside the alphabet at the end. */
  function Strip(s: seq<Byte>): (t: seq<Byte>)
    ensures t <= s && (t != [] ==> DMap(t[|t| - 1]) != BAD)
    ensures forall k :: |t| <= k < |s| ==> DMap(s[k]) == BAD
  {
    if s != [] && DMap(s[|s| - 1]) == BAD then Strip(s[..|s| - 1]) else s
  }

  /** Bytes decoded from the last, possibly incomplete, group. */
  function TailSize(n: nat): nat
    requires n <= 4
  {
    if n <= 1 then 0 else n - 1
  }

  /** Whether everything decoded from t fits into `room` bytes. */
  predicate Fits(t: seq<Byte>, room: nat) {
    if |t| > 4 then DMap(t[0]) == BAD || (room >= 3 && Fits(t[4..], room - 3))
    else TailSize(|t|) <= room
  }

  /** Group by group; a group that starts with a byte outside the alphabet ends the decoding, and
      the whole buffer is returned as it is. */
  function Groups(t: seq<Byte>, room: nat): seq<Byte>
    requires Fits(t, room)
  {
    if |t| > 4 then
      if DMap(t[0]) == BAD then seq(room, i => 0)
      else [Byte1(t[0], t[1]), Byte2(t[1], t[2]), Byte3(t[2], t[3])] + Groups(t[4..], room - 3)
    else if |t| == 4 then [Byte1(t[0], t[1]), Byte2(t[1], t[2]), Byte3(t[2], t[3])]
    else if |t| == 3 then [Byte1(t[0], t[1]), Byte2(t[1], t[2])]
    else if |t| == 2 then [Byte1(t[0], t[1])]
    else []
  }

  /** What the source relies on: the decoded bytes fit into the buffer it makes. */
  predicate Decodable(s: seq<Byte>) {
    Fits(Strip(s), DecodingSize(|s|))
  }

  function Decode(s: seq<Byte>): seq<Byte>
    requires Decodable(s)
  {
    Groups(Strip(s), DecodingSize(|s|))
  }

  lemma GroupOfThree(a: Byte, b: Byte, c: Byte)
    ensures Byte1(Code1(a), Code2(a, b)) == a && Byte2(Code2(a, b), Code3(b, c)) == b
    ensures Byte3(Code3(b, c), Code4(c)) == c
  {
    Sextets(a, b, c);
    MapsInverse(Sextet1(a));
    MapsInverse(Sextet2(a, b));
    MapsInverse(Sextet3(b, c));
    MapsInverse(Sextet4(c));
    hide DMap, EMap;
  }

  lemma CodesAreGood(a: Byte, b: Byte)
    ensures DMap(Code1(a)) != BAD && DMap(Code2(a, b)) != BAD && DMap(Code3(a, b)) != BAD && DMap(Code4(a)) != BAD
  {
    Sextets(a, b, b);
    Sextets(a, a, b);
    Sextets(a, a, a);
    MapsInverse(Sextet1(a));
    MapsInverse(Sextet2(a, b));
    MapsInverse(Sextet3(a, b));
    MapsInverse(Sextet4(a));
  }

  // ---- Round trips ----

  /** The encoding without its padding. */
  function Unpadded(x: seq<Byte>): seq<Byte> {
    if |x| == 0 then []
    else if |x| == 1 then [Code1(x[0]), Code2(x[0], 0)]
    else if |x| == 2 then [Code1(x[0]), Code2(x[0], x[1]), Code3(x[1], 0)]
    else [Code1(x[0]), Code2(x[0], x[1]), Code3(x[1], x[2]), Code4(x[2])] + Unpadded(x[3..])
  }

  function Same(n: nat, c: Byte): (s: seq<Byte>)
    ensures |s| == n && forall k :: 0 <= k < n ==> s[k] == c
  {
    seq(n, i => c)
  }

  predicate AllBad(s: seq<Byte>) { forall c <- s :: DMap(c) == BAD }

  lemma {:induction false} StripDrops(t: seq<Byte>, pad: seq<Byte>)
    requires t == [] || DMap(t[|t| - 1]) != BAD
    requires AllBad(pad)
    ensures Strip(t + pad) == t
  {
    if pad == [] {
      assert t + pad == t;
    } else {
      assert (t + pad)[..|t + pad| - 1] == t + pad[..|pad| - 1];
      StripDrops(t, pad[..|pad| - 1]);
    }
  }

  function PaddingSize(n: nat): nat { (3 - n % 3) % 3 }

  lemma {:induction false} UnpaddedIsGood(x: seq<Byte>)
    ensures forall c <- Unpadded(x) :: DMap(c) != BAD
  {
    hide Code1, Code2, Code3, Code4, DMap;
    if |x| == 1 {
      CodesAreGood(x[0], 0);
    } else if |x| == 2 {
      CodesAreGood(x[0], x[1]);
      CodesAreGood(x[1], 0);
    } else if |x| > 2 {
      CodesAreGood(x[0], x[1]);
      CodesAreGood(x[1], x[2]);
      CodesAreGood(x[2], x[2]);
      UnpaddedIsGood(x[3..]);
    }
  }

  lemma {:induction false} EncodeIsPadded(x: seq<Byte>)
    ensures Encode(x) == Unpadded(x) + Same(PaddingSize(|x|), EQUALS)
  {
    hide *;
    if |x| <= 2 {
      ShortIsPadded(x);
    } else {
      var rest := x[3..];
      assert |rest| == |x| - 3;
      PaddingRepeats(|x|);
      EncodeIsPadded(rest);
      PaddedStep(x);
    }
  }

  lemma PaddedStep(x: seq<Byte>)
    requires |x| >= 3 && Encode(x[3..]) == Unpadded(x[3..]) + Same(PaddingSize(|x|), EQUALS)
    ensures Encode(x) == Unpadded(x) + Same(PaddingSize(|x|), EQUALS)
  {
    hide Code1, Code2, Code3, Code4, Encode, Unpadded, PaddingSize, Same;
    EncodeStep(x);
    Regroup([Code1(x[0]), Code2(x[0], x[1]), Code3(x[1], x[2]), Code4(x[2])], Unpadded(x[3..]),
            Same(PaddingSize(|x|), EQUALS));
  }

  lemma PaddingRepeats(n: nat)
    requires n >= 3
    ensures PaddingSize(n) == PaddingSize(n - 3)
  {
  }

  lemma ShortIsPadded(x: seq<Byte>)
    requires |x| <= 2
    ensures Encode(x) == Unpadded(x) + Same(PaddingSize(|x|), EQUALS)
  {
    hide Code1, Code2, Code3, Code4, Same, PaddingSize;
    ShortPadding();
    if |x| == 1 {
      assert Unpadded(x) == [Code1(x[0]), Code2(x[0], 0)];
    } else if |x| == 2 {
      assert Unpadded(x) == [Code1(x[0]), Code2(x[0], x[1]), Code3(x[1], 0)];
    }
  }

  lemma ShortPadding()
    ensures Same(0, EQUALS) == [] && Same(1, EQUALS) == [EQUALS] && Same(2, EQUALS) == [EQUALS, EQUALS]
    ensures PaddingSize(0) == 0 && PaddingSize(1) == 2 && PaddingSize(2) == 1
  {
  }

  lemma Regroup(a: seq<Byte>, b: seq<Byte>, c: seq<Byte>)
    ensures a + b + c == a + (b + c)
  {
  }

  lemma {:induction false} GroupsOfUnpadded(x: seq<Byte>, room: nat)
    requires |x| <= room
    ensures Fits(Unpadded(x), room) && Groups(Unpadded(x), room) == x
  {
    hide Code1, Code2, Code3, Code4, Byte1, Byte2, Byte3, DMap;
    if |x| == 1 {
      GroupOfThree(x[0], 0, 0);
    } else if |x| == 2 {
      GroupOfThree(x[0], x[1], 0);
    } else if |x| > 2 {
      GroupOfThree(x[0], x[1], x[2]);
      CodesAreGood(x[0], x[1]);
      var t, rest := Unpadded(x), Unpadded(x[3..]);
      assert t[4..] == rest;
      GroupsOfUnpadded(x[3..], room - 3);
      if |x| == 3 {
        assert t == [Code1(x[0]), Code2(x[0], x[1]), Code3(x[1], x[2]), Code4(x[2])];
      } else {
        UnpaddedIsGood(x[3..]);
      }
    }
  }

  /** Decoding what was encoded gives it back, for every byte string. */
  lemma DecodeEncode(x: seq<Byte>)
    ensures Decodable(Encode(x)) && Decode(Encode(x)) == x
  {
    hide Encode, Unpadded, Groups, Fits, Strip, DMap;
    EncodeIsPadded(x);
    UnpaddedIsGood(x);
    EqualsIsBad(PaddingSize(|x|));
    StripDrops(Unpadded(x), Same(PaddingSize(|x|), EQUALS));
    GroupsOfUnpadded(x, DecodingSize(EncodingSize(|x|)));
  }

  lemma EqualsIsBad(n: nat)
    ensures AllBad(Same(n, EQUALS)) && AllBad(Same(n, 0))
  {
  }

  // ---- The URL-safe variant ----

  function UriCharacter(c: Byte): Byte { if c == PLUS then DASH else if c == SLASH then UNDERSCORE else c }
  function PlainCharacter(c: Byte): Byte { if c == DASH then PLUS else if c == UNDERSCORE then SLASH else c }

  /** Unsafe characters replaced, padding dropped. */
  function UriEncode(s: seq<Byte>): (u: seq<Byte>)
    ensures |u| <= |s|
  {
    if s == [] then [] else
      var last := s[|s| - 1];
      UriEncode(s[..|s| - 1]) + if last == EQUALS then [] else [UriCharacter(last)]
  }

  function Trailer(n: nat): nat { (4 - n % 4) % 4 }

  function Plain(s: seq<Byte>): (p: seq<Byte>)
    ensures |p| == |s| && forall k :: 0 <= k < |s| ==> p[k] == PlainCharacter(s[k])
  {
    seq(|s|, k requires 0 <= k < |s| => PlainCharacter(s[k]))
  }

  /** The buffer handed to the decoder: four bytes longer than the input, padded to a multiple of
      four and filled up with zeros. */
  function UriBuffer(s: seq<Byte>): (u: seq<Byte>)
    ensures |u| == |s| + 4
  {
    Plain(s) + Same(Trailer(|s|), EQUALS) + Same(4 - Trailer(|s|), 0)
  }

  /** Enough room for all groups is enough. */
  lemma {:induction false} RoomForAllGroups(t: seq<Byte>, room: nat)
    requires (|t| + 3) / 4 * 3 <= room
    ensures Fits(t, room)
  {
    if |t| > 4 { RoomForAllGroups(t[4..], room - 3); }
  }

  lemma {:induction false} StripShorter(s: seq<Byte>, n: nat)
    requires n <= |s| && AllBad(s[n..])
    ensures |Strip(s)| <= n
  {
    if |s| > n {
      var shorter := s[..|s| - 1];
      assert s[n..] == shorter[n..] + [s[|s| - 1]];
      StripShorter(shorter, n);
    }
  }

  /** The decoder stays inside its buffer for every input of `base64_uri_decode`. */
  lemma UriIsDecodable(s: seq<Byte>)
    ensures Decodable(UriBuffer(s))
  {
    var u := UriBuffer(s);
    assert AllBad(u[|s|..]);
    StripShorter(u, |s|);
    RoomForAllGroups(Strip(u), DecodingSize(|u|));
  }

  function UriDecode(s: seq<Byte>): seq<Byte> {
    UriIsDecodable(s);
    Decode(UriBuffer(s))
  }

  lemma {:induction false} UriEncodeUnpadded(s: seq<Byte>, n: nat)
    requires n <= |s| && (forall k :: 0 <= k < n ==> s[k] != EQUALS) && (forall k :: n <= k < |s| ==> s[k] == EQUALS)
    ensures |UriEncode(s)| == n && forall k :: 0 <= k < n ==> UriEncode(s)[k] == UriCharacter(s[k])
  {
    if s != [] {
      var shorter := s[..|s| - 1];
      UriEncodeUnpadded(shorter, if n == |s| then n - 1 else n);
    }
  }

  lemma GoodIsPlain(c: Byte)
    requires DMap(c) != BAD
    ensures PlainCharacter(UriCharacter(c)) == c && c != EQUALS
  {
  }

  /** URL-safe decoding gives back what was encoded and made URL safe, for every byte string. */
  lemma UriRoundTrip(x: seq<Byte>)
    ensures UriDecode(UriEncode(Encode(x))) == x
  {
    hide Decode, Encode, UriEncode, Unpadded, Strip, Groups, Fits, UriCharacter, PlainCharacter, DMap;
    var s, t := Encode(x), Unpadded(x);
    EncodeIsPadded(x);
    UnpaddedIsGood(x);
    forall k | 0 <= k < |t| ensures s[k] == t[k] && PlainCharacter(UriCharacter(s[k])) == s[k] && s[k] != EQUALS {
      GoodIsPlain(t[k]);
    }
    UriEncodeUnpadded(s, |t|);
    UriDecodeUnpadded(x, UriEncode(s));
  }

  lemma UriDecodeUnpadded(x: seq<Byte>, e: seq<Byte>)
    requires Plain(e) == Unpadded(x)
    ensures UriDecode(e) == x
  {
    hide Encode, Unpadded, Groups, Fits;
    var t, u := Unpadded(x), UriBuffer(e);
    EncodeIsPadded(x);
    UnpaddedIsGood(x);
    assert u == t + u[|t|..];
    assert AllBad(u[|t|..]);
    StripDrops(t, u[|t|..]);
    GroupsOfUnpadded(x, DecodingSize(|u|));
  }

  /** Nothing that needs escaping in a URL remains. */
  predicate UrlSafe(c: Byte) { 65 <= c <= 90 || 97 <= c <= 122 || 48 <= c <= 57 || c == DASH || c == UNDERSCORE }

  lemma {:induction false} UriEncodeIsSafe(s: seq<Byte>)
    requires forall c <- s :: DMap(c) != BAD || c == EQUALS
    ensures forall c <- UriEncode(s) :: UrlSafe(c)
  {
    if s != [] {
      UriEncodeIsSafe(s[..|s| - 1]);
      assert DMap(s[|s| - 1]) != BAD || s[|s| - 1] == EQUALS;
    }
  }

  // ---- Decoding first ----

  lemma GroupOfFour(c: Byte, d: Byte, e: Byte, f: Byte)
    requires DMap(c) != BAD && DMap(d) != BAD && DMap(e) != BAD && DMap(f) != BAD
    ensures Code1(Byte1(c, d)) == c && Code2(Byte1(c, d), Byte2(d, e)) == d
    ensures Code3(Byte2(d, e), Byte3(e, f)) == e && Code4(Byte3(e, f)) == f
  {
    DecodedIsSextet(c);
    DecodedIsSextet(d);
    DecodedIsSextet(e);
    DecodedIsSextet(f);
    Sextets(Byte1(c, d), Byte2(d, e), Byte3(e, f));
    Sextets(Byte1(c, d), Byte1(c, d), Byte2(d, e));
    hide DMap, EMap;
  }

  /** Encoding what was decoded gives it back, for texts of complete groups. */
  lemma {:induction false} EncodeDecode(s: seq<Byte>)
    requires |s| % 4 == 0 && forall c <- s :: DMap(c) != BAD
    ensures Decodable(s) && Encode(Decode(s)) == s
  {
    assert s + [] == s;
    StripDrops(s, []);
    EncodeGroups(s, DecodingSize(|s|));
  }

  lemma {:induction false} EncodeGroups(s: seq<Byte>, room: nat)
    requires |s| % 4 == 0 && (forall c <- s :: DMap(c) != BAD) && room == DecodingSize(|s|)
    ensures Fits(s, room) && |Groups(s, room)| == room && Encode(Groups(s, room)) == s
  {
    hide Encode, Byte1, Byte2, Byte3, DMap;
    if s == [] {
      NothingEncoded();
    } else {
      assert DMap(s[0]) != BAD && DMap(s[1]) != BAD && DMap(s[2]) != BAD && DMap(s[3]) != BAD;
      EncodeGroups(s[4..], room - 3);
      var rest := Groups(s[4..], room - 3);
      FirstGroup(s, room, rest);
      hide Fits, Groups;
      EncodeFirst(s[0], s[1], s[2], s[3], rest);
      assert s[..4] == [s[0], s[1], s[2], s[3]];
      assert s == s[..4] + s[4..];
    }
  }

  lemma FirstGroup(s: seq<Byte>, room: nat, rest: seq<Byte>)
    requires |s| >= 4 && |s| % 4 == 0 && DMap(s[0]) != BAD && room >= 3 && Fits(s[4..], room - 3)
    requires rest == Groups(s[4..], room - 3)
    ensures Fits(s, room) && Groups(s, room) == [Byte1(s[0], s[1]), Byte2(s[1], s[2]), Byte3(s[2], s[3])] + rest
  {
    hide Byte1, Byte2, Byte3, DMap;
    if |s| == 4 { assert s[4..] == []; }
  }

  lemma NothingEncoded()
    ensures Encode([]) == []
  {
  }

  lemma EncodeFirst(c: Byte, d: Byte, e: Byte, f: Byte, rest: seq<Byte>)
    requires DMap(c) != BAD && DMap(d) != BAD && DMap(e) != BAD && DMap(f) != BAD
    ensures Encode([Byte1(c, d), Byte2(d, e), Byte3(e, f)] + rest) == [c, d, e, f] + Encode(rest)
  {
    hide Code1, Code2, Code3, Code4, Byte1, Byte2, Byte3, DMap;
    GroupOfFour(c, d, e, f);
    var x := [Byte1(c, d), Byte2(d, e), Byte3(e, f)] + rest;
    assert x[3..] == rest;
  }

  // ---- Where decoding leaves its buffer ----

  /** Group i of t begins with a character outside the alphabet, and is not the last one. */
  ghost predicate StopsAt(t: seq<Byte>, i: nat) { 4 * i + 4 < |t| && DMap(t[4 * i]) == BAD }

  /** Decoding returns early. */
  ghost predicate Stops(t: seq<Byte>) { exists i: nat :: StopsAt(t, i) }

  lemma StopsLater(t: seq<Byte>)
    requires |t| > 4 && DMap(t[0]) != BAD
    ensures Stops(t) <==> Stops(t[4..])
  {
    if i: nat :| StopsAt(t, i) { assert StopsAt(t[4..], i - 1); }
    if i: nat :| StopsAt(t[4..], i) { assert StopsAt(t, i + 1); }
  }

  /** Decoding stays inside the buffer exactly if it returns early, or the last group is complete or
      holds one character only, or what was dropped from the end leaves room for another group. */
  lemma DecodableExactly(s: seq<Byte>)
    ensures var t := Strip(s); Decodable(s) <==> Stops(t) || |t| % 4 <= 1 || |s| / 4 > |t| / 4
  {
    hide DMap, Fits, Strip, Stops, DecodingSize;
    var t, room := Strip(s), DecodingSize(|s|);
    RoomIs(|s|, |t|);
    FitsExactly(t, room);
  }

  lemma RoomIs(n: nat, m: nat)
    requires m <= n
    ensures DecodingSize(n) % 3 == 0 && DecodingSize(n) / 3 == n / 4 && m / 4 * 3 <= DecodingSize(n)
  {
    assert DecodingSize(n) == 3 * (n / 4) && m / 4 <= n / 4;
  }

  lemma {:induction false} FitsExactly(t: seq<Byte>, room: nat)
    requires room % 3 == 0 && |t| / 4 * 3 <= room
    ensures Fits(t, room) <==> Stops(t) || |t| % 4 <= 1 || room / 3 > |t| / 4
  {
    hide DMap;
    if |t| > 4 {
      if DMap(t[0]) == BAD {
        assert StopsAt(t, 0);
      } else {
        StopsLater(t);
        FitsExactly(t[4..], room - 3);
      }
    }
  }

  /** Decoding the text QUI directly, without padding, would write past the end of the buffer. */
  lemma UnpaddedTextOverruns()
    ensures !Decodable([81, 85, 73])
  {
    assert [81, 85, 73] + [] == [81, 85, 73];
    StripDrops([81, 85, 73], []);
  }

  /** So would the three characters Q, line feed, I: only the first of a group is checked. */
  lemma BrokenTextOverruns()
    ensures !Decodable([81, 10, 73])
  {
    assert [81, 10, 73] + [] == [81, 10, 73];
    StripDrops([81, 10, 73], []);
  }

  // ---- The loops ----

  /** `base64_encode`.  The source counts in `int`. */
  method Base64Encode(x: seq<Byte>) returns (s: seq<Byte>)
    requires EncodingSize(|x|) < 0x8000_0000
    ensures s == Encode(x)
  {
    hide Encode, EncodingSize;
    var result := new Byte[EncodingSize(|x|)];
    var i, j := 0, 0;
    assert x[0..] == x && result[..0] == [];
    while i < |x| - 2
      invariant i % 3 == 0 && i <= |x| && j == i / 3 * 4 <= result.Length
      invariant Encode(x) == result[..j] + Encode(x[i..])
      decreases |x| - i
    {
      RoomForGroup(|x|, i);
      EncodeGroup(x, i, result, j);
      i, j := i + 3, j + 4;
    }
    j := EncodeTail(x, i, result, j);
    return result[..j];
  }

  lemma RoomForGroup(n: nat, i: nat)
    requires i % 3 == 0 && i + 3 <= n
    ensures i / 3 * 4 + 4 == (i + 3) / 3 * 4 <= EncodingSize(n)
  {
  }

  /** Three bytes become four characters. */
  method EncodeGroup(x: seq<Byte>, i: nat, result: array<Byte>, j: nat)
    requires i + 3 <= |x| && j + 4 <= result.Length
    modifies result
    ensures result[..j + 4] + Encode(x[i + 3..]) == old(result[..j]) + Encode(x[i..])
  {
    hide Code1, Code2, Code3, Code4, Encode;
    ghost var group := [Code1(x[i]), Code2(x[i], x[i + 1]), Code3(x[i + 1], x[i + 2]), Code4(x[i + 2])];
    EncodeStep(x[i..]);
    assert x[i..][3..] == x[i + 3..];
    Regroup(result[..j], group, Encode(x[i + 3..]));
    PutFour(Code1(x[i]), Code2(x[i], x[i + 1]), Code3(x[i + 1], x[i + 2]), Code4(x[i + 2]), result, j);
  }

  method PutFour(a: Byte, b: Byte, c: Byte, d: Byte, result: array<Byte>, j: nat)
    requires j + 4 <= result.Length
    modifies result
    ensures result[..j + 4] == old(result[..j]) + [a, b, c, d]
  {
    result[j], result[j + 1], result[j + 2], result[j + 3] := a, b, c, d;
  }

  lemma EncodeStep(x: seq<Byte>)
    requires |x| >= 3
    ensures Encode(x) == [Code1(x[0]), Code2(x[0], x[1]), Code3(x[1], x[2]), Code4(x[2])] + Encode(x[3..])
    ensures Unpadded(x) == [Code1(x[0]), Code2(x[0], x[1]), Code3(x[1], x[2]), Code4(x[2])] + Unpadded(x[3..])
  {
  }

  lemma EncodeShort(x: seq<Byte>)
    requires |x| <= 2
    ensures |x| == 0 ==> Encode(x) == []
    ensures |x| == 1 ==> Encode(x) == [Code1(x[0]), Code2(x[0], 0), EQUALS, EQUALS]
    ensures |x| == 2 ==> Encode(x) == [Code1(x[0]), Code2(x[0], x[1]), Code3(x[1], 0), EQUALS]
  {
    hide Code1, Code2, Code3, Code4;
  }

  /** The one or two bytes that are left. */
  method EncodeTail(x: seq<Byte>, i: nat, result: array<Byte>, at: nat) returns (j: nat)
    requires i % 3 == 0 && i <= |x| < i + 3 && at == i / 3 * 4 && result.Length == EncodingSize(|x|)
    modifies result
    ensures at <= j <= result.Length
    ensures result[..j] == old(result[..at]) + Encode(x[i..])
  {
    hide Code1, Code2, Code3, Code4, Encode, EncodingSize;
    RoomForTail(|x|, i);
    EncodeShort(x[i..]);
    j := at;
    if |x| % 3 == 2 {
      PutFour(Code1(x[i]), Code2(x[i], x[i + 1]), Code3(x[i + 1], 0), EQUALS, result, j);
      j := j + 4;
    } else if |x| % 3 == 1 {
      PutFour(Code1(x[i]), Code2(x[i], 0), EQUALS, EQUALS, result, j);
      j := j + 4;
    }
  }

  lemma RoomForTail(n: nat, i: nat)
    requires i % 3 == 0 && i <= n < i + 3
    ensures n % 3 == n - i && EncodingSize(n) == if n == i then i / 3 * 4 else i / 3 * 4 + 4
  {
  }

  /** `base64_decode`: the map is indexed by a signed character, so only ASCII may be given. */
  method Base64Decode(s: seq<Byte>) returns (x: seq<Byte>)
    requires |s| < 0x8000_0000 && (forall c <- s :: c < 128) && Decodable(s)
    ensures x == Decode(s)
  {
    hide Byte1, Byte2, Byte3, DMap, Strip, Fits, Groups;
    var result := new Byte[DecodingSize(|s|)](i => 0);
    var rem: nat := StripEnd(s);
    ghost var t := Strip(s);
    var at: nat, i: nat := 0, 0;
    while rem > 4
      invariant at + rem == |t| && t <= s && i <= result.Length
      invariant Fits(t[at..], result.Length - i)
      invariant Decode(s) == result[..i] + Groups(t[at..], result.Length - i)
      invariant forall k :: i <= k < result.Length ==> result[k] == 0
    {
      ghost var done, rest := result[..i], t[at..];
      GroupStep(rest, result.Length - i);
      if DMap(s[at]) == BAD {
        assert result[..] == done + Groups(rest, result.Length - i);
        return result[..];
      }
      var group := DecodeGroup(s[at], s[at + 1], s[at + 2], s[at + 3], result, i);
      assert rest[4..] == t[at + 4..];
      Regroup(done, group, Groups(t[at + 4..], result.Length - i - 3));
      rem, at, i := rem - 4, at + 4, i + 3;
    }
    assert s[at..][..rem] == t[at..];
    var written := DecodeTail(s[at..], rem, result, i);
    return result[..written];
  }

  /** Four characters become three bytes. */
  method DecodeGroup(first: Byte, second: Byte, third: Byte, fourth: Byte, result: array<Byte>, i: nat)
    returns (ghost group: seq<Byte>)
    requires i + 3 <= result.Length
    modifies result
    ensures group == [Byte1(first, second), Byte2(second, third), Byte3(third, fourth)]
    ensures result[..i] == old(result[..i]) && result[..i + 3] == result[..i] + group
    ensures forall k :: i + 3 <= k < result.Length ==> result[k] == old(result[k])
  {
    hide Byte1, Byte2, Byte3;
    group := [Byte1(first, second), Byte2(second, third), Byte3(third, fourth)];
    result[i], result[i + 1], result[i + 2] := Byte1(first, second), Byte2(second, third), Byte3(third, fourth);
  }

  lemma GroupStep(rest: seq<Byte>, room: nat)
    requires |rest| > 4 && Fits(rest, room)
    ensures DMap(rest[0]) == BAD ==> Groups(rest, room) == seq(room, i => 0)
    ensures DMap(rest[0]) != BAD ==>
      && room >= 3 && Fits(rest[4..], room - 3)
      && Groups(rest, room) == [Byte1(rest[0], rest[1]), Byte2(rest[1], rest[2]),
                                Byte3(rest[2], rest[3])] + Groups(rest[4..], room - 3)
  {
  }

  /** Drops bytes outside the alphabet from the end. */
  method StripEnd(s: seq<Byte>) returns (rem: nat)
    ensures rem == |Strip(s)|
  {
    hide DMap;
    rem := |s|;
    assert s[..rem] == s;
    while rem > 0 && DMap(s[rem - 1]) == BAD
      invariant rem <= |s| && Strip(s) == Strip(s[..rem])
    {
      assert s[..rem][..rem - 1] == s[..rem - 1];
      rem := rem - 1;
    }
    assert rem > 0 ==> s[..rem][rem - 1] == s[rem - 1];
  }

  /** The last group, with the fall-through of its cases. */
  method DecodeTail(s: seq<Byte>, rem: nat, result: array<Byte>, i: nat) returns (written: nat)
    requires rem <= 4 && rem <= |s| && i <= result.Length && Fits(s[..rem], result.Length - i)
    modifies result
    ensures i <= written <= result.Length
    ensures result[..written] == old(result[..i]) + Groups(s[..rem], result.Length - i)
  {
    hide Byte1, Byte2, Byte3, DMap;
    written := i;
    if rem == 4 {
      result[i + 2] := Byte3(s[2], s[3]);
      written := written + 1;
    }
    if rem >= 3 {
      result[i + 1] := Byte2(s[1], s[2]);
      written := written + 1;
    }
    if rem >= 2 {
      result[i] := Byte1(s[0], s[1]);
      written := written + 1;
    }
  }

  /** `base64_uri_encode`, in place: the result is compacted to the front, what has not been read yet
      is still there, and nothing from the result's end on is touched. */
  method Base64UriEncode(data: array<Byte>, len: nat) returns (j: nat)
    requires len <= data.Length
    modifies data
    ensures j <= len && data[..j] == UriEncode(old(data[..len]))
    ensures forall k :: j <= k < data.Length ==> data[k] == old(data[k])
  {
    var i := 0;
    j := 0;
    while i < len
      invariant j <= i <= len
      invariant data[..j] == UriEncode(old(data[..i]))
      invariant forall k :: j <= k < data.Length ==> data[k] == old(data[k])
    {
      assert old(data[..i + 1])[..i] == old(data[..i]);
      if data[i] == PLUS {
        data[j] := DASH;
        j := j + 1;
      } else if data[i] == SLASH {
        data[j] := UNDERSCORE;
        j := j + 1;
      } else if data[i] != EQUALS {
        data[j] := data[i];
        j := j + 1;
      }
      i := i + 1;
    }
  }

  /** `base64_uri_decode`, for ASCII input of every length. */
  method Base64UriDecode(data: seq<Byte>) returns (x: seq<Byte>)
    requires |data| + 4 < 0x8000_0000 && forall c <- data :: c < 128
    ensures x == UriDecode(data)
  {
    hide Decode, Decodable;
    var buffer := new Byte[|data| + 4](i => 0);
    var i := 0;
    while i < |data|
      invariant i <= |data|
      invariant forall k :: 0 <= k < buffer.Length ==> buffer[k] == if k < i then PlainCharacter(data[k]) else 0
    {
      if data[i] == DASH {
        buffer[i] := PLUS;
      } else if data[i] == UNDERSCORE {
        buffer[i] := SLASH;
      } else {
        buffer[i] := data[i];
      }
      i := i + 1;
    }
    var trailer := 4 - i % 4;
    if trailer < 4 {
      while trailer > 0
        invariant 0 <= trailer <= Trailer(|data|) && i == |data| + Trailer(|data|) - trailer
        invariant forall k :: 0 <= k < buffer.Length ==>
          buffer[k] == if k < |data| then PlainCharacter(data[k]) else if k < i then EQUALS else 0
      {
        trailer := trailer - 1;
        buffer[i] := EQUALS;
        i := i + 1;
      }
    }
    assert buffer[..] == UriBuffer(data);
    forall k | 0 <= k < buffer.Length ensures buffer[k] < 128 {
      assert k < |data| ==> data[k] in data;
    }
    UriIsDecodable(data);
    x := Base64Decode(buffer[..]);
  }
}
