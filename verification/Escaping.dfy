/** Every name can be written in a reference: what escaping a name for a JSON Pointer (section 3 of
    RFC 6901) and for a URI fragment (section 6 there) is undone by. */
module Escaping {
  import opened Wrappers
  import opened Json
  import opened JsonPointer
  import opened Strings

  // ---- Tilde escapes ----

  /** `~`, `/` and `%` are written as two or three characters, all others as themselves. */
  function EscapeChar(c: char): string {
    if c == '~' then "~0" else if c == '/' then "~1" else if c == '%' then "%25" else [c]
  }

  function Escape(t: string): string {
    if t == "" then "" else EscapeChar(t[0]) + Escape(t[1..])
  }

  /** What is left to undo once slashes, and then tildes, are themselves again. */
  function WithoutSlashes(t: string): string {
    if t == "" then "" else
      (if t[0] == '~' then "~0" else if t[0] == '%' then "%25" else [t[0]]) + WithoutSlashes(t[1..])
  }

  function OnlyPercents(t: string): string {
    if t == "" then "" else (if t[0] == '%' then "%25" else [t[0]]) + OnlyPercents(t[1..])
  }

  /** A character that does not begin what is searched for is left alone. */
  lemma LeaveAlone(s: string, a: char, b: char, c: char)
    requires s != "" && (s[0] != a || (|s| >= 2 && s[1] != b))
    ensures ReplacePair(s, a, b, c) == [s[0]] + ReplacePair(s[1..], a, b, c)
  {
  }

  lemma ReplaceOne(s: string, a: char, b: char, c: char)
    requires |s| >= 2 && s[0] == a && s[1] == b
    ensures ReplacePair(s, a, b, c) == [c] + ReplacePair(s[2..], a, b, c)
  {
  }

  lemma {:induction false} SlashesUndone(t: string)
    ensures ReplacePair(Escape(t), '~', '1', '/') == WithoutSlashes(t)
  {
    if t != "" {
      var rest, s := Escape(t[1..]), Escape(t);
      SlashesUndone(t[1..]);
      if t[0] == '~' {
        assert s == ['~', '0'] + rest && s[1..] == ['0'] + rest && s[1..][1..] == rest;
        LeaveAlone(s, '~', '1', '/');
        LeaveAlone(s[1..], '~', '1', '/');
      } else if t[0] == '/' {
        assert s == ['~', '1'] + rest && s[2..] == rest;
        ReplaceOne(s, '~', '1', '/');
      } else if t[0] == '%' {
        PercentLeftAlone(rest, '~', '1', '/');
      } else {
        assert s == [t[0]] + rest && s[1..] == rest;
        LeaveAlone(s, '~', '1', '/');
      }
    }
  }

  lemma PercentLeftAlone(rest: string, a: char, b: char, c: char)
    requires a == '~'
    ensures ReplacePair("%25" + rest, a, b, c) == "%25" + ReplacePair(rest, a, b, c)
  {
    var s := "%25" + rest;
    assert s[1..] == "25" + rest && s[1..][1..] == "5" + rest && s[1..][1..][1..] == rest;
    LeaveAlone(s, a, b, c);
    LeaveAlone(s[1..], a, b, c);
    LeaveAlone(s[1..][1..], a, b, c);
  }

  lemma {:induction false} TildesUndone(t: string)
    ensures ReplacePair(WithoutSlashes(t), '~', '0', '~') == OnlyPercents(t)
  {
    if t != "" {
      var rest, s := WithoutSlashes(t[1..]), WithoutSlashes(t);
      TildesUndone(t[1..]);
      if t[0] == '~' {
        assert s == ['~', '0'] + rest && s[2..] == rest;
        ReplaceOne(s, '~', '0', '~');
      } else if t[0] == '%' {
        PercentLeftAlone(rest, '~', '0', '~');
      } else {
        assert s == [t[0]] + rest && s[1..] == rest;
        LeaveAlone(s, '~', '0', '~');
      }
    }
  }

  lemma {:induction false} PercentsUndone(t: string)
    ensures DecodePercent(OnlyPercents(t)) == Some(t)
  {
    if t != "" {
      var rest, s := OnlyPercents(t[1..]), OnlyPercents(t);
      PercentsUndone(t[1..]);
      assert [t[0]] + t[1..] == t;
      if t[0] == '%' {
        assert s == ['%', '2', '5'] + rest && s[3..] == rest;
        assert PercentChar('2', '5') == Some('%');
      } else {
        assert s == [t[0]] + rest && s[1..] == rest;
      }
    }
  }

  /** Unescaping undoes escaping, for every name. */
  lemma TokenEscape(t: string)
    ensures Token(Escape(t)) == Some(t)
  {
    SlashesUndone(t);
    TildesUndone(t);
    PercentsUndone(t);
  }

  lemma {:induction false} EscapeHasNoSlash(t: string)
    ensures forall k :: 0 <= k < |Escape(t)| ==> Escape(t)[k] != '/'
    ensures t != "" ==> Escape(t) != ""
  {
    if t != "" { EscapeHasNoSlash(t[1..]); }
  }

  // ---- Percent-encoding ----

  const UPPER: string := "0123456789ABCDEF"
  const LOWER: string := "0123456789abcdef"

  /** A byte in hexadecimal, in capitals or not. */
  function PercentByte(n: nat, capitals: bool): string
    requires n < 256
  {
    var digits := if capitals then UPPER else LOWER;
    ['%', digits[n / 16], digits[n % 16]]
  }

  predicate IsBytes(t: string) { forall k :: 0 <= k < |t| ==> t[k] as int < 256 }

  function PercentEncode(t: string, capitals: bool): string
    requires IsBytes(t)
  {
    if t == "" then "" else PercentByte(t[0] as int, capitals) + PercentEncode(t[1..], capitals)
  }

  lemma HexDigitsAre(n: nat)
    requires n < 16
    ensures HexDigit(UPPER[n]) == Some(n) && HexDigit(LOWER[n]) == Some(n)
    ensures UPPER[n] != '~' && UPPER[n] != '/' && LOWER[n] != '~' && LOWER[n] != '/'
  {
  }

  lemma ByteDecoded(n: nat, capitals: bool)
    requires n < 256
    ensures var s := PercentByte(n, capitals); |s| == 3 && s[0] == '%' && PercentChar(s[1], s[2]) == Some(n as char)
    ensures forall k :: 0 <= k < 3 ==> PercentByte(n, capitals)[k] != '~' && PercentByte(n, capitals)[k] != '/'
  {
    HexDigitsAre(n / 16);
    HexDigitsAre(n % 16);
    assert 16 * (n / 16) + n % 16 == n;
  }

  lemma {:induction false} PercentsDecoded(t: string, capitals: bool)
    requires IsBytes(t)
    ensures DecodePercent(PercentEncode(t, capitals)) == Some(t)
    ensures forall k :: 0 <= k < |PercentEncode(t, capitals)| ==>
      PercentEncode(t, capitals)[k] != '~' && PercentEncode(t, capitals)[k] != '/'
    ensures t != "" ==> PercentEncode(t, capitals) != ""
  {
    hide PercentByte, PercentChar;
    if t != "" {
      var rest := PercentEncode(t[1..], capitals);
      PercentsDecoded(t[1..], capitals);
      ByteDecoded(t[0] as int, capitals);
      var s := PercentByte(t[0] as int, capitals) + rest;
      assert s[3..] == rest && [t[0]] + t[1..] == t;
    }
  }

  /** So does percent-encoding of every byte. */
  lemma TokenPercentEncode(t: string, capitals: bool)
    requires IsBytes(t)
    ensures Token(PercentEncode(t, capitals)) == Some(t)
  {
    hide DecodePercent, PercentEncode;
    PercentsDecoded(t, capitals);
    ReplacePairAbsent(PercentEncode(t, capitals), '~', '1', '/');
    ReplacePairAbsent(PercentEncode(t, capitals), '~', '0', '~');
  }

  /** A percent sign without two characters after it is an error. */
  lemma {:induction false} CutPercent(t: string, rest: string)
    requires (forall k :: 0 <= k < |t| ==> t[k] != '%') && |rest| < 2
    ensures DecodePercent(t + "%" + rest) == None
  {
    var s := t + "%" + rest;
    if t == "" {
      assert s == "%" + rest;
    } else {
      assert s[0] == t[0] && s[1..] == t[1..] + "%" + rest;
      CutPercent(t[1..], rest);
    }
  }

  // ---- References to every name ----

  /** Below a node that a path leads to, "/" and an escaped name go one step down to that name. */
  lemma ResolveEscaped(node: Value, path: string, target: Value, t: string)
    requires Resolve(node, path) == Some(target) && t != ""
    ensures Resolve(node, path + "/" + Escape(t)) == Step(target, t)
    ensures Overflows(node, path + "/" + Escape(t)) == TooLarge(target, t)
  {
    hide Token, Escape, Resolve, Overflows, Step, TooLarge;
    TokenEscape(t);
    EscapeHasNoSlash(t);
    ResolveRaw(node, path, target, Escape(t), t);
  }

  lemma ResolvePercentEncoded(node: Value, path: string, target: Value, t: string, capitals: bool)
    requires Resolve(node, path) == Some(target) && t != "" && IsBytes(t)
    ensures Resolve(node, path + "/" + PercentEncode(t, capitals)) == Step(target, t)
    ensures Overflows(node, path + "/" + PercentEncode(t, capitals)) == TooLarge(target, t)
  {
    hide Token, PercentEncode, Resolve, Overflows, Step, TooLarge, DecodePercent;
    TokenPercentEncode(t, capitals);
    PercentsDecoded(t, capitals);
    ResolveRaw(node, path, target, PercentEncode(t, capitals), t);
  }

  lemma ResolveRaw(node: Value, path: string, target: Value, raw: string, t: string)
    requires Resolve(node, path) == Some(target) && t != "" && Token(raw) == Some(t)
    requires forall k :: 0 <= k < |raw| ==> raw[k] != '/'
    ensures Resolve(node, path + "/" + raw) == Step(target, t)
    ensures Overflows(node, path + "/" + raw) == TooLarge(target, t)
  {
    hide Resolve, Overflows, Step, TooLarge, Token;
    var rest := "/" + raw;
    assert path + "/" + raw == path + rest;
    ResolveInTwo(node, path, rest, target);
    ResolveFirst(target, raw, t);
  }

  lemma ResolveFirst(node: Value, raw: string, t: string)
    requires t != "" && Token(raw) == Some(t) && forall k :: 0 <= k < |raw| ==> raw[k] != '/'
    ensures Resolve(node, "/" + raw) == Step(node, t)
    ensures Overflows(node, "/" + raw) == TooLarge(node, t)
  {
    hide Token, Step, TooLarge, IndexFrom;
    var rest := "/" + raw;
    assert IndexFrom(rest, '/', 1) == |rest|;
    assert rest[1..|rest|] == raw && rest[|rest|..] == "";
    StepThenNothing(node, t);
  }

  /** An empty token goes nowhere, so two slashes are as good as one. */
  lemma EmptyTokenStays(node: Value, rest: string)
    requires rest != "" && rest[0] == '/'
    ensures Resolve(node, "/" + rest) == Resolve(node, rest)
  {
    hide Step, Resolve;
    var s := "/" + rest;
    OneStep(node, s);
    assert IndexFrom(s, '/', 1) == 1;
    assert s[1..1] == "" && s[1..] == rest;
    assert Token("") == Some("");
  }

  lemma OneStep(node: Value, s: string)
    requires s != "" && s[0] == '/' && Token(s[1..IndexFrom(s, '/', 1)]) == Some("")
    ensures Resolve(node, s) == Resolve(node, s[IndexFrom(s, '/', 1)..])
  {
    hide Token, Step, IndexFrom;
  }

  // ---- Tokens that step into a value ----

  /** Members by name; items by their decimal index; nothing below anything else. */
  lemma StepsAre(items: seq<Value>, members: seq<Member>, k: nat, t: string)
    requires t != "" && k < TWO_TO_64
    ensures Step(Object(members), t) == Find(members, t)
    ensures Step(Array(items), Decimal(k)) == if k < |items| then Some(items[k]) else None
    ensures Step(Array(items), "-") == None
    ensures Step(Null, t) == Step(Bool(true), t) == Step(Int(1), t) == Step(Str(t), t) == None
  {
    StoulDecimal(k);
  }

  /** An index may have a sign: minus one is 2^64 - 1. */
  lemma SignedIndex(n: nat)
    requires n < TWO_TO_64
    ensures Stoul("+" + Decimal(n)) == Number(n)
    ensures Stoul("-" + Decimal(n)) == Number(if n == 0 then 0 else TWO_TO_64 - n)
  {
    hide ReadDigits, Decimal, Stoul;
    ReadDecimal(n, "", 0);
    assert Decimal(n) + "" == Decimal(n);
    ReadNothing(n);
    Signed('+', Decimal(n), n);
    Signed('-', Decimal(n), n);
    assert ['+'] + Decimal(n) == "+" + Decimal(n) && ['-'] + Decimal(n) == "-" + Decimal(n);
  }

  lemma Signed(sign: char, digits: string, n: nat)
    requires digits != "" && IsDigit(digits[0]) && ReadDigits(digits, 0) == n < TWO_TO_64
    requires sign == '+' || sign == '-'
    ensures Stoul([sign] + digits) == Number(if sign == '-' then (TWO_TO_64 - n) % TWO_TO_64 else n)
  {
    hide ReadDigits;
    var t := [sign] + digits;
    assert SkipSpace(t) == t && t[1..] == digits;
  }

  lemma ReadNothing(n: nat)
    ensures ReadDigits("", n) == n
  {
  }

  /** It may have space before it and anything after it that is no digit. */
  lemma LooseIndex(n: nat, rest: string)
    requires n < TWO_TO_64 && (rest == "" || !IsDigit(rest[0]))
    ensures Stoul(" " + Decimal(n) + rest) == Number(n) && Stoul(Decimal(n) + rest) == Number(n)
  {
    hide ReadDigits, Decimal, Stoul;
    ReadDecimal(n, rest, 0);
    StopsAtRest(rest, n);
    Loose(Decimal(n) + rest, n);
    assert " " + Decimal(n) + rest == " " + (Decimal(n) + rest);
  }

  lemma Loose(digits: string, n: nat)
    requires digits != "" && IsDigit(digits[0]) && ReadDigits(digits, 0) == n < TWO_TO_64
    ensures Stoul(" " + digits) == Number(n) && Stoul(digits) == Number(n)
  {
    hide ReadDigits;
    var t := " " + digits;
    assert SkipSpace(digits) == digits && t[1..] == digits;
    assert SkipSpace(t) == SkipSpace(digits);
  }

  lemma StopsAtRest(rest: string, acc: nat)
    requires rest == "" || !IsDigit(rest[0])
    ensures ReadDigits(rest, acc) == acc
  {
  }

  /** What does not begin like a number is no index. */
  lemma NoIndex(t: string)
    requires t == "" || !(IsDigit(t[0]) || IsSpace(t[0]) || t[0] == '+' || t[0] == '-')
    ensures Stoul(t) == NotANumber
  {
  }
}
