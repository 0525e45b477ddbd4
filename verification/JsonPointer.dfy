/** JSON Pointers and the local part of JSON References, as the schema parser reads them. */
module JsonPointer {
  import opened Wrappers
  import opened Json
  import opened Strings

  /** `sanitiseJsonPointer`: trailing slashes are trimmed. */
  function TrimSlashes(s: string): (r: string)
    ensures r <= s
    ensures r == "" || r[|r| - 1] != '/'
    ensures forall k :: |r| <= k < |s| ==> s[k] == '/'
  {
    if s != "" && s[|s| - 1] == '/' then TrimSlashes(s[..|s| - 1]) else s
  }

  // ---- Reference tokens ----

  /** `replaceAllInPlace` for a two-character search string. */
  function ReplacePair(s: string, a: char, b: char, c: char): string {
    if |s| >= 2 && s[0] == a && s[1] == b then [c] + ReplacePair(s[2..], a, b, c)
    else if s == "" then ""
    else [s[0]] + ReplacePair(s[1..], a, b, c)
  }

  predicate IsSpace(c: char) { c == ' ' || '\t' <= c <= '\r' }

  function HexDigit(c: char): (r: Option<nat>)
    ensures r.Some? ==> r.value < 16
  {
    if '0' <= c <= '9' then Some(c as int - '0' as int)
    else if 'a' <= c <= 'f' then Some(c as int - 'a' as int + 10)
    else if 'A' <= c <= 'F' then Some(c as int - 'A' as int + 10)
    else None
  }

  /** `decodePercentEncodedChar`: `strtoul` in base 16 on two characters.  Trailing garbage is an
      error, but text with no leading digit at all converts to zero. */
  function PercentChar(c0: char, c1: char): (r: Option<char>) {
    var h0, h1 := HexDigit(c0), HexDigit(c1);
    if h0.Some? then
      if h1.Some? then Some((16 * h0.value + h1.value) as char)
      else if c1 == '\0' then Some(h0.value as char)
      else None
    else if (IsSpace(c0) || c0 == '+') && h1.Some? then Some(h1.value as char)
    else if c0 == '-' && h1.Some? then Some(((256 - h1.value) % 256) as char)
    else Some('\0')
  }

  function DecodePercent(s: string): Option<string> {
    if s == "" then Some("")
    else if s[0] != '%' then
      var rest := DecodePercent(s[1..]);
      if rest.None? then None else Some([s[0]] + rest.value)
    else if |s| < 3 then None
    else
      var c, rest := PercentChar(s[1], s[2]), DecodePercent(s[3..]);
      if c.None? || rest.None? then None else Some([c.value] + rest.value)
  }

  /** `extractReferenceToken`. */
  function Token(raw: string): Option<string> {
    DecodePercent(ReplacePair(ReplacePair(raw, '~', '1', '/'), '~', '0', '~'))
  }

  // ---- Array indices ----

  function SkipSpace(s: string): string {
    if s != "" && IsSpace(s[0]) then SkipSpace(s[1..]) else s
  }

  predicate IsDigit(c: char) { '0' <= c <= '9' }

  /** The decimal number that starts `s`, continuing from `acc`. */
  function ReadDigits(s: string, acc: nat): nat {
    if s != "" && IsDigit(s[0]) then ReadDigits(s[1..], 10 * acc + (s[0] as int - '0' as int)) else acc
  }

  const TWO_TO_64: nat := 0x1_0000_0000_0000_0000

  /** What `std::stoul` ends with; the last two stand for `invalid_argument` and `out_of_range`. */
  datatype Index = Number(n: nat) | NotANumber | OutOfRange

  /** `std::stoul`: leading space and a sign are allowed, what follows the digits is ignored, and
      a negated number wraps. */
  function Stoul(token: string): Index {
    var t := SkipSpace(token);
    var negated := t != "" && t[0] == '-';
    var digits := if t != "" && (t[0] == '-' || t[0] == '+') then t[1..] else t;
    if digits == "" || !IsDigit(digits[0]) then NotANumber else
      var n := ReadDigits(digits, 0);
      if n >= TWO_TO_64 then OutOfRange
      else if negated then Number((TWO_TO_64 - n) % TWO_TO_64)
      else Number(n)
  }

  /** `std::to_string` of an index. */
  function Decimal(n: nat): (s: string)
    ensures s != "" && forall k :: 0 <= k < |s| ==> IsDigit(s[k])
  {
    var digit := ('0' as int + n % 10) as char;
    if n < 10 then [digit] else Decimal(n / 10) + [digit]
  }

  // ---- Resolution ----

  /** One step down by a decoded, non-empty token. */
  function Step(node: Value, token: string): (r: Option<Value>)
    requires token != ""
    ensures r.Some? ==> Size(r.value) < Size(node)
  {
    match node
    case Array(items) =>
      if token == "-" then None else
        var index := Stoul(token);
        if !index.Number? || index.n >= |items| then None else Some(items[index.n])
    case Object(members) => Find(members, token)
    case _ => None
  }

  /** `resolveJsonPointer`; None stands for its exceptions. */
  function Resolve(node: Value, pointer: string): (r: Option<Value>)
    ensures r.Some? ==> Size(r.value) <= Size(node)
    decreases |pointer|
  {
    if pointer == "" then Some(node)
    else if pointer[0] != '/' then None
    else
      var next := IndexFrom(pointer, '/', 1);
      var token := Token(pointer[1..next]);
      if token.None? then None
      else if token.value == "" then Resolve(node, pointer[next..])
      else
        var child := Step(node, token.value);
        if child.None? then None else Resolve(child.value, pointer[next..])
  }

  /** The token is an index that `std::stoul` cannot represent; its exception is not caught. */
  predicate TooLarge(node: Value, token: string) {
    node.Array? && token != "-" && Stoul(token).OutOfRange?
  }

  /** Resolution ends with that exception, a logic error; all its other exceptions are runtime errors. */
  predicate Overflows(node: Value, pointer: string)
    decreases |pointer|
  {
    pointer != "" && pointer[0] == '/' &&
    var next := IndexFrom(pointer, '/', 1);
    var token := Token(pointer[1..next]);
    token.Some? &&
    if token.value == "" then Overflows(node, pointer[next..])
    else if TooLarge(node, token.value) then true
    else Step(node, token.value).Some? && Overflows(Step(node, token.value).value, pointer[next..])
  }

  lemma {:induction false} OverflowsFails(node: Value, pointer: string)
    requires Overflows(node, pointer)
    ensures Resolve(node, pointer).None?
    decreases |pointer|
  {
    var next := IndexFrom(pointer, '/', 1);
    var token := Token(pointer[1..next]).value;
    if token == "" {
      OverflowsFails(node, pointer[next..]);
    } else if !TooLarge(node, token) {
      OverflowsFails(Step(node, token).value, pointer[next..]);
    }
  }

  /** Resolving a pointer that consists of two is resolving one after the other. */
  lemma {:induction false} ResolveInTwo(node: Value, first: string, rest: string, middle: Value)
    requires Resolve(node, first) == Some(middle) && (rest == "" || rest[0] == '/')
    ensures Resolve(node, first + rest) == Resolve(middle, rest)
    ensures Overflows(node, first + rest) == Overflows(middle, rest)
    decreases |first|
  {
    hide Token, Step, TooLarge, IndexFrom, Size;
    var whole := first + rest;
    if first == "" {
      assert whole == rest;
    } else {
      var next := IndexFrom(first, '/', 1);
      SameIndex(first, rest);
      assert whole[1..next] == first[1..next];
      assert whole[next..] == first[next..] + rest;
      var token := Token(first[1..next]).value;
      ResolveInTwo(if token == "" then node else Step(node, token).value, first[next..], rest, middle);
      if token != "" { StepIsNotTooLarge(node, token); }
    }
  }

  lemma StepIsNotTooLarge(node: Value, token: string)
    requires token != "" && Step(node, token).Some?
    ensures !TooLarge(node, token)
  {
  }

  lemma SameIndex(first: string, rest: string)
    requires first != "" && (rest == "" || rest[0] == '/')
    ensures IndexFrom(first + rest, '/', 1) == IndexFrom(first, '/', 1)
  {
    var whole := first + rest;
    var i, j := IndexFrom(whole, '/', 1), IndexFrom(first, '/', 1);
    assert forall k :: 0 <= k < |first| ==> whole[k] == first[k];
    if j < |first| {
      assert whole[j] == '/';
    } else if rest != "" {
      assert whole[|first|] == '/';
    }
    assert i < |first| ==> first[i] == '/';
  }

  // ---- Paths built by the parser ----

  /** A name that survives being concatenated into a path unescaped. */
  predicate PlainToken(t: string) {
    t != "" && forall k :: 0 <= k < |t| ==> t[k] != '/' && t[k] != '~' && t[k] != '%'
  }

  lemma {:induction false} PlainTokenIsItself(t: string)
    requires forall k :: 0 <= k < |t| ==> t[k] != '/' && t[k] != '~' && t[k] != '%'
    ensures Token(t) == Some(t)
  {
    ReplacePairAbsent(t, '~', '1', '/');
    ReplacePairAbsent(t, '~', '0', '~');
    DecodePercentAbsent(t);
  }

  lemma {:induction false} ReplacePairAbsent(t: string, a: char, b: char, c: char)
    requires forall k :: 0 <= k < |t| ==> t[k] != a
    ensures ReplacePair(t, a, b, c) == t
  {
    if t != "" {
      ReplacePairAbsent(t[1..], a, b, c);
    }
  }

  lemma {:induction false} DecodePercentAbsent(t: string)
    requires forall k :: 0 <= k < |t| ==> t[k] != '%'
    ensures DecodePercent(t) == Some(t)
  {
    if t != "" {
      DecodePercentAbsent(t[1..]);
      assert [t[0]] + t[1..] == t;
    }
  }

  /** Concatenating "/" and a plain name onto any path that resolves goes one step further down, and
      is out of range exactly if the name is an index that is too large. */
  lemma ResolveAppend(node: Value, path: string, target: Value, token: string)
    requires Resolve(node, path) == Some(target) && PlainToken(token)
    ensures Resolve(node, path + "/" + token) == Step(target, token)
    ensures Overflows(node, path + "/" + token) == TooLarge(target, token)
  {
    hide Resolve, Overflows, Step, TooLarge, PlainToken;
    var rest := "/" + token;
    assert path + "/" + token == path + rest;
    ResolveInTwo(node, path, rest, target);
    ResolveOne(target, token);
  }

  lemma ResolveOne(node: Value, token: string)
    requires PlainToken(token)
    ensures Resolve(node, "/" + token) == Step(node, token)
    ensures Overflows(node, "/" + token) == TooLarge(node, token)
  {
    hide Token, Step, TooLarge, IndexFrom;
    var rest := "/" + token;
    assert IndexFrom(rest, '/', 1) == |rest|;
    assert rest[1..|rest|] == token && rest[|rest|..] == "";
    PlainTokenIsItself(token);
    StepThenNothing(node, token);
  }

  lemma StepThenNothing(node: Value, token: string)
    requires token != ""
    ensures Step(node, token).Some? ==> Resolve(Step(node, token).value, "") == Step(node, token)
    ensures Step(node, token).Some? ==> !Overflows(Step(node, token).value, "") && !TooLarge(node, token)
  {
  }

  /** Ten to the number of decimal digits of n. */
  function Weight(n: nat): nat {
    if n < 10 then 10 else 10 * Weight(n / 10)
  }

  lemma {:induction false} ReadDecimal(n: nat, rest: string, acc: nat)
    ensures ReadDigits(Decimal(n) + rest, acc) == ReadDigits(rest, acc * Weight(n) + n)
  {
    var last := ('0' as int + n % 10) as char;
    ReadOne(last, rest);
    if n < 10 {
      assert Decimal(n) == [last] && acc * Weight(n) == 10 * acc;
    } else {
      hide ReadDigits;
      assert Decimal(n) + rest == Decimal(n / 10) + ([last] + rest);
      ReadDecimal(n / 10, [last] + rest, acc);
      ShiftDigit(acc, Weight(n / 10), n);
    }
  }

  lemma ReadOne(digit: char, rest: string)
    requires IsDigit(digit)
    ensures forall acc: nat ::
      ReadDigits([digit] + rest, acc) == ReadDigits(rest, 10 * acc + (digit as int - '0' as int))
  {
    assert ([digit] + rest)[1..] == rest;
  }

  lemma ShiftDigit(acc: nat, w: nat, n: nat)
    ensures 10 * (acc * w + n / 10) + n % 10 == acc * (10 * w) + n
  {
    assert acc * (10 * w) == 10 * (acc * w);
  }

  /** Parsing the decimal form of a number gives the number back, unless it takes more than 64 bits. */
  lemma {:induction false} StoulDecimal(n: nat)
    ensures Stoul(Decimal(n)) == if n < TWO_TO_64 then Number(n) else OutOfRange
    ensures Decimal(n) != "-" && PlainToken(Decimal(n))
  {
    ReadDecimal(n, "", 0);
    assert Decimal(n) + "" == Decimal(n);
    assert SkipSpace(Decimal(n)) == Decimal(n);
  }

  /** An index below an array of the document ends in a logic error exactly if it is 2^64 or more. */
  lemma IndexTooLarge(node: Value, path: string, items: seq<Value>, n: nat)
    requires Resolve(node, path) == Some(Array(items))
    ensures Overflows(node, path + "/" + Decimal(n)) <==> n >= TWO_TO_64
  {
    StoulDecimal(n);
    ResolveAppend(node, path, Array(items), Decimal(n));
  }
}
