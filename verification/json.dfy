/** The flat canonical JSON of receipts and pointers: what `json.dumps(ensure_ascii=True, separators=(",", ":"),
    sort_keys=True)` prints for an object of strings, integers, booleans and nulls, and what `json.loads` reads
    back (sections 2 to 7 of RFC 8259). A string is a sequence of code points, surrogates included. */
module CanonicalJson {
  import opened Order
  import opened Tree
  import opened Wrappers

  type CodePoint = c: int | 0 <= c < 0x110000
  type Text = seq<CodePoint>

  datatype Value = Str(text: Text) | Int(n: int) | Bool(b: bool) | Null

  type Object = map<Text, Value>

  // ---- ASCII ----

  const QUOTE: Byte := 34
  const COMMA: Byte := 44
  const MINUS: Byte := 45
  const ZERO: Byte := 48
  const COLON: Byte := 58
  const BACKSLASH: Byte := 92
  const LETTER_U: Byte := 117
  const OPEN: Byte := 123
  const CLOSE: Byte := 125
  const NEWLINE: Byte := 10

  predicate IsSpace(b: Byte) {
    b == 32 || b == 9 || b == 10 || b == 13
  }

  predicate IsDigit(b: Byte) {
    48 <= b <= 57
  }

  // ---- printing ----

  function HexDigit(d: int): Byte
    requires 0 <= d < 16
  {
    if d < 10 then 48 + d else 87 + d
  }

  function Hex4(n: int): Bytes
    requires 0 <= n < 0x10000
  {
    [HexDigit(n / 4096), HexDigit(n / 256 % 16), HexDigit(n / 16 % 16), HexDigit(n % 16)]
  }

  function Unicode(n: int): Bytes
    requires 0 <= n < 0x10000
  {
    [BACKSLASH, LETTER_U] + Hex4(n)
  }

  function Escape(c: CodePoint): Bytes {
    if c == 34 then [BACKSLASH, 34]
    else if c == 92 then [BACKSLASH, 92]
    else if c == 8 then [BACKSLASH, 98]
    else if c == 12 then [BACKSLASH, 102]
    else if c == 10 then [BACKSLASH, 110]
    else if c == 13 then [BACKSLASH, 114]
    else if c == 9 then [BACKSLASH, 116]
    else if 32 <= c < 127 then [c]
    else if c < 0x10000 then Unicode(c)
    else Unicode(0xD800 + (c - 0x10000) / 1024) + Unicode(0xDC00 + (c - 0x10000) % 1024)
  }

  function EscapeAll(t: Text): Bytes {
    if t == [] then [] else Escape(t[0]) + EscapeAll(t[1..])
  }

  function PrintText(t: Text): Bytes {
    [QUOTE] + EscapeAll(t) + [QUOTE]
  }

  function PrintNat(n: nat): Bytes {
    if n < 10 then [48 + n] else PrintNat(n / 10) + [48 + n % 10]
  }

  function PrintValue(v: Value): Bytes {
    match v
    case Str(t) => PrintText(t)
    case Int(n) => if n < 0 then [MINUS] + PrintNat(-n) else PrintNat(n)
    case Bool(b) => if b then [116, 114, 117, 101] else [102, 97, 108, 115, 101]
    case Null => [110, 117, 108, 108]
  }

  predicate IsLeast(m: Text, s: set<Text>) {
    m in s && forall k :: k in s ==> Leq(m, k)
  }

  lemma {:induction false} LeastExists(s: set<Text>)
    requires s != {}
    ensures exists m :: IsLeast(m, s)
  {
    var x :| x in s;
    if s == {x} {
      LeqTotal(x, x);
      assert IsLeast(x, s);
    } else {
      var rest := s - {x};
      LeastExists(rest);
      var m: Text :| IsLeast(m, rest);
      LeqTotal(x, m);
      LeqTotal(x, x);
      var best: Text := if Leq(x, m) then x else m;
      forall k | k in s ensures Leq(best, k) {
        if k != x && best == x { LeqTransitive(x, m, k); }
      }
      assert IsLeast(best, s);
    }
  }

  function Least(s: set<Text>): (m: Text)
    requires s != {}
    ensures m in s && forall k :: k in s ==> Leq(m, k)
  {
    LeastExists(s);
    assert forall a: Text, b: Text :: IsLeast(a, s) && IsLeast(b, s) ==> a == b by {
      forall a: Text, b: Text | IsLeast(a, s) && IsLeast(b, s) ensures a == b { LeqTotal(a, b); }
    }
    var m :| m in s && IsLeast(m, s);
    m
  }

  function SortedKeys(s: set<Text>): (keys: seq<Text>)
    ensures forall k :: k in keys <==> k in s
    ensures forall i, j :: 0 <= i < j < |keys| ==> keys[i] != keys[j] && Leq(keys[i], keys[j])
    ensures |keys| == |s|
  {
    if s == {} then [] else var m := Least(s); [m] + SortedKeys(s - {m})
  }

  function PrintMembers(keys: seq<Text>, o: Object): Bytes
    requires forall k :: k in keys ==> k in o
  {
    if keys == [] then []
    else
      PrintText(keys[0]) + [COLON] + PrintValue(o[keys[0]])
      + (if |keys| == 1 then [] else [COMMA] + PrintMembers(keys[1..], o))
  }

  /** `_canonical_json`. */
  function Print(o: Object): Bytes {
    [OPEN] + PrintMembers(SortedKeys(o.Keys), o) + [CLOSE, NEWLINE]
  }

  // ---- parsing ----

  function SkipSpace(s: Bytes): (rest: Bytes)
    ensures |rest| <= |s|
  {
    if s != [] && IsSpace(s[0]) then SkipSpace(s[1..]) else s
  }

  function HexValue(b: Byte): int {
    if 48 <= b <= 57 then b - 48
    else if 97 <= b <= 102 then b - 87
    else if 65 <= b <= 70 then b - 55
    else -1
  }

  /** The four hexadecimal digits of a `\u` escape, or -1. */
  function ParseHex4(s: Bytes): (n: int)
    ensures -1 <= n < 0x10000
    ensures n >= 0 ==> |s| >= 4
  {
    if |s| < 4 || HexValue(s[0]) < 0 || HexValue(s[1]) < 0 || HexValue(s[2]) < 0 || HexValue(s[3]) < 0 then -1
    else HexValue(s[0]) * 4096 + HexValue(s[1]) * 256 + HexValue(s[2]) * 16 + HexValue(s[3])
  }

  predicate IsHigh(c: CodePoint) {
    0xD800 <= c < 0xDC00
  }

  predicate IsLow(c: CodePoint) {
    0xDC00 <= c < 0xE000
  }

  /** The value of a `\u` escape at the start of the text, or -1. */
  function ParseUnicode(s: Bytes): (n: int)
    ensures -1 <= n < 0x10000
    ensures n >= 0 ==> |s| >= 6
  {
    if |s| >= 6 && s[0] == BACKSLASH && s[1] == LETTER_U then ParseHex4(s[2..]) else -1
  }

  function Unescaped(b: Byte): int {
    if b == 34 || b == 92 || b == 47 then b
    else if b == 98 then 8
    else if b == 102 then 12
    else if b == 110 then 10
    else if b == 114 then 13
    else if b == 116 then 9
    else -1
  }

  /** One character of a string and what follows it. A high surrogate escape directly before a low one is read
      together with it, as one code point. */
  function ParseChar(s: Bytes): (r: Option<(CodePoint, Bytes)>)
    ensures r.Some? ==> |r.value.1| < |s|
  {
    if s == [] || s[0] < 32 || s[0] >= 128 || s[0] == QUOTE then None
    else if s[0] != BACKSLASH then Some((s[0], s[1..]))
    else if |s| < 2 then None
    else if s[1] != LETTER_U then
      if Unescaped(s[1]) >= 0 then Some((Unescaped(s[1]), s[2..])) else None
    else
      var n := ParseUnicode(s);
      if n < 0 then None
      else if IsHigh(n) && IsLowNext(s[6..])
      then Some((0x10000 + (n - 0xD800) * 1024 + (ParseUnicode(s[6..]) - 0xDC00), s[12..]))
      else Some((n, s[6..]))
  }

  predicate IsLowNext(s: Bytes) {
    ParseUnicode(s) >= 0 && IsLow(ParseUnicode(s))
  }

  /** The rest of a string after its opening quote, and what follows the closing one. */
  function ParseText(s: Bytes): (r: Option<(Text, Bytes)>)
    ensures r.Some? ==> |r.value.1| < |s|
  {
    if s == [] then None
    else if s[0] == QUOTE then Some(([], s[1..]))
    else
      match ParseChar(s)
      case None => None
      case Some((c, rest)) =>
        match ParseText(rest)
        case None => None
        case Some((t, rest')) => Some(([c] + t, rest'))
  }

  /** As many digits as there are. */
  function ParseDigits(s: Bytes, acc: nat): (r: (nat, Bytes))
    ensures |r.1| <= |s|
  {
    if s != [] && IsDigit(s[0]) then ParseDigits(s[1..], acc * 10 + (s[0] - 48)) else (acc, s)
  }

  function ParseNat(s: Bytes): (r: Option<(nat, Bytes)>)
    ensures r.Some? ==> |r.value.1| < |s|
  {
    if s == [] || !IsDigit(s[0]) then None
    else if s[0] == ZERO then Some((0, s[1..]))
    else Some(ParseDigits(s[1..], s[0] - 48))
  }

  function ParseValue(s: Bytes): (r: Option<(Value, Bytes)>)
    ensures r.Some? ==> |r.value.1| < |s|
  {
    if s == [] then None
    else if s[0] == QUOTE then
      match ParseText(s[1..])
      case None => None
      case Some((t, rest)) => Some((Str(t), rest))
    else if s[0] == MINUS then
      match ParseNat(s[1..])
      case None => None
      case Some((n, rest)) => var m: int := n; Some((Int(0 - m), rest))
    else if IsDigit(s[0]) then
      match ParseNat(s)
      case None => None
      case Some((n, rest)) => Some((Int(n), rest))
    else if |s| >= 4 && s[..4] == [116, 114, 117, 101] then Some((Bool(true), s[4..]))
    else if |s| >= 5 && s[..5] == [102, 97, 108, 115, 101] then Some((Bool(false), s[5..]))
    else if |s| >= 4 && s[..4] == [110, 117, 108, 108] then Some((Null, s[4..]))
    else None
  }

  /** A member, and what follows it and the space after it. */
  function ParseMember(s: Bytes): (r: Option<(Text, Value, Bytes)>)
    ensures r.Some? ==> |r.value.2| < |s|
  {
    if s == [] || s[0] != QUOTE then None
    else
      match ParseText(s[1..])
      case None => None
      case Some((k, rest)) =>
        var colon := SkipSpace(rest);
        if colon == [] || colon[0] != COLON then None
        else
          match ParseValue(SkipSpace(colon[1..]))
          case None => None
          case Some((v, rest')) => Some((k, v, SkipSpace(rest')))
  }

  /** Members up to the closing brace; the last of several members with one key wins. */
  function ParseMembers(s: Bytes, acc: Object): (r: Option<(Object, Bytes)>)
    decreases |s|
  {
    match ParseMember(s)
    case None => None
    case Some((k, v, rest)) =>
      if rest == [] then None
      else if rest[0] == CLOSE then Some((acc[k := v], rest[1..]))
      else if rest[0] == COMMA then ParseMembers(SkipSpace(rest[1..]), acc[k := v])
      else None
  }

  /** `json.loads` of a flat object. */
  function Parse(s: Bytes): Option<Object> {
    var open := SkipSpace(s);
    if open == [] || open[0] != OPEN then None
    else
      var first := SkipSpace(open[1..]);
      if first != [] && first[0] == CLOSE then
        if SkipSpace(first[1..]) == [] then Some(map[]) else None
      else
        match ParseMembers(first, map[])
        case None => None
        case Some((o, rest)) => if SkipSpace(rest) == [] then Some(o) else None
  }

  /** `_canonical_object`. */
  function CanonicalObject(payload: Bytes): Option<Object> {
    match Parse(payload)
    case None => None
    case Some(o) => if Print(o) == payload then Some(o) else None
  }

  // ---- reading back one string ----

  /** No high surrogate stands directly before a low one: the text is what UTF-16 would make of it. */
  predicate Plain(t: Text) {
    forall i :: 0 <= i < |t| - 1 ==> !(IsHigh(t[i]) && IsLow(t[i + 1]))
  }

  predicate PlainValue(v: Value) {
    v.Str? ==> Plain(v.text)
  }

  predicate PlainObject(o: Object) {
    forall k :: k in o ==> Plain(k) && PlainValue(o[k])
  }

  lemma Hex4Inverse(n: int, rest: Bytes)
    requires 0 <= n < 0x10000
    ensures ParseHex4(Hex4(n) + rest) == n
  {
    FourDigits(n);
    HexDigitInverse(n / 4096);
    HexDigitInverse(n / 256 % 16);
    HexDigitInverse(n / 16 % 16);
    HexDigitInverse(n % 16);
    var s := Hex4(n) + rest;
    assert s[0] == Hex4(n)[0] && s[1] == Hex4(n)[1] && s[2] == Hex4(n)[2] && s[3] == Hex4(n)[3];
  }

  lemma HexDigitInverse(d: int)
    requires 0 <= d < 16
    ensures HexValue(HexDigit(d)) == d
  {
  }

  lemma FourDigits(n: int)
    requires 0 <= n < 0x10000
    ensures 0 <= n / 4096 < 16 && n == n / 4096 * 4096 + n / 256 % 16 * 256 + n / 16 % 16 * 16 + n % 16
  {
    assert n / 16 % 16 + 16 * (n / 256) == n / 16;
    assert n / 256 % 16 + 16 * (n / 4096) == n / 256;
  }

  lemma UnicodeInverse(n: int, rest: Bytes)
    requires 0 <= n < 0x10000
    ensures ParseUnicode(Unicode(n) + rest) == n && (Unicode(n) + rest)[6..] == rest
  {
    assert (Unicode(n) + rest)[2..] == Hex4(n) + rest;
    Hex4Inverse(n, rest);
  }

  /** What starts with an escape of a code point below 0x10000 other than a low surrogate, or with a plain
      character or a quote, is not taken for the second half of a pair. */
  lemma NotLow(c: CodePoint, rest: Bytes)
    ensures IsLowNext(Escape(c) + rest) <==> IsLow(c)
  {
    var s := Escape(c) + rest;
    if 32 <= c < 127 || c in {8, 9, 10, 12, 13} {
      if c == 34 || c == 92 || c in {8, 9, 10, 12, 13} { assert s[1] == Escape(c)[1]; }
      assert s[0] == Escape(c)[0];
    } else if c < 0x10000 {
      UnicodeInverse(c, rest);
    } else {
      var hi, lo := 0xD800 + (c - 0x10000) / 1024, 0xDC00 + (c - 0x10000) % 1024;
      assert s == Unicode(hi) + (Unicode(lo) + rest);
      UnicodeInverse(hi, Unicode(lo) + rest);
    }
  }

  lemma CharInverse(c: CodePoint, rest: Bytes)
    requires !(IsHigh(c) && IsLowNext(rest))
    ensures ParseChar(Escape(c) + rest) == Some((c, rest))
  {
    var s := Escape(c) + rest;
    if 32 <= c < 127 && c != 34 && c != 92 {
      assert s[1..] == rest;
    } else if c in {34, 92, 8, 9, 10, 12, 13} {
      assert s[0] == BACKSLASH && s[1] == Escape(c)[1] && s[2..] == rest;
    } else if c < 0x10000 {
      UnicodeInverse(c, rest);
    } else {
      var hi, lo := 0xD800 + (c - 0x10000) / 1024, 0xDC00 + (c - 0x10000) % 1024;
      assert s == Unicode(hi) + (Unicode(lo) + rest);
      UnicodeInverse(hi, Unicode(lo) + rest);
      UnicodeInverse(lo, rest);
      assert s[12..] == (Unicode(lo) + rest)[6..];
    }
  }

  lemma Assoc(a: Bytes, b: Bytes, c: Bytes)
    ensures a + b + c == a + (b + c)
  {
  }

  lemma Drop(a: Byte, s: Bytes)
    ensures ([a] + s)[1..] == s && ([a] + s)[0] == a
  {
  }

  lemma TextStep(s: Bytes, c: CodePoint, tail: Bytes, t: Text, rest: Bytes)
    requires s != [] && s[0] != QUOTE && ParseChar(s) == Some((c, tail)) && ParseText(tail) == Some((t, rest))
    ensures ParseText(s) == Some(([c] + t, rest))
  {
  }

  lemma EscapeStart(c: CodePoint, rest: Bytes)
    ensures Escape(c) != [] && (Escape(c) + rest)[0] != QUOTE
  {
  }

  /** The printed text, its closing quote and whatever follows. */
  function Closed(t: Text, rest: Bytes): Bytes {
    EscapeAll(t) + ([QUOTE] + rest)
  }

  lemma ClosedCons(t: Text, rest: Bytes)
    requires t != []
    ensures Closed(t, rest) == Escape(t[0]) + Closed(t[1..], rest)
  {
    Assoc(Escape(t[0]), EscapeAll(t[1..]), [QUOTE] + rest);
  }

  lemma ClosedHead(t: Text, rest: Bytes)
    ensures IsLowNext(Closed(t, rest)) ==> t != [] && IsLow(t[0])
  {
    if t == [] {
      assert Closed(t, rest) == [QUOTE] + rest;
    } else {
      ClosedCons(t, rest);
      NotLow(t[0], Closed(t[1..], rest));
    }
  }

  lemma {:induction false} TextInverse(t: Text, rest: Bytes)
    requires Plain(t)
    ensures ParseText(Closed(t, rest)) == Some((t, rest))
  {
    if t == [] {
      assert Closed(t, rest) == [QUOTE] + rest;
      Drop(QUOTE, rest);
    } else {
      var tail := Closed(t[1..], rest);
      ClosedCons(t, rest);
      TextInverse(t[1..], rest);
      ClosedHead(t[1..], rest);
      if t[1..] != [] { assert t[1..][0] == t[1]; }
      CharInverse(t[0], tail);
      EscapeStart(t[0], tail);
      TextStep(Closed(t, rest), t[0], tail, t[1..], rest);
      assert t == [t[0]] + t[1..];
    }
  }

  lemma LowCharIsLowNext(s: Bytes)
    requires ParseChar(s).Some? && IsLow(ParseChar(s).value.0)
    ensures IsLowNext(s)
  {
  }

  lemma HighCharBlocksPair(s: Bytes)
    requires ParseChar(s).Some? && IsHigh(ParseChar(s).value.0)
    ensures !IsLowNext(ParseChar(s).value.1)
  {
  }

  lemma {:induction false} ParsedTextIsPlain(s: Bytes)
    requires ParseText(s).Some?
    ensures Plain(ParseText(s).value.0)
    ensures var t := ParseText(s).value.0; t != [] && IsLow(t[0]) ==> IsLowNext(s)
    decreases |s|
  {
    if s[0] != QUOTE {
      var (c, rest) := ParseChar(s).value;
      ParsedTextIsPlain(rest);
      var t := ParseText(rest).value.0;
      if IsLow(c) { LowCharIsLowNext(s); }
      if IsHigh(c) { HighCharBlocksPair(s); }
      var u := ParseText(s).value.0;
      assert u == [c] + t;
      forall i | 0 <= i < |u| - 1 ensures !(IsHigh(u[i]) && IsLow(u[i + 1])) {
        if i > 0 { assert u[i] == t[i - 1] && u[i + 1] == t[i]; }
      }
    }
  }

  // ---- reading back one value ----

  lemma {:induction false} PrintNatShape(n: nat)
    ensures PrintNat(n) != [] && (forall i :: 0 <= i < |PrintNat(n)| ==> IsDigit(PrintNat(n)[i]))
    ensures PrintNat(n)[0] == ZERO <==> n == 0
  {
    if n >= 10 { PrintNatShape(n / 10); }
  }

  lemma {:induction false} DigitsAppend(s: Bytes, d: Byte, rest: Bytes, acc: nat)
    requires forall i :: 0 <= i < |s| ==> IsDigit(s[i])
    requires IsDigit(d) && (rest == [] || !IsDigit(rest[0]))
    ensures ParseDigits(s + rest, acc).1 == rest
    ensures ParseDigits(s + [d] + rest, acc) == (ParseDigits(s + rest, acc).0 * 10 + (d - 48), rest)
  {
    if s == [] {
      assert s + rest == rest && s + [d] + rest == [d] + rest && ([d] + rest)[1..] == rest;
    } else {
      DigitsAppend(s[1..], d, rest, acc * 10 + (s[0] - 48));
      assert (s + rest)[1..] == s[1..] + rest && (s + [d] + rest)[1..] == s[1..] + [d] + rest;
    }
  }

  lemma {:induction false} NatInverse(n: nat, rest: Bytes)
    requires rest == [] || !IsDigit(rest[0])
    ensures ParseNat(PrintNat(n) + rest) == Some((n, rest))
  {
    PrintNatShape(n);
    if n < 10 {
      assert PrintNat(n) + rest == [48 + n] + rest;
      assert ([48 + n] + rest)[1..] == rest;
    } else {
      var head, d: Byte := PrintNat(n / 10), 48 + n % 10;
      NatInverse(n / 10, rest);
      PrintNatShape(n / 10);
      assert (head + rest)[1..] == head[1..] + rest;
      assert (PrintNat(n) + rest)[1..] == head[1..] + [d] + rest;
      DigitsAppend(head[1..], d, rest, head[0] - 48);
    }
  }

  lemma PrintTextThen(t: Text, rest: Bytes)
    ensures PrintText(t) + rest == [QUOTE] + Closed(t, rest)
  {
    Assoc([QUOTE], EscapeAll(t), [QUOTE]);
    Assoc([QUOTE], EscapeAll(t) + [QUOTE], rest);
    Assoc(EscapeAll(t), [QUOTE], rest);
  }

  lemma StrInverse(t: Text, rest: Bytes)
    requires Plain(t)
    ensures ParseValue(PrintText(t) + rest) == Some((Str(t), rest))
    ensures (PrintText(t) + rest)[0] == QUOTE
  {
    PrintTextThen(t, rest);
    Drop(QUOTE, Closed(t, rest));
    TextInverse(t, rest);
  }

  lemma IntInverse(n: int, rest: Bytes)
    requires rest == [] || !IsDigit(rest[0])
    ensures ParseValue(PrintValue(Int(n)) + rest) == Some((Int(n), rest))
    ensures !IsSpace((PrintValue(Int(n)) + rest)[0])
  {
    if n < 0 {
      NatInverse(-n, rest);
      Assoc([MINUS], PrintNat(-n), rest);
      Drop(MINUS, PrintNat(-n) + rest);
    } else {
      NatInverse(n, rest);
      PrintNatShape(n);
      assert (PrintNat(n) + rest)[0] == PrintNat(n)[0];
    }
  }

  lemma WordInverse(v: Value, rest: Bytes)
    requires v.Bool? || v.Null?
    ensures ParseValue(PrintValue(v) + rest) == Some((v, rest))
    ensures !IsSpace((PrintValue(v) + rest)[0])
  {
    var s, word := PrintValue(v) + rest, PrintValue(v);
    assert s[..|word|] == word && s[|word|..] == rest;
    assert s[0] == word[0];
    assert |s| >= 4 && s[..4][0] == s[0];
    if |s| >= 5 { assert s[..5][0] == s[0]; }
  }

  lemma ValueInverse(v: Value, rest: Bytes)
    requires PlainValue(v) && (rest == [] || !IsDigit(rest[0]))
    ensures ParseValue(PrintValue(v) + rest) == Some((v, rest))
    ensures !IsSpace((PrintValue(v) + rest)[0])
  {
    match v
    case Str(t) => StrInverse(t, rest);
    case Int(n) => IntInverse(n, rest);
    case _ => WordInverse(v, rest);
  }

  lemma ParsedValueIsPlain(s: Bytes)
    requires ParseValue(s).Some?
    ensures PlainValue(ParseValue(s).value.0)
  {
    if s[0] == QUOTE { ParsedTextIsPlain(s[1..]); }
  }

  // ---- reading back an object ----

  function MemberThen(k: Text, v: Value, rest: Bytes): Bytes {
    [QUOTE] + Closed(k, [COLON] + (PrintValue(v) + rest))
  }

  lemma NoSpace(s: Bytes)
    requires s == [] || !IsSpace(s[0])
    ensures SkipSpace(s) == s
  {
  }

  lemma MemberInverse(k: Text, v: Value, rest: Bytes)
    requires Plain(k) && PlainValue(v) && rest != [] && !IsDigit(rest[0]) && !IsSpace(rest[0])
    ensures ParseMember(MemberThen(k, v, rest)) == Some((k, v, rest))
  {
    var value := PrintValue(v) + rest;
    Drop(QUOTE, Closed(k, [COLON] + value));
    TextInverse(k, [COLON] + value);
    Drop(COLON, value);
    ValueInverse(v, rest);
    NoSpace([COLON] + value);
    NoSpace(value);
    NoSpace(rest);
  }

  lemma MembersThen(keys: seq<Text>, o: Object, rest: Bytes)
    requires keys != [] && forall k :: k in keys ==> k in o
    ensures PrintMembers(keys, o) + rest
      == MemberThen(keys[0], o[keys[0]], if |keys| == 1 then rest else [COMMA] + (PrintMembers(keys[1..], o) + rest))
  {
    var k, v := keys[0], PrintValue(o[keys[0]]);
    var more := if |keys| == 1 then [] else [COMMA] + PrintMembers(keys[1..], o);
    var after := if |keys| == 1 then rest else [COMMA] + (PrintMembers(keys[1..], o) + rest);
    assert more + rest == after;
    Assoc(PrintText(k) + [COLON] + v, more, rest);
    Assoc(PrintText(k) + [COLON], v, after);
    Assoc(PrintText(k), [COLON], v + after);
    PrintTextThen(k, [COLON] + (v + after));
  }

  lemma MembersStep(s: Bytes, acc: Object, k: Text, v: Value, rest: Bytes)
    requires ParseMember(s) == Some((k, v, rest)) && rest != []
    ensures rest[0] == CLOSE ==> ParseMembers(s, acc) == Some((acc[k := v], rest[1..]))
    ensures rest[0] == COMMA ==> ParseMembers(s, acc) == ParseMembers(SkipSpace(rest[1..]), acc[k := v])
  {
  }

  function Pick(keys: seq<Text>, o: Object): Object
    requires forall k :: k in keys ==> k in o
  {
    map k | k in keys :: o[k]
  }

  lemma PickCons(keys: seq<Text>, o: Object, acc: Object)
    requires keys != [] && forall k :: k in keys ==> k in o
    ensures acc[keys[0] := o[keys[0]]] + Pick(keys[1..], o) == acc + Pick(keys, o)
    ensures |keys| == 1 ==> acc[keys[0] := o[keys[0]]] == acc + Pick(keys, o)
  {
  }

  lemma {:induction false} MembersInverse(keys: seq<Text>, o: Object, rest: Bytes, acc: Object)
    requires keys != [] && (forall k :: k in keys ==> k in o) && PlainObject(o)
    ensures ParseMembers(PrintMembers(keys, o) + ([CLOSE] + rest), acc) == Some((acc + Pick(keys, o), rest))
    decreases |keys|, 1
  {
    var k, v := keys[0], o[keys[0]];
    var s, tail := PrintMembers(keys, o) + ([CLOSE] + rest), [CLOSE] + rest;
    MembersThen(keys, o, tail);
    PickCons(keys, o, acc);
    if |keys| == 1 {
      MemberInverse(k, v, tail);
      Drop(CLOSE, rest);
      MembersStep(s, acc, k, v, tail);
    } else {
      MoreMembers(keys, o, rest, acc);
    }
  }

  lemma {:induction false} MoreMembers(keys: seq<Text>, o: Object, rest: Bytes, acc: Object)
    requires |keys| > 1 && (forall k :: k in keys ==> k in o) && PlainObject(o)
    ensures ParseMembers(MemberThen(keys[0], o[keys[0]], [COMMA] + (PrintMembers(keys[1..], o) + ([CLOSE] + rest))), acc)
      == Some((acc[keys[0] := o[keys[0]]] + Pick(keys[1..], o), rest))
    decreases |keys|, 0
  {
    var k, v := keys[0], o[keys[0]];
    var more := PrintMembers(keys[1..], o) + ([CLOSE] + rest);
    MemberInverse(k, v, [COMMA] + more);
    Drop(COMMA, more);
    MembersStep(MemberThen(k, v, [COMMA] + more), acc, k, v, [COMMA] + more);
    MembersThen(keys[1..], o, [CLOSE] + rest);
    NoSpace(more);
    MembersInverse(keys[1..], o, rest, acc[k := v]);
  }

  lemma {:induction false} ParsedMembersArePlain(s: Bytes, acc: Object)
    requires ParseMembers(s, acc).Some? && PlainObject(acc)
    ensures PlainObject(ParseMembers(s, acc).value.0)
    decreases |s|
  {
    var (k, v, rest) := ParseMember(s).value;
    ParsedTextIsPlain(s[1..]);
    ParsedValueIsPlain(SkipSpace(SkipSpace(ParseText(s[1..]).value.1)[1..]));
    if rest[0] == COMMA { ParsedMembersArePlain(SkipSpace(rest[1..]), acc[k := v]); }
  }

  lemma KeysRebuild(o: Object)
    ensures Pick(SortedKeys(o.Keys), o) == o && map[] + Pick(SortedKeys(o.Keys), o) == o
  {
  }

  lemma NewlineOnly()
    ensures SkipSpace([NEWLINE]) == []
  {
    Drop(NEWLINE, []);
    assert [NEWLINE] + [] == [NEWLINE];
  }

  lemma PrintShape(o: Object)
    ensures Print(o) == [OPEN] + (PrintMembers(SortedKeys(o.Keys), o) + ([CLOSE] + [NEWLINE]))
  {
    assert [CLOSE] + [NEWLINE] == [CLOSE, NEWLINE];
    Assoc([OPEN], PrintMembers(SortedKeys(o.Keys), o), [CLOSE, NEWLINE]);
  }

  lemma ParseBody(body: Bytes, o: Object)
    requires body != [] && !IsSpace(body[0]) && body[0] != CLOSE
    requires ParseMembers(body, map[]) == Some((o, [NEWLINE]))
    ensures Parse([OPEN] + body) == Some(o)
  {
    Drop(OPEN, body);
    NoSpace([OPEN] + body);
    NoSpace(body);
    NewlineOnly();
  }

  lemma EmptyInverse()
    ensures Parse([OPEN] + ([CLOSE] + [NEWLINE])) == Some(map[])
  {
    Drop(OPEN, [CLOSE] + [NEWLINE]);
    Drop(CLOSE, [NEWLINE]);
    NoSpace([OPEN] + ([CLOSE] + [NEWLINE]));
    NoSpace([CLOSE] + [NEWLINE]);
    NewlineOnly();
  }

  lemma BodyInverse(keys: seq<Text>, o: Object)
    requires (forall k :: k in keys ==> k in o) && PlainObject(o) && map[] + Pick(keys, o) == o
    ensures Parse([OPEN] + (PrintMembers(keys, o) + ([CLOSE] + [NEWLINE]))) == Some(o)
  {
    if keys == [] {
      EmptyInverse();
      assert PrintMembers(keys, o) + ([CLOSE] + [NEWLINE]) == [CLOSE] + [NEWLINE];
    } else {
      MembersThen(keys, o, [CLOSE] + [NEWLINE]);
      MembersInverse(keys, o, [NEWLINE], map[]);
      ParseBody(PrintMembers(keys, o) + ([CLOSE] + [NEWLINE]), o);
    }
  }

  lemma ParseInverse(o: Object)
    requires PlainObject(o)
    ensures Parse(Print(o)) == Some(o)
  {
    PrintShape(o);
    KeysRebuild(o);
    BodyInverse(SortedKeys(o.Keys), o);
  }

  lemma ParsedIsPlain(s: Bytes)
    requires Parse(s).Some?
    ensures PlainObject(Parse(s).value)
  {
    var first := SkipSpace(SkipSpace(s)[1..]);
    if !(first != [] && first[0] == CLOSE) { ParsedMembersArePlain(first, map[]); }
  }

  /** Printing and checking gives the object back exactly when no string in it has a high surrogate directly
      before a low one: Python prints such a pair as it would print the one code point the pair encodes. */
  lemma PrintThenCheck(o: Object)
    ensures CanonicalObject(Print(o)) == Some(o) <==> PlainObject(o)
  {
    if PlainObject(o) {
      ParseInverse(o);
    } else if CanonicalObject(Print(o)) == Some(o) {
      ParsedIsPlain(Print(o));
    }
  }

  /** `_canonical_object` accepts exactly the canonical encodings, each of exactly one object: whatever else parses to
      that object (other order, spacing, escapes, repeated keys) is refused. */
  lemma CheckIsExact(payload: Bytes, o: Object)
    ensures CanonicalObject(payload) == Some(o) <==> PlainObject(o) && payload == Print(o)
  {
    PrintThenCheck(o);
    if CanonicalObject(payload) == Some(o) { ParsedIsPlain(payload); }
  }

  /** Equal bytes, equal objects. */
  lemma PrintIsInjective(a: Object, b: Object)
    requires PlainObject(a) && PlainObject(b)
    ensures Print(a) == Print(b) <==> a == b
  {
    PrintThenCheck(a);
    PrintThenCheck(b);
  }

  /** The condition is needed: a pair of surrogates and the code point it encodes print alike. */
  lemma SurrogatePairsCollide()
    ensures var pair, one: Object := map[[0x61] := Str([0xD83D, 0xDE00])], map[[0x61] := Str([0x1F600])];
      pair != one && Print(pair) == Print(one) && CanonicalObject(Print(pair)) == Some(one)
  {
    var k: Text, a: Text, b: Text := [0x61], [0xD83D, 0xDE00], [0x1F600];
    var pair, one: Object := map[k := Str(a)], map[k := Str(b)];
    SameEscape();
    assert Str(a) != Str(b) by { assert |a| != |b|; }
    assert pair[k] != one[k];
    var keys := SortedKeys({k});
    assert keys == [k] by { assert |keys| == 1 && keys[0] in keys; }
    assert pair.Keys == {k} && one.Keys == {k};
    assert PrintMembers([k], pair) == PrintText(k) + [COLON] + PrintText(a) + [];
    assert PrintMembers([k], one) == PrintText(k) + [COLON] + PrintText(b) + [];
    PrintThenCheck(one);
  }

  lemma SameEscape()
    ensures var a: Text, b: Text := [0xD83D, 0xDE00], [0x1F600]; PrintText(a) == PrintText(b)
  {
    var a: Text, b: Text, low: Text := [0xD83D, 0xDE00], [0x1F600], [0xDE00];
    assert a[1..] == low && low[1..] == [] && b[1..] == [];
    assert EscapeAll(low) == Escape(0xDE00) + EscapeAll(low[1..]) == Unicode(0xDE00);
    assert EscapeAll(a) == Escape(0xD83D) + EscapeAll(low);
    assert EscapeAll(b) == Escape(0x1F600) + EscapeAll(b[1..]) == Escape(0x1F600);
  }

  // ---- the bytes themselves ----

  /** Four lower-case hexadecimal digits, most significant first, that stand for `n`. */
  predicate SpellsHex(s: Bytes, n: int) {
    && |s| == 4 && (forall i :: 0 <= i < 4 ==> 48 <= s[i] <= 57 || 97 <= s[i] <= 102)
    && n == ((Lower(s[0]) * 16 + Lower(s[1])) * 16 + Lower(s[2])) * 16 + Lower(s[3])
  }

  function Lower(b: Byte): int {
    if b <= 57 then b - 48 else b - 87
  }

  lemma Hex4Spelled(n: int)
    requires 0 <= n < 0x10000
    ensures SpellsHex(Hex4(n), n)
  {
    FourDigits(n);
    var s := Hex4(n);
    assert Lower(s[0]) == n / 4096 && Lower(s[1]) == n / 256 % 16 && Lower(s[2]) == n / 16 % 16 && Lower(s[3]) == n % 16;
  }

  /** How one character is printed: `"` and `\\` behind a backslash; backspace, tab, line feed, form feed and carriage
      return as a backslash and a letter; other printable ASCII as it is; and anything else as `\\u` and four digits, or
      twice so, as a pair of surrogates. */
  lemma EscapeIsSpelled(c: CodePoint)
    ensures c in {34, 92} ==> Escape(c) == [92, c]
    ensures (c == 8 ==> Escape(c) == [92, 98]) && (c == 9 ==> Escape(c) == [92, 116]) && (c == 10 ==> Escape(c) == [92, 110])
    ensures (c == 12 ==> Escape(c) == [92, 102]) && (c == 13 ==> Escape(c) == [92, 114])
    ensures 32 <= c <= 126 && c !in {34, 92} ==> Escape(c) == [c]
    ensures c < 0x10000 && !(32 <= c <= 126) && c !in {8, 9, 10, 12, 13} ==>
      |Escape(c)| == 6 && Escape(c)[..2] == [92, 117] && SpellsHex(Escape(c)[2..], c)
    ensures c >= 0x10000 ==>
      && |Escape(c)| == 12 && Escape(c)[..2] == [92, 117] && Escape(c)[6..8] == [92, 117]
      && exists hi, lo :: 0xD800 <= hi <= 0xDBFF && 0xDC00 <= lo <= 0xDFFF && c == 0x10000 + (hi - 0xD800) * 0x400 + (lo - 0xDC00)
           && SpellsHex(Escape(c)[2..6], hi) && SpellsHex(Escape(c)[8..], lo)
  {
    if c < 0x10000 {
      Hex4Spelled(c);
      if !(32 <= c <= 126) && c !in {8, 9, 10, 12, 13} { assert Escape(c)[2..] == Hex4(c); }
    } else {
      var hi, lo := 0xD800 + (c - 0x10000) / 1024, 0xDC00 + (c - 0x10000) % 1024;
      Hex4Spelled(hi);
      Hex4Spelled(lo);
      assert Escape(c)[2..6] == Hex4(hi) && Escape(c)[8..] == Hex4(lo);
    }
  }

  /** Printable ASCII. */
  predicate IsAscii(s: Bytes) {
    forall i :: 0 <= i < |s| ==> 32 <= s[i] <= 126
  }

  lemma AsciiJoin(a: Bytes, b: Bytes)
    requires IsAscii(a) && IsAscii(b)
    ensures IsAscii(a + b)
  {
  }

  lemma {:induction false} TextIsAscii(t: Text)
    ensures IsAscii(EscapeAll(t))
  {
    if t != [] {
      CharIsAscii(t[0]);
      TextIsAscii(t[1..]);
    }
  }

  lemma CharIsAscii(c: CodePoint)
    ensures IsAscii(Escape(c))
  {
    if c < 0x10000 {
      Hex4Spelled(c);
    } else {
      Hex4Spelled(0xD800 + (c - 0x10000) / 1024);
      Hex4Spelled(0xDC00 + (c - 0x10000) % 1024);
    }
  }

  lemma {:induction false} NatIsAscii(n: nat)
    ensures IsAscii(PrintNat(n))
  {
    if n >= 10 { NatIsAscii(n / 10); }
  }

  lemma ValueIsAscii(v: Value)
    ensures IsAscii(PrintValue(v))
  {
    match v
    case Str(t) => TextIsAscii(t);
    case Int(n) => NatIsAscii(if n < 0 then -n else n);
    case _ =>
  }

  lemma {:induction false} MembersAreAscii(keys: seq<Text>, o: Object)
    requires forall k :: k in keys ==> k in o
    ensures IsAscii(PrintMembers(keys, o))
  {
    if keys != [] {
      var name, v := PrintText(keys[0]), PrintValue(o[keys[0]]);
      TextIsAscii(keys[0]);
      ValueIsAscii(o[keys[0]]);
      MembersAreAscii(keys[1..], o);
      AsciiJoin(name, [COLON]);
      AsciiJoin(name + [COLON], v);
      AsciiJoin([COMMA], PrintMembers(keys[1..], o));
      AsciiJoin(name + [COLON] + v, if |keys| == 1 then [] else [COMMA] + PrintMembers(keys[1..], o));
    }
  }

  /** Whatever the strings hold, the file is one line of printable ASCII: an object in braces and a line feed. */
  lemma PrintIsOneLine(o: Object)
    ensures var s := Print(o);
      && |s| >= 3 && s[0] == 123 && s[|s| - 2] == 125 && s[|s| - 1] == 10
      && forall i :: 0 <= i < |s| - 1 ==> 32 <= s[i] <= 126
  {
    var body := PrintMembers(SortedKeys(o.Keys), o);
    MembersAreAscii(SortedKeys(o.Keys), o);
    InBraces(body);
    Assoc([OPEN] + body, [CLOSE], [NEWLINE]);
    assert [CLOSE] + [NEWLINE] == [CLOSE, NEWLINE];
  }

  lemma InBraces(body: Bytes)
    requires IsAscii(body)
    ensures var s := [OPEN] + body + [CLOSE]; IsAscii(s) && |s| >= 2 && s[0] == 123 && s[|s| - 1] == 125
  {
    AsciiJoin([OPEN], body);
    AsciiJoin([OPEN] + body, [CLOSE]);
  }
}
