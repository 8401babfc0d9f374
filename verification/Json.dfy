/** The fragment of JSON the shadow event log is written in: the compact, sorted-key,
    ASCII-only encoder of `_json_bytes`, and a decoder for `json.loads`.

    A byte of the file is written as the character with the same code. */
module Json {
  import opened Wrappers

  /** A number literal with a fraction or an exponent (RFC 8259, section 6): the
      shortest text that Python prints for a finite float stands for that float. */
  type FloatText = t: string | IsFloatText(t) witness "0.0"

  datatype Json =
    | Null
    | Bool(b: bool)
    | Int(n: int)
    | Float(text: FloatText)
    | Str(s: string)
    | Arr(items: Items)
    | Obj(members: Members)

  datatype Items = NoItems | Items(head: Json, tail: Items)

  /** A dictionary, as its members in the order in which the encoder writes them. */
  datatype Members = NoMembers | Members(key: string, value: Json, rest: Members)

  // ----- Characters

  predicate IsDigit(c: char) { '0' <= c <= '9' }

  predicate IsSpace(c: char) { c == ' ' || c == '\t' || c == '\n' || c == '\r' }

  /** The characters number literals are made of. */
  predicate NumberChar(c: char) { IsDigit(c) || c == '+' || c == '-' || c == '.' || c == 'e' || c == 'E' }

  predicate Printable(s: string) { forall i :: 0 <= i < |s| ==> ' ' <= s[i] <= '~' }

  function HexDigit(d: nat): char
    requires d < 16
  {
    if d < 10 then '0' + (d as char) else 'a' + ((d - 10) as char)
  }

  function HexValue(c: char): Option<nat> {
    if IsDigit(c) then Some(c as int - '0' as int)
    else if 'a' <= c <= 'f' then Some(c as int - 'a' as int + 10)
    else if 'A' <= c <= 'F' then Some(c as int - 'A' as int + 10)
    else None
  }

  function Hex2(b: nat): string
    requires b < 0x100
  {
    [HexDigit(b / 16), HexDigit(b % 16)]
  }

  function Hex4(n: nat): string
    requires n < 0x10000
  {
    Hex2(n / 0x100) + Hex2(n % 0x100)
  }

  // ----- Encoder

  /** The two-character escapes. */
  function ShortEscape(c: char): Option<char> {
    if c == '\"' then Some('\"')
    else if c == '\\' then Some('\\')
    else if c == '\n' then Some('n')
    else if c == '\r' then Some('r')
    else if c == '\t' then Some('t')
    else if c as int == 8 then Some('b')
    else if c as int == 12 then Some('f')
    else None
  }

  function SurrogatePair(v: nat): string
    requires v < 0x100000
  {
    Hex4(0xD800 + v / 0x400) + ("\\u" + Hex4(0xDC00 + v % 0x400))
  }

  /** One character inside a string literal: everything outside printable ASCII is
      escaped, and a character beyond the basic plane becomes a surrogate pair. */
  function Escape(c: char): string {
    match ShortEscape(c)
    case Some(e) => ['\\', e]
    case None =>
      if ' ' <= c <= '~' then [c]
      else if c as int < 0x10000 then "\\u" + Hex4(c as int)
      else "\\u" + SurrogatePair(c as int - 0x10000)
  }

  function EscapeAll(s: string): string {
    if s == "" then "" else Escape(s[0]) + EscapeAll(s[1..])
  }

  function Quote(s: string): string { "\"" + EscapeAll(s) + "\"" }

  function Digits(n: nat): string {
    (if n < 10 then "" else Digits(n / 10)) + ['0' + ((n % 10) as char)]
  }

  function IntText(n: int): string {
    if n < 0 then "-" + Digits(-n) else Digits(n)
  }

  function MemberText(key: string, value: string): string { Quote(key) + (":" + value) }

  function Encode(v: Json): string
    decreases v
  {
    match v
    case Null => "null"
    case Bool(b) => if b then "true" else "false"
    case Int(n) => IntText(n)
    case Float(text) => text
    case Str(s) => Quote(s)
    case Arr(NoItems) => "[]"
    case Arr(Items(head, tail)) => "[" + (Encode(head) + ItemsTail(tail))
    case Obj(NoMembers) => "{}"
    case Obj(Members(key, value, rest)) => "{" + (MemberText(key, Encode(value)) + MembersTail(rest))
  }

  function ItemsTail(items: Items): string
    decreases items
  {
    match items
    case NoItems => "]"
    case Items(head, tail) => "," + (Encode(head) + ItemsTail(tail))
  }

  function MembersTail(members: Members): string
    decreases members
  {
    match members
    case NoMembers => "}"
    case Members(key, value, rest) => "," + (MemberText(key, Encode(value)) + MembersTail(rest))
  }

  // ----- Decoder

  /** What a parser made of the front of its input: a value and the unread rest. */
  datatype Parsed<+T> = Fail | Got(value: T, rest: string)

  function SkipSpace(s: string): (r: string)
    ensures |r| <= |s|
    ensures r != "" ==> !IsSpace(r[0])
  {
    if s != "" && IsSpace(s[0]) then SkipSpace(s[1..]) else s
  }

  function DigitSpan(s: string): (n: nat)
    ensures n <= |s|
    ensures forall i :: 0 <= i < n ==> IsDigit(s[i])
    ensures n < |s| ==> !IsDigit(s[n])
  {
    if s != "" && IsDigit(s[0]) then 1 + DigitSpan(s[1..]) else 0
  }

  function NumberSpan(s: string): (n: nat)
    ensures n <= |s|
    ensures forall i :: 0 <= i < n ==> NumberChar(s[i])
    ensures n < |s| ==> !NumberChar(s[n])
  {
    if s != "" && NumberChar(s[0]) then 1 + NumberSpan(s[1..]) else 0
  }

  function Magnitude(t: string): string {
    if t != "" && t[0] == '-' then t[1..] else t
  }

  predicate AllDigits(t: string) { forall i :: 0 <= i < |t| ==> IsDigit(t[i]) }

  predicate IsWhole(t: string) { t != "" && AllDigits(t) && (t[0] == '0' ==> |t| == 1) }

  predicate IsIntText(t: string) { IsWhole(Magnitude(t)) }

  predicate IsExponent(t: string) {
    && t != "" && (t[0] == 'e' || t[0] == 'E')
    && var digits := if |t| > 1 && (t[1] == '+' || t[1] == '-') then t[2..] else t[1..];
    digits != "" && AllDigits(digits)
  }

  predicate IsFloatText(t: string) {
    && (forall i :: 0 <= i < |t| ==> NumberChar(t[i]))
    && var u := Magnitude(t);
    var n := DigitSpan(u);
    && IsWhole(u[..n])
    && n < |u|
    && if u[n] == '.' then
         var f := DigitSpan(u[n + 1..]);
         f > 0 && (n + 1 + f == |u| || IsExponent(u[n + 1 + f..]))
       else IsExponent(u[n..])
  }

  function WholeValue(t: string): nat
    requires AllDigits(t)
  {
    if t == "" then 0 else 10 * WholeValue(t[..|t| - 1]) + (t[|t| - 1] as int - '0' as int)
  }

  function ParseNumber(s: string): (p: Parsed<Json>)
    ensures p.Got? ==> |p.rest| < |s| && (p.rest != "" ==> !NumberChar(p.rest[0]))
    ensures p.Got? ==> p.value.Int? || p.value.Float?
  {
    var n := NumberSpan(s);
    var text := s[..n];
    if IsIntText(text) then
      var magnitude: int := WholeValue(Magnitude(text));
      Got(Int(if text[0] == '-' then -magnitude else magnitude), s[n..])
    else if IsFloatText(text) then Got(Float(text), s[n..])
    else Fail
  }

  function ParseHex2(s: string): (p: Parsed<nat>)
    ensures p.Got? ==> |s| >= 2 && p.rest == s[2..] && p.value < 0x100
  {
    if |s| < 2 then Fail
    else match (HexValue(s[0]), HexValue(s[1]))
      case (Some(a), Some(b)) => Got(16 * a + b, s[2..])
      case _ => Fail
  }

  function ParseHex4(s: string): (p: Parsed<nat>)
    ensures p.Got? ==> |s| >= 4 && p.rest == s[4..] && p.value < 0x10000
  {
    match ParseHex2(s)
    case Fail => Fail
    case Got(a, rest) =>
      match ParseHex2(rest)
      case Fail => Fail
      case Got(b, rest') => Got(0x100 * a + b, rest')
  }

  /** The part of a `\u` escape after the `u`. A lone surrogate is refused. */
  function ParseUnicode(s: string): (p: Parsed<char>)
    ensures p.Got? ==> |p.rest| < |s|
  {
    match ParseHex4(s)
    case Fail => Fail
    case Got(high, rest) =>
      if 0xD800 <= high < 0xDC00 then
        if |rest| >= 2 && rest[0] == '\\' && rest[1] == 'u' then
          match ParseHex4(rest[2..])
          case Fail => Fail
          case Got(low, rest') =>
            if 0xDC00 <= low < 0xE000 then
              Got((0x10000 + 0x400 * (high - 0xD800) + (low - 0xDC00)) as char, rest')
            else Fail
        else Fail
      else if 0xDC00 <= high < 0xE000 then Fail
      else Got(high as char, rest)
  }

  function ParseEscaped(s: string): (p: Parsed<char>)
    requires s != ""
    ensures p.Got? ==> |p.rest| < |s|
  {
    match s[0]
    case '\"' => Got('\"', s[1..])
    case '\\' => Got('\\', s[1..])
    case '/' => Got('/', s[1..])
    case 'n' => Got('\n', s[1..])
    case 'r' => Got('\r', s[1..])
    case 't' => Got('\t', s[1..])
    case 'b' => Got(8 as char, s[1..])
    case 'f' => Got(12 as char, s[1..])
    case 'u' => ParseUnicode(s[1..])
    case _ => Fail
  }

  /** One character of a string literal: raw control characters and bytes outside
      ASCII are refused. */
  function ParseChar(s: string): (p: Parsed<char>)
    requires s != ""
    ensures p.Got? ==> |p.rest| < |s|
  {
    if s[0] == '\\' then (if |s| > 1 then ParseEscaped(s[1..]) else Fail)
    else if ' ' <= s[0] && s[0] as int < 0x80 then Got(s[0], s[1..])
    else Fail
  }

  /** The body of a string literal up to and including its closing quote. */
  function ParseString(s: string): (p: Parsed<string>)
    ensures p.Got? ==> |p.rest| < |s|
    decreases |s|
  {
    if s == "" then Fail
    else if s[0] == '\"' then Got("", s[1..])
    else match ParseChar(s)
      case Fail => Fail
      case Got(c, rest) =>
        match ParseString(rest)
        case Fail => Fail
        case Got(cs, rest') => Got([c] + cs, rest')
  }

  predicate StartsWith(s: string, word: string) { |word| <= |s| && s[..|word|] == word }

  function ParseValue(s0: string): (p: Parsed<Json>)
    ensures p.Got? ==> |p.rest| < |s0|
    decreases |s0|, 1
  {
    var s := SkipSpace(s0);
    if s == "" then Fail
    else if s[0] == '{' then ParseObject(s[1..])
    else if s[0] == '[' then ParseArray(s[1..])
    else if s[0] == '\"' then
      match ParseString(s[1..])
      case Fail => Fail
      case Got(cs, r) => Got(Str(cs), r)
    else if s[0] == 'n' then (if StartsWith(s, "null") then Got(Null, s[4..]) else Fail)
    else if s[0] == 't' then (if StartsWith(s, "true") then Got(Bool(true), s[4..]) else Fail)
    else if s[0] == 'f' then (if StartsWith(s, "false") then Got(Bool(false), s[5..]) else Fail)
    else ParseNumber(s)
  }

  /** An object after its opening brace. */
  function ParseObject(s0: string): (p: Parsed<Json>)
    ensures p.Got? ==> |p.rest| < |s0| && p.value.Obj?
    decreases |s0|, 2
  {
    var s := SkipSpace(s0);
    if s != "" && s[0] == '}' then Got(Obj(NoMembers), s[1..])
    else match ParseMember(s)
      case Fail => Fail
      case Got((key, value), r) =>
        match ParseMembersTail(r)
        case Fail => Fail
        case Got(rest, r') => Got(Obj(Members(key, value, rest)), r')
  }

  /** An array after its opening bracket. */
  function ParseArray(s0: string): (p: Parsed<Json>)
    ensures p.Got? ==> |p.rest| < |s0| && p.value.Arr?
    decreases |s0|, 2
  {
    var s := SkipSpace(s0);
    if s != "" && s[0] == ']' then Got(Arr(NoItems), s[1..])
    else match ParseValue(s)
      case Fail => Fail
      case Got(head, r) =>
        match ParseItemsTail(r)
        case Fail => Fail
        case Got(tail, r') => Got(Arr(Items(head, tail)), r')
  }

  function ParseItemsTail(s0: string): (p: Parsed<Items>)
    ensures p.Got? ==> |p.rest| < |s0|
    decreases |s0|, 0
  {
    var s := SkipSpace(s0);
    if s == "" then Fail
    else if s[0] == ']' then Got(NoItems, s[1..])
    else if s[0] == ',' then
      match ParseValue(s[1..])
      case Fail => Fail
      case Got(head, r) =>
        match ParseItemsTail(r)
        case Fail => Fail
        case Got(tail, r') => Got(Items(head, tail), r')
    else Fail
  }

  function ParseMember(s0: string): (p: Parsed<(string, Json)>)
    ensures p.Got? ==> |p.rest| < |s0|
    decreases |s0|, 0
  {
    var s := SkipSpace(s0);
    if s == "" || s[0] != '\"' then Fail
    else match ParseString(s[1..])
      case Fail => Fail
      case Got(key, r) =>
        var t := SkipSpace(r);
        if t == "" || t[0] != ':' then Fail
        else match ParseValue(t[1..])
          case Fail => Fail
          case Got(value, r') => Got((key, value), r')
  }

  function ParseMembersTail(s0: string): (p: Parsed<Members>)
    ensures p.Got? ==> |p.rest| < |s0|
    decreases |s0|, 1
  {
    var s := SkipSpace(s0);
    if s == "" then Fail
    else if s[0] == '}' then Got(NoMembers, s[1..])
    else if s[0] == ',' then
      match ParseMember(s[1..])
      case Fail => Fail
      case Got((key, value), r) =>
        match ParseMembersTail(r)
        case Fail => Fail
        case Got(rest, r') => Got(Members(key, value, rest), r')
    else Fail
  }

  /** `json.loads` on one line: nothing but white space may follow the value. */
  function Decode(s: string): Option<Json> {
    match ParseValue(s)
    case Fail => None
    case Got(v, rest) => if SkipSpace(rest) == "" then Some(v) else None
  }
}
