/** Round trip, framing and prefix-freeness of the JSON fragment. */
module JsonProofs {
  import opened Wrappers
  import opened Json

  // ----- Concatenation

  lemma Peel(c: char, a: string, b: string, rest: string)
    ensures var s := [c] + (a + b) + rest; s[0] == c && s[1..] == a + (b + rest)
  {
    var s, t := [c] + (a + b) + rest, a + (b + rest);
    assert s == [c] + t;
  }

  lemma Behind(c: char, t: string)
    ensures ([c] + t)[0] == c && ([c] + t)[1..] == t
  {
  }

  lemma NotSpace(s: string)
    requires s != "" && !IsSpace(s[0])
    ensures SkipSpace(s) == s
  {
  }

  // ----- Characters and strings

  lemma HexDigitValue(d: nat)
    requires d < 16
    ensures HexValue(HexDigit(d)) == Some(d)
  {
  }

  lemma Hex2RoundTrip(b: nat, rest: string)
    requires b < 0x100
    ensures ParseHex2(Hex2(b) + rest) == Got(b, rest)
  {
    HexDigitValue(b / 16);
    HexDigitValue(b % 16);
    assert (Hex2(b) + rest)[2..] == rest;
  }

  lemma Hex4RoundTrip(n: nat, rest: string)
    requires n < 0x10000
    ensures ParseHex4(Hex4(n) + rest) == Got(n, rest)
  {
    assert Hex4(n) + rest == Hex2(n / 0x100) + (Hex2(n % 0x100) + rest);
    Hex2RoundTrip(n / 0x100, Hex2(n % 0x100) + rest);
    Hex2RoundTrip(n % 0x100, rest);
  }

  lemma BasicRoundTrip(c: char, rest: string)
    requires c as int < 0x10000
    ensures ParseUnicode(Hex4(c as int) + rest) == Got(c, rest)
  {
    Hex4RoundTrip(c as int, rest);
  }

  lemma SurrogateRoundTrip(v: nat, rest: string)
    requires v < 0x100000
    ensures ParseUnicode(SurrogatePair(v) + rest) == Got((0x10000 + v) as char, rest)
  {
    hide ParseHex4, Hex4, ParseUnicode;
    var high, low := 0xD800 + v / 0x400, 0xDC00 + v % 0x400;
    var more := Hex4(low) + rest;
    var tail := "\\u" + more;
    Hex4RoundTrip(low, rest);
    Hex4RoundTrip(high, tail);
    assert SurrogatePair(v) + rest == Hex4(high) + tail;
    PairRoundTrip(Hex4(high) + tail, high, low, more, rest);
  }

  lemma PairRoundTrip(s: string, high: nat, low: nat, more: string, rest: string)
    requires 0xD800 <= high < 0xDC00 <= low < 0xE000
    requires ParseHex4(s) == Got(high, "\\u" + more)
    requires ParseHex4(more) == Got(low, rest)
    ensures ParseUnicode(s) == Got((0x10000 + 0x400 * (high - 0xD800) + (low - 0xDC00)) as char, rest)
  {
    var tail := "\\u" + more;
    assert tail[0] == '\\' && tail[1] == 'u' && tail[2..] == more;
  }

  lemma ShortEscapeRoundTrip(c: char, rest: string)
    requires ShortEscape(c).Some?
    ensures ParseChar(Escape(c) + rest) == Got(c, rest)
  {
    var s := Escape(c) + rest;
    assert s[0] == '\\' && s[1] == ShortEscape(c).value;
    assert s[1..][1..] == rest;
  }

  lemma UnicodeEscapeRoundTrip(c: char, code: string, rest: string)
    requires ParseUnicode(code + rest) == Got(c, rest)
    ensures ParseChar("\\u" + code + rest) == Got(c, rest)
  {
    var s := "\\u" + code + rest;
    assert s[0] == '\\' && s[1..][0] == 'u';
    assert s[1..][1..] == code + rest;
  }

  lemma CharRoundTrip(c: char, rest: string)
    ensures Escape(c) != "" && Escape(c)[0] != '\"'
    ensures ParseChar(Escape(c) + rest) == Got(c, rest)
  {
    if ShortEscape(c).Some? {
      ShortEscapeRoundTrip(c, rest);
    } else if ' ' <= c <= '~' {
      assert ([c] + rest)[1..] == rest;
    } else if c as int < 0x10000 {
      BasicRoundTrip(c, rest);
      UnicodeEscapeRoundTrip(c, Hex4(c as int), rest);
    } else {
      SurrogateRoundTrip(c as int - 0x10000, rest);
      UnicodeEscapeRoundTrip(c, SurrogatePair(c as int - 0x10000), rest);
    }
  }

  lemma {:induction false} StringRoundTrip(s: string, rest: string)
    ensures ParseString(EscapeAll(s) + "\"" + rest) == Got(s, rest)
  {
    if s == "" {
      assert (EscapeAll(s) + "\"" + rest)[1..] == rest;
    } else {
      var more := EscapeAll(s[1..]) + "\"" + rest;
      var text := Escape(s[0]) + more;
      assert EscapeAll(s) + "\"" + rest == text;
      CharRoundTrip(s[0], more);
      StringRoundTrip(s[1..], rest);
      assert text[0] != '\"';
      assert [s[0]] + s[1..] == s;
    }
  }

  lemma QuoteRoundTrip(s: string, rest: string)
    ensures var t := Quote(s) + rest; t[0] == '\"' && ParseString(t[1..]) == Got(s, rest)
  {
    assert (Quote(s) + rest)[1..] == EscapeAll(s) + "\"" + rest;
    StringRoundTrip(s, rest);
  }

  // ----- Numbers

  lemma {:induction false} DigitsRoundTrip(n: nat)
    ensures IsWhole(Digits(n)) && WholeValue(Digits(n)) == n
    ensures n > 0 ==> Digits(n)[0] != '0'
  {
    var d := ['0' + ((n % 10) as char)];
    if n < 10 {
      assert Digits(n) == d && d[..0] == "";
    } else {
      DigitsRoundTrip(n / 10);
      var t := Digits(n);
      assert t == Digits(n / 10) + d;
      assert t[..|t| - 1] == Digits(n / 10);
    }
  }

  lemma IntTextRoundTrip(n: int)
    ensures IntText(n) != "" && forall i :: 0 <= i < |IntText(n)| ==> NumberChar(IntText(n)[i])
    ensures IsIntText(IntText(n))
    ensures var m: int := WholeValue(Magnitude(IntText(n))); n == if IntText(n)[0] == '-' then -m else m
  {
    var d := Digits(if n < 0 then -n else n);
    DigitsRoundTrip(if n < 0 then -n else n);
    assert IsDigit(d[0]);
    if n < 0 {
      var t := IntText(n);
      assert t == "-" + d;
      assert t[1..] == d;
      assert forall i :: 0 <= i < |d| ==> t[i + 1] == d[i];
    }
  }

  lemma FloatIsNotInt(t: string)
    requires IsFloatText(t)
    ensures !IsIntText(t) && t != ""
  {
    var u := Magnitude(t);
    assert !IsDigit(u[DigitSpan(u)]);
  }

  /** The next character does not continue a number. */
  predicate Delimited(rest: string) { rest == "" || !NumberChar(rest[0]) }

  lemma {:induction false} NumberSpanOf(text: string, rest: string)
    requires forall i :: 0 <= i < |text| ==> NumberChar(text[i])
    requires Delimited(rest)
    ensures NumberSpan(text + rest) == |text|
  {
    if text == "" {
      assert text + rest == rest;
    } else {
      assert (text + rest)[1..] == text[1..] + rest;
      NumberSpanOf(text[1..], rest);
    }
  }

  lemma NumberRoundTrip(v: Json, rest: string)
    requires v.Int? || v.Float?
    requires Delimited(rest)
    ensures Encode(v) != "" && NumberChar(Encode(v)[0])
    ensures ParseNumber(Encode(v) + rest) == Got(v, rest)
  {
    var text := Encode(v);
    if v.Int? {
      IntTextRoundTrip(v.n);
    } else {
      FloatIsNotInt(text);
    }
    NumberSpanOf(text, rest);
    assert (text + rest)[..|text|] == text && (text + rest)[|text|..] == rest;
  }

  // ----- Round trip

  /** Every encoding starts with a character that is not white space and tells the
      kind of value apart. */
  lemma EncodeHead(v: Json)
    ensures Encode(v) != "" && !IsSpace(Encode(v)[0])
    ensures Encode(v)[0] == '{' <==> v.Obj?
    ensures Encode(v)[0] == '[' <==> v.Arr?
    ensures Encode(v)[0] == '\"' <==> v.Str?
    ensures Encode(v)[0] != '}' && Encode(v)[0] != ']'
    ensures v.Int? || v.Float? ==> NumberChar(Encode(v)[0])
  {
    if v.Int? || v.Float? {
      NumberRoundTrip(v, "");
    }
  }

  lemma AtomRoundTrip(v: Json, rest: string)
    requires !v.Arr? && !v.Obj?
    requires Delimited(rest)
    ensures ParseValue(Encode(v) + rest) == Got(v, rest)
  {
    hide ParseObject, ParseArray, ParseString, ParseNumber, Quote, Delimited;
    EncodeHead(v);
    var s := Encode(v) + rest;
    assert s[0] == Encode(v)[0];
    match v {
      case Str(cs) => QuoteRoundTrip(cs, rest);
      case Null => assert s[..4] == "null" && s[4..] == rest;
      case Bool(b) =>
        if b {
          assert s[..4] == "true" && s[4..] == rest;
        } else {
          assert s[..5] == "false" && s[5..] == rest;
        }
      case Int(_) => NumberRoundTrip(v, rest);
      case Float(_) => NumberRoundTrip(v, rest);
    }
  }

  lemma {:induction false} RoundTrip(v: Json, rest: string)
    requires Delimited(rest)
    ensures ParseValue(Encode(v) + rest) == Got(v, rest)
    decreases v, 2
  {
    match v {
      case Arr(items) => ArrayRoundTrip(v, rest);
      case Obj(members) => ObjectRoundTrip(v, rest);
      case _ => AtomRoundTrip(v, rest);
    }
  }

  lemma {:induction false} ArrayRoundTrip(v: Json, rest: string)
    requires v.Arr? && Delimited(rest)
    ensures ParseValue(Encode(v) + rest) == Got(v, rest)
    decreases v, 1
  {
    match v.items {
      case NoItems =>
        Behind('[', "]" + rest);
        assert "[]" + rest == "[" + ("]" + rest);
        Behind(']', rest);
      case Items(head, tail) =>
        Peel('[', Encode(head), ItemsTail(tail), rest);
        ItemsRoundTrip(head, tail, rest);
    }
  }

  lemma {:induction false} ItemsRoundTrip(head: Json, tail: Items, rest: string)
    ensures ParseArray(Encode(head) + (ItemsTail(tail) + rest)) == Got(Arr(Items(head, tail)), rest)
    decreases Items(head, tail)
  {
    var t := Encode(head) + (ItemsTail(tail) + rest);
    EncodeHead(head);
    assert t[0] == Encode(head)[0];
    NotSpace(t);
    RoundTrip(head, ItemsTail(tail) + rest);
    ItemsTailRoundTrip(tail, rest);
  }

  lemma {:induction false} ObjectRoundTrip(v: Json, rest: string)
    requires v.Obj? && Delimited(rest)
    ensures ParseValue(Encode(v) + rest) == Got(v, rest)
    decreases v, 1
  {
    hide ParseArray, ParseString, ParseNumber, ParseMember, ParseMembersTail, MemberText, MembersTail, Quote, Delimited;
    match v.members {
      case NoMembers =>
        Behind('{', "}" + rest);
        assert "{}" + rest == "{" + ("}" + rest);
        Behind('}', rest);
      case Members(key, value, tail) =>
        Peel('{', MemberText(key, Encode(value)), MembersTail(tail), rest);
        MembersRoundTrip(key, value, tail, rest);
    }
  }

  lemma {:induction false} MembersRoundTrip(key: string, value: Json, tail: Members, rest: string)
    ensures ParseObject(MemberText(key, Encode(value)) + (MembersTail(tail) + rest)) ==
            Got(Obj(Members(key, value, tail)), rest)
    decreases Members(key, value, tail)
  {
    var t := MemberText(key, Encode(value)) + (MembersTail(tail) + rest);
    assert t[0] == '\"';
    NotSpace(t);
    MemberRoundTrip(key, value, MembersTail(tail) + rest);
    MembersTailRoundTrip(tail, rest);
  }

  lemma {:induction false} ItemsTailRoundTrip(items: Items, rest: string)
    ensures ParseItemsTail(ItemsTail(items) + rest) == Got(items, rest)
    decreases items
  {
    match items {
      case NoItems =>
        Behind(']', rest);
      case Items(head, tail) =>
        Peel(',', Encode(head), ItemsTail(tail), rest);
        RoundTrip(head, ItemsTail(tail) + rest);
        ItemsTailRoundTrip(tail, rest);
    }
  }

  lemma MemberTextHead(key: string, value: string, rest: string)
    ensures var t := MemberText(key, value) + rest;
            t[0] == '\"' && ParseString(t[1..]) == Got(key, ":" + (value + rest))
  {
    assert MemberText(key, value) + rest == Quote(key) + (":" + (value + rest));
    QuoteRoundTrip(key, ":" + (value + rest));
  }

  lemma {:induction false} MemberRoundTrip(key: string, value: Json, rest: string)
    requires Delimited(rest)
    ensures ParseMember(MemberText(key, Encode(value)) + rest) == Got((key, value), rest)
    decreases value, 3
  {
    var s := MemberText(key, Encode(value)) + rest;
    var t := ":" + (Encode(value) + rest);
    MemberTextHead(key, Encode(value), rest);
    NotSpace(s);
    NotSpace(t);
    Behind(':', Encode(value) + rest);
    RoundTrip(value, rest);
  }

  lemma {:induction false} MembersTailRoundTrip(members: Members, rest: string)
    ensures ParseMembersTail(MembersTail(members) + rest) == Got(members, rest)
    decreases members
  {
    match members {
      case NoMembers =>
        Behind('}', rest);
      case Members(key, value, tail) =>
        Peel(',', MemberText(key, Encode(value)), MembersTail(tail), rest);
        MemberRoundTrip(key, value, MembersTail(tail) + rest);
        MembersTailRoundTrip(tail, rest);
    }
  }

  /** Decoding inverts encoding, for every value. */
  lemma DecodeEncode(v: Json)
    ensures Decode(Encode(v)) == Some(v)
  {
    RoundTrip(v, "");
    assert Encode(v) + "" == Encode(v);
  }

  // ----- Framing: an encoding is one line

  lemma PrintableConcat(a: string, b: string)
    requires Printable(a) && Printable(b)
    ensures Printable(a + b)
  {
  }

  lemma Hex4Printable(n: nat)
    requires n < 0x10000
    ensures Printable(Hex4(n)) && Printable("\\u" + Hex4(n))
  {
    PrintableConcat(Hex2(n / 0x100), Hex2(n % 0x100));
    PrintableConcat("\\u", Hex4(n));
  }

  lemma EscapePrintable(c: char)
    ensures Printable(Escape(c))
  {
    hide Hex4;
    if ShortEscape(c) == None && !(' ' <= c <= '~') {
      if c as int < 0x10000 {
        Hex4Printable(c as int);
      } else {
        var v := c as int - 0x10000;
        var high, low := 0xD800 + v / 0x400, 0xDC00 + v % 0x400;
        Hex4Printable(high);
        Hex4Printable(low);
        PrintableConcat(Hex4(high), "\\u" + Hex4(low));
        PrintableConcat("\\u", SurrogatePair(v));
      }
    }
  }

  lemma {:induction false} EscapeAllPrintable(s: string)
    ensures Printable(EscapeAll(s))
  {
    if s != "" {
      EscapePrintable(s[0]);
      EscapeAllPrintable(s[1..]);
      PrintableConcat(Escape(s[0]), EscapeAll(s[1..]));
    }
  }

  lemma NumberPrintable(v: Json)
    requires v.Int? || v.Float?
    ensures Printable(Encode(v))
  {
    if v.Int? {
      IntTextRoundTrip(v.n);
    }
  }

  lemma MemberPrintable(key: string, text: string, tail: string)
    requires Printable(text) && Printable(tail)
    ensures Printable(MemberText(key, text) + tail)
  {
    EscapeAllPrintable(key);
    PrintableConcat("\"", EscapeAll(key));
    PrintableConcat("\"" + EscapeAll(key), "\"");
    PrintableConcat(":", text);
    PrintableConcat(Quote(key), ":" + text);
    PrintableConcat(MemberText(key, text), tail);
  }

  /** An encoding holds no line break, control character or byte outside ASCII. */
  lemma {:induction false} EncodePrintable(v: Json)
    ensures Printable(Encode(v))
    decreases v
  {
    match v {
      case Null =>
      case Bool(_) =>
      case Int(_) => NumberPrintable(v);
      case Float(_) => NumberPrintable(v);
      case Str(s) => EscapeAllPrintable(s);
      case Arr(NoItems) =>
      case Arr(Items(head, tail)) =>
        EncodePrintable(head);
        ItemsTailPrintable(tail);
        PrintableConcat(Encode(head), ItemsTail(tail));
        PrintableConcat("[", Encode(head) + ItemsTail(tail));
      case Obj(NoMembers) =>
      case Obj(Members(key, value, rest)) =>
        EncodePrintable(value);
        MembersTailPrintable(rest);
        MemberPrintable(key, Encode(value), MembersTail(rest));
        PrintableConcat("{", MemberText(key, Encode(value)) + MembersTail(rest));
    }
  }

  lemma {:induction false} ItemsTailPrintable(items: Items)
    ensures Printable(ItemsTail(items))
    decreases items
  {
    match items {
      case NoItems =>
      case Items(head, tail) =>
        EncodePrintable(head);
        ItemsTailPrintable(tail);
        PrintableConcat(Encode(head), ItemsTail(tail));
        PrintableConcat(",", Encode(head) + ItemsTail(tail));
    }
  }

  lemma {:induction false} MembersTailPrintable(members: Members)
    ensures Printable(MembersTail(members))
    decreases members
  {
    match members {
      case NoMembers =>
      case Members(key, value, rest) =>
        EncodePrintable(value);
        MembersTailPrintable(rest);
        MemberPrintable(key, Encode(value), MembersTail(rest));
        PrintableConcat(",", MemberText(key, Encode(value)) + MembersTail(rest));
    }
  }

  // ----- Extension: appending input does not change what was parsed

  lemma {:induction false} SkipSpaceExtends(s: string, x: string)
    requires SkipSpace(s) != ""
    ensures SkipSpace(s + x) == SkipSpace(s) + x
  {
    if IsSpace(s[0]) {
      SkipSpaceExtends(s[1..], x);
      assert (s + x)[1..] == s[1..] + x;
    }
  }

  lemma ParseHex4Extends(s: string, x: string)
    requires ParseHex4(s).Got?
    ensures ParseHex4(s + x) == Got(ParseHex4(s).value, ParseHex4(s).rest + x)
  {
    assert (s + x)[4..] == s[4..] + x;
  }

  lemma ParseUnicodeExtends(s: string, x: string)
    requires ParseUnicode(s).Got?
    ensures ParseUnicode(s + x) == Got(ParseUnicode(s).value, ParseUnicode(s).rest + x)
  {
    hide ParseHex4;
    ParseHex4Extends(s, x);
    var rest := ParseHex4(s).rest;
    if 0xD800 <= ParseHex4(s).value < 0xDC00 {
      assert (rest + x)[2..] == rest[2..] + x;
      ParseHex4Extends(rest[2..], x);
    }
  }

  lemma ParseCharExtends(s: string, x: string)
    requires s != "" && ParseChar(s).Got?
    ensures ParseChar(s + x) == Got(ParseChar(s).value, ParseChar(s).rest + x)
  {
    hide ParseUnicode;
    assert (s + x)[1..] == s[1..] + x;
    if s[0] == '\\' {
      var t := s[1..];
      assert (t + x)[1..] == t[1..] + x;
      if t[0] == 'u' {
        ParseUnicodeExtends(t[1..], x);
      }
    }
  }

  lemma {:induction false} ParseStringExtends(s: string, x: string)
    requires ParseString(s).Got?
    ensures ParseString(s + x) == Got(ParseString(s).value, ParseString(s).rest + x)
    decreases |s|
  {
    if s[0] == '\"' {
      assert (s + x)[1..] == s[1..] + x;
    } else {
      ParseCharExtends(s, x);
      ParseStringExtends(ParseChar(s).rest, x);
    }
  }

  lemma TakeDrop(text: string, more: string)
    ensures (text + more)[..|text|] == text && (text + more)[|text|..] == more
  {
  }

  lemma ParseNumberExtends(s: string, x: string)
    requires ParseNumber(s).Got? && ParseNumber(s).rest != ""
    ensures ParseNumber(s + x) == Got(ParseNumber(s).value, ParseNumber(s).rest + x)
  {
    hide NumberSpan, IsIntText, IsFloatText, WholeValue, Magnitude, NumberChar;
    var n := NumberSpan(s);
    var text, more := s[..n], s[n..] + x;
    assert s + x == text + more;
    assert more[0] == s[n];
    NumberSpanOf(text, more);
    TakeDrop(text, more);
  }

  lemma StartsWithExtends(s: string, x: string, word: string)
    requires |word| <= |s|
    ensures StartsWith(s, word) == StartsWith(s + x, word)
    ensures (s + x)[|word|..] == s[|word|..] + x
  {
    assert (s + x)[..|word|] == s[..|word|];
  }

  predicate Closed(p: Parsed<Json>) { p.Got? && (p.rest == "" ==> !p.value.Int? && !p.value.Float?) }

  lemma AtomExtends(s: string, x: string)
    requires s != "" && !IsSpace(s[0]) && s[0] != '{' && s[0] != '['
    requires Closed(ParseValue(s))
    ensures ParseValue(s + x) == Got(ParseValue(s).value, ParseValue(s).rest + x)
  {
    assert SkipSpace(s) == s && SkipSpace(s + x) == s + x;
    assert (s + x)[0] == s[0];
    match s[0] {
      case '\"' =>
        assert (s + x)[1..] == s[1..] + x;
        ParseStringExtends(s[1..], x);
      case 'n' => StartsWithExtends(s, x, "null");
      case 't' => StartsWithExtends(s, x, "true");
      case 'f' => StartsWithExtends(s, x, "false");
      case _ => ParseNumberExtends(s, x);
    }
  }

  lemma {:induction false} ParseValueExtends(s0: string, x: string)
    requires Closed(ParseValue(s0))
    ensures ParseValue(s0 + x) == Got(ParseValue(s0).value, ParseValue(s0).rest + x)
    decreases |s0|, 1
  {
    var s := SkipSpace(s0);
    SkipSpaceExtends(s0, x);
    if s[0] == '{' {
      assert (s + x)[1..] == s[1..] + x;
      ParseObjectExtends(s[1..], x);
    } else if s[0] == '[' {
      assert (s + x)[1..] == s[1..] + x;
      ParseArrayExtends(s[1..], x);
    } else {
      SkipSpaceIdempotent(s0);
      SkipSpaceIdempotent(s0 + x);
      AtomExtends(s, x);
    }
  }

  lemma {:induction false} ParseObjectExtends(s0: string, x: string)
    requires ParseObject(s0).Got?
    ensures ParseObject(s0 + x) == Got(ParseObject(s0).value, ParseObject(s0).rest + x)
    decreases |s0|, 2
  {
    var s := SkipSpace(s0);
    SkipSpaceExtends(s0, x);
    if s[0] == '}' {
      assert (s + x)[1..] == s[1..] + x;
    } else {
      var r := ParseMember(s).rest;
      assert ParseMembersTail(r).Got? && r != "";
      ParseMemberExtends(s, x);
      ParseMembersTailExtends(r, x);
    }
  }

  lemma {:induction false} ParseArrayExtends(s0: string, x: string)
    requires ParseArray(s0).Got?
    ensures ParseArray(s0 + x) == Got(ParseArray(s0).value, ParseArray(s0).rest + x)
    decreases |s0|, 2
  {
    var s := SkipSpace(s0);
    SkipSpaceExtends(s0, x);
    if s[0] == ']' {
      assert (s + x)[1..] == s[1..] + x;
    } else {
      var r := ParseValue(s).rest;
      assert ParseItemsTail(r).Got? && r != "";
      ParseValueExtends(s, x);
      ParseItemsTailExtends(r, x);
    }
  }

  lemma SkipSpaceIdempotent(s: string)
    ensures SkipSpace(SkipSpace(s)) == SkipSpace(s)
    ensures ParseValue(SkipSpace(s)) == ParseValue(s)
  {
    assert SkipSpace(SkipSpace(s)) == SkipSpace(s);
  }

  lemma {:induction false} ParseItemsTailExtends(s0: string, x: string)
    requires ParseItemsTail(s0).Got?
    ensures ParseItemsTail(s0 + x) == Got(ParseItemsTail(s0).value, ParseItemsTail(s0).rest + x)
    decreases |s0|, 0
  {
    var s := SkipSpace(s0);
    SkipSpaceExtends(s0, x);
    assert (s + x)[1..] == s[1..] + x;
    if s[0] == ',' {
      var r := ParseValue(s[1..]).rest;
      assert SkipSpace(r) != "";
      ParseValueExtends(s[1..], x);
      ParseItemsTailExtends(r, x);
    }
  }

  lemma {:induction false} ParseMemberExtends(s0: string, x: string)
    requires ParseMember(s0).Got? && ParseMember(s0).rest != ""
    ensures ParseMember(s0 + x) == Got(ParseMember(s0).value, ParseMember(s0).rest + x)
    decreases |s0|, 0
  {
    var s := SkipSpace(s0);
    SkipSpaceExtends(s0, x);
    assert (s + x)[1..] == s[1..] + x;
    ParseStringExtends(s[1..], x);
    var r := ParseString(s[1..]).rest;
    SkipSpaceExtends(r, x);
    var t := SkipSpace(r);
    assert (t + x)[1..] == t[1..] + x;
    ParseValueExtends(t[1..], x);
  }

  lemma {:induction false} ParseMembersTailExtends(s0: string, x: string)
    requires ParseMembersTail(s0).Got?
    ensures ParseMembersTail(s0 + x) == Got(ParseMembersTail(s0).value, ParseMembersTail(s0).rest + x)
    decreases |s0|, 1
  {
    var s := SkipSpace(s0);
    SkipSpaceExtends(s0, x);
    assert (s + x)[1..] == s[1..] + x;
    if s[0] == ',' {
      var r := ParseMember(s[1..]).rest;
      assert SkipSpace(r) != "";
      ParseMemberExtends(s[1..], x);
      ParseMembersTailExtends(r, x);
    }
  }

  /** A torn object is never mistaken for a value: no strict prefix of an encoded
      object decodes. */
  lemma StrictPrefixDoesNotDecode(v: Json, k: nat)
    requires v.Obj? && k < |Encode(v)|
    ensures Decode(Encode(v)[..k]) == None
  {
    var s, p, x := Encode(v), Encode(v)[..k], Encode(v)[k..];
    assert s == p + x;
    EncodeHead(v);
    if Decode(p).Some? {
      ParseValueExtends(p, x);
      assert s + "" == s;
      RoundTrip(v, "");
      assert false;
    }
  }

  // ----- The written form

  function Join(texts: seq<string>): string {
    if texts == [] then "" else if |texts| == 1 then texts[0] else texts[0] + "," + Join(texts[1..])
  }

  function ItemTexts(items: Items): seq<string>
    decreases items
  {
    match items
    case NoItems => []
    case Items(head, tail) => [Encode(head)] + ItemTexts(tail)
  }

  function Pair(key: string, value: Json): string { Encode(Str(key)) + ":" + Encode(value) }

  function MemberTexts(members: Members): seq<string>
    decreases members
  {
    match members
    case NoMembers => []
    case Members(key, value, rest) => [Pair(key, value)] + MemberTexts(rest)
  }

  lemma {:induction false} TailIsJoined(items: Items)
    ensures ItemsTail(items) == (if items.NoItems? then "" else "," + Join(ItemTexts(items))) + "]"
    decreases items
  {
    if items.Items? {
      TailIsJoined(items.tail);
      JoinMore(Encode(items.head), ItemTexts(items.tail));
    }
  }

  lemma {:induction false} MembersAreJoined(members: Members)
    ensures MembersTail(members) == (if members.NoMembers? then "" else "," + Join(MemberTexts(members))) + "}"
    decreases members
  {
    if members.Members? {
      hide Encode, MemberText, Pair;
      MembersAreJoined(members.rest);
      JoinMore(Pair(members.key, members.value), MemberTexts(members.rest));
      PairIs(members.key, members.value);
    }
  }

  /** Lists and objects are written without spaces, their parts separated by commas and keys
      from values by colons. */
  lemma CompactForm(items: Items, members: Members)
    ensures Encode(Arr(items)) == "[" + Join(ItemTexts(items)) + "]"
    ensures Encode(Obj(members)) == "{" + Join(MemberTexts(members)) + "}"
  {
    ArrayForm(items);
    ObjectForm(members);
  }

  lemma ArrayForm(items: Items)
    ensures Encode(Arr(items)) == "[" + Join(ItemTexts(items)) + "]"
  {
    if items.Items? {
      hide ItemsTail;
      TailIsJoined(items.tail);
      JoinMore(Encode(items.head), ItemTexts(items.tail));
    }
  }

  lemma ObjectForm(members: Members)
    ensures Encode(Obj(members)) == "{" + Join(MemberTexts(members)) + "}"
  {
    if members.Members? {
      hide MembersTail, MemberText, Pair;
      MembersAreJoined(members.rest);
      JoinMore(Pair(members.key, members.value), MemberTexts(members.rest));
      PairIs(members.key, members.value);
    }
  }

  lemma PairIs(key: string, value: Json)
    ensures MemberText(key, Encode(value)) == Pair(key, value)
  {
  }

  lemma JoinMore(first: string, others: seq<string>)
    ensures Join([first] + others) == first + if others == [] then "" else "," + Join(others)
  {
    assert ([first] + others)[1..] == others;
  }

  /** Four lower-case hexadecimal digits that stand for `n`. */
  predicate IsHex(text: string, n: int) {
    && |text| == 4
    && (forall i :: 0 <= i < 4 ==> '0' <= text[i] <= '9' || 'a' <= text[i] <= 'f')
    && n == 4096 * DigitOf(text[0]) + 256 * DigitOf(text[1]) + 16 * DigitOf(text[2]) + DigitOf(text[3])
  }

  function DigitOf(c: char): int { if c <= '9' then c as int - 48 else c as int - 87 }

  lemma HexMeans(n: nat)
    requires n < 0x10000
    ensures IsHex(Hex4(n), n)
  {
    hide HexDigit, DigitOf;
    var high, low := n / 0x100, n % 0x100;
    DigitMeans(high / 16);
    DigitMeans(high % 16);
    DigitMeans(low / 16);
    DigitMeans(low % 16);
    assert high == 16 * (high / 16) + high % 16;
    assert low == 16 * (low / 16) + low % 16;
    assert n == 256 * high + low;
  }

  lemma DigitMeans(d: nat)
    requires d < 16
    ensures var c := HexDigit(d); DigitOf(c) == d && ('0' <= c <= '9' || 'a' <= c <= 'f')
  {
  }

  /** How a character is written inside a string: as it is when it is printable ASCII other
      than the quote and the backslash; with its short escape; or with its code, beyond the
      basic plane as a surrogate pair. */
  lemma EscapeMeans(c: char)
    ensures Escape('\"') == "\\\"" && Escape('\\') == "\\\\"
    ensures Escape('\n') == "\\n" && Escape('\r') == "\\r" && Escape('\t') == "\\t"
    ensures Escape(8 as char) == "\\b" && Escape(12 as char) == "\\f"
    ensures ' ' <= c <= '~' && c != '\"' && c != '\\' ==> Escape(c) == [c]
    ensures (c < ' ' || '~' < c) && c !in {'\n', '\r', '\t', 8 as char, 12 as char} && c as int < 0x10000 ==>
            |Escape(c)| == 6 && Escape(c)[..2] == "\\u" && IsHex(Escape(c)[2..], c as int)
    ensures c as int >= 0x10000 ==>
            var code := c as int - 0x10000;
            && |Escape(c)| == 12 && Escape(c)[..2] == "\\u" && Escape(c)[6..8] == "\\u"
            && IsHex(Escape(c)[2..6], 0xD800 + code / 0x400) && IsHex(Escape(c)[8..], 0xDC00 + code % 0x400)
  {
    hide IsHex, Hex4;
    if c as int < 0x10000 {
      HexMeans(c as int);
      HexLength(Hex4(c as int), c as int);
      var text := "\\u" + Hex4(c as int);
      assert text[..2] == "\\u" && text[2..] == Hex4(c as int);
    } else {
      var code := c as int - 0x10000;
      HexMeans(0xD800 + code / 0x400);
      HexMeans(0xDC00 + code % 0x400);
      var high, low := Hex4(0xD800 + code / 0x400), Hex4(0xDC00 + code % 0x400);
      HexLength(high, 0xD800 + code / 0x400);
      HexLength(low, 0xDC00 + code % 0x400);
      var text := "\\u" + (high + ("\\u" + low));
      assert text[..2] == "\\u" && text[2..6] == high && text[6..8] == "\\u" && text[8..] == low;
    }
  }

  lemma HexLength(text: string, n: int)
    requires IsHex(text, n)
    ensures |text| == 4
  {
  }

  /** A whole number is written in decimal digits without a leading zero, behind a minus sign
      when it is negative. */
  lemma {:induction false} DigitsMean(n: nat)
    ensures Digits(n) == (if n <= 9 then [(48 + n) as char] else Digits(n / 10) + [(48 + n % 10) as char])
    ensures Digits(n) != "" && (forall i :: 0 <= i < |Digits(n)| ==> '0' <= Digits(n)[i] <= '9')
    ensures n > 0 ==> Digits(n)[0] != '0'
    ensures IntText(n) == Digits(n) && (n > 0 ==> IntText(0 - n) == "-" + Digits(n))
    decreases n
  {
    LastDigit(n);
    if n > 9 {
      DigitsMean(n / 10);
      hide Digits;
      assert Digits(n)[0] == Digits(n / 10)[0];
    } else {
      assert Digits(n) == [(48 + n) as char];
    }
  }

  lemma LastDigit(n: nat)
    ensures Digits(n) == (if n <= 9 then [(48 + n) as char] else Digits(n / 10) + [(48 + n % 10) as char])
  {
    assert '0' + ((n % 10) as char) == (48 + n % 10) as char;
  }
}
