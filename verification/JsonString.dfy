/**
 String tokens: get_string and to_unicode, which return what a string means or throw when a
 high surrogate stands alone; and the string layer as a whole: an escaped and quoted string
 is scanned as one token whose value is the string.
 */
module JsonString {
  import opened Common
  import opened JsonEscape
  import opened JsonLexer
  import opened JsonMeaning

  // ---- to_unicode ----

  /** The UTF-8 bytes of a code point; masks and shifts are written as arithmetic. */
  function Utf8(cp: nat): Result<string> {
    if cp < 0x80 then Ok([cp as char])
    else if cp <= 0x7ff then
      Ok([(0xC0 + cp / 0x40 % 0x20) as char, (0x80 + cp % 0x40) as char])
    else if cp <= 0xffff then
      Ok([(0xE0 + cp / 0x1000 % 0x10) as char, (0x80 + cp / 0x40 % 0x40) as char, (0x80 + cp % 0x40) as char])
    else if cp <= 0x10ffff then
      Ok([(0xF0 + cp / 0x40000 % 0x08) as char, (0x80 + cp / 0x1000 % 0x40) as char,
          (0x80 + cp / 0x40 % 0x40) as char, (0x80 + cp % 0x40) as char])
    else Thrown
  }

  /** to_unicode; codepoint2 is 0 when there is no second escape. */
  function ToUnicode(codepoint1: nat, codepoint2: nat): Result<string> {
    if IsHighSurrogate(codepoint1) then
      if IsLowSurrogate(codepoint2) then Utf8(codepoint1 * 0x400 + codepoint2 - 0x35FDC00) else Thrown
    else Utf8(codepoint1)
  }

  /** The masked bytes are those of the encoding. */
  lemma Utf8IsEncoding(cp: nat)
    ensures Utf8(cp) == if cp <= 0x10FFFF then Ok(Encode(cp)) else Thrown
  {
  }

  /** Every scalar value is encoded as its one well-formed byte sequence. */
  lemma Utf8IsWellFormed(cp: nat)
    requires cp <= 0x10FFFF && !IsHighSurrogate(cp) && !IsLowSurrogate(cp)
    ensures Utf8(cp).Ok? && Utf8Value(Utf8(cp).value) == Ok(cp)
  {
    Utf8IsEncoding(cp);
    EncodingIsExact(cp);
  }

  /** A surrogate pair is decoded to the code point above the BMP that it stands for. */
  lemma PairsDecode(high: nat, low: nat)
    requires IsHighSurrogate(high) && IsLowSurrogate(low)
    ensures ToUnicode(high, low) == Ok(Encode(PairValue(high, low)))
    ensures Utf8Value(ToUnicode(high, low).value) == Ok(PairValue(high, low))
  {
    Utf8IsEncoding(PairValue(high, low));
    EncodingIsExact(PairValue(high, low));
  }

  // ---- get_string ----

  /** A byte at or after the cursor, NUL beyond the text. */
  function Peek(t: string, i: nat): char {
    if i < |t| then t[i] else '\0'
  }

  /** strtoul of the four characters at i, which the scanner has seen to be hexadecimal. */
  function Hex4(t: string, i: nat): nat {
    ((HexValue(Peek(t, i)) * 16 + HexValue(Peek(t, i + 1))) * 16 + HexValue(Peek(t, i + 2))) * 16 +
    HexValue(Peek(t, i + 3))
  }

  /** The character a letter after a backslash stands for, 'u' aside. */
  function LetterValue(c: char): string {
    match c
    case 't' => "\t"
    case 'b' => "\U{08}"
    case 'f' => "\U{0C}"
    case 'n' => "\n"
    case 'r' => "\r"
    case '\\' => "\\"
    case '/' => "/"
    case '"' => "\""
    case _ => ""
  }

  /** What one round of the loop appends, and where the next one starts. */
  datatype Piece = Piece(text: string, next: nat)

  function NextPiece(t: string, i: nat): (r: Result<Piece>)
    ensures r.Ok? ==> i < r.value.next
  {
    if Peek(t, i) != '\\' then Ok(Piece([Peek(t, i)], i + 1))
    else if Peek(t, i + 1) != 'u' then Ok(Piece(LetterValue(Peek(t, i + 1)), i + 2))
    else
      var u := i + 1;
      var cp := Hex4(t, u + 1);
      if IsHighSurrogate(cp) then
        if u + 6 >= |t| || Peek(t, u + 5) != '\\' || Peek(t, u + 6) != 'u' then Thrown
        else match ToUnicode(cp, Hex4(t, u + 7))
          case Ok(bytes) => Ok(Piece(bytes, u + 11))
          case Thrown => Thrown
      else match ToUnicode(cp, 0)
        case Ok(bytes) => Ok(Piece(bytes, u + 5))
        case Thrown => Thrown
  }

  /** The value of the text from i to the closing quote at end. */
  function Unescape(t: string, i: nat, end: nat): Result<string>
    decreases end - i
  {
    if i >= end then Ok("")
    else match NextPiece(t, i)
      case Thrown => Thrown
      case Ok(p) =>
        match Unescape(t, p.next, end)
        case Thrown => Thrown
        case Ok(rest) => Ok(p.text + rest)
  }

  function StringValue(t: string, x: Lexeme): Result<string>
    requires x.start < x.cursor
  {
    Unescape(t, x.start + 1, x.cursor - 1)
  }

  // ---- what get_string returns ----

  /** Two texts that agree from i up to a closing quote at end. */
  predicate AgreeTo(t: string, u: string, i: nat, end: nat) {
    i <= end < |t| && end < |u| && u[i..end + 1] == t[i..end + 1]
  }

  /** The bytes of a body and its closing quote. */
  predicate ClosedBody(t: string, i: nat, end: nat) { Body(t, i, end) && end < |t| && t[end] == '"' }

  lemma HexIsNumber(t: string, a: nat)
    requires a + 6 <= |t|
    ensures Hex4(t, a + 2) == CodeAt(t, a)
  {
    FourDigits(t[a + 2..a + 6]);
  }

  lemma LettersMean(c: char)
    requires IsEscapeLetter(c)
    ensures LetterValue(c) == [Letter(c)]
  {
  }

  /** to_unicode of a high surrogate with a second code unit. */
  lemma HighAlone(high: nat, second: nat)
    requires IsHighSurrogate(high)
    ensures ToUnicode(high, second) == if IsLowSurrogate(second) then Ok(Encode(PairValue(high, second))) else Thrown
  {
    if IsLowSurrogate(second) { PairsDecode(high, second); }
  }

  /** A body begins with a code unit exactly when it begins with an escape with digits. */
  lemma SecondUnit(t: string, i: nat, end: nat)
    requires Body(t, i, end)
    ensures var us := Units(t, i, end);
      us != [] && us[0].Code? <==> i < end && t[i] == '\\' && t[i + 1] == 'u'
  {
  }

  /** A round at a high surrogate takes the low one behind it, or throws. */
  lemma HighRound(t: string, i: nat, end: nat)
    requires ClosedBody(t, i, end) && EscapeAt(t, i, end) && IsHighSurrogate(CodeAt(t, i))
    ensures var us, r := Units(t, i, end), NextPiece(t, i);
      if PairFirst(us) then
        EscapeAt(t, i + 6, end) && IsLowSurrogate(CodeAt(t, i + 6)) &&
        r == Ok(Piece(Encode(PairValue(CodeAt(t, i), CodeAt(t, i + 6))), i + 12))
      else r == Thrown
  {
    hide Encode, Utf8, ToUnicode, CodeAt, Hex4, Continues, LoneHigh, LoneLow, Meaning, Units, Body;
    CodeFirst(t, i, end);
    HexIsNumber(t, i);
    BodyInText(t, i + 6, end);
    SecondUnit(t, i + 6, end);
    if i + 6 < end && t[i + 6] == '\\' && t[i + 7] == 'u' {
      CodeFirst(t, i + 6, end);
      HexIsNumber(t, i + 6);
      HighAlone(CodeAt(t, i), CodeAt(t, i + 6));
    }
  }

  /** What one round appends and where it ends, in terms of the meaning. */
  lemma OneRound(t: string, i: nat, end: nat)
    requires ClosedBody(t, i, end) && i < end
    ensures var r := NextPiece(t, i);
      match r
      case Thrown => LoneHigh(Units(t, i, end))
      case Ok(p) =>
        i < p.next <= end && Body(t, p.next, end) &&
        var us, rest := Units(t, i, end), Units(t, p.next, end);
        Meaning(us) == p.text + Meaning(rest) && (LoneHigh(us) <==> LoneHigh(rest))
  {
    hide LoneHigh, LoneLow, Meaning, Units, Encode;
    if t[i] != '\\' {
      PlainFirst(t, i, end);
    } else if t[i + 1] != 'u' {
      LetterFirst(t, i, end);
      LettersMean(t[i + 1]);
    } else {
      CodeFirst(t, i, end);
      HexIsNumber(t, i);
      if IsHighSurrogate(CodeAt(t, i)) {
        HighRound(t, i, end);
        if PairFirst(Units(t, i, end)) { PairIsFirst(t, i, end); }
      } else {
        Utf8IsEncoding(CodeAt(t, i));
      }
    }
  }

  lemma SameHex(t: string, u: string, a: nat)
    requires a + 4 <= |t| && a + 4 <= |u| && forall k :: a <= k < a + 4 ==> t[k] == u[k]
    ensures Hex4(t, a) == Hex4(u, a)
  {
  }

  /** An escape behind an escape lies in the body as a whole. */
  lemma EscapeInside(t: string, i: nat, end: nat)
    requires ClosedBody(t, i, end) && EscapeAt(t, i, end) && i + 6 < end && t[i + 6] == '\\' && t[i + 7] == 'u'
    ensures i + 12 <= end
  {
    CodeFirst(t, i, end);
    CodeFirst(t, i + 6, end);
  }

  /**
   A round stays inside its token: it ends at or in front of the closing quote, where the
   rest of the body begins, and no byte behind that quote, nor the end of the buffer, has a
   say in it.
   */
  lemma RoundStaysInside(t: string, u: string, i: nat, end: nat)
    requires ClosedBody(t, i, end) && i < end && AgreeTo(t, u, i, end)
    ensures NextPiece(t, i).Ok? ==> NextPiece(t, i).value.next <= end && Body(t, NextPiece(t, i).value.next, end)
    ensures NextPiece(u, i) == NextPiece(t, i)
  {
    OneRound(t, i, end);
    assert forall k :: i <= k <= end ==> u[k] == t[k] by {
      forall k | i <= k <= end ensures u[k] == t[k] { assert u[i..end + 1][k - i] == t[i..end + 1][k - i]; }
    }
    hide LoneHigh, LoneLow, Meaning, Units, ToUnicode, HexValue;
    if t[i] == '\\' && t[i + 1] == 'u' {
      SameHex(t, u, i + 2);
      if Peek(t, i + 6) == '\\' && Peek(t, i + 7) == 'u' && i + 6 < end {
        EscapeInside(t, i, end);
        SameHex(t, u, i + 8);
      }
    }
  }

  lemma NoUnits(t: string, i: nat)
    requires Body(t, i, i)
    ensures Meaning(Units(t, i, i)) == ""
  {
  }

  /** get_string returns the meaning of a body, and throws exactly when there is none. */
  lemma {:induction false} UnescapeMeans(t: string, i: nat, end: nat)
    requires ClosedBody(t, i, end)
    ensures var us := Units(t, i, end); Unescape(t, i, end) == if LoneHigh(us) then Thrown else Ok(Meaning(us))
    decreases end - i
  {
    hide NextPiece, LoneHigh, Meaning, Units, Body;
    BodyInText(t, i, end);
    if i == end {
      NothingMeant(t, i);
      assert Meaning(Units(t, i, i)) == "" by { NoUnits(t, i); }
    } else {
      OneRound(t, i, end);
      if NextPiece(t, i).Ok? { UnescapeMeans(t, NextPiece(t, i).value.next, end); }
    }
  }

  lemma StringValueMeans(t: string, x: Lexeme)
    requires StringText(t, x.start, x.cursor)
    ensures StringValue(t, x) == StringMeaning(t, x.start, x.cursor)
  {
    hide Body, Units, LoneHigh, Meaning, Unescape;
    UnescapeMeans(t, x.start + 1, x.cursor - 1);
  }

  /** get_string.  On a string text it returns the meaning, or throws when a high surrogate stands alone. */
  method GetString(t: string, x: Lexeme) returns (r: Result<string>)
    requires x.start < x.cursor
    ensures r == StringValue(t, x)
    ensures StringText(t, x.start, x.cursor) ==> r == StringMeaning(t, x.start, x.cursor)
  {
    if StringText(t, x.start, x.cursor) { StringValueMeans(t, x); }
    hide NextPiece, StringText, StringMeaning;
    var result := "";
    var i := x.start + 1;
    assert Unescape(t, i, x.cursor - 1).Ok? ==>
      Unescape(t, i, x.cursor - 1).value == result + Unescape(t, i, x.cursor - 1).value;
    while i < x.cursor - 1
      invariant match Unescape(t, i, x.cursor - 1)
        case Ok(rest) => StringValue(t, x) == Ok(result + rest)
        case Thrown => StringValue(t, x) == Thrown
      decreases x.cursor - i
    {
      var p := NextPiece(t, i);
      if p.Ok? && Unescape(t, p.value.next, x.cursor - 1).Ok? {
        var rest := Unescape(t, p.value.next, x.cursor - 1).value;
        assert result + (p.value.text + rest) == (result + p.value.text) + rest;
      }
      if p.Thrown? {
        return Thrown;
      }
      result := result + p.value.text;
      i := p.value.next;
    }
    assert result + "" == result;
    return Ok(result);
  }

  // ---- the round trip of the string layer ----

  /** Text begins with s at p. */
  predicate TextAt(t: string, p: nat, s: string) {
    p + |s| <= |t| && t[p..p + |s|] == s
  }

  lemma {:induction false} EscapeFront(s: string)
    requires s != ""
    ensures Escape(s) == EscapeChar(s[0]) + Escape(s[1..])
  {
    hide EscapeChar;
    var n := |s| - 1;
    if n == 0 {
      assert s[..0] == "" && s[1..] == "";
    } else {
      EscapeFront(s[..n]);
      assert s[..n][1..] == s[1..][..n - 1];
      assert s[1..][n - 1] == s[n];
    }
  }

  lemma SplitText(t: string, p: nat, a: string, b: string)
    requires TextAt(t, p, a + b)
    ensures TextAt(t, p, a) && TextAt(t, p + |a|, b)
  {
    assert t[p..p + |a|] == (a + b)[..|a|];
    assert t[p + |a|..p + |a| + |b|] == (a + b)[|a|..];
  }

  lemma TextChars(t: string, p: nat, s: string)
    requires TextAt(t, p, s)
    ensures forall k :: 0 <= k < |s| ==> At(t, p + k) == s[k]
  {
    forall k | 0 <= k < |s| ensures At(t, p + k) == s[k] { assert t[p..p + |s|][k] == t[p + k]; }
  }

  lemma ControlIsScanned(t: string, start: nat, p: nat, m: Marker, c: char)
    requires p + 6 <= |t| && m.pos <= p && IsControl(c)
    requires At(t, p) == '\\' && At(t, p + 1) == 'u' && At(t, p + 2) == '0' && At(t, p + 3) == '0'
    requires At(t, p + 4) == HexDigit(c as int / 16) && At(t, p + 5) == HexDigit(c as int % 16)
    ensures Run(t, start, InString, p, m) == Run(t, start, InString, p + 6, m)
  {
    assert Run(t, start, InString, p, m) == Run(t, start, Escaped, p + 1, m);
    assert Run(t, start, Escaped, p + 1, m) == Run(t, start, HexDigits(4), p + 2, m);
    assert Run(t, start, HexDigits(4), p + 2, m) == Run(t, start, HexDigits(3), p + 3, m);
    assert Run(t, start, HexDigits(3), p + 3, m) == Run(t, start, HexDigits(2), p + 4, m);
    assert Run(t, start, HexDigits(2), p + 4, m) == Run(t, start, HexDigits(1), p + 5, m);
  }

  /** The machine passes over the text of one escaped character. */
  lemma CharIsScanned(t: string, start: nat, p: nat, m: Marker, c: char)
    requires TextAt(t, p, EscapeChar(c)) && m.pos <= p
    ensures Run(t, start, InString, p, m) == Run(t, start, InString, p + |EscapeChar(c)|, m)
  {
    TextChars(t, p, EscapeChar(c));
    if ShortEscape(c) != "" {
      ShortIsShort(c);
      assert At(t, p + 0) == '\\' && At(t, p + 1) == ShortEscape(c)[0] && IsEscapeLetter(ShortEscape(c)[0]);
      assert Run(t, start, InString, p, m) == Run(t, start, Escaped, p + 1, m);
    } else if IsControl(c) {
      ControlIsScanned(t, start, p, m, c);
    }
  }

  lemma {:induction false} EscapedIsScanned(t: string, start: nat, p: nat, m: Marker, s: string)
    requires TextAt(t, p, Escape(s)) && m.pos <= p && Peek(t, p + |Escape(s)|) == '"'
    ensures Run(t, start, InString, p, m) == Lexeme(start, p + |Escape(s)| + 1, ValueString)
    decreases |s|
  {
    hide EscapeChar;
    if s != "" {
      EscapeFront(s);
      SplitText(t, p, EscapeChar(s[0]), Escape(s[1..]));
      CharIsScanned(t, start, p, m, s[0]);
      EscapedIsScanned(t, start, p + |EscapeChar(s[0])|, m, s[1..]);
    }
  }

  /** One round of get_string undoes the escaping of one character. */
  lemma CharIsUnescaped(t: string, p: nat, c: char)
    requires TextAt(t, p, EscapeChar(c))
    ensures NextPiece(t, p) == Ok(Piece([c], p + |EscapeChar(c)|))
  {
    TextChars(t, p, EscapeChar(c));
    if ShortEscape(c) != "" {
      ShortIsShort(c);
      assert At(t, p + 0) == '\\' && Peek(t, p + 1) == ShortEscape(c)[0];
      assert LetterValue(ShortEscape(c)[0]) == [c];
    } else if IsControl(c) {
      assert Peek(t, p + 4) == HexDigit(c as int / 16) && Peek(t, p + 5) == HexDigit(c as int % 16);
      assert Hex4(t, p + 2) == c as int;
    } else {
      assert Peek(t, p) == c;
    }
  }

  lemma {:induction false} EscapedIsUnescaped(t: string, p: nat, s: string)
    requires TextAt(t, p, Escape(s))
    ensures Unescape(t, p, p + |Escape(s)|) == Ok(s)
    decreases |s|
  {
    hide EscapeChar, NextPiece;
    if s != "" {
      EscapeFront(s);
      SplitText(t, p, EscapeChar(s[0]), Escape(s[1..]));
      CharIsUnescaped(t, p, s[0]);
      EscapedIsUnescaped(t, p + |EscapeChar(s[0])|, s[1..]);
      assert [s[0]] + s[1..] == s;
    }
  }

  function Quoted(s: string): string { "\"" + Escape(s) + "\"" }

  /**
   The string layer round trips: wherever the quoted escape of a string stands in a text,
   the scanner takes it, up to the closing quote, as one string token, and get_string
   returns the string.
   */
  lemma StringRoundTrip(t: string, p: nat, s: string)
    requires TextAt(t, p, Quoted(s))
    ensures Scan(t, p) == Lexeme(p, p + |Quoted(s)|, ValueString)
    ensures StringValue(t, Scan(t, p)) == Ok(s)
  {
    hide Escape, Unescape, TextAt;
    SplitText(t, p, "\"" + Escape(s), "\"");
    SplitText(t, p, "\"", Escape(s));
    TextChars(t, p, "\"");
    TextChars(t, p + 1 + |Escape(s)|, "\"");
    EscapedIsScanned(t, p, p + 1, Marker(p + 1, false), s);
    EscapedIsUnescaped(t, p + 1, s);
  }
}
