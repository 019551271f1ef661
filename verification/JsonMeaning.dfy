/**
 What a JSON string means, apart from any parser: the letters, escapes and code units of
 section 7 of RFC 7159, the pairing of surrogates, and the bytes of section 3 of RFC 3629.
 */
module JsonMeaning {
  import opened Common
  import opened JsonLexer

  /** A value, or the exception the source throws. */
  datatype Result<+T> = Ok(value: T) | Thrown

  // ---- code points ----

  predicate IsHighSurrogate(c: nat) { 0xD800 <= c <= 0xDBFF }
  predicate IsLowSurrogate(c: nat) { 0xDC00 <= c <= 0xDFFF }

  /** The code point above the BMP that a surrogate pair stands for. */
  function PairValue(high: nat, low: nat): (cp: nat)
    requires IsHighSurrogate(high) && IsLowSurrogate(low)
    ensures 0x10000 <= cp <= 0x10FFFF
  {
    0x10000 + (high - 0xD800) * 0x400 + (low - 0xDC00)
  }

  /** A byte of six bits behind the first. */
  function Tail(n: nat): char { (0x80 + n % 0x40) as char }

  /** The bytes of a code point.  A surrogate gets three, which the standard excludes. */
  function Encode(cp: nat): string
    requires cp <= 0x10FFFF
  {
    if cp < 0x80 then [cp as char]
    else if cp < 0x800 then [(0xC0 + cp / 0x40) as char, Tail(cp)]
    else if cp < 0x10000 then [(0xE0 + cp / 0x1000) as char, Tail(cp / 0x40), Tail(cp)]
    else [(0xF0 + cp / 0x40000) as char, Tail(cp / 0x1000), Tail(cp / 0x40), Tail(cp)]
  }

  predicate IsTail(c: char) { 0x80 <= c as int <= 0xBF }

  /** The code point a byte sequence stands for, if it is well-formed. */
  function Utf8Value(s: string): Result<nat> {
    if |s| == 1 && s[0] as int < 0x80 then Ok(s[0] as int)
    else if |s| == 2 && 0xC2 <= s[0] as int <= 0xDF && IsTail(s[1]) then
      Ok((s[0] as int - 0xC0) * 0x40 + (s[1] as int - 0x80))
    else if |s| == 3 && 0xE0 <= s[0] as int <= 0xEF && IsTail(s[1]) && IsTail(s[2]) then
      var cp := (s[0] as int - 0xE0) * 0x1000 + (s[1] as int - 0x80) * 0x40 + (s[2] as int - 0x80);
      if cp < 0x800 || IsHighSurrogate(cp) || IsLowSurrogate(cp) then Thrown else Ok(cp)
    else if |s| == 4 && 0xF0 <= s[0] as int <= 0xF4 && IsTail(s[1]) && IsTail(s[2]) && IsTail(s[3]) then
      var cp := (s[0] as int - 0xF0) * 0x40000 + (s[1] as int - 0x80) * 0x1000 +
                (s[2] as int - 0x80) * 0x40 + (s[3] as int - 0x80);
      if cp < 0x10000 || cp > 0x10FFFF then Thrown else Ok(cp)
    else Thrown
  }

  lemma SixBitGroups(cp: nat)
    requires cp <= 0x10FFFF
    ensures cp / 0x40000 <= 4 && cp / 0x1000 == cp / 0x40 / 0x40
    ensures cp == cp / 0x40 * 0x40 + cp % 0x40
    ensures cp / 0x40 == cp / 0x1000 * 0x40 + cp / 0x40 % 0x40
    ensures cp / 0x1000 == cp / 0x40000 * 0x40 + cp / 0x1000 % 0x40
  {
    var p := cp / 0x40;
    var q := p / 0x40;
    assert cp / 0x1000 == q;
    assert cp / 0x40000 == q / 0x40;
  }

  lemma ThreeBytes(a: nat, b: nat, c: nat)
    requires a < 0x10 && b < 0x40 && c < 0x40
    ensures var cp := a * 0x1000 + b * 0x40 + c;
      Utf8Value([(0xE0 + a) as char, (0x80 + b) as char, (0x80 + c) as char]) ==
      if cp < 0x800 || IsHighSurrogate(cp) || IsLowSurrogate(cp) then Thrown else Ok(cp)
  {
  }

  lemma FourBytes(a: nat, b: nat, c: nat, d: nat)
    requires a <= 4 && b < 0x40 && c < 0x40 && d < 0x40
    ensures var cp := a * 0x40000 + b * 0x1000 + c * 0x40 + d;
      Utf8Value([(0xF0 + a) as char, (0x80 + b) as char, (0x80 + c) as char, (0x80 + d) as char]) ==
      if cp < 0x10000 || cp > 0x10FFFF then Thrown else Ok(cp)
  {
  }

  lemma TwoBytes(a: nat, b: nat)
    requires 2 <= a < 0x20 && b < 0x40
    ensures Utf8Value([(0xC0 + a) as char, (0x80 + b) as char]) == Ok(a * 0x40 + b)
  {
  }

  lemma OneByte(cp: nat)
    requires cp < 0x80
    ensures Utf8Value([cp as char]) == Ok(cp)
  {
  }

  /** Every code point but the surrogates is encoded as a well-formed sequence that means it. */
  lemma EncodingIsExact(cp: nat)
    requires cp <= 0x10FFFF
    ensures Utf8Value(Encode(cp)) == if IsHighSurrogate(cp) || IsLowSurrogate(cp) then Thrown else Ok(cp)
  {
    SixBitGroups(cp);
    hide Utf8Value;
    if cp < 0x80 {
      OneByte(cp);
    } else if cp < 0x800 {
      TwoBytes(cp / 0x40, cp % 0x40);
    } else if cp < 0x10000 {
      ThreeBytes(cp / 0x1000, cp / 0x40 % 0x40, cp % 0x40);
    } else {
      FourBytes(cp / 0x40000, cp / 0x1000 % 0x40, cp / 0x40 % 0x40, cp % 0x40);
    }
  }

  /** Well-formed UTF-8. */
  predicate WellFormed(s: string)
    decreases |s|
  {
    s == "" || exists n :: 1 <= n <= 4 && n <= |s| && Utf8Value(s[..n]).Ok? && WellFormed(s[n..])
  }

  /** The length of a sequence shows in its first byte. */
  function LengthBy(first: char): nat {
    if first as int < 0x80 then 1 else if first as int < 0xE0 then 2 else if first as int < 0xF0 then 3 else 4
  }

  lemma LengthShows(s: string)
    requires Utf8Value(s).Ok?
    ensures s != "" && |s| == LengthBy(s[0]) && forall i :: 0 <= i < |s| ==> (s[i] as int < 0x80 <==> |s| == 1)
  {
  }

  /** One sequence in front does not change whether a text is well-formed. */
  lemma FrontSequence(a: string, b: string)
    requires Utf8Value(a).Ok?
    ensures WellFormed(a + b) <==> WellFormed(b)
  {
    LengthShows(a);
    var s := a + b;
    hide Utf8Value;
    assert s[..|a|] == a && s[|a|..] == b && |a| <= 4;
    if WellFormed(s) {
      var n :| 1 <= n <= 4 && n <= |s| && Utf8Value(s[..n]).Ok? && WellFormed(s[n..]);
      LengthShows(s[..n]);
      assert n == |a|;
    }
  }

  /** Nothing well-formed begins with an encoded surrogate. */
  lemma FrontSurrogate(u: nat, b: string)
    requires IsHighSurrogate(u) || IsLowSurrogate(u)
    ensures !WellFormed(Encode(u) + b)
  {
    EncodingIsExact(u);
    var a := Encode(u);
    assert |a| == 3 && LengthBy(a[0]) == 3;
    var s := a + b;
    hide Utf8Value, Encode, Tail;
    assert s[..3] == a;
    forall n | 1 <= n <= 4 && n <= |s| ensures !Utf8Value(s[..n]).Ok? {
      if Utf8Value(s[..n]).Ok? { LengthShows(s[..n]); }
    }
  }

  // ---- the text of a string ----

  /** The characters that section 7 of RFC 7159 lets stand as they are, byte by byte. */
  predicate IsUnescaped(c: char) { ' ' <= c && c != '"' && c != '\\' }

  /** The characters between the quotes, as the scanner takes them: more of them may stand as they are. */
  predicate Body(t: string, a: nat, b: nat)
    decreases b - a
  {
    a <= b <= |t| &&
    (a == b ||
     (t[a] != '\\' && IsPlain(t[a]) && Body(t, a + 1, b)) ||
     (t[a] == '\\' && a + 1 < b && IsEscapeLetter(t[a + 1]) && Body(t, a + 2, b)) ||
     (t[a] == '\\' && a + 6 <= b && t[a + 1] == 'u' &&
      (forall k :: a + 2 <= k < a + 6 ==> IsHexDigit(t[k])) && Body(t, a + 6, b)))
  }

  predicate StringText(t: string, i: nat, j: nat) {
    i + 2 <= j <= |t| && t[i] == '"' && t[j - 1] == '"' && Body(t, i + 1, j - 1)
  }

  /** The characters between the quotes, as section 7 of RFC 7159 has them. */
  predicate StrictBody(t: string, a: nat, b: nat): (r: bool)
    ensures r ==> Body(t, a, b)
    decreases b - a
  {
    a <= b <= |t| &&
    (a == b ||
     (IsUnescaped(t[a]) && StrictBody(t, a + 1, b)) ||
     (t[a] == '\\' && a + 1 < b && IsEscapeLetter(t[a + 1]) && StrictBody(t, a + 2, b)) ||
     (t[a] == '\\' && a + 6 <= b && t[a + 1] == 'u' &&
      (forall k :: a + 2 <= k < a + 6 ==> IsHexDigit(t[k])) && StrictBody(t, a + 6, b)))
  }

  predicate StrictText(t: string, i: nat, j: nat): (r: bool)
    ensures r ==> StringText(t, i, j)
  {
    i + 2 <= j <= |t| && t[i] == '"' && t[j - 1] == '"' && StrictBody(t, i + 1, j - 1)
  }

  // ---- its meaning ----

  type CodeUnit = n: nat | n < 0x1_0000

  /** A character that stands for itself or has a letter of its own, or a UTF-16 code unit. */
  datatype Unit = Plain(c: char) | Code(u: CodeUnit)

  /** What a letter after a backslash stands for. */
  function Letter(c: char): char {
    match c
    case 'b' => '\U{08}'
    case 'f' => '\U{0C}'
    case 'n' => '\n'
    case 'r' => '\r'
    case 't' => '\t'
    case _ => c
  }

  function HexValue(c: char): (v: nat)
    ensures v < 16
  {
    if IsDigit(c) then c as int - '0' as int
    else if 'a' <= c <= 'f' then c as int - 'a' as int + 10
    else if 'A' <= c <= 'F' then c as int - 'A' as int + 10
    else 0
  }

  /** The value of hexadecimal digits. */
  function HexNumber(digits: string): nat {
    if digits == "" then 0 else HexNumber(digits[..|digits| - 1]) * 16 + HexValue(digits[|digits| - 1])
  }

  lemma HexDigitIsSpelled(c: char)
    ensures IsHexDigit(c) <==> exists d :: 0 <= d < 16 && IsHexFor(c, d)
    ensures forall d: nat | d < 16 :: IsHexFor(c, d) <==> IsHexDigit(c) && HexValue(c) == d
  {
    if IsHexDigit(c) { assert IsHexFor(c, HexValue(c)); }
  }

  /** Hexadecimal digits have the number that they spell, and no other text spells one. */
  lemma {:induction false} HexIsSpelled(text: string, n: nat)
    ensures SpellsHex(text, n) <==>
            text != "" && (forall i :: 0 <= i < |text| ==> IsHexDigit(text[i])) && HexNumber(text) == n
  {
    if text != "" {
      var front, c := text[..|text| - 1], text[|text| - 1];
      HexDigitIsSpelled(c);
      hide HexValue, IsHexDigit, IsHexFor;
      if front == "" {
        assert HexNumber(front) == 0;
      } else {
        HexIsSpelled(front, n / 16);
        HexIsSpelled(front, HexNumber(front));
      }
    }
  }

  lemma FourDigits(d: string)
    requires |d| == 4
    ensures HexNumber(d) == ((HexValue(d[0]) * 16 + HexValue(d[1])) * 16 + HexValue(d[2])) * 16 + HexValue(d[3])
    ensures HexNumber(d) <= 0xFFFF
  {
    assert d[..3][..2] == d[..2] && d[..2][..1] == d[..1] && d[..1][..0] == "";
    assert HexNumber(d[..1]) == HexValue(d[0]);
    assert HexNumber(d[..2]) == HexValue(d[0]) * 16 + HexValue(d[1]);
    assert HexNumber(d[..3]) == (HexValue(d[0]) * 16 + HexValue(d[1])) * 16 + HexValue(d[2]);
  }

  /** The units of a body, in order. */
  function Units(t: string, a: nat, b: nat): seq<Unit>
    requires Body(t, a, b)
    decreases b - a
  {
    if a == b then []
    else if t[a] != '\\' then [Plain(t[a])] + Units(t, a + 1, b)
    else if t[a + 1] != 'u' then [Plain(Letter(t[a + 1]))] + Units(t, a + 2, b)
    else FourDigits(t[a + 2..a + 6]); [Code(HexNumber(t[a + 2..a + 6]))] + Units(t, a + 6, b)
  }

  predicate IsHigh(u: Unit) { u.Code? && IsHighSurrogate(u.u) }
  predicate IsLow(u: Unit) { u.Code? && IsLowSurrogate(u.u) }

  /** Some high surrogate is not directly followed by a low one. */
  predicate LoneHigh(us: seq<Unit>) {
    exists i :: 0 <= i < |us| && IsHigh(us[i]) && !(i + 1 < |us| && IsLow(us[i + 1]))
  }

  /** Some low surrogate is not directly behind a high one. */
  predicate LoneLow(us: seq<Unit>) {
    exists i :: 0 <= i < |us| && IsLow(us[i]) && !(0 < i && IsHigh(us[i - 1]))
  }

  predicate PairFirst(us: seq<Unit>) { |us| >= 2 && IsHigh(us[0]) && IsLow(us[1]) }

  /** The bytes that units stand for. */
  function Meaning(us: seq<Unit>): string {
    if us == [] then ""
    else if us[0].Plain? then [us[0].c] + Meaning(us[1..])
    else if PairFirst(us) then Encode(PairValue(us[0].u, us[1].u)) + Meaning(us[2..])
    else Encode(us[0].u) + Meaning(us[1..])
  }

  /** The value of a string text; there is none when a high surrogate stands alone. */
  function StringMeaning(t: string, i: nat, j: nat): Result<string>
    requires StringText(t, i, j)
  {
    var us := Units(t, i + 1, j - 1);
    if LoneHigh(us) then Thrown else Ok(Meaning(us))
  }

  /** Behind units the last of which is no high surrogate, or the second of a pair. */
  lemma LoneHighBehind(us: seq<Unit>, k: nat)
    requires 1 <= k <= |us| && !IsHigh(us[k - 1])
    requires forall i :: 0 <= i < k - 1 && IsHigh(us[i]) ==> IsLow(us[i + 1])
    ensures LoneHigh(us) <==> LoneHigh(us[k..])
  {
    var rest := us[k..];
    if LoneHigh(us) {
      var i :| 0 <= i < |us| && IsHigh(us[i]) && !(i + 1 < |us| && IsLow(us[i + 1]));
      assert i >= k && rest[i - k] == us[i];
    }
    if LoneHigh(rest) {
      var i :| 0 <= i < |rest| && IsHigh(rest[i]) && !(i + 1 < |rest| && IsLow(rest[i + 1]));
      assert us[i + k] == rest[i];
    }
  }

  lemma LoneLowBehind(us: seq<Unit>, k: nat)
    requires 1 <= k <= |us| && !IsHigh(us[k - 1])
    requires forall i :: 0 <= i < k && IsLow(us[i]) ==> 0 < i && IsHigh(us[i - 1])
    ensures LoneLow(us) <==> LoneLow(us[k..])
  {
    var rest := us[k..];
    if LoneLow(us) {
      var i :| 0 <= i < |us| && IsLow(us[i]) && !(0 < i && IsHigh(us[i - 1]));
      assert i >= k && rest[i - k] == us[i];
    }
    if LoneLow(rest) {
      var i :| 0 <= i < |rest| && IsLow(rest[i]) && !(0 < i && IsHigh(rest[i - 1]));
      assert us[i + k] == rest[i];
    }
  }

  /** Lone surrogates, seen from the front. */
  lemma LoneFront(us: seq<Unit>)
    requires us != []
    ensures PairFirst(us) ==> (LoneHigh(us) <==> LoneHigh(us[2..])) && (LoneLow(us) <==> LoneLow(us[2..]))
    ensures !PairFirst(us) && IsHigh(us[0]) ==> LoneHigh(us)
    ensures !IsHigh(us[0]) ==> (LoneHigh(us) <==> LoneHigh(us[1..]))
    ensures !IsHigh(us[0]) ==> (LoneLow(us) <==> IsLow(us[0]) || LoneLow(us[1..]))
  {
    if PairFirst(us) {
      LoneHighBehind(us, 2);
      LoneLowBehind(us, 2);
    } else if !IsHigh(us[0]) {
      LoneHighBehind(us, 1);
      if !IsLow(us[0]) { LoneLowBehind(us, 1); }
    }
  }

  /** What the units us and those behind the first text in it say of each other. */
  predicate Continues(us: seq<Unit>, text: string, rest: seq<Unit>) {
    Meaning(us) == text + Meaning(rest) && (LoneHigh(us) <==> LoneHigh(rest)) && (LoneLow(us) <==> LoneLow(rest))
  }

  /** A plain byte in front. */
  lemma PlainFirst(t: string, a: nat, b: nat)
    requires Body(t, a, b) && a < b && t[a] != '\\'
    ensures Body(t, a + 1, b) && Continues(Units(t, a, b), [t[a]], Units(t, a + 1, b))
  {
    LoneFront(Units(t, a, b));
    hide LoneHigh, LoneLow;
    assert Units(t, a, b)[1..] == Units(t, a + 1, b);
  }

  /** An escape with a letter in front. */
  lemma LetterFirst(t: string, a: nat, b: nat)
    requires Body(t, a, b) && a < b && t[a] == '\\' && t[a + 1] != 'u'
    ensures a + 2 <= b && IsEscapeLetter(t[a + 1]) && Body(t, a + 2, b)
    ensures Continues(Units(t, a, b), [Letter(t[a + 1])], Units(t, a + 2, b))
  {
    LoneFront(Units(t, a, b));
    hide LoneHigh, LoneLow;
    assert Units(t, a, b)[1..] == Units(t, a + 2, b);
  }

  /** The code unit of an escape with four digits. */
  function CodeAt(t: string, a: nat): CodeUnit
    requires a + 6 <= |t|
  {
    FourDigits(t[a + 2..a + 6]);
    HexNumber(t[a + 2..a + 6])
  }

  predicate EscapeAt(t: string, a: nat, b: nat) {
    a + 6 <= b <= |t| && t[a] == '\\' && t[a + 1] == 'u' && forall k :: a + 2 <= k < a + 6 ==> IsHexDigit(t[k])
  }

  lemma CodeFirst(t: string, a: nat, b: nat)
    requires Body(t, a, b) && a < b && t[a] == '\\' && t[a + 1] == 'u'
    ensures EscapeAt(t, a, b) && Body(t, a + 6, b)
    ensures var us, rest := Units(t, a, b), Units(t, a + 6, b);
      && us != [] && us[0] == Code(CodeAt(t, a)) && us[1..] == rest
      && (if IsHighSurrogate(CodeAt(t, a)) then PairFirst(us) || LoneHigh(us)
          else if IsLowSurrogate(CodeAt(t, a)) then LoneLow(us) && Meaning(us) == Encode(CodeAt(t, a)) + Meaning(rest)
            && (LoneHigh(us) <==> LoneHigh(rest))
          else Continues(us, Encode(CodeAt(t, a)), rest))
  {
    LoneFront(Units(t, a, b));
    FourDigits(t[a + 2..a + 6]);
    hide LoneHigh, LoneLow, Encode, HexNumber;
    assert Units(t, a, b)[1..] == Units(t, a + 6, b);
  }

  /** The code unit of an escape is the number that its four digits spell. */
  lemma CodeIsSpelled(t: string, a: nat, u: nat)
    requires a + 6 <= |t| && SpellsHex(t[a + 2..a + 6], u)
    ensures u <= 0xFFFF && CodeAt(t, a) == u && forall k :: a + 2 <= k < a + 6 ==> IsHexDigit(t[k])
  {
    hide SpellsHex, HexNumber, IsHexDigit;
    var ds := t[a + 2..a + 6];
    HexIsSpelled(ds, u);
    FourDigits(ds);
    forall k | a + 2 <= k < a + 6 ensures IsHexDigit(t[k]) { assert t[k] == ds[k - a - 2]; }
  }

  /** A surrogate pair in front. */
  lemma PairIsFirst(t: string, a: nat, b: nat)
    requires Body(t, a, b) && PairFirst(Units(t, a, b))
    ensures EscapeAt(t, a, b) && EscapeAt(t, a + 6, b) && Body(t, a + 12, b)
    ensures var high, low := CodeAt(t, a), CodeAt(t, a + 6);
      && IsHighSurrogate(high) && IsLowSurrogate(low)
      && Continues(Units(t, a, b), Encode(PairValue(high, low)), Units(t, a + 12, b))
  {
    var us := Units(t, a, b);
    LoneFront(us);
    CodeFirst(t, a, b);
    hide LoneHigh, LoneLow, Encode, HexNumber;
    assert us[1..] == Units(t, a + 6, b);
    CodeFirst(t, a + 6, b);
    assert us[2..] == us[1..][1..] == Units(t, a + 12, b);
  }

  // ---- when the meaning is well-formed ----

  lemma FrontByte(t: string, a: nat, n: nat, rest: string)
    requires 0 < n && a + n <= |t|
    ensures [t[a]] + (t[a + 1..a + n] + rest) == t[a..a + n] + rest
  {
  }

  /** Bytes without a backslash stand for themselves. */
  lemma {:induction false} PlainRun(t: string, a: nat, n: nat, b: nat)
    requires Body(t, a, b) && a + n <= b <= |t| && forall k :: a <= k < a + n ==> t[k] != '\\'
    ensures Body(t, a + n, b) && Continues(Units(t, a, b), t[a..a + n], Units(t, a + n, b))
    decreases n
  {
    hide LoneHigh, LoneLow, Meaning, Units, Body;
    if n == 0 {
      assert t[a..a] == "";
    } else {
      PlainFirst(t, a, b);
      PlainRun(t, a + 1, n - 1, b);
      FrontByte(t, a, n, Meaning(Units(t, a + n, b)));
    }
  }

  /** ASCII characters in front do not matter. */
  lemma {:induction false} AsciiRun(t: string, a: nat, n: nat, b: nat)
    requires a + n <= b <= |t| && (forall k :: a <= k < a + n ==> t[k] as int < 0x80) && WellFormed(t[a..b])
    ensures WellFormed(t[a + n..b])
    decreases n
  {
    hide WellFormed;
    if n > 0 {
      OneByte(t[a] as int);
      FrontSequence([t[a]], t[a + 1..b]);
      assert [t[a]] + t[a + 1..b] == t[a..b];
      AsciiRun(t, a + 1, n - 1, b);
    }
  }

  lemma EscapeIsAscii(t: string, a: nat, b: nat)
    requires EscapeAt(t, a, b) && WellFormed(t[a..b])
    ensures WellFormed(t[a + 6..b])
  {
    AsciiRun(t, a, 6, b);
  }

  lemma BodyInText(t: string, a: nat, b: nat)
    requires Body(t, a, b)
    ensures a <= b <= |t| && (a < b && t[a] == '\\' ==> a + 1 < b)
  {
  }

  lemma NothingMeant(t: string, a: nat)
    requires Body(t, a, a)
    ensures !LoneHigh(Units(t, a, a)) && !LoneLow(Units(t, a, a)) && WellFormed(Meaning(Units(t, a, a)))
  {
  }

  lemma SliceOfSlice(t: string, a: nat, b: nat, n: nat)
    requires a + n <= b <= |t|
    ensures t[a..b][..n] == t[a..a + n] && t[a..b][n..] == t[a + n..b]
  {
  }

  /** The first sequence of a well-formed text that begins with no backslash holds none. */
  lemma FirstSequence(t: string, a: nat, b: nat) returns (n: nat)
    requires a < b <= |t| && WellFormed(t[a..b]) && t[a] != '\\'
    ensures 1 <= n && a + n <= b && Utf8Value(t[a..a + n]).Ok? && WellFormed(t[a + n..b])
    ensures forall k :: a <= k < a + n ==> t[k] != '\\'
  {
    hide Utf8Value;
    var s := t[a..b];
    n :| 1 <= n <= 4 && n <= |s| && Utf8Value(s[..n]).Ok? && WellFormed(s[n..]);
    hide WellFormed;
    SliceOfSlice(t, a, b, n);
    LengthShows(t[a..a + n]);
    forall k | a <= k < a + n ensures t[k] != '\\' { assert t[a..a + n][k - a] == t[k]; }
  }

  /**
   A body that is well-formed UTF-8 itself means well-formed UTF-8 exactly when no low
   surrogate stands alone.
   */
  lemma {:induction false} MeaningIsWellFormed(t: string, a: nat, b: nat)
    requires Body(t, a, b) && WellFormed(t[a..b]) && !LoneHigh(Units(t, a, b))
    ensures WellFormed(Meaning(Units(t, a, b))) <==> !LoneLow(Units(t, a, b))
    decreases b - a
  {
    hide LoneHigh, LoneLow, Utf8Value, Encode, Meaning, Units, Body, WellFormed, CodeAt, PairFirst;
    BodyInText(t, a, b);
    if a == b {
      NothingMeant(t, a);
    } else if t[a] != '\\' {
      var n := FirstSequence(t, a, b);
      PlainRun(t, a, n, b);
      MeaningIsWellFormed(t, a + n, b);
      FrontSequence(t[a..a + n], Meaning(Units(t, a + n, b)));
    } else if t[a + 1] != 'u' {
      LetterFirst(t, a, b);
      AsciiRun(t, a, 2, b);
      MeaningIsWellFormed(t, a + 2, b);
      OneByte(Letter(t[a + 1]) as int);
      FrontSequence([Letter(t[a + 1])], Meaning(Units(t, a + 2, b)));
    } else {
      CodeFirst(t, a, b);
      EscapeIsAscii(t, a, b);
      if PairFirst(Units(t, a, b)) {
        PairIsFirst(t, a, b);
        EscapeIsAscii(t, a + 6, b);
        MeaningIsWellFormed(t, a + 12, b);
        var cp := PairValue(CodeAt(t, a), CodeAt(t, a + 6));
        EncodingIsExact(cp);
        FrontSequence(Encode(cp), Meaning(Units(t, a + 12, b)));
      } else {
        MeaningIsWellFormed(t, a + 6, b);
        EncodingIsExact(CodeAt(t, a));
        if IsLowSurrogate(CodeAt(t, a)) { FrontSurrogate(CodeAt(t, a), Meaning(Units(t, a + 6, b))); }
        else { FrontSequence(Encode(CodeAt(t, a)), Meaning(Units(t, a + 6, b))); }
      }
    }
  }
}
