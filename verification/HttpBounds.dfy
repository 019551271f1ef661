/**
 Two bounds: header sections are cut off at MAX_HEADER_SIZE bytes, and the value of a
 Content-Length header is read exactly, without wrapping.
 */
module HttpBounds {
  import opened Common
  import opened HttpTypes
  import opened HttpSwitch
  import opened HttpInvariant
  import opened HttpRun
  import opened HttpTape

  /** A turn leaves the header count alone or resets it. */
  lemma TurnCounts(s: Settings, p: Parser, ch: char)
    ensures var t := Switch(s, p, ch, 1); t.p.nread == p.nread || t.p.nread == 0
  {
    hide InitialMethod, IsMethodInitial, OtherMethod, MethodString, FieldFirst,
      Pattern, ParseUrlChar, Lower, Token, Unhex, ShouldKeepAlive, IsNum;
    match p.state
    case Dead | StartReqOrRes | ResOrRespH | StartRes | StartReq =>
    case Status(_) =>
    case ReqMethod =>
    case Url(_) =>
    case Version(_) =>
    case HeaderFieldStart | HeaderField =>
    case Value(_) =>
    case HeadersAlmostDone | HeadersDone =>
    case BodyIdentity | BodyIdentityEof | MessageDone =>
    case Chunk(_) =>
  }

  lemma {:induction false} LoopCounts(s: Settings, p: Parser, ch: char)
    ensures var o := Loop(s, p, ch); o.p.nread == p.nread || o.p.nread == 0
    decreases Rank(p.state)
  {
    hide Switch, TurnEvents, Rank;
    TurnCounts(s, p, ch);
    ReexecutionLowersRank(s, p, ch, 1);
    var t := Switch(s, p, ch, 1);
    if t.ctl.Again? { LoopCounts(s, t.p, ch); }
  }

  /** The record after the first n bytes. */
  function After(s: Settings, p: Parser, data: string, n: nat): Parser
    requires n <= |data|
  {
    Feed(s, Start(p), data[..n]).p
  }

  /** A stretch of input all of whose bytes are header bytes, none of them a reset. */
  predicate HeaderStretch(s: Settings, p: Parser, data: string) {
    (forall i :: 0 <= i < |data| ==> ParsingHeader(After(s, p, data, i).state)) &&
    (forall i :: 0 < i <= |data| ==> After(s, p, data, i).nread != 0)
  }

  /** Over such a stretch the count grows with every byte. */
  lemma {:induction false} StretchCounts(s: Settings, p: Parser, data: string)
    requires HeaderStretch(s, p, data) && Feed(s, Start(p), data).ctl.Advance?
    ensures Feed(s, Start(p), data).p.nread == p.nread + |data|
  {
    hide Loop;
    if data != "" {
      var n := |data| - 1;
      var front := data[..n];
      assert data[..|data|] == data;
      forall i | 0 <= i <= n ensures After(s, p, front, i) == After(s, p, data, i) {
        assert front[..i] == data[..i];
      }
      assert Feed(s, Start(p), front).ctl.Advance?;
      StretchCounts(s, p, front);
      var q := Feed(s, Start(p), front).p;
      assert q == After(s, p, data, n);
      LoopCounts(s, q.(nread := q.nread + 1), data[n]);
      assert After(s, p, data, |data|).nread != 0;
    }
  }

  /**
   No error-free run takes more than MAX_HEADER_SIZE bytes of a header section, or of a
   chunk-size line, since the count was last reset.
   */
  lemma HeaderSectionIsBounded(s: Settings, p: Parser, data: string)
    requires AtRest(p) && HeaderStretch(s, p, data) && Feed(s, Start(p), data).ctl.Advance?
    ensures p.nread + |data| <= MAX_HEADER_SIZE
  {
    hide Feed, HeaderStretch, Shape, KindFits;
    StretchCounts(s, p, data);
    FeedKeepsInvariant(s, Start(p), data);
  }

  // ---- Content-Length ----

  /** The value of decimal digits among which spaces are ignored. */
  function DecimalValue(text: string): nat {
    if text == "" then 0
    else
      var front := DecimalValue(text[..|text| - 1]);
      var c := text[|text| - 1];
      if IsNum(c) then front * 10 + Digit(c) else front
  }

  predicate LengthText(text: string) {
    text != "" && IsNum(text[0]) && forall i :: 0 <= i < |text| ==> IsNum(text[i]) || text[i] == ' '
  }

  /** The sizes the overflow test admits before a further digit. */
  predicate RoomForDigit(n: nat) { n <= (ULLONG_MAX - 10) / 10 }

  /** The overflow test admits a digit exactly when the value stays up to ULLONG_MAX - 6. */
  lemma DigitFits(front: nat, d: nat)
    requires d <= 9
    ensures RoomForDigit(front) <==> front * 10 + d <= ULLONG_MAX - 6
  {
  }

  lemma LastDigit(text: string)
    requires LengthText(text)
    ensures var front, c := DecimalValue(text[..|text| - 1]), text[|text| - 1];
      && DecimalValue(text) == (if IsNum(c) then front * 10 + Digit(c) else front)
      && (IsNum(c) ==> Digit(c) <= 9 && (RoomForDigit(front) <==> DecimalValue(text) <= ULLONG_MAX - 6))
      && (|text| == 1 ==> front == 0 && IsNum(c))
      && (|text| > 1 ==> LengthText(text[..|text| - 1]))
  {
    hide RoomForDigit;
    var front, c := text[..|text| - 1], text[|text| - 1];
    if IsNum(c) { DigitFits(DecimalValue(front), Digit(c)); }
    if |text| == 1 { assert front == ""; }
  }

  lemma FirstDigit(s: Settings, p: Parser, ch: char)
    requires p.state == Value(DiscardWs) && p.headerState == ContentLength && p.nread < MAX_HEADER_SIZE
    requires IsNum(ch)
    ensures var o := StepByte(s, p, ch);
      o == Outcome(p.(state := Value(ValueText), index := 0, contentLength := Digit(ch), nread := p.nread + 1),
                   [Byte(ValueData, ch)], Advance)
  {
    hide Lower, AsData, Notices;
    OneByteData(ValueData, ch);
    NoticesOne(Mark(ValueData));
  }

  lemma NextDigit(s: Settings, p: Parser, ch: char)
    requires p.state == Value(ValueText) && p.headerState == ContentLength && p.nread < MAX_HEADER_SIZE
    requires IsNum(ch) || ch == ' '
    ensures var o := StepByte(s, p, ch);
      if ch == ' ' || RoomForDigit(p.contentLength) then
        var n := if ch == ' ' then p.contentLength else p.contentLength * 10 + Digit(ch);
        && n < ULLONG_MAX + (if ch == ' ' then 1 else 0)
        && o == Outcome(p.(contentLength := n, nread := p.nread + 1), [Byte(ValueData, ch)], Advance)
      else o.ctl.Fail? && o.p.errno == InvalidContentLength
  {
    hide Lower, AsData;
    OneByteData(ValueData, ch);
  }

  /**
   The digits of a Content-Length value are read exactly: up to ULLONG_MAX - 6 the parser
   holds their decimal value, which neither wraps nor is the sentinel; beyond, it refuses.
   */
  lemma {:induction false} ContentLengthIsExact(s: Settings, p: Parser, text: string)
    requires p.state == Value(DiscardWs) && p.headerState == ContentLength
    requires LengthText(text) && p.nread + |text| <= MAX_HEADER_SIZE
    ensures var r := Feed(s, Start(p), text);
      if DecimalValue(text) <= ULLONG_MAX - 6 then
        r == Run(p.(state := Value(ValueText), index := 0, contentLength := DecimalValue(text),
                    nread := p.nread + |text|),
                 |text|, AsData(ValueData, text), Advance)
      else
        r.ctl.Fail? && r.p.errno == InvalidContentLength
  {
    var n := |text| - 1;
    LastDigit(text);
    hide StepByte, IsNum, DecimalValue, RoomForDigit;
    if n == 0 {
      assert text == [text[0]] && text[..0] == "";
      OneByteData(ValueData, text[0]);
      FirstDigit(s, p, text[0]);
    } else {
      ContentLengthIsExact(s, p, text[..n]);
      var front := Feed(s, Start(p), text[..n]);
      if front.ctl.Advance? { NextDigit(s, front.p, text[n]); }
    }
  }

  // ---- the numbers of the first line ----

  predicate DigitText(text: string) { text != "" && forall i :: 0 <= i < |text| ==> IsNum(text[i]) }

  lemma LastNumeral(text: string)
    requires DigitText(text)
    ensures var front, c := text[..|text| - 1], text[|text| - 1];
      && IsNum(c) && Digit(c) <= 9 && DecimalValue(text) == DecimalValue(front) * 10 + Digit(c)
      && (if |text| == 1 then DecimalValue(front) == 0 else DigitText(front))
  {
    if |text| == 1 { assert text[..0] == ""; }
  }

  /** Digits have the value that they spell, and no other text has one. */
  lemma {:induction false} DecimalIsSpelled(text: string, n: nat)
    ensures DigitText(text) && DecimalValue(text) == n <==> SpellsDecimal(text, n)
  {
    if text != "" {
      var front, c := text[..|text| - 1], text[|text| - 1];
      DecimalDigit(c);
      hide IsNum, Digit, IsDecimalFor;
      if front == "" {
        assert DecimalValue(front) == 0;
      } else {
        DecimalIsSpelled(front, n / 10);
        if DigitText(text) { DecimalIsSpelled(front, DecimalValue(front)); }
      }
    }
  }

  lemma DecimalDigit(c: char)
    ensures IsNum(c) ==> Digit(c) < 10
    ensures forall d: nat | d < 10 :: IsNum(c) && Digit(c) == d <==> IsDecimalFor(c, d)
  {
  }

  /** A state before a number, the state within it, and the number itself. */
  datatype Field = MajorVersion | MinorVersion | StatusCode

  predicate Before(f: Field, p: Parser) {
    match f
    case MajorVersion => p.state == Version(ReqFirstHttpMajor) || p.state == Status(ResFirstHttpMajor)
    case MinorVersion => p.state == Version(ReqFirstHttpMinor) || p.state == Status(ResFirstHttpMinor)
    case StatusCode => p.state == Status(ResFirstStatusCode)
  }

  predicate Within(f: Field, p: Parser) {
    match f
    case MajorVersion => p.state == Version(ReqHttpMajor) || p.state == Status(ResHttpMajor)
    case MinorVersion => p.state == Version(ReqHttpMinor) || p.state == Status(ResHttpMinor)
    case StatusCode => p.state == Status(ResStatusCode)
  }

  function NumberIn(f: Field, p: Parser): nat {
    match f case MajorVersion => p.httpMajor case MinorVersion => p.httpMinor case StatusCode => p.statusCode
  }

  /** The record within a number, which is n so far. */
  function Reading(f: Field, p: Parser, n: nat): Parser {
    var inRequest := p.state.Version?;
    match f
    case MajorVersion =>
      p.(httpMajor := n, state := if inRequest then Version(ReqHttpMajor) else Status(ResHttpMajor))
    case MinorVersion =>
      p.(httpMinor := n, state := if inRequest then Version(ReqHttpMinor) else Status(ResHttpMinor))
    case StatusCode => p.(statusCode := n, state := Status(ResStatusCode))
  }

  lemma DigitIsNoMark(ch: char)
    requires IsNum(ch)
    ensures ch != '.' && ch != ' ' && ch != '\r' && ch != '\n' && Digit(ch) <= 9 && (ch != '0' ==> '1' <= ch <= '9')
  {
  }

  lemma NumberStarts(s: Settings, f: Field, p: Parser, ch: char)
    requires Before(f, p) && p.nread < MAX_HEADER_SIZE && IsNum(ch)
    requires p.state == Version(ReqFirstHttpMajor) ==> ch != '0'
    ensures StepByte(s, p, ch) == Outcome(Reading(f, p, Digit(ch)).(nread := p.nread + 1), [], Advance)
    ensures Within(f, Reading(f, p, Digit(ch))) && NumberIn(f, Reading(f, p, Digit(ch))) == Digit(ch)
  {
    hide StepByte, TurnEvents, IsNum, Digit;
    var q := p.(nread := p.nread + 1);
    assert Switch(s, q, ch, 1) == Go(Reading(f, q, Digit(ch))) by { assert IsNum(ch); DigitIsNoMark(ch); }
    OnePass(s, p, ch);
    SilentTurn(p.state, Go(Reading(f, q, Digit(ch))), ch);
  }

  lemma NumberGoesOn(s: Settings, f: Field, p: Parser, ch: char)
    requires Within(f, p) && p.nread < MAX_HEADER_SIZE && IsNum(ch)
    ensures var o, n := StepByte(s, p, ch), NumberIn(f, p) * 10 + Digit(ch);
      if n <= 999 then
        o == Outcome(Reading(f, p, n).(nread := p.nread + 1), [], Advance) && Within(f, o.p) && NumberIn(f, o.p) == n
      else o.ctl.Fail? && o.p.errno == if f.StatusCode? then InvalidStatus else InvalidVersion
  {
    hide StepByte, TurnEvents, IsNum, Digit;
    DigitIsNoMark(ch);
    var q, n := p.(nread := p.nread + 1), NumberIn(f, p) * 10 + Digit(ch);
    var t := Switch(s, q, ch, 1);
    OnePass(s, p, ch);
    if n <= 999 {
      assert t == Go(Reading(f, q, n));
      SilentTurn(p.state, t, ch);
    }
  }

  lemma ReadingOn(f: Field, p: Parser, n: nat, nread: nat, m: nat, nread': nat)
    ensures Reading(f, Reading(f, p, n).(nread := nread), m).(nread := nread') == Reading(f, p, m).(nread := nread')
  {
  }

  /** The version numbers and the status code are read exactly, and refused exactly beyond 999. */
  lemma {:induction false} NumbersAreExact(s: Settings, f: Field, p: Parser, text: string)
    requires Before(f, p) && DigitText(text) && p.nread + |text| <= MAX_HEADER_SIZE
    requires p.state == Version(ReqFirstHttpMajor) ==> text[0] != '0'
    ensures var r, n := Feed(s, Start(p), text), DecimalValue(text);
      if n <= 999 then
        && r == Run(Reading(f, p, n).(nread := p.nread + |text|), |text|, [], Advance)
        && Within(f, r.p) && NumberIn(f, r.p) == n
      else r.ctl.Fail? && r.p.errno == if f.StatusCode? then InvalidStatus else InvalidVersion
  {
    var n := |text| - 1;
    LastNumeral(text);
    hide StepByte, IsNum, Before, Within, NumberIn, DecimalValue, Reading;
    if n == 0 {
      NumberStarts(s, f, p, text[0]);
    } else {
      NumbersAreExact(s, f, p, text[..n]);
      var front := Feed(s, Start(p), text[..n]);
      if front.ctl.Advance? {
        NumberGoesOn(s, f, front.p, text[n]);
        ReadingOn(f, p, DecimalValue(text[..n]), p.nread + n, DecimalValue(text), p.nread + n + 1);
      }
    }
  }
}
