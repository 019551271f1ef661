/**
 The header matchers: which names and values of headers the parser acts on.  Both are
 recognised exactly, letter case aside.
 */
module HttpHeader {
  import opened HttpTypes
  import opened HttpSwitch
  import opened HttpRun
  import opened HttpTape

  // ---- names ----

  function Lowered(name: string): (r: string)
    ensures |r| == |name|
  {
    if name == "" then "" else Lowered(name[..|name| - 1]) + [Token(name[|name| - 1])]
  }

  predicate TokenText(name: string) { name != "" && forall i :: 0 <= i < |name| ==> Token(name[i]) != '\0' }

  predicate Begins(low: string, word: string) { |low| <= |word| && low == word[..|low|] }

  /** Some name that the parser knows begins with the text. */
  predicate Known(low: string) {
    Begins(low, "connection") || Begins(low, "content-length") || Begins(low, "proxy-connection") ||
    Begins(low, "transfer-encoding") || Begins(low, "upgrade")
  }

  /** How much of the text tells the name that is being matched from the others. */
  function Telling(h: HeaderState): nat {
    if h.MatchingConnection? || h.MatchingContentLength? then 4 else 1
  }

  /** The matcher reflects the lower-cased text read so far. */
  predicate NameTracks(h: HeaderState, index: nat, low: string) {
    match h
    case HC => low == "c" && index == 0
    case HCO => low == "co" && index == 1
    case HCON => low == "con" && index == 2
    case MatchingConnection | MatchingProxyConnection | MatchingContentLength
       | MatchingTransferEncoding | MatchingUpgrade =>
      |low| == index + 1 < |Pattern(h)| && Begins(low, Pattern(h)) && |low| >= Telling(h)
    case Connection => low == "connection" || low == "proxy-connection"
    case ContentLength => low == "content-length"
    case TransferEncoding => low == "transfer-encoding"
    case Upgrade => low == "upgrade"
    case General => low != "" && !Known(low)
    case _ => false
  }

  lemma BeginsShorter(low: string, c: char, word: string)
    ensures Begins(low + [c], word) <==> Begins(low, word) && |low| < |word| && word[|low|] == c
  {
    if |low| < |word| { assert word[..|low| + 1] == word[..|low|] + [word[|low|]]; }
  }

  lemma KnownStep(low: string, c: char)
    ensures Known(low + [c]) ==> Known(low)
  {
    BeginsShorter(low, c, "connection");
    BeginsShorter(low, c, "content-length");
    BeginsShorter(low, c, "proxy-connection");
    BeginsShorter(low, c, "transfer-encoding");
    BeginsShorter(low, c, "upgrade");
    hide Begins;
  }

  /** A text long enough to tell its name begins no other. */
  lemma OnlyOne(h: HeaderState, low: string)
    requires Matching(h) && h != MatchingChunked && h != MatchingKeepAlive && h != MatchingClose
    requires Begins(low, Pattern(h)) && |low| >= Telling(h)
    ensures Begins(low, "connection") ==> h.MatchingConnection?
    ensures Begins(low, "content-length") ==> h.MatchingContentLength?
    ensures Begins(low, "proxy-connection") ==> h.MatchingProxyConnection?
    ensures Begins(low, "transfer-encoding") ==> h.MatchingTransferEncoding?
    ensures Begins(low, "upgrade") ==> h.MatchingUpgrade?
  {
    assert low[0] == Pattern(h)[0];
    if |low| >= 4 { assert low[3] == Pattern(h)[3]; }
    forall w: string | Begins(low, w) ensures low[0] == w[0] && (|low| >= 4 ==> low[3] == w[3]) { }
  }

  lemma NoOtherLetter(c: char)
    requires c != 'c' && c != 'p' && c != 't' && c != 'u'
    ensures !Known([c])
  {
    BeginsShorter("", c, "connection");
    BeginsShorter("", c, "content-length");
    BeginsShorter("", c, "proxy-connection");
    BeginsShorter("", c, "transfer-encoding");
    BeginsShorter("", c, "upgrade");
    hide Begins;
    assert "" + [c] == [c];
  }

  /** The first byte of a name. */
  lemma FirstLetter(c: char)
    requires c != '\0'
    ensures NameTracks(FieldFirst(c), 0, [c])
  {
    match c
    case 'c' =>
    case 'p' => assert "proxy-connection"[..1] == "p";
    case 't' => assert "transfer-encoding"[..1] == "t";
    case 'u' => assert "upgrade"[..1] == "u";
    case _ => NoOtherLetter(c);
  }

  lemma ConBegins(low: string)
    requires low == "c" || low == "co" || low == "con"
    ensures Begins(low, "connection") && Begins(low, "content-length")
    ensures !Begins(low, "proxy-connection") && !Begins(low, "transfer-encoding") && !Begins(low, "upgrade")
  {
    assert "connection"[..1] == "c" && "connection"[..2] == "co" && "connection"[..3] == "con";
    assert "content-length"[..1] == "c" && "content-length"[..2] == "co" && "content-length"[..3] == "con";
    assert low[0] == 'c';
    forall w: string | Begins(low, w) ensures low[0] == w[0] { }
  }

  lemma LettersOfCon(p: Parser, ch: char, low: string)
    requires (p.headerState.HC? || p.headerState.HCO? || p.headerState.HCON?) && NameTracks(p.headerState, p.index, low)
    ensures var t := FieldNext(p, ch, Token(ch)); NameTracks(t.p.headerState, t.p.index, low + [Token(ch)])
  {
    hide Token, Begins;
    var c := Token(ch);
    ConBegins(low);
    BeginsShorter(low, c, "connection");
    BeginsShorter(low, c, "content-length");
    BeginsShorter(low, c, "proxy-connection");
    BeginsShorter(low, c, "transfer-encoding");
    BeginsShorter(low, c, "upgrade");
  }

  lemma WholeWord(low: string, word: string)
    requires Begins(low, word) && |low| == |word|
    ensures low == word
  {
    assert word[..|word|] == word;
  }

  lemma MatchLetter(p: Parser, c: char, low: string)
    requires Matching(p.headerState) && NameTracks(p.headerState, p.index, low)
    ensures var q := MatchStep(p, c);
      q == p.(headerState := q.headerState, index := q.index) && NameTracks(q.headerState, q.index, low + [c])
  {
    hide Begins;
    var h := p.headerState;
    OnlyOne(h, low);
    BeginsShorter(low, c, "connection");
    BeginsShorter(low, c, "content-length");
    BeginsShorter(low, c, "proxy-connection");
    BeginsShorter(low, c, "transfer-encoding");
    BeginsShorter(low, c, "upgrade");
    assert Begins(low + [c], Pattern(h)) <==> Pattern(h)[|low|] == c by { BeginsShorter(low, c, Pattern(h)); }
    if |low| + 1 == |Pattern(h)| && Pattern(h)[|low|] == c { WholeWord(low + [c], Pattern(h)); }
  }

  /** No known name is the beginning of another. */
  lemma LongerName(low: string, c: char)
    requires low == "connection" || low == "proxy-connection" || low == "content-length" ||
             low == "transfer-encoding" || low == "upgrade"
    ensures !Known(low + [c])
  {
    BeginsShorter(low, c, "connection");
    BeginsShorter(low, c, "content-length");
    BeginsShorter(low, c, "proxy-connection");
    BeginsShorter(low, c, "transfer-encoding");
    BeginsShorter(low, c, "upgrade");
    assert low[0] == 'c' || low[0] == 'p' || low[0] == 't' || low[0] == 'u';
    assert low == "connection" ==> low[3] == 'n';
    assert low == "content-length" ==> low[3] == 't';
  }

  /** A further byte of a name. */
  lemma NextLetter(p: Parser, ch: char, low: string)
    requires NameTracks(p.headerState, p.index, low) && Token(ch) != '\0'
    ensures var t := FieldNext(p, ch, Token(ch));
      t.ctl.Advance? && t.acts == [] && t.p == p.(headerState := t.p.headerState, index := t.p.index) &&
      NameTracks(t.p.headerState, t.p.index, low + [Token(ch)])
  {
    var c := Token(ch);
    match p.headerState
    case General => KnownStep(low, c);
    case HC | HCO | HCON => LettersOfCon(p, ch, low);
    case MatchingConnection | MatchingProxyConnection | MatchingContentLength
       | MatchingTransferEncoding | MatchingUpgrade => MatchLetter(p, c, low);
    case Connection | ContentLength | TransferEncoding | Upgrade => LongerName(low, c);
  }

  lemma NameByte(s: Settings, p: Parser, ch: char)
    requires p.nread < MAX_HEADER_SIZE && InField(p.state) && Token(ch) != '\0'
    ensures var o, q := StepByte(s, p, ch), p.(nread := p.nread + 1);
      var t := if p.state.HeaderField? then FieldNext(q, ch, Token(ch))
               else Go(q.(index := 0, state := HeaderField, headerState := FieldFirst(Token(ch))));
      t.ctl.Advance? ==> o == Outcome(t.p, [Byte(FieldData, ch)], Advance)
  {
    assert ch != '\r' && ch != '\n' && (ch == ':' ==> Token(ch) == '\0');
    hide StepByte, TurnEvents, FieldFirst, FieldNext, Token;
    var q := p.(nread := p.nread + 1);
    var t := Switch(s, q, ch, 1);
    OnePass(s, p, ch);
    if p.state.HeaderField? { FieldNextStays(q, ch, Token(ch)); }
    if t.ctl.Advance? { DataTurn(p.state, t, ch, FieldData); }
  }

  lemma {:induction false} NameIsTracked(s: Settings, p: Parser, name: string)
    requires p.state.HeaderFieldStart? && TokenText(name) && p.nread + |name| <= MAX_HEADER_SIZE
    ensures var r := Feed(s, Start(p), name);
      && r == Run(p.(state := HeaderField, headerState := r.p.headerState, index := r.p.index,
                     nread := p.nread + |name|),
                  |name|, AsData(FieldData, name), Advance)
      && NameTracks(r.p.headerState, r.p.index, Lowered(name))
  {
    hide StepByte, Token, NameTracks, FieldNext, FieldFirst;
    var n := |name| - 1;
    var front := Feed(s, Start(p), name[..n]);
    if n == 0 {
      assert name[..0] == "" && name == [name[0]];
      OneByteData(FieldData, name[0]);
      NameByte(s, p, name[0]);
      FirstLetter(Token(name[0]));
      assert Lowered(name) == [Token(name[0])];
    } else {
      NameIsTracked(s, p, name[..n]);
      NameByte(s, front.p, name[n]);
      NextLetter(front.p.(nread := front.p.nread + 1), name[n], Lowered(name[..n]));
    }
  }

  lemma Decided(h: HeaderState, index: nat, low: string)
    requires NameTracks(h, index, low)
    ensures h.Connection? <==> low == "connection" || low == "proxy-connection"
    ensures h.ContentLength? <==> low == "content-length"
    ensures h.TransferEncoding? <==> low == "transfer-encoding"
    ensures h.Upgrade? <==> low == "upgrade"
  {
    assert "connection"[..10] == "connection" && "proxy-connection"[..16] == "proxy-connection";
    assert "content-length"[..14] == "content-length" && "transfer-encoding"[..17] == "transfer-encoding";
    assert "upgrade"[..7] == "upgrade";
    if Matching(h) { OnlyOne(h, low); }
  }

  /** The parser acts on exactly five header names, in any letter case. */
  lemma NamesAreExact(s: Settings, p: Parser, name: string)
    requires p.state.HeaderFieldStart? && TokenText(name) && p.nread + |name| <= MAX_HEADER_SIZE
    ensures var r, low := Feed(s, Start(p), name), Lowered(name);
      && r.ctl.Advance? && r.p.state.HeaderField?
      && (r.p.headerState.Connection? <==> low == "connection" || low == "proxy-connection")
      && (r.p.headerState.ContentLength? <==> low == "content-length")
      && (r.p.headerState.TransferEncoding? <==> low == "transfer-encoding")
      && (r.p.headerState.Upgrade? <==> low == "upgrade")
  {
    hide Feed, Lowered;
    NameIsTracked(s, p, name);
    var r, low := Feed(s, Start(p), name).p, Lowered(name);
    Decided(r.headerState, r.index, low);
  }

  // ---- values ----

  function LowerText(raw: string): (r: string)
    ensures |r| == |raw|
  {
    if raw == "" then "" else LowerText(raw[..|raw| - 1]) + [Lower(raw[|raw| - 1])]
  }

  /** A line of a value: it starts with no blank and holds no end of line. */
  predicate ValueLine(raw: string) {
    raw != "" && raw[0] != ' ' && raw[0] != '\t' && forall i :: 0 <= i < |raw| ==> raw[i] != '\r' && raw[i] != '\n'
  }

  /** The value is a word in any letter case, spaces behind it. */
  predicate Says(raw: string, word: string) {
    |raw| >= |word| && LowerText(raw)[..|word|] == word && forall i :: |word| <= i < |raw| ==> raw[i] == ' '
  }

  /** The text may still become a value that says the word. */
  predicate MaySay(raw: string, word: string) { Begins(LowerText(raw), word) || Says(raw, word) }

  predicate ValueTracks(header: HeaderState, h: HeaderState, index: nat, raw: string) {
    match h
    case MatchingChunked =>
      header.TransferEncoding? && |raw| == index + 1 < |"chunked"| && Begins(LowerText(raw), "chunked")
    case MatchingKeepAlive =>
      header.Connection? && |raw| == index + 1 < |"keep-alive"| && Begins(LowerText(raw), "keep-alive")
    case MatchingClose =>
      header.Connection? && |raw| == index + 1 < |"close"| && Begins(LowerText(raw), "close")
    case Chunked => header.TransferEncoding? && Says(raw, "chunked")
    case KeepAlive => header.Connection? && Says(raw, "keep-alive")
    case Close => header.Connection? && Says(raw, "close")
    case General =>
      && raw != ""
      && (header.TransferEncoding? ==> !MaySay(raw, "chunked"))
      && (header.Connection? ==> !MaySay(raw, "keep-alive") && !MaySay(raw, "close"))
    case _ => false
  }

  lemma LowerSnoc(raw: string, ch: char)
    ensures LowerText(raw + [ch]) == LowerText(raw) + [Lower(ch)]
  {
    hide Lower;
    assert (raw + [ch])[..|raw|] == raw;
  }

  lemma SaysStep(raw: string, ch: char, word: string)
    ensures Says(raw + [ch], word) <==>
            (Says(raw, word) && ch == ' ') || (|raw| + 1 == |word| && LowerText(raw) + [Lower(ch)] == word)
  {
    hide Lower, LowerText;
    LowerSnoc(raw, ch);
    var more := raw + [ch];
    if |raw| >= |word| {
      assert LowerText(more)[..|word|] == LowerText(raw)[..|word|];
      assert more[|raw|] == ch;
      assert forall i :: 0 <= i < |raw| ==> more[i] == raw[i];
    } else if |raw| + 1 == |word| {
      assert LowerText(more)[..|word|] == LowerText(more);
    }
  }

  lemma FrontBegins(low: string, c: char)
    ensures Begins(low, low + [c])
  {
  }

  /** What cannot be said any more stays unsaid. */
  lemma MayStep(raw: string, ch: char, word: string)
    ensures MaySay(raw + [ch], word) ==> MaySay(raw, word)
  {
    hide Lower, LowerText, Begins;
    SaysStep(raw, ch, word);
    LowerSnoc(raw, ch);
    BeginsShorter(LowerText(raw), Lower(ch), word);
    if |raw| + 1 == |word| && LowerText(raw) + [Lower(ch)] == word { FrontBegins(LowerText(raw), Lower(ch)); }
  }

  lemma FirstMay(ch: char, c: char, word: string)
    requires |word| > 1 && LowerText([ch]) == [c]
    ensures MaySay([ch], word) <==> c == word[0]
    ensures c == word[0] ==> Begins(LowerText([ch]), word)
  {
    hide LowerText;
    assert word[..1] == [word[0]];
  }

  /** The first byte of a value. */
  lemma FirstOfValue(p: Parser, ch: char)
    requires !p.headerState.ContentLength?
    ensures var t := ValueFirst(p, ch);
      && t == GoWith(p.(state := Value(ValueText),
                        flags := p.flags.(upgrade := p.flags.upgrade || p.headerState.Upgrade?),
                        headerState := t.p.headerState, index := 0),
                     [Mark(ValueData)])
      && ValueTracks(p.headerState, t.p.headerState, t.p.index, [ch])
  {
    var c := Lower(ch);
    hide Lower;
    assert [ch][..0] == "";
    assert LowerText([ch]) == [c];
    hide LowerText;
    FirstMay(ch, c, "chunked");
    FirstMay(ch, c, "keep-alive");
    FirstMay(ch, c, "close");
  }

  lemma MatchOfValue(p: Parser, ch: char, raw: string, word: string)
    requires Matching(p.headerState) && Pattern(p.headerState) == word && word != ""
    requires |raw| == p.index + 1 < |word| && Begins(LowerText(raw), word)
    ensures var q := MatchStep(p, Lower(ch));
      q == p.(headerState := q.headerState, index := q.index) &&
      (if Lower(ch) != word[|raw|] then q.headerState == General && !MaySay(raw + [ch], word)
       else if |raw| + 1 == |word| then q.headerState == Matched(p.headerState) && Says(raw + [ch], word)
       else q.headerState == p.headerState && q.index == p.index + 1 && Begins(LowerText(raw + [ch]), word))
  {
    hide Lower, LowerText, Pattern;
    LowerSnoc(raw, ch);
    SaysStep(raw, ch, word);
    BeginsShorter(LowerText(raw), Lower(ch), word);
    if |raw| + 1 == |word| && Lower(ch) == word[|raw|] { WholeWord(LowerText(raw + [ch]), word); }
  }

  /** The two words under Connection begin with different letters. */
  lemma OtherWord(raw: string, ch: char, word: string, other: string)
    requires raw != "" && Begins(LowerText(raw), word) && |raw| < |word| && other != "" && word[0] != other[0]
    ensures !MaySay(raw + [ch], other)
  {
    hide Lower, LowerText;
    LowerSnoc(raw, ch);
    assert LowerText(raw)[0] == word[0];
    assert LowerText(raw + [ch])[0] == word[0];
  }

  lemma OtherSaid(raw: string, ch: char, word: string, other: string)
    requires Says(raw, word) && word != "" && other != "" && word[0] != other[0]
    ensures !MaySay(raw + [ch], other)
  {
    hide Lower, LowerText;
    LowerSnoc(raw, ch);
    assert LowerText(raw)[0] == LowerText(raw)[..|word|][0] == word[0];
    assert LowerText(raw + [ch])[0] == word[0];
  }

  lemma AfterWord(raw: string, ch: char, word: string)
    requires Says(raw, word) && word != ""
    ensures if ch == ' ' then Says(raw + [ch], word) else !MaySay(raw + [ch], word)
  {
    hide Lower, LowerText;
    SaysStep(raw, ch, word);
    LowerSnoc(raw, ch);
  }

  /** A further byte of a value. */
  lemma NextOfValue(header: HeaderState, p: Parser, ch: char, raw: string)
    requires ValueTracks(header, p.headerState, p.index, raw)
    ensures var t := ValueNext(p, ch);
      t.ctl.Advance? && t.acts == [] && t.p == p.(headerState := t.p.headerState, index := t.p.index) &&
      ValueTracks(header, t.p.headerState, t.p.index, raw + [ch])
  {
    hide Lower, LowerText, Begins, Says;
    match p.headerState
    case MatchingChunked => MatchOfValue(p, ch, raw, "chunked");
    case MatchingKeepAlive =>
      MatchOfValue(p, ch, raw, "keep-alive");
      OtherWord(raw, ch, "keep-alive", "close");
    case MatchingClose =>
      MatchOfValue(p, ch, raw, "close");
      OtherWord(raw, ch, "close", "keep-alive");
    case Chunked => AfterWord(raw, ch, "chunked");
    case KeepAlive =>
      AfterWord(raw, ch, "keep-alive");
      OtherSaid(raw, ch, "keep-alive", "close");
    case Close =>
      AfterWord(raw, ch, "close");
      OtherSaid(raw, ch, "close", "keep-alive");
    case General =>
      MayStep(raw, ch, "chunked");
      MayStep(raw, ch, "keep-alive");
      MayStep(raw, ch, "close");
  }

  lemma ValueByte(s: Settings, p: Parser, ch: char)
    requires p.nread < MAX_HEADER_SIZE && ch != '\r' && ch != '\n'
    requires p.state == Value(ValueText) || (p.state == Value(DiscardWs) && ch != ' ' && ch != '\t')
    ensures var o, q := StepByte(s, p, ch), p.(nread := p.nread + 1);
      var t := if p.state == Value(ValueText) then ValueNext(q, ch) else ValueFirst(q, ch);
      && (!t.ctl.Again? ==> o.ctl == t.ctl && o.p == t.p)
      && (t.ctl.Advance? && (t.acts == [] || t.acts == [Mark(ValueData)]) && t.p.state == Value(ValueText) ==>
            o.evs == [Byte(ValueData, ch)])
  {
    hide StepByte, TurnEvents, ValueNext, ValueFirst;
    var t := Switch(s, p.(nread := p.nread + 1), ch, 1);
    OnePass(s, p, ch);
    if t.ctl.Advance? && (t.acts == [] || t.acts == [Mark(ValueData)]) && t.p.state == Value(ValueText) {
      DataTurn(p.state, t, ch, ValueData);
    }
  }

  lemma {:induction false} ValueIsTracked(s: Settings, p: Parser, raw: string)
    requires p.state == Value(DiscardWs) && !p.headerState.ContentLength? && ValueLine(raw)
    requires p.nread + |raw| <= MAX_HEADER_SIZE
    ensures var r := Feed(s, Start(p), raw);
      && r == Run(p.(state := Value(ValueText), flags := p.flags.(upgrade := p.flags.upgrade || p.headerState.Upgrade?),
                     headerState := r.p.headerState, index := r.p.index, nread := p.nread + |raw|),
                  |raw|, AsData(ValueData, raw), Advance)
      && ValueTracks(p.headerState, r.p.headerState, r.p.index, raw)
  {
    hide StepByte, ValueTracks, ValueNext, ValueFirst;
    var n := |raw| - 1;
    var front := Feed(s, Start(p), raw[..n]);
    if n == 0 {
      assert raw[..0] == "" && raw == [raw[0]];
      OneByteData(ValueData, raw[0]);
      ValueByte(s, p, raw[0]);
      FirstOfValue(p.(nread := p.nread + 1), raw[0]);
    } else {
      ValueIsTracked(s, p, raw[..n]);
      assert raw[..n] + [raw[n]] == raw;
      ValueByte(s, front.p, raw[n]);
      NextOfValue(p.headerState, front.p.(nread := front.p.nread + 1), raw[n], raw[..n]);
    }
  }

  // ---- the ends of lines ----

  /** CR LF, or a bare LF. */
  function Eol(bare: bool): string { if bare then ['\n'] else ['\r', '\n'] }

  lemma CarriageReturn(s: Settings, p: Parser)
    requires p.state == Value(ValueText) && p.nread < MAX_HEADER_SIZE
    ensures StepByte(s, p, '\r') == Outcome(p.(nread := p.nread + 1, state := Value(ValueAlmostDone)), [], Advance)
  {
    hide StepByte, TurnEvents, ValueNext;
    OnePass(s, p, '\r');
    SilentTurn(p.state, Switch(s, p.(nread := p.nread + 1), '\r', 1), '\r');
  }

  lemma LineFeed(s: Settings, p: Parser)
    requires (p.state == Value(ValueAlmostDone) || p.state == Value(ValueText)) && p.nread < MAX_HEADER_SIZE
    ensures StepByte(s, p, '\n') == Outcome(p.(nread := p.nread + 1, state := Value(ValueLws)), [], Advance)
  {
    hide TurnEvents, ValueNext, Rank;
    if p.state == Value(ValueText) {
      var q := p.(nread := p.nread + 1);
      var t := Switch(s, q, '\n', 1);
      assert t.ctl.Again? && t.p == q.(state := Value(ValueAlmostDone));
      var u := Switch(s, t.p, '\n', 1);
      assert u.ctl.Advance? && u.p == q.(state := Value(ValueLws));
      SilentTurn(q.state, t, '\n');
      SilentTurn(t.p.state, u, '\n');
      hide Switch;
      assert Loop(s, t.p, '\n') == Outcome(u.p, [], Advance);
    } else {
      OnePass(s, p, '\n');
      SilentTurn(p.state, Switch(s, p.(nread := p.nread + 1), '\n', 1), '\n');
    }
  }

  /** The end of a line of a value. */
  lemma EndOfLine(s: Settings, r: Run, bare: bool)
    requires r.ctl.Advance? && r.p.state == Value(ValueText) && r.p.nread + |Eol(bare)| <= MAX_HEADER_SIZE
    ensures Feed(s, r, Eol(bare)) ==
            Run(r.p.(nread := r.p.nread + |Eol(bare)|, state := Value(ValueLws)),
                r.consumed + |Eol(bare)|, r.evs, Advance)
  {
    hide StepByte, Feed;
    if bare {
      FeedOne(s, r, '\n');
      LineFeed(s, r.p);
    } else {
      FeedTwo(s, r, '\r', '\n');
      CarriageReturn(s, r.p);
      LineFeed(s, StepByte(s, r.p, '\r').p);
    }
  }

  /** The end of the headers, reached by a bare LF. */
  lemma {:induction false} HeadersEndFlags(s: Settings, p: Parser)
    requires p.state.HeadersAlmostDone? || p.state.HeadersDone?
    ensures var o := Loop(s, p, '\n');
      (o.ctl.Advance? || o.ctl.Leave?) && o.p.flags.(skipBody := p.flags.skipBody) == p.flags
    decreases Rank(p.state)
  {
    hide TurnEvents, ShouldKeepAlive, MessageNeedsEof;
    var t := Switch(s, p, '\n', 1);
    if t.ctl.Again? { HeadersEndFlags(s, t.p); }
  }

  /** The byte behind the last line of a value, which begins a name or the end of the headers. */
  lemma NextLine(s: Settings, p: Parser, c: char)
    requires p.state == Value(ValueLws) && p.nread < MAX_HEADER_SIZE && (c == '\r' || c == '\n' || Token(c) != '\0')
    ensures var o := StepByte(s, p, c); var flags := HeaderFlags(p.flags, p.headerState);
      (o.ctl.Advance? || o.ctl.Leave?) && o.p.flags.(skipBody := flags.skipBody) == flags
  {
    hide TurnEvents, HeaderFlags, FieldFirst, Rank;
    var q := p.(nread := p.nread + 1);
    var t := Switch(s, q, c, 1);
    assert t.ctl.Again? && t.p == q.(flags := HeaderFlags(p.flags, p.headerState), state := HeaderFieldStart);
    var u := Switch(s, t.p, c, 1);
    if c == '\n' {
      assert u.ctl.Again? && u.p == t.p.(state := HeadersAlmostDone);
      HeadersEndFlags(s, u.p);
      hide Switch, Token;
      assert Loop(s, t.p, c).p == Loop(s, u.p, c).p && Loop(s, t.p, c).ctl == Loop(s, u.p, c).ctl;
    } else {
      assert u.ctl.Advance? && u.p.flags == t.p.flags;
      hide Switch, Token;
      assert Loop(s, t.p, c).p == u.p && Loop(s, t.p, c).ctl == u.ctl;
    }
  }

  /** The end of a line, and the first byte of the next one. */
  lemma LineEnds(s: Settings, r: Run, bare: bool, c: char)
    requires r.ctl.Advance? && r.p.state == Value(ValueText) && r.p.nread + |Eol(bare)| < MAX_HEADER_SIZE
    requires c == '\r' || c == '\n' || Token(c) != '\0'
    ensures var f := Feed(s, r, Eol(bare) + [c]); var flags := HeaderFlags(r.p.flags, r.p.headerState);
      (f.ctl.Advance? || f.ctl.Leave?) && f.p.flags.(skipBody := flags.skipBody) == flags
  {
    hide StepByte, HeaderFlags, Feed, Eol, Token;
    EndOfLine(s, r, bare);
    FeedConcat(s, r, Eol(bare), [c]);
    FeedOne(s, Feed(s, r, Eol(bare)), c);
    NextLine(s, Feed(s, r, Eol(bare)).p, c);
  }

  lemma Said(header: HeaderState, h: HeaderState, index: nat, raw: string)
    requires ValueTracks(header, h, index, raw)
    ensures h.Chunked? <==> header.TransferEncoding? && Says(raw, "chunked")
    ensures h.KeepAlive? <==> header.Connection? && Says(raw, "keep-alive")
    ensures h.Close? <==> header.Connection? && Says(raw, "close")
  {
    hide LowerText;
    if Says(raw, "keep-alive") { assert LowerText(raw)[0] == LowerText(raw)[..10][0]; }
    if Says(raw, "close") { assert LowerText(raw)[0] == LowerText(raw)[..5][0]; }
  }

  // ---- values on several lines ----

  predicate IsBlank(c: char) { c == ' ' || c == '\t' }

  /** Blanks in front of a value, with ends of lines among them, each followed by a blank. */
  predicate Lead(text: string) {
    var n := |text|;
    n == 0 ||
    (IsBlank(text[n - 1]) &&
     (Lead(text[..n - 1]) ||
      (n >= 2 && text[n - 2] == '\n' &&
       (Lead(text[..n - 2]) || (n >= 3 && text[n - 3] == '\r' && Lead(text[..n - 3]))))))
  }

  lemma LeadByte(s: Settings, p: Parser, c: char)
    requires p.state.Value? && p.nread < MAX_HEADER_SIZE
    ensures var o, q := StepByte(s, p, c), p.(nread := p.nread + 1);
      && (p.state.value.DiscardWs? && IsBlank(c) ==> o == Outcome(q, [], Advance))
      && (p.state.value.DiscardWs? && c == '\r' ==> o == Outcome(q.(state := Value(DiscardWsAlmostDone)), [], Advance))
      && (p.state.value.DiscardWs? && c == '\n' ==> o == Outcome(q.(state := Value(DiscardLws)), [], Advance))
      && (p.state.value.DiscardWsAlmostDone? && c == '\n' ==> o == Outcome(q.(state := Value(DiscardLws)), [], Advance))
      && (p.state.value.DiscardLws? && IsBlank(c) ==> o == Outcome(q.(state := Value(DiscardWs)), [], Advance))
  {
    hide StepByte, TurnEvents, ValueFirst, ValueNext;
    var t := Switch(s, p.(nread := p.nread + 1), c, 1);
    OnePass(s, p, c);
    if t.acts == [] && t.ctl.Advance? && OpenKind(t.p.state) == [] { SilentTurn(p.state, t, c); }
  }

  /** A blank, with the end of a line in front of it or without. */
  lemma LeadEnds(s: Settings, r: Run, text: string)
    requires r.ctl.Advance? && r.p.state == Value(DiscardWs) && r.p.nread + |text| <= MAX_HEADER_SIZE
    requires 1 <= |text| <= 3 && IsBlank(text[|text| - 1])
    requires |text| >= 2 ==> text[|text| - 2] == '\n'
    requires |text| == 3 ==> text[0] == '\r'
    ensures Feed(s, r, text) == Run(r.p.(nread := r.p.nread + |text|), r.consumed + |text|, r.evs, Advance)
  {
    hide StepByte, Feed;
    LeadByte(s, r.p, text[0]);
    if |text| == 1 {
      assert text == [text[0]];
      FeedOne(s, r, text[0]);
    } else {
      var second := Take(s, r, text[0]);
      LeadByte(s, second.p, text[1]);
      FeedTwo(s, r, text[0], text[1]);
      if |text| == 2 {
        assert text == [text[0], text[1]];
      } else {
        assert text == [text[0], text[1]] + [text[2]];
        FeedConcat(s, r, [text[0], text[1]], [text[2]]);
        FeedOne(s, Take(s, second, text[1]), text[2]);
        LeadByte(s, Take(s, second, text[1]).p, text[2]);
      }
    }
  }

  /** What stands in front of a value leaves nothing behind but the count of its bytes. */
  lemma {:induction false} LeadIsDropped(s: Settings, r: Run, text: string)
    requires r.ctl.Advance? && r.p.state == Value(DiscardWs) && Lead(text)
    requires r.p.nread + |text| <= MAX_HEADER_SIZE
    ensures Feed(s, r, text) == Run(r.p.(nread := r.p.nread + |text|), r.consumed + |text|, r.evs, Advance)
    decreases |text|
  {
    hide StepByte;
    var n := |text|;
    if n > 0 {
      var k := if Lead(text[..n - 1]) then n - 1 else if Lead(text[..n - 2]) then n - 2 else n - 3;
      LeadIsDropped(s, r, text[..k]);
      assert text == text[..k] + text[k..];
      FeedConcat(s, r, text[..k], text[k..]);
      hide Feed, Lead;
      LeadEnds(s, Feed(s, r, text[..k]), text[k..]);
    }
  }

  /** A line that continues a value, and how the line in front of it ends. */
  datatype Line = Line(bare: bool, text: string)

  predicate FoldedLine(line: Line) {
    line.text != "" && IsBlank(line.text[0]) &&
    forall i :: 0 <= i < |line.text| ==> line.text[i] != '\r' && line.text[i] != '\n'
  }

  /** The lines that continue a value, each behind the end of the line in front of it. */
  function Folded(lines: seq<Line>): string {
    if lines == [] then ""
    else
      var last := lines[|lines| - 1];
      Folded(lines[..|lines| - 1]) + (Eol(last.bare) + last.text)
  }

  /** The same without the ends of lines. */
  function FoldedText(lines: seq<Line>): string {
    if lines == [] then "" else FoldedText(lines[..|lines| - 1]) + lines[|lines| - 1].text
  }

  /** In a value that is none of the words that matter. */
  predicate InOther(p: Parser) { p.state == Value(ValueText) && p.headerState.General? }

  /** No header name, but what a value has been matched to. */
  predicate IsWord(h: HeaderState) { !h.Upgrade? && !h.TransferEncoding? && !h.ContentLength? && !h.Connection? }

  /** The record in a value that goes on in a further line. */
  function OtherFrom(p: Parser): Parser { p.(state := Value(ValueText), headerState := General, index := 0) }

  /** The blank that continues a value ends all matching. */
  lemma FirstBlank(s: Settings, p: Parser, c: char)
    requires p.state == Value(ValueLws) && p.nread < MAX_HEADER_SIZE && IsBlank(c) && IsWord(p.headerState)
    ensures StepByte(s, p, c) == Outcome(OtherFrom(p).(nread := p.nread + 1), [Byte(ValueData, c)], Advance)
  {
    hide TurnEvents, Rank, Lower;
    var q := p.(nread := p.nread + 1);
    var t := Switch(s, q, c, 1);
    assert t == Redo(q.(state := Value(ValueStart)));
    SilentTurn(q.state, t, c);
    var u := Switch(s, t.p, c, 1);
    assert u == GoWith(OtherFrom(q), [Mark(ValueData)]);
    DataTurn(t.p.state, u, c, ValueData);
    hide Switch;
    assert Loop(s, t.p, c) == Outcome(u.p, [Byte(ValueData, c)], Advance);
  }

  /** Bytes of such a value change nothing. */
  lemma {:induction false} OtherBytes(s: Settings, r: Run, text: string)
    requires r.ctl.Advance? && InOther(r.p) && r.p.nread + |text| <= MAX_HEADER_SIZE
    requires forall i :: 0 <= i < |text| ==> text[i] != '\r' && text[i] != '\n'
    ensures Feed(s, r, text) ==
            Run(r.p.(nread := r.p.nread + |text|), r.consumed + |text|, r.evs + AsData(ValueData, text), Advance)
  {
    hide StepByte;
    if text != "" {
      OtherBytes(s, r, text[..|text| - 1]);
      ValueByte(s, Feed(s, r, text[..|text| - 1]).p, text[|text| - 1]);
    }
  }

  /** One more line of a value. */
  lemma OneMoreLine(s: Settings, r: Run, line: Line)
    requires r.ctl.Advance? && r.p.state == Value(ValueText) && FoldedLine(line) && IsWord(r.p.headerState)
    requires r.p.nread + |Eol(line.bare) + line.text| <= MAX_HEADER_SIZE
    ensures var n := |Eol(line.bare) + line.text|;
      Feed(s, r, Eol(line.bare) + line.text) ==
      Run(OtherFrom(r.p).(nread := r.p.nread + n), r.consumed + n, r.evs + AsData(ValueData, line.text), Advance)
  {
    hide StepByte, Feed, Eol, AsData;
    var text := line.text;
    EndOfLine(s, r, line.bare);
    FeedConcat(s, r, Eol(line.bare), text);
    var q := Feed(s, r, Eol(line.bare));
    FirstBlank(s, q.p, text[0]);
    FeedOne(s, q, text[0]);
    assert text == [text[0]] + text[1..];
    FeedConcat(s, q, [text[0]], text[1..]);
    OtherBytes(s, Feed(s, q, [text[0]]), text[1..]);
    OneByteData(ValueData, text[0]);
    AsDataConcat(ValueData, [text[0]], text[1..]);
  }

  lemma NothingFolded(s: Settings, r: Run)
    ensures Folded([]) == "" && Feed(s, r, "") == r && AsData(ValueData, FoldedText([])) == []
  {
  }

  lemma FoldedMore(lines: seq<Line>)
    requires lines != []
    ensures var front, last := lines[..|lines| - 1], lines[|lines| - 1];
      Folded(lines) == Folded(front) + (Eol(last.bare) + last.text) &&
      FoldedText(lines) == FoldedText(front) + last.text
  {
  }

  /** A value with further lines is none of the words. */
  lemma {:induction false} FoldedIsOther(s: Settings, r: Run, lines: seq<Line>)
    requires r.ctl.Advance? && r.p.state == Value(ValueText) && (forall i :: 0 <= i < |lines| ==> FoldedLine(lines[i]))
    requires r.p.nread + |Folded(lines)| <= MAX_HEADER_SIZE && IsWord(r.p.headerState)
    ensures var n := |Folded(lines)|;
      Feed(s, r, Folded(lines)) ==
      Run((if lines == [] then r.p else OtherFrom(r.p)).(nread := r.p.nread + n), r.consumed + n,
          r.evs + AsData(ValueData, FoldedText(lines)), Advance)
  {
    hide FoldedLine, Feed, Folded, Eol, AsData, FoldedText;
    if lines == [] {
      NothingFolded(s, r);
    } else {
      var front, last := lines[..|lines| - 1], lines[|lines| - 1];
      FoldedMore(lines);
      FoldedIsOther(s, r, front);
      FeedConcat(s, r, Folded(front), Eol(last.bare) + last.text);
      OneMoreLine(s, Feed(s, r, Folded(front)), last);
      AsDataConcat(ValueData, FoldedText(front), last.text);
    }
  }

  lemma TracksWord(header: HeaderState, h: HeaderState, index: nat, raw: string)
    requires ValueTracks(header, h, index, raw)
    ensures IsWord(h)
  {
  }

  /** A value up to the end of its last line. */
  lemma WholeValue(s: Settings, p: Parser, lead: string, raw: string, lines: seq<Line>)
    requires p.state == Value(DiscardWs) && !p.headerState.ContentLength? && Lead(lead) && ValueLine(raw)
    requires forall i :: 0 <= i < |lines| ==> FoldedLine(lines[i])
    requires p.nread + |lead| + |raw| + |Folded(lines)| <= MAX_HEADER_SIZE
    ensures var f := Feed(s, Start(p), lead + raw + Folded(lines));
      && f.ctl.Advance? && f.p.state == Value(ValueText) && f.p.nread == p.nread + |lead| + |raw| + |Folded(lines)|
      && f.p.flags == p.flags.(upgrade := p.flags.upgrade || p.headerState.Upgrade?)
      && (if lines == [] then ValueTracks(p.headerState, f.p.headerState, f.p.index, raw) else f.p.headerState.General?)
  {
    hide Feed, ValueTracks, FoldedLine, Lead, Folded, Eol, ValueLine;
    LeadIsDropped(s, Start(p), lead);
    var q := Feed(s, Start(p), lead);
    var r := Feed(s, q, raw);
    FeedConcat(s, Start(p), lead, raw);
    ValueIsTracked(s, q.p, raw);
    FeedFromRun(s, q, raw);
    TracksWord(p.headerState, r.p.headerState, r.p.index, raw);
    FeedConcat(s, Start(p), lead + raw, Folded(lines));
    FoldedIsOther(s, r, lines);
  }

  /**
   A header value sets exactly the flags it should: chunked for the value chunked under
   Transfer-Encoding, keep-alive and close for these values under Connection, upgrade for
   any value under Upgrade; in any letter case, with spaces behind the word, and with blanks
   and blank lines in front of it.  A value that began in an earlier line, even if only blanks
   follow, sets none of the first three.
   */
  lemma ValuesAreExact(s: Settings, p: Parser, lead: string, raw: string, lines: seq<Line>, bare: bool, c: char)
    requires p.state == Value(DiscardWs) && !p.headerState.ContentLength? && Lead(lead) && ValueLine(raw)
    requires forall i :: 0 <= i < |lines| ==> FoldedLine(lines[i])
    requires p.nread + |lead| + |raw| + |Folded(lines)| + |Eol(bare)| < MAX_HEADER_SIZE
    requires c == '\r' || c == '\n' || Token(c) != '\0'
    ensures var r, h := Feed(s, Start(p), lead + raw + Folded(lines) + (Eol(bare) + [c])), p.headerState;
      && (r.ctl.Advance? || r.ctl.Leave?)
      && (r.p.flags.chunked <==> p.flags.chunked || (lines == [] && h.TransferEncoding? && Says(raw, "chunked")))
      && (r.p.flags.keepAlive <==> p.flags.keepAlive || (lines == [] && h.Connection? && Says(raw, "keep-alive")))
      && (r.p.flags.close <==> p.flags.close || (lines == [] && h.Connection? && Says(raw, "close")))
      && (r.p.flags.upgrade <==> p.flags.upgrade || h.Upgrade?)
  {
    hide Feed, ValueTracks, Says, Token, FoldedLine, Lead, Folded, Eol, ValueLine;
    WholeValue(s, p, lead, raw, lines);
    var f := Feed(s, Start(p), lead + raw + Folded(lines));
    FeedConcat(s, Start(p), lead + raw + Folded(lines), Eol(bare) + [c]);
    LineEnds(s, f, bare, c);
    if lines == [] { Said(p.headerState, f.p.headerState, f.p.index, raw); }
  }
}
