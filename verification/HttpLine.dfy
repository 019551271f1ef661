/**
 The head of a message, written down without the parser: request line, status line and headers,
 what they say, and that the parser reads every well-formed one to exactly that.
 */
module HttpLine {
  import opened Common
  import opened HttpTypes
  import opened HttpSwitch
  import opened HttpInvariant
  import opened HttpRun
  import opened HttpTape
  import opened HttpHeader
  import opened HttpBounds
  import HttpMethod
  import HttpUrl
  // ---- first lines ----

  /** The version of a request, with spaces in front of it; without one it is taken for HTTP/0.9. */
  datatype HttpVersion = Unversioned | Http(gap: nat, major: string, minor: string)

  datatype FirstLine =
    | RequestLine(verb: Method, gap: nat, url: string, version: HttpVersion, bare: bool)
    | StatusLine(major: string, minor: string, gap: nat, code: string, tail: string, bare: bool)

  function Blanks(n: nat): (r: string)
    ensures |r| == n
  {
    if n == 0 then "" else " " + Blanks(n - 1)
  }

  function VersionText(v: HttpVersion): string {
    match v
    case Unversioned => ""
    case Http(gap, major, minor) => " " + Blanks(gap) + "HTTP/" + major + "." + minor
  }

  /** A line without its end, which is CR LF or a bare LF; the gaps are spaces beyond the first one. */
  function LineText(f: FirstLine): string {
    match f
    case RequestLine(verb, gap, url, version, _) => MethodString(verb) + " " + Blanks(gap) + url + VersionText(version)
    case StatusLine(major, minor, gap, code, tail, _) =>
      "HTTP/" + major + "." + minor + " " + Blanks(gap) + code + tail
  }

  function FirstText(f: FirstLine): string { LineText(f) + Eol(f.bare) }

  /** Digits up to 999. */
  predicate SmallNumber(text: string) { DigitText(text) && DecimalValue(text) <= 999 }

  /** The url machine takes all of the text, and not only the beginning of a url. */
  predicate UrlTaken(url: string, isConnect: bool) {
    var s := HttpUrl.UrlRun(HttpUrl.UrlFrom(isConnect), url);
    url != "" && s.Url? && s.url != Schema && s.url != SchemaSlash && s.url != SchemaSlashSlash && s.url != ServerStart
  }

  predicate ProperFirst(f: FirstLine) {
    match f
    case RequestLine(verb, _, url, version, _) =>
      UrlTaken(url, verb.CONNECT?) &&
      (version.Http? ==> SmallNumber(version.major) && version.major[0] != '0' && SmallNumber(version.minor))
    case StatusLine(major, minor, _, code, tail, _) =>
      SmallNumber(major) && SmallNumber(minor) && SmallNumber(code) &&
      (tail != "" ==> tail[0] == ' ') && forall i :: 0 <= i < |tail| ==> tail[i] != '\r' && tail[i] != '\n'
  }

  function Reason(tail: string): string { if tail == "" then "" else tail[1..] }

  /** What a first line says in numbers, and which method a request has. */
  datatype Numbers =
    | OfRequest(verb: Method, major: nat, minor: nat)
    | OfResponse(code: nat, major: nat, minor: nat)

  function NumbersIn(f: FirstLine): Numbers {
    match f
    case RequestLine(verb, _, _, Unversioned, _) => OfRequest(verb, 0, 9)
    case RequestLine(verb, _, _, Http(_, major, minor), _) => OfRequest(verb, DecimalValue(major), DecimalValue(minor))
    case StatusLine(major, minor, _, code, _, _) =>
      OfResponse(DecimalValue(code), DecimalValue(major), DecimalValue(minor))
  }

  function NumbersOf(p: Parser): Numbers {
    if p.kind.Request? then OfRequest(p.verb, p.httpMajor, p.httpMinor)
    else OfResponse(p.statusCode, p.httpMajor, p.httpMinor)
  }

  /** HTTP/1.1 and what the parser takes for later: neither number of the version is 0. */
  predicate Persistent(f: FirstLine) {
    var n := NumbersIn(f); n.major > 0 && n.minor > 0
  }

  // ---- headers ----

  /**
   A header.  lead is the white space in front of its value, with ends of lines among it or not;
   folds are the lines that continue the value.
   */
  datatype Header = Header(name: string, lead: string, value: string, folds: seq<Line>, bare: bool)

  function HeaderText(h: Header): string { h.name + ":" + h.lead + h.value + Folded(h.folds) + Eol(h.bare) }

  function HeadersText(hs: seq<Header>): string {
    if hs == [] then "" else HeadersText(hs[..|hs| - 1]) + HeaderText(hs[|hs| - 1])
  }

  /** A letter in lower case. */
  function Small(c: char): char {
    if 'A' <= c <= 'Z' then (c - 'A' + 'a') else c
  }

  predicate SameWord(text: string, word: string) {
    |text| == |word| && forall i :: 0 <= i < |text| ==> Small(text[i]) == word[i]
  }

  predicate Named(h: Header, word: string) { SameWord(h.name, word) }

  /** The value is one line, and the word in any letter case, spaces behind it. */
  predicate Reads(h: Header, word: string) {
    h.folds == [] && |h.value| >= |word| && SameWord(h.value[..|word|], word) &&
    forall i :: |word| <= i < |h.value| ==> h.value[i] == ' '
  }

  predicate IsConnection(h: Header) { Named(h, "connection") || Named(h, "proxy-connection") }

  predicate SaysChunked(h: Header) { Named(h, "transfer-encoding") && Reads(h, "chunked") }

  predicate SaysKeepAlive(h: Header) { IsConnection(h) && Reads(h, "keep-alive") }

  predicate SaysClose(h: Header) { IsConnection(h) && Reads(h, "close") }

  predicate SaysUpgrade(h: Header) { Named(h, "upgrade") && h.value != "" }

  predicate SaysLength(h: Header) { Named(h, "content-length") && h.value != "" }

  predicate AsksChunked(hs: seq<Header>) { exists h :: h in hs && SaysChunked(h) }

  predicate AsksKeepAlive(hs: seq<Header>) { exists h :: h in hs && SaysKeepAlive(h) }

  predicate AsksClose(hs: seq<Header>) { exists h :: h in hs && SaysClose(h) }

  predicate AsksUpgrade(hs: seq<Header>) { exists h :: h in hs && SaysUpgrade(h) }

  /** A byte of a token (section 2.2 of RFC 2616). */
  predicate IsTokenByte(c: char) {
    '!' <= c <= '~' && c !in "()<>@,;:\\\"/[]?={}"
  }

  predicate ProperHeader(h: Header) {
    && h.name != "" && (forall i :: 0 <= i < |h.name| ==> IsTokenByte(h.name[i]))
    && Lead(h.lead) && (forall i :: 0 <= i < |h.folds| ==> FoldedLine(h.folds[i]))
    && (if h.value == "" then h.folds == [] else ValueLine(h.value))
    && (SaysLength(h) ==> h.folds == [] && LengthText(h.value) && DecimalValue(h.value) <= ULLONG_MAX - 6)
  }

  predicate ProperHeaders(hs: seq<Header>) { forall h :: h in hs ==> ProperHeader(h) }

  /** The length that the last Content-Length gives, or the sentinel. */
  function GivenLength(hs: seq<Header>): (n: nat)
    ensures ProperHeaders(hs) ==> n <= ULLONG_MAX
  {
    if hs == [] then ULLONG_MAX
    else
      var last := hs[|hs| - 1];
      assert last in hs;
      if SaysLength(last) then DecimalValue(last.value) else GivenLength(hs[..|hs| - 1])
  }

  // ---- what the client sees ----

  /**
   An observation without what the client has no business with.  Head is what the record says
   when the headers are complete; Ends is the answer of http_should_keep_alive at the end.
   */
  datatype Sight =
    | Starts
    | Datum(kind: Kind, ch: char)
    | Blank(kind: Kind)
    | Head(first: Numbers, upgrade: bool, length: nat)
    | Ends(keep: bool)

  function SightOf(e: Ev): Sight {
    match e
    case Byte(k, ch) => Datum(k, ch)
    case Empty(k) => Blank(k)
    case Notify(Begin(_)) => Starts
    case Notify(HeadersComplete(p, _)) => Head(NumbersOf(p), p.upgrade, p.contentLength)
    case Notify(Complete(p)) => Ends(ShouldKeepAlive(p))
  }

  function Seen(evs: seq<Ev>): (r: seq<Sight>)
    ensures |r| == |evs|
  {
    if evs == [] then [] else Seen(evs[..|evs| - 1]) + [SightOf(evs[|evs| - 1])]
  }

  /** bytes, each seen as data of kind k. */
  function Shown(k: Kind, bytes: string): seq<Sight> {
    if bytes == "" then [] else Shown(k, bytes[..|bytes| - 1]) + [Datum(k, bytes[|bytes| - 1])]
  }

  function HeaderSights(h: Header): seq<Sight> {
    Shown(FieldData, h.name) +
    if h.value == "" then [Blank(ValueData)] else Shown(ValueData, h.value) + Shown(ValueData, FoldedText(h.folds))
  }

  function HeadersSights(hs: seq<Header>): seq<Sight> {
    if hs == [] then [] else HeadersSights(hs[..|hs| - 1]) + HeaderSights(hs[|hs| - 1])
  }

  function FirstSights(f: FirstLine): seq<Sight> {
    match f
    case RequestLine(_, _, url, _, _) => Shown(UrlData, url)
    case StatusLine(_, _, _, _, tail, _) => Shown(StatusData, Reason(tail))
  }

  // ---- the parser's words and those of the headers ----

  /** The token table lists exactly the bytes of tokens, in lower case. */
  lemma TokenTable(c: char)
    ensures Token(c) != '\0' <==> IsTokenByte(c)
    ensures IsTokenByte(c) ==> Token(c) == Small(c)
  {
  }

  lemma {:induction false} LoweredIsSmall(name: string)
    requires forall i :: 0 <= i < |name| ==> IsTokenByte(name[i])
    ensures forall i :: 0 <= i < |name| ==> Lowered(name)[i] == Small(name[i])
  {
    if name != "" {
      LoweredIsSmall(name[..|name| - 1]);
      TokenTable(name[|name| - 1]);
      hide Token, Small, IsTokenByte;
    }
  }

  /** The name is a word exactly when the matcher takes it for that word. */
  lemma NameSaid(h: Header, word: string)
    requires ProperHeader(h)
    ensures Named(h, word) <==> Lowered(h.name) == word
  {
    hide Lowered, Small;
    LoweredIsSmall(h.name);
  }

  /** The letters and the hyphen of the words that matter. */
  predicate Plain(word: string) { forall i :: 0 <= i < |word| ==> 'a' <= word[i] <= 'z' || word[i] == '-' }

  lemma LowerIsSmall(c: char, w: char)
    requires ('a' <= w <= 'z' || w == '-') && c != '\r'
    ensures Lower(c) == w <==> Small(c) == w
  {
  }

  lemma {:induction false} LowerTextAt(raw: string, i: nat)
    requires i < |raw|
    ensures LowerText(raw)[i] == Lower(raw[i])
  {
    hide Lower;
    if i < |raw| - 1 { LowerTextAt(raw[..|raw| - 1], i); }
  }

  /** The value is a word exactly when the matcher takes it for that word. */
  lemma ValueSaid(h: Header, word: string)
    requires h.value == "" || ValueLine(h.value)
    requires Plain(word) && word != ""
    ensures Reads(h, word) <==> h.folds == [] && Says(h.value, word)
  {
    hide Lower, Small, LowerText;
    if |h.value| >= |word| {
      forall i | 0 <= i < |word|
        ensures Small(h.value[..|word|][i]) == word[i] <==> LowerText(h.value)[..|word|][i] == word[i]
      {
        LowerTextAt(h.value, i);
        LowerIsSmall(h.value[i], word[i]);
      }
    }
  }

  // ---- runs over the head ----

  /** The run after n bytes that make nothing observable and leave the record p, counts aside. */
  function On(r: Run, p: Parser, n: nat): Run { Run(p.(nread := r.p.nread + n), r.consumed + n, r.evs, Advance) }

  /** A byte of the head that makes nothing observable. */
  lemma Quiet(s: Settings, r: Run, ch: char)
    requires r.ctl.Advance? && ParsingHeader(r.p.state) && r.p.nread < MAX_HEADER_SIZE && !BodyByte(r.p.state)
    requires var t := Switch(s, r.p.(nread := r.p.nread + 1), ch, 1);
      t.ctl.Advance? && (t.acts == [] || (|t.acts| == 1 && !t.acts[0].Call?)) && OpenKind(t.p.state) == []
    ensures var t := Switch(s, r.p.(nread := r.p.nread + 1), ch, 1);
      Take(s, r, ch) == Run(t.p, r.consumed + 1, r.evs, Advance)
  {
    hide StepByte, Switch, TurnEvents;
    OnePass(s, r.p, ch);
    SilentTurn(r.p.state, Switch(s, r.p.(nread := r.p.nread + 1), ch, 1), ch);
  }

  /** A byte of data in the head. */
  lemma Loud(s: Settings, r: Run, ch: char, k: Kind)
    requires r.ctl.Advance? && ParsingHeader(r.p.state) && r.p.nread < MAX_HEADER_SIZE && !BodyByte(r.p.state)
    requires var t := Switch(s, r.p.(nread := r.p.nread + 1), ch, 1);
      t.ctl.Advance? && (t.acts == [] || (|t.acts| == 1 && !t.acts[0].Call?)) && OpenKind(t.p.state) == [k]
    ensures var t := Switch(s, r.p.(nread := r.p.nread + 1), ch, 1);
      Take(s, r, ch) == Run(t.p, r.consumed + 1, r.evs + [Byte(k, ch)], Advance)
  {
    hide StepByte, Switch, TurnEvents;
    OnePass(s, r.p, ch);
    DataTurn(r.p.state, Switch(s, r.p.(nread := r.p.nread + 1), ch, 1), ch, k);
  }

  /** A quiet byte of a version or a status line. */
  lemma QuietInLine(s: Settings, r: Run, ch: char)
    requires r.ctl.Advance? && (r.p.state.Version? || r.p.state.Status?) && r.p.nread < MAX_HEADER_SIZE
    requires var q := r.p.(nread := r.p.nread + 1);
      var t := if r.p.state.Version? then SwitchVersion(q, ch) else SwitchStatus(q, ch);
      t.ctl.Advance? && (t.acts == [] || (|t.acts| == 1 && !t.acts[0].Call?)) && OpenKind(t.p.state) == []
    ensures var q := r.p.(nread := r.p.nread + 1);
      Take(s, r, ch) ==
      Run((if r.p.state.Version? then SwitchVersion(q, ch) else SwitchStatus(q, ch)).p, r.consumed + 1, r.evs, Advance)
  {
    hide Take, SwitchVersion, SwitchStatus;
    Quiet(s, r, ch);
  }

  /** The rest of the word HTTP, and the slash. */
  lemma HttpWord(s: Settings, r: Run)
    requires r.ctl.Advance? && r.p.nread + 4 <= MAX_HEADER_SIZE
    requires r.p.state == Version(ReqHttpH) || r.p.state == Status(ResH)
    ensures Feed(s, r, "TTP/") ==
            On(r, r.p.(state := if r.p.state.Version? then Version(ReqFirstHttpMajor)
                                else Status(ResFirstHttpMajor)), 4)
  {
    hide Take, Feed;
    QuietInLine(s, r, 'T');
    var r1 := Take(s, r, 'T');
    QuietInLine(s, r1, 'T');
    var r2 := Take(s, r1, 'T');
    QuietInLine(s, r2, 'P');
    var r3 := Take(s, r2, 'P');
    QuietInLine(s, r3, '/');
    FeedTwo(s, r, 'T', 'T');
    FeedTwo(s, r2, 'P', '/');
    FeedConcat(s, r, "TT", "P/");
    assert "TT" + "P/" == "TTP/";
  }

  lemma NumberIsRead(s: Settings, f: Field, r: Run, text: string)
    requires r.ctl.Advance? && Before(f, r.p) && SmallNumber(text) && r.p.nread + |text| <= MAX_HEADER_SIZE
    requires r.p.state == Version(ReqFirstHttpMajor) ==> text[0] != '0'
    ensures Feed(s, r, text) == On(r, Reading(f, r.p, DecimalValue(text)), |text|)
  {
    hide Feed, Before, Within, NumberIn, DigitText, DecimalValue;
    NumbersAreExact(s, f, r.p, text);
    FeedFromRun(s, r, text);
  }

  /** Both numbers of a version and the point between them. */
  lemma VersionIsRead(s: Settings, r: Run, major: string, minor: string)
    requires r.ctl.Advance? && (r.p.state == Version(ReqFirstHttpMajor) || r.p.state == Status(ResFirstHttpMajor))
    requires SmallNumber(major) && SmallNumber(minor) && (r.p.state.Version? ==> major[0] != '0')
    requires r.p.nread + |major + "." + minor| <= MAX_HEADER_SIZE
    ensures Feed(s, r, major + "." + minor) ==
            On(r, r.p.(httpMajor := DecimalValue(major), httpMinor := DecimalValue(minor),
                       state := if r.p.state.Version? then Version(ReqHttpMinor) else Status(ResHttpMinor)),
               |major + "." + minor|)
  {
    hide Feed, Take, SmallNumber, DecimalValue;
    NumberIsRead(s, MajorVersion, r, major);
    var r1 := Feed(s, r, major);
    QuietInLine(s, r1, '.');
    FeedOne(s, r1, '.');
    var r2 := Take(s, r1, '.');
    NumberIsRead(s, MinorVersion, r2, minor);
    FeedConcat(s, r, major, ".");
    FeedConcat(s, r, major + ".", minor);
  }

  /** The end of a first line. */
  lemma LineIsEnded(s: Settings, r: Run, bare: bool)
    requires r.ctl.Advance? && r.p.nread + |Eol(bare)| <= MAX_HEADER_SIZE
    requires r.p.state == Version(ReqHttpMinor) || r.p.state == Status(ResStatusCode) ||
             r.p.state == Status(ResStatusStart) || r.p.state == Status(ResStatus)
    ensures Feed(s, r, Eol(bare)) == On(r, r.p.(state := HeaderFieldStart), |Eol(bare)|)
  {
    hide Take, Feed;
    if bare {
      QuietInLine(s, r, '\n');
      FeedOne(s, r, '\n');
    } else {
      QuietInLine(s, r, '\r');
      QuietInLine(s, Take(s, r, '\r'), '\n');
      FeedTwo(s, r, '\r', '\n');
    }
  }

  /** Spaces that count for nothing. */
  predicate Skips(st: State) {
    st == Url(SpacesBeforeUrl) || st == Version(ReqHttpStart) || st == Status(ResFirstStatusCode)
  }

  lemma OneSpace(s: Settings, r: Run)
    requires r.ctl.Advance? && Skips(r.p.state) && r.p.nread < MAX_HEADER_SIZE
    ensures Take(s, r, ' ') == On(r, r.p, 1)
  {
    hide Take;
    Quiet(s, r, ' ');
  }

  lemma {:induction false} SpacesRead(s: Settings, r: Run, n: nat)
    requires r.ctl.Advance? && Skips(r.p.state) && r.p.nread + n <= MAX_HEADER_SIZE
    ensures Feed(s, r, Blanks(n)) == On(r, r.p, n)
    decreases n
  {
    hide Take, Feed;
    if n == 0 {
      NothingFed(s, r);
    } else {
      OneSpace(s, r);
      FeedOne(s, r, ' ');
      SpacesRead(s, On(r, r.p, 1), n - 1);
      FeedConcat(s, r, " ", Blanks(n - 1));
    }
  }

  // ---- request lines ----

  /** A url may end here. */
  predicate UrlMayEnd(u: UrlState) {
    u != SpacesBeforeUrl && u != Schema && u != SchemaSlash && u != SchemaSlashSlash && u != ServerStart
  }

  lemma UrlByte(s: Settings, r: Run, ch: char)
    requires r.ctl.Advance? && r.p.state.Url? && r.p.nread < MAX_HEADER_SIZE
    requires var u := r.p.state.url;
      ParseUrlChar(if u.SpacesBeforeUrl? && r.p.verb.CONNECT? then ServerStart else u, ch).Url?
    ensures var u := r.p.state.url;
      Take(s, r, ch) ==
      Run(r.p.(state := ParseUrlChar(if u.SpacesBeforeUrl? && r.p.verb.CONNECT? then ServerStart else u, ch),
               nread := r.p.nread + 1),
          r.consumed + 1, r.evs + [Byte(UrlData, ch)], Advance)
  {
    var u := r.p.state.url;
    var from := if u.SpacesBeforeUrl? && r.p.verb.CONNECT? then ServerStart else u;
    assert ch != ' ' && ch != '\r' && ch != '\n';
    UrlCharStates(from, ch);
    hide ParseUrlChar, Take;
    Loud(s, r, ch, UrlData);
  }

  /** A url that the machine takes is delivered byte by byte. */
  lemma {:induction false} UrlIsRead(s: Settings, r: Run, url: string)
    requires r.ctl.Advance? && r.p.state == Url(SpacesBeforeUrl) && r.p.nread + |url| <= MAX_HEADER_SIZE
    requires url != "" && HttpUrl.UrlRun(HttpUrl.UrlFrom(r.p.verb.CONNECT?), url).Url?
    ensures Feed(s, r, url) ==
            Run(r.p.(state := HttpUrl.UrlRun(HttpUrl.UrlFrom(r.p.verb.CONNECT?), url), nread := r.p.nread + |url|),
                r.consumed + |url|, r.evs + AsData(UrlData, url), Advance)
    ensures HttpUrl.UrlRun(HttpUrl.UrlFrom(r.p.verb.CONNECT?), url) != Url(SpacesBeforeUrl)
  {
    hide Take, ParseUrlChar;
    var from := HttpUrl.UrlFrom(r.p.verb.CONNECT?);
    var n := |url| - 1;
    if n == 0 {
      assert url[..0] == "" && url == [url[0]];
      OneByteData(UrlData, url[0]);
      UrlByte(s, r, url[0]);
      UrlCharStates(from, url[0]);
    } else {
      UrlIsRead(s, r, url[..n]);
      UrlByte(s, Feed(s, r, url[..n]), url[n]);
      UrlCharStates(HttpUrl.UrlRun(from, url[..n]).url, url[n]);
    }
  }

  /** The byte behind the url. */
  lemma BehindUrl(s: Settings, r: Run, ch: char)
    requires r.ctl.Advance? && r.p.state.Url? && UrlMayEnd(r.p.state.url) && r.p.nread < MAX_HEADER_SIZE
    requires ch == ' ' || ch == '\r' || ch == '\n'
    ensures Take(s, r, ch) ==
            On(r, if ch == ' ' then r.p.(state := Version(ReqHttpStart))
                  else r.p.(httpMajor := 0, httpMinor := 9,
                            state := if ch == '\r' then Version(ReqLineAlmostDone) else HeaderFieldStart), 1)
  {
    hide Take, ParseUrlChar;
    Quiet(s, r, ch);
  }

  /** The word HTTP and the slash, with spaces in front of them. */
  lemma VersionWordIsRead(s: Settings, r: Run, gap: nat)
    requires r.ctl.Advance? && r.p.state.Url? && UrlMayEnd(r.p.state.url) && r.p.nread + gap + 6 <= MAX_HEADER_SIZE
    ensures Feed(s, r, " " + Blanks(gap) + "HTTP/") == On(r, r.p.(state := Version(ReqFirstHttpMajor)), gap + 6)
  {
    hide Take, Feed, Blanks;
    BehindUrl(s, r, ' ');
    FeedOne(s, r, ' ');
    var r1 := Feed(s, r, " ");
    SpacesRead(s, r1, gap);
    var r2 := Feed(s, r1, Blanks(gap));
    QuietInLine(s, r2, 'H');
    FeedOne(s, r2, 'H');
    HttpWord(s, Take(s, r2, 'H'));
    FeedConcat(s, r2, "H", "TTP/");
    assert "H" + "TTP/" == "HTTP/";
    FeedConcat(s, r, " ", Blanks(gap));
    FeedConcat(s, r, " " + Blanks(gap), "HTTP/");
  }

  lemma VersionTextIs(v: HttpVersion)
    ensures VersionText(v) == if v.Http? then " " + Blanks(v.gap) + "HTTP/" + (v.major + "." + v.minor) else ""
  {
    hide Blanks;
  }

  /** What stands behind the url. */
  lemma VersionTextIsRead(s: Settings, r: Run, v: HttpVersion, bare: bool)
    requires r.ctl.Advance? && r.p.state.Url? && UrlMayEnd(r.p.state.url)
    requires r.p.nread + |VersionText(v) + Eol(bare)| <= MAX_HEADER_SIZE
    requires v.Http? ==> SmallNumber(v.major) && v.major[0] != '0' && SmallNumber(v.minor)
    ensures Feed(s, r, VersionText(v) + Eol(bare)) ==
            On(r, r.p.(state := HeaderFieldStart, httpMajor := if v.Http? then DecimalValue(v.major) else 0,
                       httpMinor := if v.Http? then DecimalValue(v.minor) else 9),
               |VersionText(v) + Eol(bare)|)
  {
    hide Take, Feed, SmallNumber, DecimalValue, VersionText, Blanks;
    VersionTextIs(v);
    match v
    case Unversioned =>
      assert "" + Eol(bare) == Eol(bare);
      BehindUrl(s, r, Eol(bare)[0]);
      if bare {
        FeedOne(s, r, '\n');
      } else {
        QuietInLine(s, Take(s, r, '\r'), '\n');
        FeedTwo(s, r, '\r', '\n');
      }
    case Http(gap, major, minor) =>
      var word := " " + Blanks(gap) + "HTTP/";
      VersionWordIsRead(s, r, gap);
      var r1 := Feed(s, r, word);
      VersionIsRead(s, r1, major, minor);
      FeedConcat(s, r, word, major + "." + minor);
      hide Eol;
      LineIsEnded(s, Feed(s, r, VersionText(v)), bare);
      FeedConcat(s, r, VersionText(v), Eol(bare));
  }

  /** The name of the method, and the space behind it. */
  lemma MethodIsRead(s: Settings, p: Parser, m: Method)
    requires p.state.StartReq? && p.nread + |MethodString(m) + " "| <= MAX_HEADER_SIZE
    ensures var name, b := MethodString(m) + " ", HttpMethod.Begun(p, MethodString(m)[0]);
      Feed(s, Start(p), name) ==
      Run(p.(flags := NO_FLAGS, contentLength := ULLONG_MAX, verb := m, state := Url(SpacesBeforeUrl),
             index := |name|, nread := p.nread + |name|),
          |name|, [Notify(Begin(b))], Advance)
  {
    hide Feed, MethodString, StepByte;
    var name := MethodString(m);
    HttpMethod.GuessStarts(m);
    HttpMethod.NameIsRead(s, p, m, |name|);
    assert name[..|name|] == name;
    var r := Feed(s, Start(p), name);
    HttpMethod.SpaceByte(s, r.p);
    FeedOne(s, r, ' ');
    FeedConcat(s, Start(p), name, " ");
  }

  // ---- sights ----

  lemma {:induction false} SeenConcat(a: seq<Ev>, b: seq<Ev>)
    ensures Seen(a + b) == Seen(a) + Seen(b)
  {
    hide SightOf;
    if b == [] {
      assert a + b == a;
    } else {
      SeenConcat(a, b[..|b| - 1]);
      assert (a + b)[..|a + b| - 1] == a + b[..|b| - 1];
    }
  }

  lemma SeenOne(e: Ev)
    ensures Seen([e]) == [SightOf(e)]
  {
    assert [e][..0] == [];
  }

  lemma {:induction false} SeenData(k: Kind, bytes: string)
    ensures Seen(AsData(k, bytes)) == Shown(k, bytes)
  {
    if bytes != "" {
      SeenData(k, bytes[..|bytes| - 1]);
      SeenConcat(AsData(k, bytes[..|bytes| - 1]), [Byte(k, bytes[|bytes| - 1])]);
      SeenOne(Byte(k, bytes[|bytes| - 1]));
    }
  }

  // ---- whole first lines ----

  /** The same record, apart from the matcher. */
  predicate Like(p: Parser, q: Parser) { p == q.(index := p.index, headerState := p.headerState) }

  /** The record behind a first line, from any record in front of it. */
  function AfterFirst(p: Parser, f: FirstLine): Parser {
    var q := p.(flags := NO_FLAGS, contentLength := ULLONG_MAX, state := HeaderFieldStart,
                nread := p.nread + |FirstText(f)|);
    match NumbersIn(f)
    case OfRequest(verb, major, minor) =>
      q.(kind := Request, verb := verb, httpMajor := major, httpMinor := minor)
    case OfResponse(code, major, minor) =>
      q.(kind := Response, statusCode := code, httpMajor := major, httpMinor := minor)
  }

  /** The run over a first line. */
  predicate FirstIsRead(p: Parser, f: FirstLine, r: Run) {
    r.ctl.Advance? && r.consumed == |FirstText(f)| && Like(r.p, AfterFirst(p, f)) &&
    Seen(r.evs) == [Starts] + FirstSights(f)
  }

  lemma RequestLineIsRead(s: Settings, p: Parser, f: FirstLine)
    requires p.state.StartReq? && p.kind.Request? && f.RequestLine? && ProperFirst(f)
    requires p.nread + |FirstText(f)| <= MAX_HEADER_SIZE
    ensures FirstIsRead(p, f, Feed(s, Start(p), FirstText(f)))
  {
    hide Feed, MethodString, Take, SmallNumber, DecimalValue, AsData, Shown, Blanks, Eol, Seen;
    var RequestLine(verb, gap, url, v, bare) := f;
    var name := MethodString(verb) + " ";
    Associate(name + Blanks(gap) + url, VersionText(v), Eol(bare));
    assert FirstText(f) == name + Blanks(gap) + url + (VersionText(v) + Eol(bare));
    hide VersionText;
    MethodIsRead(s, p, verb);
    var r1 := Feed(s, Start(p), name);
    SpacesRead(s, r1, gap);
    FeedConcat(s, Start(p), name, Blanks(gap));
    var r2 := Feed(s, Start(p), name + Blanks(gap));
    UrlIsRead(s, r2, url);
    FeedConcat(s, Start(p), name + Blanks(gap), url);
    VersionTextIsRead(s, Feed(s, r2, url), v, bare);
    FeedConcat(s, Start(p), name + Blanks(gap) + url, VersionText(v) + Eol(bare));
    SeenConcat(r1.evs, AsData(UrlData, url));
    SeenData(UrlData, url);
    SeenOne(r1.evs[0]);
  }

  /** The text behind the status code, byte by byte. */
  lemma {:induction false} ReasonIsRead(s: Settings, r: Run, reason: string)
    requires r.ctl.Advance? && r.p.state == Status(ResStatusStart) && r.p.nread + |reason| <= MAX_HEADER_SIZE
    requires forall i :: 0 <= i < |reason| ==> reason[i] != '\r' && reason[i] != '\n'
    ensures var f := Feed(s, r, reason);
      && f.p.state == Status(if reason == "" then ResStatusStart else ResStatus)
      && f == Run(r.p.(state := f.p.state, index := f.p.index, nread := r.p.nread + |reason|),
                  r.consumed + |reason|, r.evs + AsData(StatusData, reason), Advance)
  {
    hide Take;
    if reason != "" {
      var n := |reason| - 1;
      ReasonIsRead(s, r, reason[..n]);
      Loud(s, Feed(s, r, reason[..n]), reason[n], StatusData);
    }
  }

  /** What stands behind the status code. */
  lemma TailIsRead(s: Settings, r: Run, tail: string, bare: bool)
    requires r.ctl.Advance? && r.p.state == Status(ResStatusCode) && r.p.nread + |tail + Eol(bare)| <= MAX_HEADER_SIZE
    requires (tail != "" ==> tail[0] == ' ') && forall i :: 0 <= i < |tail| ==> tail[i] != '\r' && tail[i] != '\n'
    ensures var f := Feed(s, r, tail + Eol(bare));
      f == Run(r.p.(state := HeaderFieldStart, index := f.p.index, nread := r.p.nread + |tail + Eol(bare)|),
               r.consumed + |tail + Eol(bare)|, r.evs + AsData(StatusData, Reason(tail)), Advance)
  {
    hide Feed, Take, AsData, Eol;
    if tail == "" {
      EmptyData(StatusData);
      assert tail + Eol(bare) == Eol(bare);
      LineIsEnded(s, r, bare);
    } else {
      QuietInLine(s, r, ' ');
      FeedOne(s, r, ' ');
      var r1 := Feed(s, r, [' ']);
      ReasonIsRead(s, r1, tail[1..]);
      FeedConcat(s, r, [' '], tail[1..]);
      assert [' '] + tail[1..] == tail;
      FeedConcat(s, r, tail, Eol(bare));
      LineIsEnded(s, Feed(s, r, tail), bare);
    }
  }

  /** The status code, and the spaces in front of it. */
  lemma CodeIsRead(s: Settings, r: Run, gap: nat, code: string)
    requires r.ctl.Advance? && r.p.state == Status(ResHttpMinor) && SmallNumber(code)
    requires r.p.nread + |" " + Blanks(gap) + code| <= MAX_HEADER_SIZE
    ensures Feed(s, r, " " + Blanks(gap) + code) ==
            On(r, r.p.(statusCode := DecimalValue(code), state := Status(ResStatusCode)), |" " + Blanks(gap) + code|)
  {
    hide Feed, Take, SmallNumber, DecimalValue, Blanks;
    QuietInLine(s, r, ' ');
    FeedOne(s, r, ' ');
    var r1 := Feed(s, r, " ");
    SpacesRead(s, r1, gap);
    NumberIsRead(s, StatusCode, Feed(s, r1, Blanks(gap)), code);
    FeedConcat(s, r, " ", Blanks(gap));
    FeedConcat(s, r, " " + Blanks(gap), code);
  }

  lemma StatusText(f: FirstLine)
    requires f.StatusLine?
    ensures FirstText(f) != "" && FirstText(f)[0] == 'H'
    ensures FirstText(f)[1..] ==
            "TTP/" + (f.major + "." + f.minor) + (" " + Blanks(f.gap) + f.code) + (f.tail + Eol(f.bare))
  {
    hide Blanks, Eol;
  }

  /** A status line behind its first letter. */
  lemma StatusRestIsRead(s: Settings, r: Run, f: FirstLine)
    requires r.ctl.Advance? && r.p.state == Status(ResH) && f.StatusLine? && ProperFirst(f)
    requires r.p.nread + |FirstText(f)| - 1 <= MAX_HEADER_SIZE
    ensures var n := NumbersIn(f); var q := Feed(s, r, FirstText(f)[1..]);
      q == Run(r.p.(statusCode := n.code, httpMajor := n.major, httpMinor := n.minor, state := HeaderFieldStart,
                    index := q.p.index, nread := r.p.nread + |FirstText(f)| - 1),
               r.consumed + |FirstText(f)| - 1, r.evs + AsData(StatusData, Reason(f.tail)), Advance)
  {
    hide Feed, Take, SmallNumber, DecimalValue, AsData, Reason, FirstText, Blanks, Eol;
    var StatusLine(major, minor, gap, code, tail, bare) := f;
    StatusText(f);
    HttpWord(s, r);
    var r1 := Feed(s, r, "TTP/");
    VersionIsRead(s, r1, major, minor);
    var version, number := major + "." + minor, " " + Blanks(gap) + code;
    var r2 := Feed(s, r1, version);
    CodeIsRead(s, r2, gap, code);
    TailIsRead(s, Feed(s, r2, number), tail, bare);
    FeedConcat(s, r, "TTP/", version);
    FeedConcat(s, r, "TTP/" + version, number);
    FeedConcat(s, r, "TTP/" + version + number, tail + Eol(bare));
  }

  /** The first letter of a response, and of any message as long as the kind is open. */
  lemma LetterH(s: Settings, p: Parser)
    requires (p.state.StartRes? || p.state.StartReqOrRes?) && p.nread < MAX_HEADER_SIZE
    ensures var q := p.(flags := NO_FLAGS, contentLength := ULLONG_MAX, nread := p.nread + 1,
                        state := if p.state.StartRes? then Status(ResH) else ResOrRespH);
      Take(s, Start(p), 'H') == Run(q, 1, [Notify(Begin(q))], Advance)
  {
    hide StepByte, TurnEvents;
    OnePass(s, p, 'H');
    CallTurn(p.state, Switch(s, p.(nread := p.nread + 1), 'H', 1), 'H');
  }

  lemma StatusLineIsRead(s: Settings, p: Parser, f: FirstLine)
    requires p.state.StartRes? && p.kind.Response? && f.StatusLine? && ProperFirst(f)
    requires p.nread + |FirstText(f)| <= MAX_HEADER_SIZE
    ensures FirstIsRead(p, f, Feed(s, Start(p), FirstText(f)))
  {
    hide Feed, Take, SmallNumber, DecimalValue, AsData, Shown, Reason, FirstText, Seen;
    StatusText(f);
    var q := p.(flags := NO_FLAGS, contentLength := ULLONG_MAX, state := Status(ResH), nread := p.nread + 1);
    assert Take(s, Start(p), 'H') == Run(q, 1, [Notify(Begin(q))], Advance) by { LetterH(s, p); }
    FeedOne(s, Start(p), 'H');
    var r1 := Feed(s, Start(p), ['H']);
    StatusRestIsRead(s, r1, f);
    FeedConcat(s, Start(p), ['H'], FirstText(f)[1..]);
    assert ['H'] + FirstText(f)[1..] == FirstText(f);
    SeenConcat(r1.evs, AsData(StatusData, Reason(f.tail)));
    SeenData(StatusData, Reason(f.tail));
    SeenOne(r1.evs[0]);
  }

  // ---- headers, one by one ----

  /** What a header adds to the flags. */
  function AddFlags(f: Flags, h: Header): Flags {
    f.(chunked := f.chunked || SaysChunked(h), keepAlive := f.keepAlive || SaysKeepAlive(h),
       close := f.close || SaysClose(h), upgrade := f.upgrade || SaysUpgrade(h))
  }

  /** The record behind a header, from the one in front of it. */
  function AfterHeader(p: Parser, h: Header): Parser
    requires ProperHeader(h)
  {
    p.(flags := AddFlags(p.flags, h), nread := p.nread + |HeaderText(h)|,
       contentLength := if SaysLength(h) then DecimalValue(h.value) else p.contentLength)
  }

  /** In front of a header or behind the last one. */
  predicate BetweenHeaders(s: State) { s == HeaderFieldStart || s == Value(ValueLws) || s == Value(DiscardLws) }

  /** The run once it is known that the value does not go on in a further line. */
  function Settled(r: Run): Run {
    match r.p.state
    case Value(ValueLws) =>
      r.(p := r.p.(flags := HeaderFlags(r.p.flags, r.p.headerState), state := HeaderFieldStart))
    case Value(DiscardLws) =>
      r.(p := r.p.(state := HeaderFieldStart), evs := r.evs + [Empty(ValueData)])
    case _ => r
  }

  /** The case that is left for the next line. */
  lemma SettlingTurn(s: Settings, r: Run, c: char)
    requires r.p.state == Value(ValueLws) || r.p.state == Value(DiscardLws)
    requires !IsBlank(c)
    ensures var q := r.p.(nread := r.p.nread + 1); var t := Switch(s, q, c, 1);
      && t.ctl.Again? && t.p == Settled(r).p.(nread := q.nread)
      && TurnEvents(q.state, t, [c]) == if r.p.state == Value(DiscardLws) then [Empty(ValueData)] else []
  {
    NoticesTwo(Mark(ValueData), Flush(ValueData));
    NoNotices();
    hide Notices, AsData, HeaderFlags;
  }

  lemma CountedLoop(s: Settings, p: Parser, ch: char)
    requires ParsingHeader(p.state) && p.nread < MAX_HEADER_SIZE
    ensures StepByte(s, p, ch) == Loop(s, p.(nread := p.nread + 1), ch)
  {
    hide Loop;
  }

  lemma LoopAgain(s: Settings, p: Parser, ch: char)
    ensures var t := Switch(s, p, ch, 1); var o := Loop(s, t.p, ch);
      t.ctl.Again? ==> Loop(s, p, ch) == Outcome(o.p, TurnEvents(p.state, t, [ch]) + o.evs, o.ctl)
  {
    hide Switch, TurnEvents, Rank;
  }

  lemma SettledTakes(s: Settings, r: Run, c: char)
    requires r.ctl.Advance? && BetweenHeaders(r.p.state) && r.p.nread < MAX_HEADER_SIZE && !IsBlank(c)
    ensures Take(s, r, c) == Take(s, Settled(r), c)
  {
    hide StepByte, Loop, Switch, TurnEvents, HeaderFlags;
    if r.p.state.Value? {
      var q := r.p.(nread := r.p.nread + 1);
      SettlingTurn(s, r, c);
      CountedLoop(s, r.p, c);
      CountedLoop(s, Settled(r).p, c);
      LoopAgain(s, q, c);
    }
  }

  lemma SettledFeeds(s: Settings, r: Run, text: string)
    requires r.ctl.Advance? && BetweenHeaders(r.p.state) && r.p.nread < MAX_HEADER_SIZE
    requires text != "" && !IsBlank(text[0])
    ensures Feed(s, r, text) == Feed(s, Settled(r), text)
  {
    hide Feed, Take, Settled;
    assert text == [text[0]] + text[1..];
    FeedConcat(s, r, [text[0]], text[1..]);
    FeedConcat(s, Settled(r), [text[0]], text[1..]);
    FeedOne(s, r, text[0]);
    FeedOne(s, Settled(r), text[0]);
    SettledTakes(s, r, text[0]);
  }

  lemma {:induction false} BlanksLead(text: string)
    requires forall i :: 0 <= i < |text| ==> IsBlank(text[i])
    ensures Lead(text)
  {
    if text != "" { BlanksLead(text[..|text| - 1]); }
  }

  /** The matcher behind a name stands for the names that matter. */
  predicate StandsFor(st: HeaderState, h: Header) {
    && (st.Connection? <==> IsConnection(h))
    && (st.ContentLength? <==> Named(h, "content-length"))
    && (st.TransferEncoding? <==> Named(h, "transfer-encoding"))
    && (st.Upgrade? <==> Named(h, "upgrade"))
  }

  lemma NameIsToken(h: Header)
    requires ProperHeader(h)
    ensures TokenText(h.name)
  {
    forall i | 0 <= i < |h.name| ensures Token(h.name[i]) != '\0' { TokenTable(h.name[i]); }
  }

  lemma Colon(s: Settings, r: Run)
    requires r.ctl.Advance? && r.p.state == HeaderField && r.p.nread < MAX_HEADER_SIZE
    ensures Take(s, r, ':') == On(r, r.p.(state := Value(DiscardWs)), 1)
  {
    hide Take;
    Quiet(s, r, ':');
  }

  /** A name and the colon behind it. */
  lemma NameIsRead(s: Settings, r: Run, h: Header)
    requires r.ctl.Advance? && r.p.state == HeaderFieldStart && ProperHeader(h)
    requires r.p.nread + |h.name + ":"| <= MAX_HEADER_SIZE
    ensures var f := Feed(s, r, h.name + ":");
      && f == Run(r.p.(state := Value(DiscardWs), headerState := f.p.headerState, index := f.p.index,
                       nread := r.p.nread + |h.name + ":"|),
                  r.consumed + |h.name + ":"|, r.evs + AsData(FieldData, h.name), Advance)
      && StandsFor(f.p.headerState, h)
  {
    hide Feed, Take, Token, AsData, NameTracks, Lowered, ProperHeader, TokenText, SameWord;
    NameIsToken(h);
    NameIsTracked(s, r.p, h.name);
    FeedFromRun(s, r, h.name);
    var q := Feed(s, r, h.name);
    Decided(q.p.headerState, q.p.index, Lowered(h.name));
    NameSaid(h, "connection");
    NameSaid(h, "proxy-connection");
    NameSaid(h, "content-length");
    NameSaid(h, "transfer-encoding");
    NameSaid(h, "upgrade");
    Colon(s, q);
    FeedOne(s, q, ':');
    FeedConcat(s, r, h.name, ":");
  }

  /** An empty value and the end of its line. */
  lemma EmptyValueIsRead(s: Settings, r: Run, bare: bool)
    requires r.ctl.Advance? && r.p.state == Value(DiscardWs) && r.p.nread + |Eol(bare)| <= MAX_HEADER_SIZE
    ensures Feed(s, r, Eol(bare)) == On(r, r.p.(state := Value(DiscardLws)), |Eol(bare)|)
  {
    hide StepByte, Feed;
    if bare {
      LeadByte(s, r.p, '\n');
      FeedOne(s, r, '\n');
    } else {
      LeadByte(s, r.p, '\r');
      LeadByte(s, Take(s, r, '\r').p, '\n');
      FeedTwo(s, r, '\r', '\n');
    }
  }

  /** The flags that a value leaves, and those that the header adds. */
  lemma FlagsOfValue(f: Flags, h: Header, st: HeaderState, h2: HeaderState, index: nat)
    requires ValueLine(h.value) && StandsFor(st, h)
    requires if h.folds == [] then ValueTracks(st, h2, index, h.value) else h2.General?
    ensures HeaderFlags(f.(upgrade := f.upgrade || st.Upgrade?), h2) == AddFlags(f, h)
  {
    assert h.value != "";
    hide ValueTracks, Says, Reads, SameWord, ValueLine;
    ValueSaid(h, "chunked");
    ValueSaid(h, "keep-alive");
    ValueSaid(h, "close");
    if h.folds == [] { Said(st, h2, index, h.value); }
  }

  /** A Content-Length says nothing else. */
  lemma LengthSaysNoMore(f: Flags, h: Header)
    requires Named(h, "content-length")
    ensures AddFlags(f, h) == f
  {
    assert Small(h.name[0]) == 'c' && Small(h.name[3]) == 't';
  }

  /** The run over a value up to the end of its last line. */
  predicate ValueIsIn(r: Run, h: Header, n: nat, f: Run)
    requires ProperHeader(h)
  {
    var q := f.p;
    && HeaderFlags(q.flags, q.headerState) == AddFlags(r.p.flags, h)
    && f == Run(r.p.(state := Value(ValueText), flags := q.flags, headerState := q.headerState, index := q.index,
                     contentLength := if SaysLength(h) then DecimalValue(h.value) else r.p.contentLength,
                     nread := r.p.nread + n),
                r.consumed + n, r.evs + (AsData(ValueData, h.value) + AsData(ValueData, FoldedText(h.folds))), Advance)
  }

  lemma NoFolds()
    ensures Folded([]) == "" && AsData(ValueData, FoldedText([])) == []
  {
  }

  lemma LengthIsRead(s: Settings, r: Run, h: Header)
    requires r.ctl.Advance? && r.p.state == Value(DiscardWs) && ProperHeader(h) && SaysLength(h)
    requires StandsFor(r.p.headerState, h) && r.p.nread + |h.value| <= MAX_HEADER_SIZE
    ensures ValueIsIn(r, h, |h.value + Folded(h.folds)|, Feed(s, r, h.value + Folded(h.folds)))
  {
    hide Feed, AsData, DecimalValue, SameWord, LengthText, ValueLine, Folded, FoldedText;
    NoFolds();
    assert h.value + "" == h.value;
    FeedFromRun(s, r, h.value);
    ContentLengthIsExact(s, r.p, h.value);
    LengthSaysNoMore(r.p.flags, h);
  }

  /** A value that is no length, with the lines that continue it. */
  lemma WordsAreRead(s: Settings, r: Run, h: Header)
    requires r.ctl.Advance? && r.p.state == Value(DiscardWs) && ProperHeader(h) && h.value != "" && !SaysLength(h)
    requires StandsFor(r.p.headerState, h) && r.p.nread + |h.value + Folded(h.folds)| <= MAX_HEADER_SIZE
    ensures ValueIsIn(r, h, |h.value + Folded(h.folds)|, Feed(s, r, h.value + Folded(h.folds)))
  {
    hide Feed, AsData, DecimalValue, ValueTracks, SameWord, LengthText, ValueLine, Folded, FoldedText, Says, Reads,
      FoldedLine, AddFlags;
    FeedConcat(s, r, h.value, Folded(h.folds));
    FeedFromRun(s, r, h.value);
    ValueIsTracked(s, r.p, h.value);
    var f := Feed(s, r, h.value);
    TracksWord(r.p.headerState, f.p.headerState, f.p.index, h.value);
    FoldedIsOther(s, f, h.folds);
    var q := Feed(s, f, Folded(h.folds)).p;
    FlagsOfValue(r.p.flags, h, r.p.headerState, q.headerState, q.index);
  }

  /** A nonempty value and the end of its last line. */
  lemma ValueIsRead(s: Settings, r: Run, h: Header)
    requires r.ctl.Advance? && r.p.state == Value(DiscardWs) && ProperHeader(h) && h.value != ""
    requires StandsFor(r.p.headerState, h)
    requires r.p.nread + |h.value + Folded(h.folds) + Eol(h.bare)| <= MAX_HEADER_SIZE
    ensures var text := h.value + Folded(h.folds) + Eol(h.bare); var f := Feed(s, r, text); var q := f.p;
      && q.state == Value(ValueLws) && HeaderFlags(q.flags, q.headerState) == AddFlags(r.p.flags, h)
      && f == Run(r.p.(state := Value(ValueLws), flags := q.flags, headerState := q.headerState, index := q.index,
                       contentLength := if SaysLength(h) then DecimalValue(h.value) else r.p.contentLength,
                       nread := r.p.nread + |text|),
                  r.consumed + |text|,
                  r.evs + (AsData(ValueData, h.value) + AsData(ValueData, FoldedText(h.folds))), Advance)
  {
    hide Feed, AsData, DecimalValue, SameWord, LengthText, ValueLine, Folded, FoldedText, Eol, ProperHeader, AddFlags,
      HeaderFlags;
    var text := h.value + Folded(h.folds);
    if SaysLength(h) { LengthIsRead(s, r, h); } else { WordsAreRead(s, r, h); }
    EndOfLine(s, Feed(s, r, text), h.bare);
    FeedConcat(s, r, text, Eol(h.bare));
  }

  /** The run over a header, once it is known that its value does not go on. */
  predicate HeaderIsIn(r: Run, h: Header, f: Run)
    requires ProperHeader(h)
  {
    && f.ctl.Advance? && BetweenHeaders(f.p.state) && f.p.nread == r.p.nread + |HeaderText(h)|
    && var g := Settled(f);
      && g.consumed == r.consumed + |HeaderText(h)| && Like(g.p, AfterHeader(r.p, h))
      && Seen(g.evs) == Seen(r.evs) + HeaderSights(h)
  }

  lemma ValueSeen(evs: seq<Ev>, h: Header, more: seq<Ev>)
    requires more == if h.value == "" then [Empty(ValueData)]
                     else AsData(ValueData, h.value) + AsData(ValueData, FoldedText(h.folds))
    ensures Seen(evs + AsData(FieldData, h.name) + more) == Seen(evs) + HeaderSights(h)
  {
    hide Seen, Shown, AsData, FoldedText;
    SeenConcat(evs + AsData(FieldData, h.name), more);
    SeenConcat(evs, AsData(FieldData, h.name));
    SeenData(FieldData, h.name);
    SeenConcat(AsData(ValueData, h.value), AsData(ValueData, FoldedText(h.folds)));
    SeenData(ValueData, h.value);
    SeenData(ValueData, FoldedText(h.folds));
    SeenOne(Empty(ValueData));
  }

  lemma EmptySaysNothing(f: Flags, h: Header)
    requires h.value == ""
    ensures AddFlags(f, h) == f && !SaysLength(h)
  {
  }

  lemma HeaderIsRead(s: Settings, r: Run, h: Header)
    requires r.ctl.Advance? && r.p.state == HeaderFieldStart && ProperHeader(h)
    requires r.p.nread + |HeaderText(h)| <= MAX_HEADER_SIZE
    ensures HeaderIsIn(r, h, Feed(s, r, HeaderText(h)))
  {
    hide Feed, StandsFor, HeaderSights, Seen, AsData, Lead, ValueLine, SameWord, DecimalValue, LengthText, Says, Folded,
      FoldedText, Eol, FoldedLine;
    var name, value := h.name + ":", h.value + Folded(h.folds) + Eol(h.bare);
    NameIsRead(s, r, h);
    var r1 := Feed(s, r, name);
    LeadIsDropped(s, r1, h.lead);
    FeedConcat(s, r, name, h.lead);
    var r2 := Feed(s, r, name + h.lead);
    FeedConcat(s, r, name + h.lead, value);
    HeaderInParts(h);
    if h.value == "" {
      NoFolds();
      assert value == Eol(h.bare);
      EmptyValueIsRead(s, r2, h.bare);
      EmptySaysNothing(r.p.flags, h);
      ValueSeen(r.evs, h, [Empty(ValueData)]);
    } else {
      ValueIsRead(s, r2, h);
      ValueSeen(r.evs, h, AsData(ValueData, h.value) + AsData(ValueData, FoldedText(h.folds)));
    }
  }

  lemma HeaderInParts(h: Header)
    ensures HeaderText(h) == h.name + ":" + h.lead + (h.value + Folded(h.folds) + Eol(h.bare))
  {
    hide Folded, Eol;
  }

  // ---- all headers ----

  function AfterHeaders(p: Parser, hs: seq<Header>): Parser
    requires ProperHeaders(hs)
  {
    p.(flags := p.flags.(chunked := p.flags.chunked || AsksChunked(hs),
                         keepAlive := p.flags.keepAlive || AsksKeepAlive(hs),
                         close := p.flags.close || AsksClose(hs), upgrade := p.flags.upgrade || AsksUpgrade(hs)),
       nread := p.nread + |HeadersText(hs)|,
       contentLength := if GivenLength(hs) != ULLONG_MAX then GivenLength(hs) else p.contentLength)
  }

  /** The run over headers. */
  predicate HeadersAreIn(r: Run, hs: seq<Header>, f: Run)
    requires ProperHeaders(hs)
  {
    && f.ctl.Advance? && BetweenHeaders(f.p.state) && f.p.nread == r.p.nread + |HeadersText(hs)|
    && var g := Settled(f);
      && g.consumed == r.consumed + |HeadersText(hs)| && Like(g.p, AfterHeaders(r.p, hs))
      && Seen(g.evs) == Seen(r.evs) + HeadersSights(hs)
  }

  lemma NoHeaders(r: Run)
    requires r.ctl.Advance? && r.p.state == HeaderFieldStart
    ensures HeadersAreIn(r, [], r) && HeadersText([]) == ""
  {
  }

  /** One header more, and what all of them say. */
  lemma OneMoreSays(hs: seq<Header>, h: Header)
    ensures AsksChunked(hs + [h]) <==> AsksChunked(hs) || SaysChunked(h)
    ensures AsksKeepAlive(hs + [h]) <==> AsksKeepAlive(hs) || SaysKeepAlive(h)
    ensures AsksClose(hs + [h]) <==> AsksClose(hs) || SaysClose(h)
    ensures AsksUpgrade(hs + [h]) <==> AsksUpgrade(hs) || SaysUpgrade(h)
  {
    hide SaysChunked, SaysKeepAlive, SaysClose, SaysUpgrade;
    assert forall x :: x in hs ==> x in hs + [h];
    assert h in hs + [h];
  }

  lemma AfterOneMore(p: Parser, hs: seq<Header>, h: Header)
    requires ProperHeaders(hs) && ProperHeader(h)
    ensures ProperHeaders(hs + [h]) && AfterHeader(AfterHeaders(p, hs), h) == AfterHeaders(p, hs + [h])
    ensures HeadersText(hs + [h]) == HeadersText(hs) + HeaderText(h)
    ensures HeadersSights(hs + [h]) == HeadersSights(hs) + HeaderSights(h)
  {
    hide AsksChunked, AsksKeepAlive, AsksClose, AsksUpgrade, SaysChunked, SaysKeepAlive, SaysClose, SaysUpgrade,
      HeaderText, HeaderSights;
    assert (hs + [h])[..|hs|] == hs;
    OneMoreSays(hs, h);
    assert SaysLength(h) ==> DecimalValue(h.value) != ULLONG_MAX;
  }

  /** Like records stay like. */
  lemma LikeAfter(p: Parser, q: Parser, h: Header)
    requires Like(p, q) && ProperHeader(h)
    ensures Like(AfterHeader(p, h), AfterHeader(q, h))
  {
    hide AddFlags, SaysLength, DecimalValue, HeaderText;
  }

  lemma LikeChain(p: Parser, q: Parser, o: Parser)
    requires Like(p, q) && Like(q, o)
    ensures Like(p, o)
  {
  }

  lemma HeaderStarts(h: Header)
    requires ProperHeader(h)
    ensures HeaderText(h) != "" && !IsBlank(HeaderText(h)[0])
  {
    assert IsTokenByte(h.name[0]) && HeaderText(h)[0] == h.name[0];
  }

  lemma SettledFollows(f: Run)
    requires BetweenHeaders(f.p.state)
    ensures Settled(f).p.state == HeaderFieldStart && Settled(f).ctl == f.ctl && Settled(f).p.nread == f.p.nread
  {
  }

  lemma LikeJoin(p: Parser, hs: seq<Header>, h: Header, g: Parser, q: Parser)
    requires ProperHeaders(hs) && ProperHeader(h) && Like(g, AfterHeaders(p, hs)) && Like(q, AfterHeader(g, h))
    ensures ProperHeaders(hs + [h]) && Like(q, AfterHeaders(p, hs + [h]))
  {
    hide ProperHeader, AfterHeader, AfterHeaders, Like;
    AfterOneMore(p, hs, h);
    LikeAfter(g, AfterHeaders(p, hs), h);
    LikeChain(q, AfterHeader(g, h), AfterHeaders(p, hs + [h]));
  }

  lemma JoinIn(r: Run, hs: seq<Header>, h: Header, f: Run, e: Run)
    requires ProperHeaders(hs) && ProperHeader(h) && HeadersAreIn(r, hs, f) && HeaderIsIn(Settled(f), h, e)
    ensures ProperHeaders(hs + [h]) && HeadersAreIn(r, hs + [h], e)
  {
    hide ProperHeader, ProperHeaders, HeaderText, AfterHeader, AfterHeaders, Settled, Like, HeadersText,
      HeadersSights, HeaderSights, Seen, BetweenHeaders;
    SettledFollows(f) by { assert HeadersAreIn(r, hs, f); }
    var g := Settled(f);
    AfterOneMore(r.p, hs, h);
    LikeJoin(r.p, hs, h, g.p, Settled(e).p);
    Associate(Seen(r.evs), HeadersSights(hs), HeaderSights(h));
  }

  lemma HeadersAreBetween(r: Run, hs: seq<Header>, f: Run)
    requires ProperHeaders(hs) && HeadersAreIn(r, hs, f)
    ensures f.ctl.Advance? && BetweenHeaders(f.p.state)
  {
  }

  /** One header more. */
  lemma OneMoreIsIn(s: Settings, r: Run, hs: seq<Header>, h: Header, f: Run)
    requires ProperHeaders(hs) && ProperHeader(h) && HeadersAreIn(r, hs, f)
    requires f.p.nread + |HeaderText(h)| <= MAX_HEADER_SIZE
    ensures ProperHeaders(hs + [h]) && HeadersAreIn(r, hs + [h], Feed(s, f, HeaderText(h)))
  {
    hide Feed, ProperHeader, HeaderText, Settled, HeadersAreIn, HeaderIsIn, BetweenHeaders;
    HeaderStarts(h);
    HeadersAreBetween(r, hs, f);
    SettledFollows(f);
    SettledFeeds(s, f, HeaderText(h));
    HeaderIsRead(s, Settled(f), h);
    JoinIn(r, hs, h, f, Feed(s, f, HeaderText(h)));
  }

  lemma CountIn(r: Run, hs: seq<Header>, f: Run)
    requires ProperHeaders(hs) && HeadersAreIn(r, hs, f)
    ensures f.p.nread == r.p.nread + |HeadersText(hs)|
  {
  }

  lemma {:induction false} HeadersAreRead(s: Settings, r: Run, hs: seq<Header>)
    requires r.ctl.Advance? && r.p.state == HeaderFieldStart && ProperHeaders(hs)
    requires r.p.nread + |HeadersText(hs)| <= MAX_HEADER_SIZE
    ensures HeadersAreIn(r, hs, Feed(s, r, HeadersText(hs)))
  {
    hide HeadersAreIn, Take, ProperHeader, HeaderText;
    if hs == [] {
      NoHeaders(r);
    } else {
      var front, h := hs[..|hs| - 1], hs[|hs| - 1];
      assert front + [h] == hs;
      HeadersAreRead(s, r, front);
      var f := Feed(s, r, HeadersText(front));
      assert HeadersText(hs) == HeadersText(front) + HeaderText(h);
      hide Feed, HeadersText;
      CountIn(r, front, f);
      OneMoreIsIn(s, r, front, h, f);
      FeedConcat(s, r, HeadersText(front), HeaderText(h));
    }
  }

  // ---- parsers whose kind is open ----

  /** Runs that agree on the first byte agree on the text. */
  lemma SameFirst(s: Settings, r: Run, q: Run, text: string)
    requires text != "" && Take(s, r, text[0]) == Take(s, q, text[0])
    ensures Feed(s, r, text) == Feed(s, q, text)
  {
    hide Feed, Take;
    assert text == [text[0]] + text[1..];
    FeedConcat(s, r, [text[0]], text[1..]);
    FeedConcat(s, q, [text[0]], text[1..]);
    FeedOne(s, r, text[0]);
    FeedOne(s, q, text[0]);
  }

  lemma OnlyHead(m: Method)
    ensures MethodString(m)[0] == 'H' <==> m.HEAD?
    ensures MethodString(m)[0] != '\r' && MethodString(m)[0] != '\n'
  {
  }

  lemma RequestText(f: FirstLine)
    requires f.RequestLine?
    ensures |FirstText(f)| > 3 && FirstText(f)[0] == MethodString(f.verb)[0]
    ensures f.verb.HEAD? ==> FirstText(f) == "HE" + FirstText(f)[2..]
  {
  }

  lemma RedoTurn(s: Settings, q: Parser, ch: char)
    requires q.state.StartReqOrRes? && ch != 'H' && ch != '\r' && ch != '\n'
    ensures var clean := q.(flags := NO_FLAGS, contentLength := ULLONG_MAX, kind := Request, state := StartReq);
      Switch(s, q, ch, 1) == Redo(clean) && TurnEvents(q.state, Redo(clean), [ch]) == []
  {
    NoNotices();
    hide AsData;
  }

  /** Clearing the record twice is clearing it once. */
  lemma CleanTwice(s: Settings, q: Parser, ch: char)
    requires ch != '\r' && ch != '\n'
    ensures var clean := q.(flags := NO_FLAGS, contentLength := ULLONG_MAX, kind := Request, state := StartReq);
      Loop(s, clean, ch) == Loop(s, q.(kind := Request, state := StartReq), ch)
  {
    hide TurnEvents, InitialMethod, IsMethodInitial;
  }

  /** A first letter other than H begins a request. */
  lemma OtherLetter(s: Settings, p: Parser, ch: char)
    requires p.state.StartReqOrRes? && p.nread < MAX_HEADER_SIZE && ch != 'H' && ch != '\r' && ch != '\n'
    ensures Take(s, Start(p), ch) == Take(s, Start(p.(kind := Request, state := StartReq)), ch)
  {
    hide StepByte, Loop, Switch, TurnEvents;
    var q := p.(nread := p.nread + 1);
    var clean := q.(flags := NO_FLAGS, contentLength := ULLONG_MAX, kind := Request, state := StartReq);
    CountedLoop(s, p, ch);
    CountedLoop(s, p.(kind := Request, state := StartReq), ch);
    assert Switch(s, q, ch, 1) == Redo(clean) && TurnEvents(q.state, Redo(clean), [ch]) == [] by { RedoTurn(s, q, ch); }
    LoopAgain(s, q, ch);
    CleanTwice(s, q, ch);
  }

  lemma HeadBegins(s: Settings, p: Parser)
    requires p.state.StartReq? && p.nread < MAX_HEADER_SIZE
    ensures var b := HttpMethod.Begun(p, 'H'); Take(s, Start(p), 'H') == Run(b, 1, [Notify(Begin(b))], Advance)
  {
    hide StepByte;
    HttpMethod.FirstByte(s, p, 'H');
  }

  /** HE begins a HEAD request. */
  lemma LettersHE(s: Settings, p: Parser)
    requires (p.state.StartReqOrRes? || (p.state.StartReq? && p.kind.Request?)) && p.nread + 2 <= MAX_HEADER_SIZE
    ensures var r := Feed(s, Start(p), "HE");
      && r.p == p.(kind := Request, flags := NO_FLAGS, contentLength := ULLONG_MAX, verb := HEAD, index := 2,
                   state := ReqMethod, nread := p.nread + 2)
      && r.consumed == 2 && r.ctl.Advance? && Seen(r.evs) == [Starts]
  {
    hide Take, Feed;
    FeedTwo(s, Start(p), 'H', 'E');
    var r1 := Take(s, Start(p), 'H');
    if p.state.StartReqOrRes? {
      LetterH(s, p);
    } else {
      HeadBegins(s, p);
    }
    SeenOne(r1.evs[0]);
    Quiet(s, r1, 'E');
  }

  /** Behind HE both parsers go on alike. */
  lemma HeadRequestSeen(s: Settings, p: Parser, rest: string)
    requires p.state.StartReqOrRes? && p.nread + 2 <= MAX_HEADER_SIZE
    ensures var r := Feed(s, Start(p), "HE" + rest);
      var q := Feed(s, Start(p.(kind := Request, state := StartReq)), "HE" + rest);
      r.p == q.p && r.consumed == q.consumed && r.ctl == q.ctl && Seen(r.evs) == Seen(q.evs)
  {
    hide Feed, Seen;
    var p' := p.(kind := Request, state := StartReq);
    LettersHE(s, p);
    LettersHE(s, p');
    var r, r' := Feed(s, Start(p), "HE"), Feed(s, Start(p'), "HE");
    FeedConcat(s, Start(p), "HE", rest);
    FeedConcat(s, Start(p'), "HE", rest);
    FeedFromRun(s, r, rest);
    FeedFromRun(s, r', rest);
    SeenConcat(r.evs, Feed(s, Start(r.p), rest).evs);
    SeenConcat(r'.evs, Feed(s, Start(r.p), rest).evs);
  }

  /** A request in front of a parser whose kind is open. */
  lemma OpenRequestIsRead(s: Settings, p: Parser, f: FirstLine)
    requires p.state.StartReqOrRes? && f.RequestLine? && ProperFirst(f)
    requires p.nread + |FirstText(f)| <= MAX_HEADER_SIZE
    ensures FirstIsRead(p, f, Feed(s, Start(p), FirstText(f)))
  {
    hide Feed, Take, FirstText, MethodString, Seen, FirstSights, ProperFirst;
    var p' := p.(kind := Request, state := StartReq);
    RequestLineIsRead(s, p', f);
    RequestText(f);
    OnlyHead(f.verb);
    var text := FirstText(f);
    if f.verb.HEAD? {
      HeadRequestSeen(s, p, text[2..]);
    } else {
      OtherLetter(s, p, text[0]);
      SameFirst(s, Start(p), Start(p'), text);
    }
  }

  /** HT begins a response. */
  lemma LettersHT(s: Settings, r: Run, rest: string)
    requires r.ctl.Advance? && r.p.state.ResOrRespH? && r.p.nread < MAX_HEADER_SIZE && rest != "" && rest[0] == 'T'
    ensures Feed(s, r, rest) == Feed(s, r.(p := r.p.(kind := Response, state := Status(ResH))), rest)
  {
    hide Feed, Take;
    var q := r.(p := r.p.(kind := Response, state := Status(ResH)));
    Quiet(s, r, 'T');
    QuietInLine(s, q, 'T');
    SameFirst(s, r, q, rest);
  }

  /** A response in front of a parser whose kind is open. */
  lemma OpenResponseIsRead(s: Settings, p: Parser, f: FirstLine)
    requires p.state.StartReqOrRes? && f.StatusLine? && ProperFirst(f)
    requires p.nread + |FirstText(f)| <= MAX_HEADER_SIZE
    ensures FirstIsRead(p, f, Feed(s, Start(p), FirstText(f)))
  {
    hide Feed, Take, SmallNumber, DecimalValue, AsData, Shown, Reason, FirstText, Seen;
    StatusText(f);
    LetterH(s, p);
    FeedOne(s, Start(p), 'H');
    var r1 := Feed(s, Start(p), ['H']);
    var rest := FirstText(f)[1..];
    LettersHT(s, r1, rest);
    StatusRestIsRead(s, r1.(p := r1.p.(kind := Response, state := Status(ResH))), f);
    FeedConcat(s, Start(p), ['H'], rest);
    assert ['H'] + rest == FirstText(f);
    SeenConcat(r1.evs, AsData(StatusData, Reason(f.tail)));
    SeenData(StatusData, Reason(f.tail));
    SeenOne(r1.evs[0]);
  }

  function KindOf(f: FirstLine): ParserType { if f.RequestLine? then Request else Response }

  /** The parser waits for a message of this kind. */
  predicate Expects(p: Parser, f: FirstLine) {
    p.state.StartReqOrRes? || (p.kind == KindOf(f) && if f.RequestLine? then p.state.StartReq? else p.state.StartRes?)
  }

  /** Every well-formed first line is read to what it says. */
  lemma FirstLineIsRead(s: Settings, p: Parser, f: FirstLine)
    requires Expects(p, f) && ProperFirst(f) && p.nread + |FirstText(f)| <= MAX_HEADER_SIZE
    ensures FirstIsRead(p, f, Feed(s, Start(p), FirstText(f)))
  {
    hide Feed, ProperFirst, FirstIsRead, FirstText;
    match f
    case RequestLine(_, _, _, _, _) =>
      if p.state.StartReqOrRes? { OpenRequestIsRead(s, p, f); } else { RequestLineIsRead(s, p, f); }
    case StatusLine(_, _, _, _, _, _) =>
      if p.state.StartReqOrRes? { OpenResponseIsRead(s, p, f); } else { StatusLineIsRead(s, p, f); }
  }
}
