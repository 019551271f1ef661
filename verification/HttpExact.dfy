/**
 What the parser refuses.  A line in front of the headers, a header line and a chunk-size line
 are taken exactly if they are of the form that is written down for them; nothing else passes.
 */
module HttpExact {
  import opened Common
  import opened HttpTypes
  import opened HttpSwitch
  import opened HttpInvariant
  import opened HttpRun
  import opened HttpTape
  import opened HttpHeader
  import opened HttpChunked
  import opened HttpBounds
  import opened HttpLine
  import HttpMethod
  import HttpUrl
  // ---- stopped runs ----

  /** What begins with something refused is refused. */
  lemma RefusedFront(s: Settings, r: Run, a: string, b: string)
    requires !Feed(s, r, a).ctl.Advance?
    ensures !Feed(s, r, a + b).ctl.Advance?
  {
    hide Feed;
    FeedConcat(s, r, a, b);
    StoppedFeed(s, Feed(s, r, a), b);
  }

  /** A byte of the head at which the switch fails. */
  lemma RefusedByte(s: Settings, r: Run, ch: char, rest: string)
    requires r.ctl.Advance? && ParsingHeader(r.p.state) && r.p.nread < MAX_HEADER_SIZE
    requires Switch(s, r.p.(nread := r.p.nread + 1), ch, 1).ctl.Fail?
    ensures !Feed(s, r, [ch] + rest).ctl.Advance?
  {
    hide StepByte, Switch, TurnEvents, Feed;
    OnePass(s, r.p, ch);
    FeedOne(s, r, ch);
    RefusedFront(s, r, [ch], rest);
  }

  predicate NoBreak(text: string) { forall i :: 0 <= i < |text| ==> text[i] != '\r' && text[i] != '\n' }

  /** How many of the first bytes are spaces, or digits. */
  function SpacesIn(text: string): (n: nat)
    ensures n <= |text| && text[..n] == Blanks(n) && (n < |text| ==> text[n] != ' ')
  {
    if text == "" || text[0] != ' ' then 0
    else
      assert text[..SpacesIn(text[1..]) + 1] == " " + text[1..][..SpacesIn(text[1..])];
      SpacesIn(text[1..]) + 1
  }

  function DigitsIn(text: string): (n: nat)
    ensures n <= |text| && (forall i :: 0 <= i < n ==> IsNum(text[i])) && (n < |text| ==> !IsNum(text[n]))
  {
    if text == "" || !IsNum(text[0]) then 0 else DigitsIn(text[1..]) + 1
  }

  /** Where the first space is, or the end. */
  function WordIn(text: string): (n: nat)
    ensures n <= |text| && ' ' !in text[..n] && (n < |text| ==> text[n] == ' ')
  {
    if text == "" || text[0] == ' ' then 0
    else
      assert text[..WordIn(text[1..]) + 1] == [text[0]] + text[1..][..WordIn(text[1..])];
      WordIn(text[1..]) + 1
  }

  // ---- numbers ----

  lemma NoDigit(s: Settings, f: Field, r: Run, ch: char, rest: string)
    requires r.ctl.Advance? && Before(f, r.p) && r.p.nread < MAX_HEADER_SIZE
    requires !IsNum(ch) || (r.p.state == Version(ReqFirstHttpMajor) && ch == '0')
    requires f.StatusCode? ==> ch != ' '
    ensures !Feed(s, r, [ch] + rest).ctl.Advance?
  {
    hide Feed;
    RefusedByte(s, r, ch, rest);
  }

  /** A number in front of something is digits up to 999, not a 0 first where a request has its major version. */
  lemma NumberOnly(s: Settings, f: Field, r: Run, text: string)
    requires r.ctl.Advance? && Before(f, r.p) && r.p.nread + |text| <= MAX_HEADER_SIZE && text != ""
    requires f.StatusCode? ==> text[0] != ' '
    ensures var n := DigitsIn(text);
      Feed(s, r, text).ctl.Advance? ==>
        && SmallNumber(text[..n]) && (r.p.state == Version(ReqFirstHttpMajor) ==> text[0] != '0')
        && Feed(s, r, text) == Feed(s, On(r, Reading(f, r.p, DecimalValue(text[..n])), n), text[n..])
  {
    hide Feed, DecimalValue;
    var n := DigitsIn(text);
    if n == 0 || (r.p.state == Version(ReqFirstHttpMajor) && text[0] == '0') {
      assert [text[0]] + text[1..] == text;
      NoDigit(s, f, r, text[0], text[1..]);
    } else {
      assert DigitText(text[..n]) && text[..n][0] == text[0];
      assert text == text[..n] + text[n..];
      FeedConcat(s, r, text[..n], text[n..]);
      if DecimalValue(text[..n]) <= 999 {
        NumberIsRead(s, f, r, text[..n]);
      } else {
        NumbersAreExact(s, f, r.p, text[..n]);
        FeedFromRun(s, r, text[..n]);
        RefusedFront(s, r, text[..n], text[n..]);
      }
    }
  }

  // ---- single bytes of a first line ----

  /** The byte that a state of a first line asks for. */
  function Asked(s: State): char {
    match s
    case Version(v) => (
      match v
      case ReqHttpH | ReqHttpHT => 'T'
      case ReqHttpHTT => 'P'
      case ReqHttpHTTP => '/'
      case _ => '\0'
    )
    case Status(v) => (
      match v
      case ResH | ResHT => 'T'
      case ResHTT => 'P'
      case ResHTTP => '/'
      case _ => '\0'
    )
    case _ => '\0'
  }

  /** A line and its end. */
  predicate IsEnd(e: string) { e == "\r\n" || e == "\n" }

  /** And where it leads. */
  function Follower(s: State): State {
    match s
    case Version(v) => (
      match v
      case ReqHttpH => Version(ReqHttpHT)
      case ReqHttpHT => Version(ReqHttpHTT)
      case ReqHttpHTT => Version(ReqHttpHTTP)
      case ReqHttpHTTP => Version(ReqFirstHttpMajor)
      case _ => s
    )
    case Status(v) => (
      match v
      case ResH => Status(ResHT)
      case ResHT => Status(ResHTT)
      case ResHTT => Status(ResHTTP)
      case ResHTTP => Status(ResFirstHttpMajor)
      case _ => s
    )
    case _ => s
  }

  lemma AskedByte(s: Settings, r: Run, ch: char)
    requires r.ctl.Advance? && Asked(r.p.state) != '\0' && r.p.nread < MAX_HEADER_SIZE
    ensures if ch == Asked(r.p.state) then Take(s, r, ch) == On(r, r.p.(state := Follower(r.p.state)), 1)
            else Switch(s, r.p.(nread := r.p.nread + 1), ch, 1).ctl.Fail?
  {
    hide Take;
    if ch == Asked(r.p.state) { QuietInLine(s, r, ch); }
  }

  lemma Must(s: Settings, r: Run, t: string, e: string)
    requires r.ctl.Advance? && Asked(r.p.state) != '\0' && IsEnd(e) && r.p.nread < MAX_HEADER_SIZE
    ensures Feed(s, r, t + e).ctl.Advance? ==>
              t != "" && t[0] == Asked(r.p.state) &&
              Feed(s, r, t + e) == Feed(s, On(r, r.p.(state := Follower(r.p.state)), 1), t[1..] + e)
  {
    hide Feed, Take, StepByte, Follower;
    var w := t + e;
    assert w == [w[0]] + w[1..];
    AskedByte(s, r, w[0]);
    if w[0] != Asked(r.p.state) {
      RefusedByte(s, r, w[0], w[1..]);
    } else {
      assert t != "" && w[1..] == t[1..] + e;
      FeedConcat(s, r, [w[0]], w[1..]);
      FeedOne(s, r, w[0]);
    }
  }

  lemma Tails(t: string)
    ensures |t| >= 1 && t[1..] != "" ==> |t| >= 2 && t[1..][0] == t[1] && t[1..][1..] == t[2..]
    ensures |t| >= 2 && t[2..] != "" ==> |t| >= 3 && t[2..][0] == t[2] && t[2..][1..] == t[3..]
    ensures |t| >= 3 && t[3..] != "" ==> |t| >= 4 && t[3..][0] == t[3] && t[3..][1..] == t[4..]
  {
  }

  lemma FourLetters(t: string)
    requires |t| >= 4 && t[0] == 'T' && t[1] == 'T' && t[2] == 'P' && t[3] == '/'
    ensures t[..4] == "TTP/" && t == "TTP/" + t[4..]
  {
  }

  /** The rest of the word HTTP. */
  lemma WordOnly(s: Settings, r: Run, t: string, e: string)
    requires r.ctl.Advance? && (r.p.state == Version(ReqHttpH) || r.p.state == Status(ResH)) && IsEnd(e)
    requires r.p.nread + |t + e| <= MAX_HEADER_SIZE
    ensures Feed(s, r, t + e).ctl.Advance? ==>
              |t| >= 4 && t[..4] == "TTP/" && Feed(s, r, t + e) == Feed(s, Feed(s, r, "TTP/"), t[4..] + e)
  {
    hide Feed;
    Tails(t);
    if Feed(s, r, t + e).ctl.Advance? {
      Must(s, r, t, e);
      var r1 := On(r, r.p.(state := Follower(r.p.state)), 1);
      Must(s, r1, t[1..], e);
      var r2 := On(r1, r1.p.(state := Follower(r1.p.state)), 1);
      Must(s, r2, t[2..], e);
      var r3 := On(r2, r2.p.(state := Follower(r2.p.state)), 1);
      Must(s, r3, t[3..], e);
      FourLetters(t);
      FeedConcat(s, r, "TTP/", t[4..] + e);
      Associate("TTP/", t[4..], e);
    }
  }

  // ---- versions ----

  lemma EndIsNoDigit(t: string, e: string)
    requires IsEnd(e)
    ensures DigitsIn(t + e) <= |t| && (t + e)[..DigitsIn(t + e)] == t[..DigitsIn(t + e)]
  {
    assert (t + e)[|t|] == e[0] && !IsNum(e[0]);
  }

  lemma PointOnly(s: Settings, r: Run, c: char, rest: string)
    requires r.ctl.Advance? && (r.p.state == Version(ReqHttpMajor) || r.p.state == Status(ResHttpMajor))
    requires r.p.nread < MAX_HEADER_SIZE && !IsNum(c)
    ensures Feed(s, r, [c] + rest).ctl.Advance? ==> c == '.'
  {
    hide Feed;
    if c != '.' { RefusedByte(s, r, c, rest); }
  }

  /** Behind the digits of the major version there is a point. */
  lemma MajorOnly(s: Settings, r: Run, t: string, e: string) returns (n: nat)
    requires r.ctl.Advance? && (r.p.state == Version(ReqFirstHttpMajor) || r.p.state == Status(ResFirstHttpMajor))
    requires IsEnd(e) && r.p.nread + |t + e| <= MAX_HEADER_SIZE
    ensures Feed(s, r, t + e).ctl.Advance? ==>
              && n < |t| && SmallNumber(t[..n]) && t[n] == '.' && (r.p.state.Version? ==> t[0] != '0')
              && Feed(s, r, t + e) ==
                 Feed(s, On(r, r.p.(httpMajor := DecimalValue(t[..n]),
                                    state := if r.p.state.Version? then Version(ReqFirstHttpMinor)
                                        else Status(ResFirstHttpMinor)),
                            n + 1), t[n + 1..] + e)
  {
    hide Feed, DecimalValue, Take;
    var w := t + e;
    n := DigitsIn(w);
    EndIsNoDigit(t, e);
    NumberOnly(s, MajorVersion, r, w);
    if Feed(s, r, w).ctl.Advance? {
      var r1 := On(r, Reading(MajorVersion, r.p, DecimalValue(t[..n])), n);
      assert w[n..] == [w[n]] + w[n + 1..];
      PointOnly(s, r1, w[n], w[n + 1..]);
      FeedConcat(s, r1, [w[n]], w[n + 1..]);
      FeedOne(s, r1, w[n]);
      if w[n] == '.' {
        assert n < |t| && w[n + 1..] == t[n + 1..] + e;
        QuietInLine(s, r1, '.');
      }
    }
  }

  lemma BreakOnly(s: Settings, r: Run, c: char, rest: string)
    requires r.ctl.Advance? && r.p.state == Version(ReqHttpMinor) && r.p.nread < MAX_HEADER_SIZE && !IsNum(c)
    ensures Feed(s, r, [c] + rest).ctl.Advance? ==> c == '\r' || c == '\n'
  {
    hide Feed;
    if c != '\r' && c != '\n' { RefusedByte(s, r, c, rest); }
  }

  /** Behind the digits of the minor version the line of a request ends. */
  lemma MinorOnly(s: Settings, r: Run, t: string, e: string)
    requires r.ctl.Advance? && r.p.state == Version(ReqFirstHttpMinor) && IsEnd(e) && NoBreak(t)
    requires r.p.nread + |t + e| <= MAX_HEADER_SIZE
    ensures Feed(s, r, t + e).ctl.Advance? ==> SmallNumber(t)
  {
    hide Feed, DecimalValue;
    var w := t + e;
    var n := DigitsIn(w);
    EndIsNoDigit(t, e);
    NumberOnly(s, MinorVersion, r, w);
    if Feed(s, r, w).ctl.Advance? {
      var r1 := On(r, Reading(MinorVersion, r.p, DecimalValue(t[..n])), n);
      assert w[n..] == [w[n]] + w[n + 1..];
      assert n < |t| ==> w[n] == t[n];
      BreakOnly(s, r1, w[n], w[n + 1..]);
      assert n == |t| && t[..n] == t;
    }
  }

  lemma {:induction false} BlankAt(w: string, i: nat)
    requires i < |w| && w[i] != ' '
    ensures SpacesIn(w) <= i
  {
    if i > 0 && w[0] == ' ' { BlankAt(w[1..], i - 1); }
  }

  lemma SpacesInLine(t: string, e: string)
    requires IsEnd(e)
    ensures var g := SpacesIn(t + e); g <= |t| && t[..g] == Blanks(g) && t + e == Blanks(g) + (t[g..] + e)
    ensures var g := SpacesIn(t + e); g < |t| ==> t[g] != ' '
  {
    hide SpacesIn, Blanks;
    var w := t + e;
    var g := SpacesIn(w);
    assert w[|t|] == e[0] != ' ';
    BlankAt(w, |t|);
    assert w[..g] == t[..g];
    assert w == w[..g] + w[g..] && w[g..] == t[g..] + e;
    assert g < |t| ==> w[g] == t[g];
  }

  /** The version part of a request line, behind its first space. */
  predicate VersionPart(t: string, g: nat, major: string, minor: string) {
    t == Blanks(g) + "HTTP/" + major + "." + minor && SmallNumber(major) && major[0] != '0' && SmallNumber(minor)
  }

  predicate PlainVersion(t: string, major: string, minor: string) {
    t == "HTTP/" + (major + "." + minor) && SmallNumber(major) && major[0] != '0' && SmallNumber(minor)
  }

  lemma RestHasNoBreak(t: string, n: nat)
    requires NoBreak(t) && n <= |t|
    ensures NoBreak(t[n..])
  {
  }

  lemma AroundPoint(u: string, n: nat)
    requires 0 < n < |u| && u[n] == '.'
    ensures u == u[..n] + "." + u[n + 1..] && u[..n][0] == u[0]
  {
  }

  lemma NumbersAreLong(t: string)
    requires SmallNumber(t)
    ensures t != ""
  {
  }

  lemma FourOf(t: string)
    requires |t| >= 5 && t[0] == 'H' && t[1..][..4] == "TTP/"
    ensures t == "HTTP/" + t[5..]
  {
    assert t == [t[0]] + t[1..][..4] + t[5..];
  }

  lemma NoHttp(s: Settings, r: Run, c: char, rest: string)
    requires r.ctl.Advance? && r.p.state == Version(ReqHttpStart) && c != 'H' && c != ' ' && r.p.nread < MAX_HEADER_SIZE
    ensures !Feed(s, r, [c] + rest).ctl.Advance?
  {
    hide Feed;
    RefusedByte(s, r, c, rest);
  }

  /** The word HTTP and the slash. */
  lemma HttpOnly(s: Settings, r: Run, t: string, e: string)
    requires r.ctl.Advance? && r.p.state == Version(ReqHttpStart) && IsEnd(e) && (t != "" ==> t[0] != ' ')
    requires r.p.nread + |t + e| <= MAX_HEADER_SIZE
    ensures Feed(s, r, t + e).ctl.Advance? ==>
              |t| >= 5 && t == "HTTP/" + t[5..] &&
              Feed(s, r, t + e) == Feed(s, On(r, r.p.(state := Version(ReqFirstHttpMajor)), 5), t[5..] + e)
  {
    hide Feed, Take;
    var w := t + e;
    assert w == [w[0]] + w[1..];
    FeedConcat(s, r, [w[0]], w[1..]);
    FeedOne(s, r, w[0]);
    if w[0] != 'H' {
      NoHttp(s, r, w[0], w[1..]);
    } else if Feed(s, r, w).ctl.Advance? {
      assert t != "" && w[1..] == t[1..] + e;
      QuietInLine(s, r, 'H');
      var r1 := Take(s, r, 'H');
      WordOnly(s, r1, t[1..], e);
      HttpWord(s, r1);
      assert t[1..][4..] == t[5..];
      FourOf(t);
    }
  }

  lemma PlainVersionOnly(s: Settings, r: Run, t: string, e: string)
    requires r.ctl.Advance? && r.p.state == Version(ReqHttpStart) && IsEnd(e) && NoBreak(t) && (t != "" ==> t[0] != ' ')
    requires r.p.nread + |t + e| <= MAX_HEADER_SIZE
    ensures Feed(s, r, t + e).ctl.Advance? ==> exists major, minor :: PlainVersion(t, major, minor)
  {
    hide Feed, SmallNumber, DecimalValue;
    if Feed(s, r, t + e).ctl.Advance? {
      HttpOnly(s, r, t, e);
      var u := t[5..];
      var r2 := On(r, r.p.(state := Version(ReqFirstHttpMajor)), 5);
      var n := MajorOnly(s, r2, u, e);
      var r3 := On(r2, r2.p.(httpMajor := DecimalValue(u[..n]), state := Version(ReqFirstHttpMinor)), n + 1);
      RestHasNoBreak(t, 5);
      RestHasNoBreak(u, n + 1);
      MinorOnly(s, r3, u[n + 1..], e);
      NumbersAreLong(u[..n]);
      AroundPoint(u, n);
      assert PlainVersion(t, u[..n], u[n + 1..]);
    }
  }

  lemma BlanksInFront(t: string, g: nat, major: string, minor: string)
    requires g <= |t| && t[..g] == Blanks(g) && PlainVersion(t[g..], major, minor)
    ensures VersionPart(t, g, major, minor)
  {
    hide SmallNumber, Blanks;
    assert t == t[..g] + t[g..];
  }

  lemma VersionPartOnly(s: Settings, r: Run, t: string, e: string)
    requires r.ctl.Advance? && r.p.state == Version(ReqHttpStart) && IsEnd(e) && NoBreak(t)
    requires r.p.nread + |t + e| <= MAX_HEADER_SIZE
    ensures Feed(s, r, t + e).ctl.Advance? ==> exists g, major, minor :: VersionPart(t, g, major, minor)
  {
    hide Feed, SmallNumber, Blanks, PlainVersion, VersionPart;
    var g := SpacesIn(t + e);
    SpacesInLine(t, e);
    SpacesRead(s, r, g);
    FeedConcat(s, r, Blanks(g), t[g..] + e);
    RestHasNoBreak(t, g);
    PlainVersionOnly(s, On(r, r.p, g), t[g..], e);
    if major, minor :| PlainVersion(t[g..], major, minor) {
      BlanksInFront(t, g, major, minor);
    }
  }

  // ---- urls and request lines ----

  lemma UrlStates(u: UrlState, c: char)
    ensures ParseUrlChar(u, c).Url? || ParseUrlChar(u, c).Dead?
  {
    UrlCharStates(u, c);
    hide ParseUrlChar;
  }

  lemma UrlFails(s: Settings, r: Run, c: char)
    requires r.ctl.Advance? && r.p.state.Url? && r.p.nread < MAX_HEADER_SIZE && c != ' ' && c != '\r' && c != '\n'
    requires var u := r.p.state.url;
      !ParseUrlChar(if u.SpacesBeforeUrl? && r.p.verb.CONNECT? then ServerStart else u, c).Url?
    ensures !Feed(s, r, [c]).ctl.Advance?
  {
    hide Feed;
    var u := r.p.state.url;
    UrlStates(if u.SpacesBeforeUrl? && r.p.verb.CONNECT? then ServerStart else u, c);
    hide ParseUrlChar;
    RefusedByte(s, r, c, "");
    assert [c] + "" == [c];
  }

  /** Bytes that go on in a url, none of them a space. */
  lemma {:induction false} UrlOnly(s: Settings, r: Run, url: string)
    requires r.ctl.Advance? && r.p.state == Url(SpacesBeforeUrl) && r.p.nread + |url| <= MAX_HEADER_SIZE
    requires NoBreak(url) && ' ' !in url
    ensures Feed(s, r, url).ctl.Advance? ==> HttpUrl.UrlRun(HttpUrl.UrlFrom(r.p.verb.CONNECT?), url).Url?
  {
    hide Take, ParseUrlChar;
    var from := HttpUrl.UrlFrom(r.p.verb.CONNECT?);
    if url != "" {
      var front, c := url[..|url| - 1], url[|url| - 1];
      assert url == front + [c];
      UrlOnly(s, r, front);
      if HttpUrl.UrlRun(from, front).Url? {
        if front == "" {
          NothingFed(s, r);
        } else {
          UrlIsRead(s, r, front);
        }
        var q := Feed(s, r, front);
        hide Feed;
        FeedConcat(s, r, front, [c]);
        if !HttpUrl.UrlRun(from, url).Url? { UrlFails(s, q, c); }
      } else {
        RefusedFront(s, r, front, [c]);
      }
    }
  }

  /** A space or the end of the line, where a url has only begun. */
  lemma UrlEndsEarly(s: Settings, r: Run, c: char, rest: string)
    requires r.ctl.Advance? && r.p.state.Url? && !UrlMayEnd(r.p.state.url) && r.p.nread < MAX_HEADER_SIZE
    requires c == '\r' || c == '\n' || (c == ' ' && !r.p.state.url.SpacesBeforeUrl?)
    ensures !Feed(s, r, [c] + rest).ctl.Advance?
  {
    hide Feed;
    RefusedByte(s, r, c, rest);
  }

  /** What stands behind a url: nothing, or a space and a version. */
  predicate BehindIt(t: string, v: HttpVersion) {
    match v
    case Unversioned => t == ""
    case Http(gap, major, minor) => t != "" && t[0] == ' ' && VersionPart(t[1..], gap, major, minor)
  }

  lemma BehindUrlOnly(s: Settings, r: Run, t: string, e: string)
    requires r.ctl.Advance? && r.p.state.Url? && !r.p.state.url.SpacesBeforeUrl? && IsEnd(e) && NoBreak(t)
    requires (t != "" ==> t[0] == ' ') && r.p.nread + |t + e| <= MAX_HEADER_SIZE
    ensures Feed(s, r, t + e).ctl.Advance? ==> UrlMayEnd(r.p.state.url) && exists v :: BehindIt(t, v)
  {
    hide Feed, Take, Blanks, SmallNumber;
    var w := t + e;
    assert w == [w[0]] + w[1..];
    if !UrlMayEnd(r.p.state.url) {
      UrlEndsEarly(s, r, w[0], w[1..]);
    } else if t == "" {
      assert BehindIt(t, Unversioned);
    } else {
      FeedConcat(s, r, [' '], w[1..]);
      FeedOne(s, r, ' ');
      BehindUrl(s, r, ' ');
      assert w[1..] == t[1..] + e;
      VersionPartOnly(s, Take(s, r, ' '), t[1..], e);
      if g, major, minor :| VersionPart(t[1..], g, major, minor) { assert BehindIt(t, Http(g, major, minor)); }
    }
  }

  /** A url and what stands around it. */
  predicate UrlPart(t: string, isConnect: bool, g: nat, url: string, rest: string, v: HttpVersion) {
    t == Blanks(g) + url + rest && UrlTaken(url, isConnect) && BehindIt(rest, v)
  }

  lemma UrlThenRest(s: Settings, r: Run, url: string, rest: string, e: string)
    requires r.ctl.Advance? && r.p.state == Url(SpacesBeforeUrl) && IsEnd(e) && NoBreak(url) && NoBreak(rest)
    requires url != "" && ' ' !in url && (rest != "" ==> rest[0] == ' ') &&
             r.p.nread + |url + (rest + e)| <= MAX_HEADER_SIZE
    ensures Feed(s, r, url + (rest + e)).ctl.Advance? ==>
              UrlTaken(url, r.p.verb.CONNECT?) && exists v :: BehindIt(rest, v)
  {
    hide Feed, BehindIt, HttpUrl.UrlRun;
    FeedConcat(s, r, url, rest + e);
    UrlOnly(s, r, url);
    if HttpUrl.UrlRun(HttpUrl.UrlFrom(r.p.verb.CONNECT?), url).Url? {
      UrlIsRead(s, r, url);
      BehindUrlOnly(s, Feed(s, r, url), rest, e);
    } else {
      RefusedFront(s, r, url, rest + e);
    }
  }

  lemma WordAndRest(t: string, e: string)
    requires NoBreak(t)
    ensures var n := WordIn(t); var url, rest := t[..n], t[n..];
      && t == url + rest && t + e == url + (rest + e) && NoBreak(url) && NoBreak(rest) && ' ' !in url
      && (rest != "" ==> rest[0] == ' ') && (t != "" && t[0] != ' ' ==> url != "")
  {
    hide WordIn;
    var n := WordIn(t);
    assert t == t[..n] + t[n..];
  }

  lemma UrlAndRest(s: Settings, r: Run, t: string, e: string)
    requires r.ctl.Advance? && r.p.state == Url(SpacesBeforeUrl) && IsEnd(e) && NoBreak(t)
    requires (t != "" ==> t[0] != ' ') && r.p.nread + |t + e| <= MAX_HEADER_SIZE
    ensures Feed(s, r, t + e).ctl.Advance? ==>
              exists url, rest, v :: t == url + rest && UrlTaken(url, r.p.verb.CONNECT?) && BehindIt(rest, v)
  {
    hide Feed, BehindIt, WordIn, UrlTaken, NoBreak;
    WordAndRest(t, e);
    var n := WordIn(t);
    if t == "" {
      assert t + e == [e[0]] + e[1..];
      UrlEndsEarly(s, r, e[0], e[1..]);
    } else {
      UrlThenRest(s, r, t[..n], t[n..], e);
    }
  }

  lemma UrlPartOnly(s: Settings, r: Run, t: string, e: string)
    requires r.ctl.Advance? && r.p.state == Url(SpacesBeforeUrl) && IsEnd(e) && NoBreak(t)
    requires r.p.nread + |t + e| <= MAX_HEADER_SIZE
    ensures Feed(s, r, t + e).ctl.Advance? ==>
              exists g, url, rest, v :: UrlPart(t, r.p.verb.CONNECT?, g, url, rest, v)
  {
    hide Feed, Blanks, BehindIt;
    if Feed(s, r, t + e).ctl.Advance? {
      var g := SpacesIn(t + e);
      SpacesInLine(t, e);
      SpacesRead(s, r, g);
      FeedConcat(s, r, Blanks(g), t[g..] + e);
      var r1 := On(r, r.p, g);
      UrlAndRest(s, r1, t[g..], e);
      var url, rest, v :| t[g..] == url + rest && UrlTaken(url, r.p.verb.CONNECT?) && BehindIt(rest, v);
      assert t == t[..g] + t[g..];
      Associate(Blanks(g), url, rest);
      assert UrlPart(t, r.p.verb.CONNECT?, g, url, rest, v);
    }
  }

  // ---- whole first lines ----

  /** The text of a first line without its end. */
  predicate IsLine(t: string, f: FirstLine) { ProperFirst(f) && LineText(f) == t }

  lemma MethodIsToken(name: string)
    requires name != "" && NoBreak(name) && ' ' !in name
    ensures HttpMethod.MethodToken(name)
  {
  }

  lemma NoMethod(s: Settings, r: Run, rest: string)
    requires r.ctl.Advance? && r.p.state.StartReq? && r.p.nread < MAX_HEADER_SIZE
    ensures !Feed(s, r, [' '] + rest).ctl.Advance?
  {
    hide Feed;
    RefusedByte(s, r, ' ', rest);
  }

  lemma NoLineInName(s: Settings, r: Run, c: char, rest: string)
    requires r.ctl.Advance? && r.p.state.ReqMethod? && r.p.nread < MAX_HEADER_SIZE && (c == '\r' || c == '\n')
    ensures !Feed(s, r, [c] + rest).ctl.Advance?
  {
    hide Feed, MethodString;
    if r.p.index < |MethodString(r.p.verb)| { HttpMethod.NamesAreCapitals(r.p.verb, r.p.index); }
    RefusedByte(s, r, c, rest);
  }

  /** The end of the line in a method name. */
  lemma NameUnended(s: Settings, p: Parser, name: string, e: string)
    requires p.state.StartReq? && HttpMethod.MethodToken(name) && IsEnd(e) && p.nread + |name + e| <= MAX_HEADER_SIZE
    ensures !Feed(s, Start(p), name + e).ctl.Advance?
  {
    hide Feed, MethodString;
    HttpMethod.TextBeginsName(s, p, name);
    var r := Feed(s, Start(p), name);
    if r.ctl.Advance? {
      assert e == [e[0]] + e[1..];
      FeedConcat(s, Start(p), name, e);
      NoLineInName(s, r, e[0], e[1..]);
    } else {
      RefusedFront(s, Start(p), name, e);
    }
  }

  lemma MethodOnly(s: Settings, p: Parser, t: string, e: string)
    requires p.state.StartReq? && t != "" && IsEnd(e) && NoBreak(t) && p.nread + |t + e| <= MAX_HEADER_SIZE
    ensures Feed(s, Start(p), t + e).ctl.Advance? ==>
              var n := WordIn(t); n < |t| && exists m :: MethodString(m) == t[..n]
  {
    hide Feed, WordIn, MethodString;
    WordAndRest(t, e);
    var n := WordIn(t);
    var name, rest := t[..n], t[n..];
    if n == 0 {
      assert t + e == [' '] + (t + e)[1..];
      NoMethod(s, Start(p), (t + e)[1..]);
    } else {
      MethodIsToken(name);
      FeedConcat(s, Start(p), name, rest + e);
      if n == |t| {
        NameUnended(s, p, name, e);
        assert rest + e == e;
      } else {
        HttpMethod.MethodsAreExactlyTheNames(s, p, name);
        assert t + e == (name + " ") + (rest[1..] + e);
        if !Feed(s, Start(p), name + " ").ctl.Advance? { RefusedFront(s, Start(p), name + " ", rest[1..] + e); }
      }
    }
  }

  // ---- request lines ----

  lemma RestOfLine(t: string, n: nat)
    requires NoBreak(t) && n < |t| && t[n] == ' '
    ensures t == t[..n] + " " + t[n + 1..] && NoBreak(t[n + 1..])
  {
  }

  lemma MoreIsVersion(more: string, v: HttpVersion)
    requires BehindIt(more, v)
    ensures more == VersionText(v)
    ensures v.Http? ==> SmallNumber(v.major) && v.major[0] != '0' && SmallNumber(v.minor)
  {
    hide Blanks, SmallNumber;
    if v.Http? { assert more == [more[0]] + more[1..]; }
  }

  lemma PartsAreLine(t: string, m: Method, rest: string, g: nat, url: string, more: string, v: HttpVersion, bare: bool)
    requires t == MethodString(m) + " " + rest && UrlPart(rest, m.CONNECT?, g, url, more, v)
    ensures IsLine(t, RequestLine(m, g, url, v, bare))
  {
    hide MethodString, Blanks, UrlTaken, SmallNumber, BehindIt, VersionText;
    MoreIsVersion(more, v);
    Associate(MethodString(m) + " ", Blanks(g) + url, more);
    Associate(MethodString(m) + " ", Blanks(g), url);
  }

  lemma RequestLineOnly(s: Settings, p: Parser, t: string, bare: bool)
    requires p.state.StartReq? && t != "" && NoBreak(t) && p.nread + |t + Eol(bare)| <= MAX_HEADER_SIZE
    ensures Feed(s, Start(p), t + Eol(bare)).ctl.Advance? ==>
            exists f: FirstLine :: f.RequestLine? && f.bare == bare && IsLine(t, f)
  {
    hide Feed, WordIn, MethodString, Blanks, NoBreak, BehindIt, UrlTaken, LineText, SmallNumber;
    var e := Eol(bare);
    if Feed(s, Start(p), t + e).ctl.Advance? {
      WordAndRest(t, e);
      MethodOnly(s, p, t, e);
      var n := WordIn(t);
      var m :| MethodString(m) == t[..n];
      var rest := t[n + 1..];
      RestOfLine(t, n);
      MethodIsRead(s, p, m);
      var r := Feed(s, Start(p), t[..n] + " ");
      FeedConcat(s, Start(p), t[..n] + " ", rest + e);
      Associate(t[..n] + " ", rest, e);
      UrlPartOnly(s, r, rest, e);
      var g, url, more, v :| UrlPart(rest, m.CONNECT?, g, url, more, v);
      PartsAreLine(t, m, rest, g, url, more, v, bare);
    }
  }

  /**
   The first line of a request is taken exactly if it is a method, a space, a url, and a version
   or none, with more spaces than one in front of the url and the version or not.
   */
  lemma RequestLineExact(s: Settings, p: Parser, t: string, bare: bool)
    requires p.state.StartReq? && p.kind.Request? && t != "" && NoBreak(t)
    requires p.nread + |t + Eol(bare)| <= MAX_HEADER_SIZE
    ensures Feed(s, Start(p), t + Eol(bare)).ctl.Advance? <==>
            exists f: FirstLine :: f.RequestLine? && f.bare == bare && IsLine(t, f)
  {
    hide Feed, NoBreak, LineText, ProperFirst, Eol;
    RequestLineOnly(s, p, t, bare);
    forall f: FirstLine | f.RequestLine? && f.bare == bare && IsLine(t, f)
      ensures Feed(s, Start(p), t + Eol(bare)).ctl.Advance?
    {
      RequestLineIsRead(s, p, f);
    }
  }

  // ---- status lines ----

  lemma CodeEnds(s: Settings, r: Run, c: char, rest: string)
    requires r.ctl.Advance? && r.p.state == Status(ResStatusCode) && r.p.nread < MAX_HEADER_SIZE && !IsNum(c)
    ensures Feed(s, r, [c] + rest).ctl.Advance? ==> c == ' ' || c == '\r' || c == '\n'
  {
    hide Feed;
    if c != ' ' && c != '\r' && c != '\n' { RefusedByte(s, r, c, rest); }
  }

  lemma PlainCodeOnly(s: Settings, r: Run, u: string, e: string) returns (n: nat)
    requires r.ctl.Advance? && r.p.state == Status(ResFirstStatusCode) && IsEnd(e) && NoBreak(u)
    requires (u != "" ==> u[0] != ' ') && r.p.nread + |u + e| <= MAX_HEADER_SIZE
    ensures n <= |u|
    ensures Feed(s, r, u + e).ctl.Advance? ==> SmallNumber(u[..n]) && (n < |u| ==> u[n] == ' ')
  {
    hide Feed, SmallNumber, DecimalValue;
    var w := u + e;
    n := DigitsIn(w);
    EndIsNoDigit(u, e);
    NumberOnly(s, StatusCode, r, w);
    assert w[n..] == [w[n]] + w[n + 1..];
    assert n < |u| ==> w[n] == u[n];
    CodeEnds(s, On(r, Reading(StatusCode, r.p, DecimalValue(u[..n])), n), w[n], w[n + 1..]);
  }

  predicate CodePart(t: string, g: nat, code: string, tail: string) {
    t == Blanks(g) + code + tail && SmallNumber(code) && (tail != "" ==> tail[0] == ' ')
  }

  lemma CodeParts(t: string, g: nat, n: nat)
    requires g <= |t| && t[..g] == Blanks(g) && n <= |t[g..]|
    requires SmallNumber(t[g..][..n]) && (n < |t[g..]| ==> t[g..][n] == ' ')
    ensures CodePart(t, g, t[g..][..n], t[g..][n..])
  {
    hide Blanks, SmallNumber;
    assert t == t[..g] + t[g..] && t[g..] == t[g..][..n] + t[g..][n..];
    Associate(Blanks(g), t[g..][..n], t[g..][n..]);
  }

  /** Behind the minor version of a status line there are spaces, a code, and what may follow it. */
  lemma CodeOnly(s: Settings, r: Run, t: string, e: string)
    requires r.ctl.Advance? && r.p.state == Status(ResFirstStatusCode) && IsEnd(e) && NoBreak(t)
    requires r.p.nread + |t + e| <= MAX_HEADER_SIZE
    ensures Feed(s, r, t + e).ctl.Advance? ==> exists g, code, tail :: CodePart(t, g, code, tail)
  {
    hide Feed, Blanks, SmallNumber, DecimalValue;
    var g := SpacesIn(t + e);
    SpacesInLine(t, e);
    SpacesRead(s, r, g);
    FeedConcat(s, r, Blanks(g), t[g..] + e);
    RestHasNoBreak(t, g);
    var n := PlainCodeOnly(s, On(r, r.p, g), t[g..], e);
    if Feed(s, r, t + e).ctl.Advance? {
      CodeParts(t, g, n);
    }
  }

  lemma SpaceOnly(s: Settings, r: Run, c: char, rest: string)
    requires r.ctl.Advance? && r.p.state == Status(ResHttpMinor) && r.p.nread < MAX_HEADER_SIZE && !IsNum(c)
    ensures Feed(s, r, [c] + rest).ctl.Advance? ==> c == ' '
  {
    hide Feed;
    if c != ' ' { RefusedByte(s, r, c, rest); }
  }

  lemma MinorThenSpace(s: Settings, r: Run, t: string, e: string) returns (n: nat)
    requires r.ctl.Advance? && r.p.state == Status(ResFirstHttpMinor) && IsEnd(e)
    requires r.p.nread + |t + e| <= MAX_HEADER_SIZE
    ensures Feed(s, r, t + e).ctl.Advance? ==>
              && n < |t| && SmallNumber(t[..n]) && t[n] == ' '
              && Feed(s, r, t + e) ==
                 Feed(s, On(r, r.p.(httpMinor := DecimalValue(t[..n]), state := Status(ResFirstStatusCode)), n + 1),
                     t[n + 1..] + e)
  {
    hide Feed, DecimalValue, Take;
    var w := t + e;
    n := DigitsIn(w);
    EndIsNoDigit(t, e);
    NumberOnly(s, MinorVersion, r, w);
    if Feed(s, r, w).ctl.Advance? {
      var r1 := On(r, Reading(MinorVersion, r.p, DecimalValue(t[..n])), n);
      assert w[n..] == [w[n]] + w[n + 1..];
      SpaceOnly(s, r1, w[n], w[n + 1..]);
      FeedConcat(s, r1, [w[n]], w[n + 1..]);
      FeedOne(s, r1, w[n]);
      if w[n] == ' ' {
        assert n < |t| && w[n + 1..] == t[n + 1..] + e;
        QuietInLine(s, r1, ' ');
      }
    }
  }

  lemma SplitTwice(t: string, n: nat, k: nat)
    requires |t| >= 4 && t[..4] == "TTP/" && NoBreak(t)
    requires n < |t[4..]| && t[4..][n] == '.' && k < |t[4..][n + 1..]| && t[4..][n + 1..][k] == ' '
    ensures var u := t[4..]; var v := u[n + 1..];
      t == "TTP/" + (u[..n] + "." + v[..k]) + " " + v[k + 1..] && NoBreak(v[k + 1..])
  {
    var u := t[4..];
    var v := u[n + 1..];
    assert v == v[..k] + " " + v[k + 1..];
    assert u == u[..n] + "." + v;
    assert t == "TTP/" + u;
  }

  predicate StatusPart(t: string, major: string, minor: string, rest: string, g: nat, code: string, tail: string) {
    t == "TTP/" + (major + "." + minor) + " " + rest && SmallNumber(major) && SmallNumber(minor) &&
    CodePart(rest, g, code, tail)
  }

  /** A status line behind its first letter. */
  lemma StatusRestOnly(s: Settings, r: Run, t: string, e: string)
    requires r.ctl.Advance? && r.p.state == Status(ResH) && IsEnd(e) && NoBreak(t) &&
             r.p.nread + |t + e| <= MAX_HEADER_SIZE
    ensures Feed(s, r, t + e).ctl.Advance? ==>
              exists major, minor, rest, g, code, tail :: StatusPart(t, major, minor, rest, g, code, tail)
  {
    hide Feed, SmallNumber, DecimalValue, CodePart, NoBreak;
    if Feed(s, r, t + e).ctl.Advance? {
      WordOnly(s, r, t, e);
      HttpWord(s, r);
      var r1, u := Feed(s, r, "TTP/"), t[4..];
      var n := MajorOnly(s, r1, u, e);
      var r2 := On(r1, r1.p.(httpMajor := DecimalValue(u[..n]), state := Status(ResFirstHttpMinor)), n + 1);
      var v := u[n + 1..];
      var k := MinorThenSpace(s, r2, v, e);
      var r3 := On(r2, r2.p.(httpMinor := DecimalValue(v[..k]), state := Status(ResFirstStatusCode)), k + 1);
      var rest := v[k + 1..];
      SplitTwice(t, n, k);
      CodeOnly(s, r3, rest, e);
      var g, code, tail :| CodePart(rest, g, code, tail);
      assert StatusPart(t, u[..n], v[..k], rest, g, code, tail);
    }
  }

  lemma TailInLine(t: string, front: string, tail: string)
    requires t != "" && NoBreak(t) && t[1..] == front + tail
    ensures forall i :: 0 <= i < |tail| ==> tail[i] != '\r' && tail[i] != '\n'
  {
    assert forall i :: 0 <= i < |tail| ==> tail[i] == t[1..][|front| + i] == t[|front| + i + 1];
  }

  lemma StatusLineText(f: FirstLine)
    requires f.StatusLine?
    ensures LineText(f) == "H" + ("TTP/" + (f.major + "." + f.minor) + " " + (Blanks(f.gap) + f.code + f.tail))
  {
    hide Blanks;
  }

  lemma PartsAreStatus(t: string, major: string, minor: string, rest: string, g: nat, code: string, tail: string,
                       bare: bool)
    requires t != "" && t[0] == 'H' && NoBreak(t) && StatusPart(t[1..], major, minor, rest, g, code, tail)
    ensures IsLine(t, StatusLine(major, minor, g, code, tail, bare))
  {
    hide SmallNumber, Blanks, LineText, NoBreak;
    StatusLineText(StatusLine(major, minor, g, code, tail, bare));
    var front := "TTP/" + (major + "." + minor) + " ";
    Associate(front, Blanks(g) + code, tail);
    assert t == ['H'] + t[1..];
    TailInLine(t, front + (Blanks(g) + code), tail);
    Associate("H", front, Blanks(g) + code + tail);
  }

  lemma NoResponse(s: Settings, r: Run, c: char, rest: string)
    requires r.ctl.Advance? && r.p.state.StartRes? && r.p.nread < MAX_HEADER_SIZE && c != 'H' && c != '\r' && c != '\n'
    ensures !Feed(s, r, [c] + rest).ctl.Advance?
  {
    hide Feed;
    RefusedByte(s, r, c, rest);
  }

  lemma StatusLineOnly(s: Settings, p: Parser, t: string, bare: bool)
    requires p.state.StartRes? && t != "" && NoBreak(t) && p.nread + |t + Eol(bare)| <= MAX_HEADER_SIZE
    ensures Feed(s, Start(p), t + Eol(bare)).ctl.Advance? ==>
            exists f: FirstLine :: f.StatusLine? && f.bare == bare && IsLine(t, f)
  {
    hide Feed, Take, StatusPart, IsLine;
    var e := Eol(bare);
    var w := t + e;
    assert w == [t[0]] + (t[1..] + e);
    if t[0] != 'H' {
      NoResponse(s, Start(p), t[0], t[1..] + e);
    } else {
      LetterH(s, p);
      FeedOne(s, Start(p), 'H');
      FeedConcat(s, Start(p), ['H'], t[1..] + e);
      RestHasNoBreak(t, 1);
      StatusRestOnly(s, Take(s, Start(p), 'H'), t[1..], e);
      if major, minor, rest, g, code, tail :| StatusPart(t[1..], major, minor, rest, g, code, tail) {
        PartsAreStatus(t, major, minor, rest, g, code, tail, bare);
      }
    }
  }

  /**
   The first line of a response is taken exactly if it is a version, a space, a status code, and
   nothing or a space and any text, with more spaces than one in front of the code or not.
   */
  lemma StatusLineExact(s: Settings, p: Parser, t: string, bare: bool)
    requires p.state.StartRes? && p.kind.Response? && t != "" && NoBreak(t)
    requires p.nread + |t + Eol(bare)| <= MAX_HEADER_SIZE
    ensures Feed(s, Start(p), t + Eol(bare)).ctl.Advance? <==>
            exists f: FirstLine :: f.StatusLine? && f.bare == bare && IsLine(t, f)
  {
    hide Feed, NoBreak, LineText, ProperFirst, Eol;
    StatusLineOnly(s, p, t, bare);
    forall f: FirstLine | f.StatusLine? && f.bare == bare && IsLine(t, f)
      ensures Feed(s, Start(p), t + Eol(bare)).ctl.Advance?
    {
      StatusLineIsRead(s, p, f);
    }
  }

  // ---- header lines ----

  /** How many of the first bytes are token bytes. */
  function TokensIn(text: string): (n: nat)
    ensures n <= |text| && (forall i :: 0 <= i < n ==> IsTokenByte(text[i])) && (n < |text| ==> !IsTokenByte(text[n]))
  {
    if text == "" || !IsTokenByte(text[0]) then 0 else TokensIn(text[1..]) + 1
  }

  lemma BadField(s: Settings, r: Run, c: char, rest: string)
    requires r.ctl.Advance? && InField(r.p.state) && r.p.nread < MAX_HEADER_SIZE && !IsTokenByte(c)
    requires if r.p.state.HeaderField? then c != ':' else c != '\r' && c != '\n'
    ensures !Feed(s, r, [c] + rest).ctl.Advance?
  {
    hide Feed;
    TokenTable(c);
    RefusedByte(s, r, c, rest);
  }

  lemma BreaksAreNoTokens()
    ensures !IsTokenByte('\r') && !IsTokenByte('\n')
  {
  }

  lemma NameTokens(name: string)
    requires name != "" && forall i :: 0 <= i < |name| ==> IsTokenByte(name[i])
    ensures TokenText(name)
  {
    forall i | 0 <= i < |name| ensures Token(name[i]) != '\0' { TokenTable(name[i]); }
  }

  /** The name of a header is token bytes, and a colon stands behind it. */
  lemma NameOnly(s: Settings, p: Parser, t: string, e: string)
    requires p.state == HeaderFieldStart && IsEnd(e) && NoBreak(t) && t != "" && p.nread + |t + e| <= MAX_HEADER_SIZE
    ensures Feed(s, Start(p), t + e).ctl.Advance? ==> var n := TokensIn(t); 0 < n < |t| && t[n] == ':'
  {
    hide Feed, IsTokenByte, TokensIn;
    var n, w := TokensIn(t), t + e;
    var name := t[..n];
    assert w == name + ([w[n]] + w[n + 1..]);
    assert n < |t| ==> w[n] == t[n];
    FeedConcat(s, Start(p), name, [w[n]] + w[n + 1..]);
    assert !IsTokenByte('\r') && !IsTokenByte('\n') by { BreaksAreNoTokens(); }
    if n == 0 {
      assert name == "";
      NothingFed(s, Start(p));
      BadField(s, Start(p), w[0], w[1..]);
    } else {
      NameTokens(name);
      NameIsTracked(s, p, name);
      if n == |t| || t[n] != ':' { BadField(s, Feed(s, Start(p), name), w[n], w[n + 1..]); }
    }
  }

  lemma NoLength(s: Settings, r: Run, c: char)
    requires r.ctl.Advance? && r.p.headerState == ContentLength && r.p.nread < MAX_HEADER_SIZE
    requires r.p.state == Value(DiscardWs) || r.p.state == Value(ValueText)
    requires !IsNum(c) && c != ' ' && c != '\r' && c != '\n' && (r.p.state == Value(DiscardWs) ==> c != '\t')
    ensures !Feed(s, r, [c]).ctl.Advance?
  {
    hide Feed;
    RefusedByte(s, r, c, "");
    assert [c] + "" == [c];
  }

  /** A length is digits with spaces among them, up to ULLONG_MAX - 6. */
  lemma {:induction false} LengthOnly(s: Settings, p: Parser, text: string)
    requires p.state == Value(DiscardWs) && p.headerState == ContentLength && p.nread + |text| <= MAX_HEADER_SIZE
    requires ValueLine(text)
    ensures Feed(s, Start(p), text).ctl.Advance? ==> LengthText(text) && DecimalValue(text) <= ULLONG_MAX - 6
  {
    hide StepByte, DecimalValue;
    var front, c := text[..|text| - 1], text[|text| - 1];
    assert text == front + [c];
    if LengthText(text) {
      ContentLengthIsExact(s, p, text);
    } else if front == "" {
      NothingFed(s, Start(p));
      FeedOne(s, Start(p), c);
      NoLength(s, Start(p), c);
    } else {
      LengthOnly(s, p, front);
      if LengthText(front) && DecimalValue(front) <= ULLONG_MAX - 6 {
        ContentLengthIsExact(s, p, front);
        NoLength(s, Feed(s, Start(p), front), c);
        FeedConcat(s, Start(p), front, [c]);
      } else {
        RefusedFront(s, Start(p), front, [c]);
      }
    }
  }

  /** How many of the first bytes are blanks. */
  function BlanksIn(text: string): (n: nat)
    ensures n <= |text| && (forall i :: 0 <= i < n ==> IsBlank(text[i])) && (n < |text| ==> !IsBlank(text[n]))
  {
    if text == "" || !IsBlank(text[0]) then 0 else BlanksIn(text[1..]) + 1
  }

  /** The header that a line can only be. */
  function HeaderOf(t: string, bare: bool): Header
    requires TokensIn(t) < |t|
  {
    var n := TokensIn(t);
    var rest := t[n + 1..];
    Header(t[..n], rest[..BlanksIn(rest)], rest[BlanksIn(rest)..], [], bare)
  }

  lemma AroundColon(t: string, n: nat)
    requires n < |t| && t[n] == ':'
    ensures t == t[..n] + ":" + t[n + 1..]
  {
  }

  lemma Halves(rest: string, k: nat)
    requires k <= |rest|
    ensures rest == rest[..k] + rest[k..]
  {
  }

  lemma ValueBehind(rest: string, k: nat)
    requires NoBreak(rest) && k < |rest| && !IsBlank(rest[k])
    ensures ValueLine(rest[k..])
  {
    var v := rest[k..];
    assert forall i :: 0 <= i < |v| ==> v[i] == rest[k + i];
  }

  lemma OneLineText(h: Header)
    requires h.folds == []
    ensures HeaderText(h) == h.name + ":" + h.lead + h.value + Eol(h.bare)
  {
    assert h.name + ":" + h.lead + h.value + "" == h.name + ":" + h.lead + h.value;
  }

  /** A header without a value. */
  lemma ValuelessIsProper(h: Header)
    requires h.name != "" && (forall i :: 0 <= i < |h.name| ==> IsTokenByte(h.name[i])) && Lead(h.lead)
    requires h.folds == [] && h.value == ""
    ensures ProperHeader(h)
  {
    hide IsTokenByte, Lead, SameWord;
  }

  /** The line is the text of its header. */
  lemma HeaderOfText(t: string, bare: bool)
    requires var n := TokensIn(t); n < |t| && t[n] == ':'
    ensures var h := HeaderOf(t, bare); HeaderText(h) == t + Eol(bare) && t == h.name + ":" + h.lead + h.value
  {
    hide TokensIn, BlanksIn, Eol, HeaderText;
    var n, h := TokensIn(t), HeaderOf(t, bare);
    var rest := t[n + 1..];
    AroundColon(t, n);
    Halves(rest, BlanksIn(rest));
    Associate(h.name + ":", h.lead, h.value);
    OneLineText(h);
  }

  lemma HeaderOfIs(t: string, bare: bool)
    requires var n := TokensIn(t); 0 < n < |t| && t[n] == ':'
    requires NoBreak(t)
    ensures var h := HeaderOf(t, bare); ProperHeader(h.(value := "")) && (h.value != "" ==> ValueLine(h.value))
  {
    hide TokensIn, BlanksIn, IsTokenByte, IsBlank, NoBreak, ValueLine, Lead, ProperHeader;
    var n, h := TokensIn(t), HeaderOf(t, bare);
    var rest := t[n + 1..];
    RestHasNoBreak(t, n + 1);
    BlanksLead(h.lead);
    ValuelessIsProper(h.(value := ""));
    if h.value != "" { ValueBehind(rest, BlanksIn(rest)); }
  }

  lemma LengthLineOnly(s: Settings, p: Parser, h: Header, e: string)
    requires p.state == HeaderFieldStart && IsEnd(e) && ProperHeader(h.(value := "")) && ValueLine(h.value) &&
             SaysLength(h)
    requires p.nread + |h.name + ":" + h.lead + h.value + e| <= MAX_HEADER_SIZE
    ensures Feed(s, Start(p), h.name + ":" + h.lead + h.value + e).ctl.Advance? ==> ProperHeader(h)
  {
    hide Feed, AsData, SameWord, DecimalValue, LengthText, ValueLine, Lead, IsTokenByte;
    var name := h.name + ":";
    NameIsRead(s, Start(p), h.(value := ""));
    var r1 := Feed(s, Start(p), name);
    LeadIsDropped(s, r1, h.lead);
    FeedConcat(s, Start(p), name, h.lead);
    var r2 := Feed(s, Start(p), name + h.lead);
    FeedConcat(s, Start(p), name + h.lead, h.value);
    LengthOnly(s, r2.p, h.value);
    FeedFromRun(s, r2, h.value);
    if !Feed(s, Start(r2.p), h.value).ctl.Advance? { RefusedFront(s, Start(p), name + h.lead + h.value, e); }
  }

  lemma HeaderLineOnly(s: Settings, p: Parser, t: string, bare: bool)
    requires p.state == HeaderFieldStart && NoBreak(t) && t != "" && p.nread + |t + Eol(bare)| <= MAX_HEADER_SIZE
    ensures Feed(s, Start(p), t + Eol(bare)).ctl.Advance? ==>
            exists h :: ProperHeader(h) && HeaderText(h) == t + Eol(bare)
  {
    var e := Eol(bare);
    hide Feed, SameWord, DecimalValue, LengthText, ValueLine, IsTokenByte, TokensIn, BlanksIn, IsBlank, NoBreak, Lead,
      HeaderText, Eol;
    assert IsEnd(e) by { EolIsEnd(bare); }
    NameOnly(s, p, t, e);
    if Feed(s, Start(p), t + e).ctl.Advance? {
      HeaderOfText(t, bare);
      HeaderOfIs(t, bare);
      var h := HeaderOf(t, bare);
      if SaysLength(h) { LengthLineOnly(s, p, h, e); }
      assert ProperHeader(h);
    }
  }

  lemma EolIsEnd(bare: bool)
    ensures IsEnd(Eol(bare))
  {
  }

  /**
   A header line is taken exactly if it is a token, a colon, and nothing or a value with blanks
   in front of it, a Content-Length having digits up to ULLONG_MAX - 6.
   */
  lemma HeaderLineExact(s: Settings, p: Parser, t: string, bare: bool)
    requires p.state == HeaderFieldStart && NoBreak(t) && t != "" && p.nread + |t + Eol(bare)| <= MAX_HEADER_SIZE
    ensures Feed(s, Start(p), t + Eol(bare)).ctl.Advance? <==>
            exists h :: ProperHeader(h) && HeaderText(h) == t + Eol(bare)
  {
    hide Feed, NoBreak, ProperHeader, HeaderText, Eol;
    HeaderLineOnly(s, p, t, bare);
    forall h | ProperHeader(h) && HeaderText(h) == t + Eol(bare) ensures Feed(s, Start(p), t + Eol(bare)).ctl.Advance? {
      HeaderIsRead(s, Start(p), h);
    }
  }

  lemma LoopEnds(s: Settings, p: Parser, c: char)
    ensures var t := Switch(s, p, c, 1);
      t.ctl.Fail? ==> Loop(s, p, c).ctl == t.ctl && Loop(s, p, c).p == t.p
  {
    hide Switch, TurnEvents;
  }

  lemma BlankBehindLength(s: Settings, r: Run, c: char)
    requires r.ctl.Advance? && r.p.state == Value(ValueLws) && r.p.headerState == ContentLength && IsBlank(c)
    requires r.p.nread < MAX_HEADER_SIZE
    ensures Take(s, r, c).ctl.Fail? && Take(s, r, c).p.errno == InvalidContentLength
  {
    hide TurnEvents, Loop;
    var q := r.p.(nread := r.p.nread + 1);
    var v := q.(state := Value(ValueStart));
    assert Switch(s, q, c, 1) == Redo(v) && Switch(s, v, c, 1).ctl.Fail?;
    CountedLoop(s, r.p, c);
    LoopAgain(s, q, c);
    LoopEnds(s, v, c);
  }

  /**
   A Content-Length must not go on in a further line: the blank in front of that line is taken
   for its value, and refused.
   */
  lemma FoldedLengthIsRefused(s: Settings, p: Parser, h: Header, c: char)
    requires p.state == HeaderFieldStart && ProperHeader(h) && SaysLength(h) && IsBlank(c)
    requires p.nread + |HeaderText(h)| < MAX_HEADER_SIZE
    ensures Feed(s, Start(p), HeaderText(h) + [c]).ctl.Fail?
    ensures Feed(s, Start(p), HeaderText(h) + [c]).p.errno == InvalidContentLength
  {
    hide Feed, Take, AsData, SameWord, DecimalValue, LengthText, ValueLine, Lead, IsTokenByte, Eol;
    var name := h.name + ":";
    NameIsRead(s, Start(p), h);
    var r1 := Feed(s, Start(p), name);
    LeadIsDropped(s, r1, h.lead);
    FeedConcat(s, Start(p), name, h.lead);
    var r2 := Feed(s, Start(p), name + h.lead);
    FeedConcat(s, Start(p), name + h.lead, h.value);
    ContentLengthIsExact(s, r2.p, h.value);
    FeedFromRun(s, r2, h.value);
    var r3 := Feed(s, Start(p), name + h.lead + h.value);
    FeedConcat(s, Start(p), name + h.lead + h.value, Eol(h.bare));
    EndOfLine(s, r3, h.bare);
    OneLineText(h);
    FeedConcat(s, Start(p), HeaderText(h), [c]);
    var r4 := Feed(s, Start(p), HeaderText(h));
    FeedOne(s, r4, c);
    BlankBehindLength(s, r4, c);
  }

  // ---- chunk-size lines ----

  /** How many of the first bytes pass for hexadecimal digits. */
  function HexIn(text: string): (n: nat)
    ensures n <= |text| && (forall i :: 0 <= i < n ==> Unhex(text[i]) >= 0) && (n < |text| ==> Unhex(text[n]) == -1)
  {
    if text == "" || Unhex(text[0]) == -1 then 0 else HexIn(text[1..]) + 1
  }

  function SizeOf(text: string): nat
    requires forall i :: 0 <= i < |text| ==> Unhex(text[i]) >= 0
  {
    if text == "" then 0 else SizeOf(text[..|text| - 1]) * 16 + Unhex(text[|text| - 1])
  }

  lemma DigitPasses(c: char)
    requires Unhex(c) >= 0
    ensures PassesFor(c, Unhex(c))
  {
  }

  lemma {:induction false} SizePasses(text: string)
    requires text != "" && forall i :: 0 <= i < |text| ==> Unhex(text[i]) >= 0
    ensures PassesAs(text, SizeOf(text))
  {
    hide Unhex, PassesFor;
    var front, c := text[..|text| - 1], text[|text| - 1];
    DigitPasses(c);
    if front == "" { assert SizeOf(front) == 0; } else { SizePasses(front); }
  }

  predicate NoCr(text: string) { forall i :: 0 <= i < |text| ==> text[i] != '\r' }

  /** A size line without its end. */
  predicate SizeText(t: string, size: string, n: nat, ext: string) {
    t == size + ext && PassesAs(size, n) && GoodSize(n) && GoodExt(ext)
  }

  lemma BadSize(s: Settings, r: Run, c: char, rest: string)
    requires r.ctl.Advance? && r.p.flags.chunked && r.p.nread < MAX_HEADER_SIZE && Unhex(c) == -1
    requires (r.p.state == Chunk(SizeStart) && r.p.nread == 0) ||
             (r.p.state == Chunk(Size) && c != '\r' && c != ';' && c != ' ')
    ensures !Feed(s, r, [c] + rest).ctl.Advance?
  {
    hide Feed, Unhex;
    RefusedByte(s, r, c, rest);
  }

  lemma BreakIsNoHex()
    ensures Unhex('\r') == -1
  {
  }

  /** What stands behind the digits of a size. */
  lemma BehindSize(s: Settings, r: Run, size: string, c: char, rest: string)
    requires r.ctl.Advance? && BetweenChunks(r.p) && size != "" && |size| < MAX_HEADER_SIZE
    requires (forall i :: 0 <= i < |size| ==> Unhex(size[i]) >= 0) && Unhex(c) == -1
    ensures PassesAs(size, SizeOf(size))
    ensures Feed(s, r, size + ([c] + rest)).ctl.Advance? ==>
              GoodSize(SizeOf(size)) && (c == '\r' || c == ';' || c == ' ')
  {
    hide Feed, Unhex, PassesAs, PassesFor;
    FeedConcat(s, r, size, [c] + rest);
    SizePasses(size);
    if !GoodSize(SizeOf(size)) {
      OversizeIsRefused(s, r, size, SizeOf(size));
      RefusedFront(s, r, size, [c] + rest);
    } else {
      FeedHex(s, r, size, SizeOf(size));
      if c != '\r' && c != ';' && c != ' ' { BadSize(s, Feed(s, r, size), c, rest); }
    }
  }

  lemma SizeAndRest(t: string)
    requires NoCr(t)
    ensures var n, w := HexIn(t), t + CRLF;
      && t == t[..n] + t[n..] && w == t[..n] + ([w[n]] + w[n + 1..]) && Unhex(w[n]) == -1
      && (n < |t| ==> w[n] == t[n] && w[n] != '\r') && (forall i :: 0 <= i < |t[n..]| ==> t[n..][i] != '\r')
  {
    hide HexIn, Unhex;
    BreakIsNoHex();
    var n, w := HexIn(t), t + CRLF;
    assert w[|t|] == '\r';
    assert n < |t| ==> w[n] == t[n];
    assert t == t[..n] + t[n..] && w == w[..n] + ([w[n]] + w[n + 1..]) && w[..n] == t[..n];
  }

  lemma SizeLineOnly(s: Settings, r: Run, t: string)
    requires r.ctl.Advance? && BetweenChunks(r.p) && NoCr(t) && |t + CRLF| <= MAX_HEADER_SIZE
    ensures Feed(s, r, t + CRLF).ctl.Advance? ==> exists size, n, ext :: SizeText(t, size, n, ext)
  {
    hide Feed, Unhex, HexIn, PassesAs, PassesFor;
    SizeAndRest(t);
    var n, w := HexIn(t), t + CRLF;
    if n == 0 {
      assert w == [w[0]] + w[1..];
      BadSize(s, r, w[0], w[1..]);
    } else {
      BehindSize(s, r, t[..n], w[n], w[n + 1..]);
      if Feed(s, r, w).ctl.Advance? { assert SizeText(t, t[..n], SizeOf(t[..n]), t[n..]); }
    }
  }

  lemma SizeLineIsRead(s: Settings, r: Run, size: string, n: nat, ext: string)
    requires r.ctl.Advance? && BetweenChunks(r.p) && PassesAs(size, n) && GoodSize(n) && GoodExt(ext)
    requires |size + ext + CRLF| <= MAX_HEADER_SIZE
    ensures Feed(s, r, size + ext + CRLF).ctl.Advance?
  {
    hide Feed, PassesAs;
    FeedHex(s, r, size, n);
    var r1 := Feed(s, r, size);
    FeedExt(s, r1, ext);
    FeedLineEnd(s, Feed(s, r1, ext));
    FeedConcat(s, r, size, ext);
    FeedConcat(s, r, size + ext, CRLF);
  }

  /**
   A chunk-size line is taken exactly if it is a size, not too large, and nothing or an
   extension.  A byte above 127 passes for a digit 0 in it.
   */
  lemma SizeLineExact(s: Settings, r: Run, t: string)
    requires r.ctl.Advance? && BetweenChunks(r.p) && NoCr(t) && |t + CRLF| <= MAX_HEADER_SIZE
    ensures Feed(s, r, t + CRLF).ctl.Advance? <==> exists size, n, ext :: SizeText(t, size, n, ext)
  {
    hide Feed, PassesAs, GoodExt, GoodSize;
    SizeLineOnly(s, r, t);
    forall size, n, ext | SizeText(t, size, n, ext) ensures Feed(s, r, t + CRLF).ctl.Advance? {
      SizeLineIsRead(s, r, size, n, ext);
    }
  }

  // ---- the two bytes at the end of a line ----

  /** A CR has been read, and only a LF may follow it. */
  predicate WaitsForLf(p: Parser) {
    p.state == Status(ResLineAlmostDone) || p.state == Version(ReqLineAlmostDone) || p.state == HeadersAlmostDone ||
    p.state == Value(ValueAlmostDone) || p.state == Value(DiscardWsAlmostDone) ||
    (p.flags.chunked && (p.state == Chunk(SizeAlmostDone) || p.state == Chunk(DataDone)))
  }

  /** Behind a CR nothing but a LF is taken. */
  lemma LfBehindCr(s: Settings, p: Parser, c: char)
    requires WaitsForLf(p) && p.nread < MAX_HEADER_SIZE
    ensures StepByte(s, p, c).ctl.Fail? <==> c != '\n'
  {
    hide TurnEvents, ShouldKeepAlive, MessageNeedsEof;
    if p.state.HeadersAlmostDone? && c == '\n' { HeadersEndFlags(s, p.(nread := p.nread + 1)); }
  }

  /** Behind the data of a chunk nothing but a CR is taken. */
  lemma CrBehindData(s: Settings, p: Parser, c: char)
    requires p.state == Chunk(DataAlmostDone) && p.flags.chunked && p.contentLength == 0
    ensures StepByte(s, p, c).ctl.Fail? <==> c != '\r'
  {
    hide TurnEvents;
  }
}
