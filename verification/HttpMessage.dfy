/**
 Whole messages.  Requests and responses are written down without the parser: their text, how
 their headers frame them, and what a client is to see of them.  The parser consumes every
 well-formed one and shows exactly that, message after message, and it goes on behind one
 exactly if the version and the Connection headers say so.
 */
module HttpMessage {
  import opened HttpTypes
  import opened HttpSwitch
  import opened HttpInvariant
  import opened HttpRun
  import opened HttpTape
  import opened HttpExecute
  import opened HttpHeader
  import opened HttpChunked
  import opened HttpLine
  import Common
  import HttpBounds
  import HttpMethod
  import HttpTrace
  import HttpUrl
  // ---- the messages ----

  datatype Body =
    | NoBody
    | Sized(bytes: string)
    | InChunks(cs: seq<Piece>, last: Piece, trailer: seq<Header>, bare: bool)
    | UpToEnd(bytes: string)

  /** bare says how the blank line behind headers ends; skip is what on_headers_complete answers. */
  datatype Message = Message(first: FirstLine, headers: seq<Header>, bare: bool, body: Body, skip: bool)

  function HeadText(m: Message): string { FirstText(m.first) + HeadersText(m.headers) + Eol(m.bare) }

  function BodyText(b: Body): string {
    match b
    case NoBody => ""
    case Sized(bytes) => bytes
    case InChunks(cs, last, trailer, bare) => EncodeAll(cs, last) + (HeadersText(trailer) + Eol(bare))
    case UpToEnd(bytes) => bytes
  }

  function Text(m: Message): string { HeadText(m) + BodyText(m.body) }

  // ---- how a message is framed ----

  /** Whether the client takes the connection over behind the headers. */
  predicate Upgrades(m: Message) {
    AsksUpgrade(m.headers) || (m.first.RequestLine? && m.first.verb.CONNECT?)
  }

  /** A response that has no body, whatever its headers say (section 4.4 of RFC 2616). */
  predicate Bodiless(first: FirstLine) {
    first.StatusLine? &&
    var code := HttpBounds.DecimalValue(first.code); 100 <= code < 200 || code == 204 || code == 304
  }

  /** The end of the message does not need the end of the connection. */
  predicate EndIsKnown(m: Message) {
    m.first.RequestLine? || Bodiless(m.first) || m.skip || AsksChunked(m.headers) ||
    GivenLength(m.headers) != ULLONG_MAX
  }

  /** The body is the one that the headers announce. */
  predicate Framed(m: Message) {
    if Upgrades(m) || m.skip then m.body.NoBody?
    else if AsksChunked(m.headers) then m.body.InChunks?
    else if GivenLength(m.headers) != ULLONG_MAX then m.body.Sized? && |m.body.bytes| == GivenLength(m.headers)
    else if m.first.RequestLine? || Bodiless(m.first) then m.body.NoBody?
    else m.body.UpToEnd?
  }

  function Trailer(b: Body): seq<Header> { if b.InChunks? then b.trailer else [] }

  /** How many bytes a trailer counts towards the next head. */
  function TrailerCount(b: Body): nat { if b.InChunks? then |HeadersText(b.trailer) + Eol(b.bare)| else 0 }

  predicate ProperBody(b: Body) {
    ProperHeaders(Trailer(b)) && TrailerCount(b) <= MAX_HEADER_SIZE && (b.InChunks? ==> EncodableAll(b.cs, b.last))
  }

  predicate Proper(m: Message) {
    ProperFirst(m.first) && ProperHeaders(m.headers) && ProperBody(m.body) && Framed(m)
  }

  /**
   Whether a further message may follow: if neither number of the version is 0, as in HTTP/1.1,
   unless some header says close; otherwise only if some header says keep-alive; and never if
   the body reaches to the end.
   */
  predicate KeepsAlive(m: Message) {
    (if Persistent(m.first) then !AsksClose(m.headers) && !AsksClose(Trailer(m.body))
     else AsksKeepAlive(m.headers) || AsksKeepAlive(Trailer(m.body))) &&
    EndIsKnown(m)
  }

  // ---- what the client sees ----

  function HeadSights(m: Message): seq<Sight> {
    [Starts] + FirstSights(m.first) + HeadersSights(m.headers) +
    [Head(NumbersIn(m.first), Upgrades(m), GivenLength(m.headers))]
  }

  function BodySights(b: Body): seq<Sight> {
    match b
    case NoBody => []
    case Sized(bytes) => Shown(BodyData, bytes)
    case InChunks(cs, _, trailer, _) => Shown(BodyData, Payload(cs)) + HeadersSights(trailer)
    case UpToEnd(bytes) => Shown(BodyData, bytes)
  }

  /** A message is seen from its begin to its end. */
  function Sights(m: Message): seq<Sight> { HeadSights(m) + BodySights(m.body) + [Ends(KeepsAlive(m))] }

  // ---- the end of the head ----

  /** The record that on_headers_complete is given. */
  function Announced(p: Parser): Parser {
    p.(state := HeadersDone, nread := p.nread + 1, upgrade := p.flags.upgrade || p.verb.CONNECT?)
  }

  /** The record behind it. */
  function Answered(q: Parser, skip: bool): Parser {
    q.(flags := q.flags.(skipBody := q.flags.skipBody || skip), nread := 0)
  }

  function Done(p: Parser): Parser { p.(state := NewMessage(p)) }

  /** Whether the message ends with its head. */
  predicate EndsHere(q: Parser) {
    q.upgrade || q.flags.skipBody ||
    (!q.flags.chunked && (q.contentLength == 0 || (q.contentLength == ULLONG_MAX && !MessageNeedsEof(q))))
  }

  function BodyState(q: Parser): State {
    if q.flags.chunked then Chunk(SizeStart)
    else if q.contentLength != ULLONG_MAX then BodyIdentity
    else BodyIdentityEof
  }

  /** What the last byte of a head leads to. */
  function HeadEnded(r: Run, skip: bool): Run {
    var q := Announced(r.p);
    var a := Answered(q, skip);
    var evs := r.evs + [Notify(HeadersComplete(q, skip))];
    if EndsHere(a) then
      Run(Done(a), r.consumed + 1, evs + [Notify(Complete(Done(a)))], if a.upgrade then Leave else Advance)
    else Run(a.(state := BodyState(a)), r.consumed + 1, evs, Advance)
  }

  lemma HeadersDoneTurn(s: Settings, q: Parser)
    requires q.state.HeadersDone? && (q.kind.Request? ==> !MessageNeedsEof(q))
    ensures var a := q.(nread := 0);
      Loop(s, q, '\n') ==
      if EndsHere(a) then Outcome(Done(a), [Notify(Complete(Done(a)))], if a.upgrade then Leave else Advance)
      else Outcome(a.(state := BodyState(a)), [], Advance)
  {
    var a := q.(nread := 0);
    var t := Switch(s, q, '\n', 1);
    hide ShouldKeepAlive, AsData, Notices;
    assert MessageNeedsEof(a) == MessageNeedsEof(q);
    NoNotices();
    NoticesOne(Call(Complete(Done(a))));
  }

  /** The case that calls on_headers_complete. */
  lemma AnnouncingTurn(s: Settings, p0: Parser)
    requires p0.state == HeadersAlmostDone && !p0.flags.trailing
    ensures var q, skip := Announced(p0), s.skipBody(Announced(p0));
      var p, mid := p0.(nread := p0.nread + 1), q.(flags := q.flags.(skipBody := q.flags.skipBody || skip));
      && Switch(s, p, '\n', 1) == Turn(mid, [Call(HeadersComplete(q, skip))], Again, 0)
      && TurnEvents(p.state, Switch(s, p, '\n', 1), ['\n']) == [Notify(HeadersComplete(q, skip))]
  {
    var q, skip := Announced(p0), s.skipBody(Announced(p0));
    var mid := q.(flags := q.flags.(skipBody := q.flags.skipBody || skip));
    CallTurn(HeadersAlmostDone, Turn(mid, [Call(HeadersComplete(q, skip))], Again, 0), '\n');
    hide TurnEvents;
  }

  lemma HeadEnds(s: Settings, r: Run)
    requires r.ctl.Advance? && r.p.state == HeadersAlmostDone && !r.p.flags.trailing && r.p.nread < MAX_HEADER_SIZE
    ensures Take(s, r, '\n') == HeadEnded(r, s.skipBody(Announced(r.p)))
  {
    hide StepByte, Loop, EndsHere, BodyState, NewMessage, Switch, TurnEvents;
    var q, skip := Announced(r.p), s.skipBody(Announced(r.p));
    var p := r.p.(nread := r.p.nread + 1);
    var mid := q.(flags := q.flags.(skipBody := q.flags.skipBody || skip));
    AnnouncingTurn(s, r.p);
    CountedLoop(s, r.p, '\n');
    LoopAgain(s, p, '\n');
    HeadersDoneTurn(s, mid);
  }

  // ---- the head ----

  /** What the record says of a message when its headers are complete. */
  predicate Announces(q: Parser, m: Message) {
    && q.state.HeadersDone? && q.errno.OK? && q.kind == KindOf(m.first) && NumbersOf(q) == NumbersIn(m.first)
    && q.flags == Flags(AsksChunked(m.headers), AsksKeepAlive(m.headers), AsksClose(m.headers), false,
                        AsksUpgrade(m.headers), false)
    && q.contentLength == GivenLength(m.headers) && q.upgrade == Upgrades(m)
  }

  /** The client answers a record that announces the message as the message says. */
  ghost predicate Answers(s: Settings, m: Message) {
    forall q: Parser :: Announces(q, m) ==> s.skipBody(q) == m.skip
  }

  /** The parser is in front of the message, with room for its head; responses know no method. */
  predicate Ready(p: Parser, m: Message) {
    && Expects(p, m.first) && p.errno.OK? && p.nread + |HeadText(m)| <= MAX_HEADER_SIZE
    && (m.first.StatusLine? ==> !p.verb.CONNECT?)
  }

  /** The run in front of the LF of the blank line; a bare one is taken as if a CR stood in front of it. */
  function BeforeBreak(r: Run, bare: bool): Run {
    var g := Settled(r);
    var p := g.p.(state := HeadersAlmostDone);
    if bare then g.(p := p) else On(g, p, 1)
  }

  lemma BareBlank(s: Settings, r: Run)
    requires r.ctl.Advance? && r.p.state == HeaderFieldStart && r.p.nread < MAX_HEADER_SIZE
    ensures Take(s, r, '\n') == Take(s, r.(p := r.p.(state := HeadersAlmostDone)), '\n')
  {
    hide StepByte, Loop, Switch, TurnEvents;
    var p, q := r.p.(nread := r.p.nread + 1), r.p.(nread := r.p.nread + 1, state := HeadersAlmostDone);
    assert Switch(s, p, '\n', 1) == Redo(q) && TurnEvents(p.state, Redo(q), ['\n']) == [] by { BreakTurn(s, p); }
    CountedLoop(s, r.p, '\n');
    CountedLoop(s, r.p.(state := HeadersAlmostDone), '\n');
    LoopAgain(s, p, '\n');
  }

  lemma BreakTurn(s: Settings, p: Parser)
    requires p.state == HeaderFieldStart
    ensures var q := p.(state := HeadersAlmostDone);
      Switch(s, p, '\n', 1) == Redo(q) && TurnEvents(p.state, Redo(q), ['\n']) == []
  {
    NoNotices();
    hide AsData;
  }

  /** The blank line behind headers. */
  lemma BlankLineIsRead(s: Settings, r: Run, bare: bool)
    requires r.ctl.Advance? && BetweenHeaders(r.p.state) && r.p.nread + |Eol(bare)| <= MAX_HEADER_SIZE
    ensures Feed(s, r, Eol(bare)) == Take(s, BeforeBreak(r, bare), '\n')
  {
    SettledFollows(r);
    hide Feed, Take, StepByte, Settled;
    if bare {
      FeedOne(s, r, '\n');
      SettledTakes(s, r, '\n');
      BareBlank(s, Settled(r));
    } else {
      FeedTwo(s, r, '\r', '\n');
      SettledTakes(s, r, '\r');
      assert Take(s, Settled(r), '\r') == BeforeBreak(r, false) by { CarriageReturn(s, Settled(r)); }
    }
  }

  lemma CarriageReturn(s: Settings, r: Run)
    requires r.ctl.Advance? && r.p.state == HeaderFieldStart && r.p.nread < MAX_HEADER_SIZE
    ensures Take(s, r, '\r') == On(r, r.p.(state := HeadersAlmostDone), 1)
  {
    hide StepByte;
    TrailerCR(s, r.p);
  }

  lemma AnnouncedAll(p: Parser, m: Message, a: Parser, b: Parser)
    requires p.errno.OK? && ProperHeaders(m.headers) && (m.first.StatusLine? ==> !p.verb.CONNECT?)
    requires Like(a, AfterFirst(p, m.first)) && Like(b, AfterHeaders(a, m.headers))
    ensures b.state == HeaderFieldStart && !b.flags.trailing &&
            b.nread == p.nread + |FirstText(m.first) + HeadersText(m.headers)|
    ensures forall n :: Announces(Announced(b.(state := HeadersAlmostDone, nread := n)), m)
    ensures m.first.StatusLine? ==> b.verb == p.verb
  {
    hide AsksChunked, AsksKeepAlive, AsksClose, AsksUpgrade, GivenLength, FirstText, HeadersText;
  }

  /** The run in front of the last byte of the head. */
  predicate HeadIsIn(p: Parser, m: Message, r: Run) {
    && r.ctl.Advance? && r.p.state == HeadersAlmostDone && !r.p.flags.trailing
    && r.consumed + 1 == |HeadText(m)| && r.p.nread + 1 == p.nread + |HeadText(m)|
    && Announces(Announced(r.p), m) && (m.first.StatusLine? ==> r.p.verb == p.verb)
    && Seen(r.evs) == [Starts] + FirstSights(m.first) + HeadersSights(m.headers)
  }

  lemma FirstCounts(p: Parser, f: FirstLine, q: Parser)
    requires Like(q, AfterFirst(p, f))
    ensures q.state == HeaderFieldStart && q.nread == p.nread + |FirstText(f)|
  {
  }

  lemma HeadIsRead(s: Settings, p: Parser, m: Message) returns (r: Run)
    requires Ready(p, m) && ProperFirst(m.first) && ProperHeaders(m.headers)
    ensures HeadIsIn(p, m, r) && Feed(s, Start(p), HeadText(m)) == Take(s, r, '\n')
  {
    hide Feed, Take, ProperFirst, ProperHeaders, Announces, FirstText, HeadersText, Seen, FirstSights, HeadersSights,
      Like, AfterFirst, AfterHeaders, Settled, Announced;
    var first, all := FirstText(m.first), FirstText(m.first) + HeadersText(m.headers);
    FirstLineIsRead(s, p, m.first);
    var r1 := Feed(s, Start(p), first);
    FirstCounts(p, m.first, r1.p);
    HeadersAreRead(s, r1, m.headers);
    FeedConcat(s, Start(p), first, HeadersText(m.headers));
    var r2 := Feed(s, Start(p), all);
    AnnouncedAll(p, m, r1.p, Settled(r2).p);
    BlankLineIsRead(s, r2, m.bare);
    r := BeforeBreak(r2, m.bare);
    SettledFollows(r2);
    BreakRecord(r2, m.bare);
    FeedConcat(s, Start(p), all, Eol(m.bare));
  }

  lemma BreakRecord(r: Run, bare: bool)
    ensures var n := Settled(r).p.nread + |Eol(bare)| - 1;
      BeforeBreak(r, bare) ==
      Run(Settled(r).p.(state := HeadersAlmostDone, nread := n), Settled(r).consumed + |Eol(bare)| - 1,
          Settled(r).evs, if bare then Settled(r).ctl else Advance)
  {
    hide Settled;
  }

  // ---- the body ----

  /** The framing of the message decides how the parser goes on. */
  lemma FramingDecides(q: Parser, m: Message)
    requires Announces(q, m) && Framed(m) && ProperHeaders(m.headers)
    ensures var a := Answered(q, m.skip);
      && (a.upgrade <==> Upgrades(m))
      && (EndsHere(a) <==> m.body.NoBody? || m.body == Sized(""))
      && (!EndsHere(a) ==> BodyState(a) == match m.body
                                           case InChunks(_, _, _, _) => Chunk(SizeStart)
                                           case UpToEnd(_) => BodyIdentityEof
                                           case _ => BodyIdentity)
  {
    hide AsksChunked, AsksKeepAlive, AsksClose, AsksUpgrade, GivenLength, HttpBounds.DecimalValue, ProperHeader;
    if m.body.Sized? && |m.body.bytes| == 0 { assert m.body == Sized(""); }
  }

  /** What the record says of a message at its end. */
  predicate AtEnd(p: Parser, m: Message) {
    && p.errno.OK? && p.kind == KindOf(m.first) && NumbersOf(p) == NumbersIn(m.first)
    && (p.flags.close <==> AsksClose(m.headers) || AsksClose(Trailer(m.body)))
    && (p.flags.keepAlive <==> AsksKeepAlive(m.headers) || AsksKeepAlive(Trailer(m.body)))
    && (p.flags.skipBody <==> m.skip)
    && (p.flags.chunked || p.contentLength != ULLONG_MAX <==>
        AsksChunked(m.headers) || GivenLength(m.headers) != ULLONG_MAX)
  }

  /** The verdict on the connection is the one that version, headers and framing give. */
  lemma VerdictIsExact(p: Parser, m: Message)
    requires AtEnd(p, m)
    ensures ShouldKeepAlive(p) <==> KeepsAlive(m)
  {
    hide AsksChunked, AsksKeepAlive, AsksClose, GivenLength, HttpBounds.DecimalValue;
  }

  function StartFor(f: FirstLine): State { if f.RequestLine? then StartReq else StartRes }

  /** The run over a message; count is where the header count stands. */
  predicate IsRead(p: Parser, m: Message, r: Run) {
    && r.consumed == |Text(m)| && r.ctl == (if Upgrades(m) then Leave else Advance)
    && r.p.errno.OK? && r.p.kind == KindOf(m.first) && r.p.nread == TrailerCount(m.body)
    && (m.first.StatusLine? ==> r.p.verb == p.verb)
    && (if m.body.UpToEnd? then
          r.p.state.BodyIdentityEof? && ShouldKeepAlive(r.p) == KeepsAlive(m) &&
              Seen(r.evs) + [Ends(KeepsAlive(m))] == Sights(m)
        else
          r.p.state == (if KeepsAlive(m) then StartFor(m.first) else Dead) && Seen(r.evs) == Sights(m))
  }

  lemma DoneIsAtEnd(p: Parser, m: Message)
    requires AtEnd(p, m)
    ensures AtEnd(Done(p), m) && p.kind == KindOf(m.first)
  {
    hide AsksChunked, AsksKeepAlive, AsksClose, GivenLength, NewMessage, NumbersIn;
  }

  lemma SeenDone(evs: seq<Ev>, p: Parser, m: Message)
    requires AtEnd(p, m)
    ensures Seen(evs + [Notify(Complete(Done(p)))]) == Seen(evs) + [Ends(KeepsAlive(m))]
    ensures Done(p).state == (if KeepsAlive(m) then StartFor(m.first) else Dead)
  {
    hide Seen, KeepsAlive, AtEnd, ShouldKeepAlive;
    VerdictIsExact(p, m);
    VerdictIsExact(Done(p), m) by { DoneIsAtEnd(p, m); }
    assert p.kind == KindOf(m.first) by { DoneIsAtEnd(p, m); }
    SeenConcat(evs, [Notify(Complete(Done(p)))]);
    SeenOne(Notify(Complete(Done(p))));
  }

  lemma NoTrailer(b: Body)
    requires !b.InChunks?
    ensures !AsksClose(Trailer(b)) && !AsksKeepAlive(Trailer(b)) && TrailerCount(b) == 0
  {
  }

  /** The record of the head, and the one at the end of a message without a trailer. */
  lemma EndOfPlain(q: Parser, m: Message, n: HttpTypes.u64)
    requires Announces(q, m) && Framed(m) && !m.body.InChunks?
    requires n == q.contentLength || (m.body.Sized? && n == 0)
    ensures AtEnd(Answered(q, m.skip).(contentLength := n), m)
  {
    NoTrailer(m.body);
    hide AsksChunked, AsksKeepAlive, AsksClose, AsksUpgrade, GivenLength, HttpBounds.DecimalValue, Trailer;
  }

  /** The verdict does not depend on the state. */
  lemma SameVerdict(p: Parser, q: Parser)
    requires p == q.(state := p.state)
    ensures NewMessage(p) == NewMessage(q)
  {
  }

  lemma LastBodyByte(s: Settings, p: Parser, ch: char)
    requires p.state.BodyIdentity? && p.contentLength == 1
    ensures var e := Done(p.(contentLength := 0));
      StepByte(s, p, ch) == Outcome(e, [Byte(BodyData, ch), Notify(Complete(e))], Advance)
  {
    hide ShouldKeepAlive, AsData, Notices;
    var e := Done(p.(contentLength := 0));
    var mid := p.(contentLength := 0, state := MessageDone);
    assert NewMessage(mid) == NewMessage(p.(contentLength := 0)) by { SameVerdict(mid, p.(contentLength := 0)); }
    OneByteData(BodyData, ch);
    NoticesTwo(Mark(BodyData), FlushIncl(BodyData));
    NoticesOne(Call(Complete(e)));
    assert Switch(s, p, ch, 1) == Turn(mid, [Mark(BodyData), FlushIncl(BodyData)], Again, 0);
    assert Loop(s, mid, ch) == Outcome(e, [Notify(Complete(e))], Advance);
    LoopAgain(s, p, ch);
  }

  /** A counted body and the end of its message. */
  lemma SizedIsRead(s: Settings, r: Run, bytes: string)
    requires r.ctl.Advance? && r.p.state.BodyIdentity? && bytes != "" && r.p.contentLength == |bytes| < ULLONG_MAX
    ensures var e := Done(r.p.(contentLength := 0));
      Feed(s, r, bytes) ==
      Run(e, r.consumed + |bytes|, r.evs + AsData(BodyData, bytes) + [Notify(Complete(e))], Advance)
  {
    hide StepByte, AsData, NewMessage;
    var n := |bytes| - 1;
    FeedBody(s, r, bytes[..n]);
    LastBodyByte(s, AfterBody(r.p, n), bytes[n]);
    DataSnoc(bytes);
  }

  lemma TrailerEnds(s: Settings, r: Run)
    requires r.ctl.Advance? && r.p.state == HeadersAlmostDone && r.p.flags.trailing && r.p.nread < MAX_HEADER_SIZE
    ensures var e := Done(r.p.(nread := r.p.nread + 1));
      Take(s, r, '\n') == Run(e, r.consumed + 1, r.evs + [Notify(Complete(e))], Advance)
  {
    hide StepByte, NewMessage;
    TrailerLF(s, r.p);
  }

  /** The trailer of a chunked body and the end of its message. */
  lemma TrailerIsRead(s: Settings, r: Run, hs: seq<Header>, bare: bool) returns (e: Parser)
    requires r.ctl.Advance? && r.p.state == HeaderFieldStart && r.p.flags.trailing && r.p.nread == 0
    requires ProperHeaders(hs) && |HeadersText(hs) + Eol(bare)| <= MAX_HEADER_SIZE
    ensures var n := |HeadersText(hs) + Eol(bare)|; var f := Feed(s, r, HeadersText(hs) + Eol(bare));
      && Like(e, AfterHeaders(r.p, hs).(nread := n, state := HeadersAlmostDone))
      && f == Run(Done(e), r.consumed + n, f.evs, Advance)
      && Seen(f.evs) == Seen(r.evs) + HeadersSights(hs) + [Ends(ShouldKeepAlive(Done(e)))]
  {
    hide Feed, Take, ProperHeaders, HeadersText, Seen, HeadersSights, Settled, ShouldKeepAlive;
    HeadersAreRead(s, r, hs);
    var r1 := Feed(s, r, HeadersText(hs));
    SettledFollows(r1);
    BlankLineIsRead(s, r1, bare);
    BreakRecord(r1, bare);
    var r2 := BeforeBreak(r1, bare);
    e := r2.p.(nread := r2.p.nread + 1);
    TrailerEnds(s, r2);
    FeedConcat(s, r, HeadersText(hs), Eol(bare));
    SeenConcat(r2.evs, [Notify(Complete(Done(e)))]);
    SeenOne(Notify(Complete(Done(e))));
  }

  // ---- whole messages ----

  lemma ChunksInParts(cs: seq<Piece>, last: Piece, trailer: seq<Header>, bare: bool)
    ensures var b := InChunks(cs, last, trailer, bare);
      && BodyText(b) == EncodeAll(cs, last) + (HeadersText(trailer) + Eol(bare))
      && BodySights(b) == Shown(BodyData, Payload(cs)) + HeadersSights(trailer)
  {
  }

  lemma AfterLineIs(p: Parser)
    requires p.contentLength == 0
    ensures var q := AfterLine(p); q.flags.trailing && q.state == HeaderFieldStart && q.nread == 0
  {
  }

  /** A chunked body with its trailer. */
  lemma ChunksAreRead(s: Settings, r: Run, b: Body) returns (e: Parser)
    requires r.ctl.Advance? && BetweenChunks(r.p) && b.InChunks? && ProperBody(b)
    ensures var f := Feed(s, r, BodyText(b));
      && Like(e, AfterHeaders(AfterLine(r.p.(contentLength := 0)), b.trailer).(
                   nread := TrailerCount(b), state := HeadersAlmostDone))
      && f == Run(Done(e), r.consumed + |BodyText(b)|, f.evs, Advance)
      && Seen(f.evs) == Seen(r.evs) + BodySights(b) + [Ends(ShouldKeepAlive(Done(e)))]
  {
    hide Feed, EncodeAll, EncodableAll, Payload, AsData, Shown, NewMessage, Seen, HeadersSights, HeadersText,
      AfterHeaders, ProperHeaders, Like, ShouldKeepAlive, AfterLine, BodyText, BodySights, Eol;
    var InChunks(cs, last, trailer, bare) := b;
    ChunksInParts(cs, last, trailer, bare);
    FeedAllChunks(s, r, cs, last);
    var r1 := Feed(s, r, EncodeAll(cs, last));
    AfterLineIs(r.p.(contentLength := 0));
    e := TrailerIsRead(s, r1, trailer, bare);
    FeedConcat(s, r, EncodeAll(cs, last), HeadersText(trailer) + Eol(bare));
    SeenConcat(r.evs, AsData(BodyData, Payload(cs)));
    SeenData(BodyData, Payload(cs));
    Common.Associate(Seen(r.evs), Shown(BodyData, Payload(cs)), HeadersSights(trailer));
  }

  lemma EndOfChunks(q: Parser, m: Message, e: Parser)
    requires Announces(q, m) && Framed(m) && m.body.InChunks? && ProperHeaders(m.body.trailer)
    requires var front := AfterLine(Answered(q, m.skip).(state := Chunk(SizeStart), contentLength := 0));
      var a := AfterHeaders(front, m.body.trailer);
      Like(e, a.(nread := e.nread, state := e.state))
    ensures AtEnd(e, m)
  {
    hide AsksChunked, AsksKeepAlive, AsksClose, AsksUpgrade, GivenLength, HttpBounds.DecimalValue, HeadersText;
  }

  lemma HeadSeen(evs: seq<Ev>, q: Parser, m: Message)
    requires Announces(q, m) && Seen(evs) == [Starts] + FirstSights(m.first) + HeadersSights(m.headers)
    ensures Seen(evs + [Notify(HeadersComplete(q, m.skip))]) == HeadSights(m)
  {
    hide Seen, FirstSights, HeadersSights, NumbersOf, NumbersIn, Upgrades, GivenLength;
    var e := Notify(HeadersComplete(q, m.skip));
    SeenConcat(evs, [e]);
    SeenOne(e);
  }

  lemma AtEndIsOk(p: Parser, m: Message)
    requires AtEnd(p, m)
    ensures p.errno.OK? && p.kind == KindOf(m.first)
  {
  }

  lemma BodyOfNothing(b: Body)
    requires b.NoBody? || b == Sized("")
    ensures BodyText(b) == "" && BodySights(b) == []
  {
  }

  /** A message that ends with its head. */
  lemma HeadOnlyIsRead(s: Settings, p: Parser, m: Message, r: Run)
    requires Proper(m) && HeadIsIn(p, m, r) && p.nread + |HeadText(m)| <= MAX_HEADER_SIZE
    requires m.body.NoBody? || m.body == Sized("")
    ensures IsRead(p, m, HeadEnded(r, m.skip))
  {
    hide Seen, HeadText, NewMessage, KeepsAlive, FirstSights, HeadersSights, HeadSights, AtEnd, Upgrades, EndsHere,
      Announces, Framed, ProperFirst, ProperHeaders, ShouldKeepAlive;
    var q := Announced(r.p);
    var a := Answered(q, m.skip);
    var evs := r.evs + [Notify(HeadersComplete(q, m.skip))];
    FramingDecides(q, m);
    EndOfPlain(q, m, q.contentLength);
    HeadSeen(r.evs, q, m);
    SeenDone(evs, a, m);
    NoTrailer(m.body);
    BodyOfNothing(m.body);
    DoneIsAtEnd(a, m);
    assert a.errno.OK? by { assert AtEnd(a, m); AtEndIsOk(a, m); }
  }

  lemma FramedIsOpen(m: Message)
    requires Framed(m) && !m.body.NoBody?
    ensures !Upgrades(m) && !m.skip
  {
  }

  /** The run behind a head that announces a body. */
  lemma BodyBegins(p: Parser, m: Message, r: Run)
    requires Proper(m) && HeadIsIn(p, m, r) && !m.body.NoBody? && m.body != Sized("")
    ensures var h := HeadEnded(r, m.skip); var q := Announced(r.p);
      && h.ctl.Advance? && !Upgrades(m) && h.consumed == |HeadText(m)|
      && h.p == Answered(q, m.skip).(state := BodyState(Answered(q, m.skip)))
      && h.p.state == (match m.body
                       case InChunks(_, _, _, _) => Chunk(SizeStart)
                       case UpToEnd(_) => BodyIdentityEof
                       case _ => BodyIdentity)
      && Seen(h.evs) == HeadSights(m)
  {
    hide Seen, HeadText, FirstSights, HeadersSights, HeadSights, AtEnd, Upgrades, EndsHere, Announces, Framed,
      ProperFirst, ProperHeaders, BodyState;
    FramedIsOpen(m);
    FramingDecides(Announced(r.p), m);
    HeadSeen(r.evs, Announced(r.p), m);
  }

  lemma AnnouncedLength(q: Parser, m: Message)
    requires Announces(q, m) && Framed(m) && !m.body.NoBody? && ProperHeaders(m.headers)
    ensures m.body.Sized? ==> q.contentLength == |m.body.bytes| < ULLONG_MAX
    ensures m.body.InChunks? ==> q.flags.chunked
    ensures m.body.UpToEnd? ==> !q.flags.chunked
  {
    hide AsksChunked, AsksKeepAlive, AsksClose, AsksUpgrade, GivenLength, ProperHeader;
  }

  lemma AtEndAnyState(p: Parser, q: Parser, m: Message)
    requires AtEnd(p, m) && q == p.(state := q.state)
    ensures AtEnd(q, m) && q.errno.OK? && q.kind == KindOf(m.first)
  {
  }

  /** A message with a counted body. */
  lemma SizedMessageIsRead(s: Settings, p: Parser, m: Message, r: Run)
    requires Proper(m) && HeadIsIn(p, m, r) && m.body.Sized? && m.body.bytes != ""
    ensures IsRead(p, m, Feed(s, HeadEnded(r, m.skip), m.body.bytes))
  {
    hide Feed, Seen, HeadText, NewMessage, KeepsAlive, HeadSights, AtEnd, Upgrades, Announces, Framed, ProperFirst,
      ProperHeaders, ShouldKeepAlive, AsData, Shown, HeadEnded, FirstSights, HeadersSights;
    var h, q, bytes := HeadEnded(r, m.skip), Announced(r.p), m.body.bytes;
    BodyBegins(p, m, r);
    AnnouncedLength(q, m);
    SizedIsRead(s, h, bytes);
    EndOfPlain(q, m, 0);
    var a := h.p.(contentLength := 0);
    AtEndAnyState(Answered(q, m.skip).(contentLength := 0), a, m);
    SeenDone(h.evs + AsData(BodyData, bytes), a, m);
    SeenConcat(h.evs, AsData(BodyData, bytes));
    SeenData(BodyData, bytes);
    NoTrailer(m.body);
  }

  lemma VerbKept(p: Parser, hs: seq<Header>, n: nat, e: Parser)
    requires ProperHeaders(hs)
    requires Like(e, AfterHeaders(AfterLine(p.(contentLength := 0)), hs).(nread := n, state := HeadersAlmostDone))
    ensures e.verb == p.verb && e.nread == n
  {
  }

  /** A message with a chunked body. */
  lemma ChunkedMessageIsRead(s: Settings, p: Parser, m: Message, r: Run)
    requires Proper(m) && HeadIsIn(p, m, r) && m.body.InChunks?
    ensures IsRead(p, m, Feed(s, HeadEnded(r, m.skip), BodyText(m.body)))
  {
    hide Feed, Seen, HeadText, NewMessage, KeepsAlive, HeadSights, AtEnd, Upgrades, Announces, Framed, ProperFirst,
      ProperHeaders, ShouldKeepAlive, HeadEnded, FirstSights, HeadersSights, BodyText, BodySights, AfterHeaders,
      AfterLine, EncodableAll, TrailerCount;
    var h, q := HeadEnded(r, m.skip), Announced(r.p);
    BodyBegins(p, m, r);
    AnnouncedLength(q, m);
    var e := ChunksAreRead(s, h, m.body);
    EndOfChunks(q, m, e);
    AtEndIsOk(e, m);
    VerbKept(h.p, m.body.trailer, TrailerCount(m.body), e);
    SeenDone([], e, m);
    VerdictIsExact(Done(e), m) by { DoneIsAtEnd(e, m); }
  }

  /** A message whose body reaches to the end. */
  lemma OpenMessageIsRead(s: Settings, p: Parser, m: Message, r: Run)
    requires Proper(m) && HeadIsIn(p, m, r) && m.body.UpToEnd?
    ensures IsRead(p, m, Feed(s, HeadEnded(r, m.skip), m.body.bytes))
  {
    hide Feed, Seen, HeadText, NewMessage, KeepsAlive, HeadSights, AtEnd, Upgrades, Announces, Framed, ProperFirst,
      ProperHeaders, ShouldKeepAlive, AsData, Shown, HeadEnded, FirstSights, HeadersSights;
    var h, q, bytes := HeadEnded(r, m.skip), Announced(r.p), m.body.bytes;
    BodyBegins(p, m, r);
    AnnouncedLength(q, m);
    FeedBody(s, h, bytes);
    EndOfPlain(q, m, q.contentLength);
    AtEndAnyState(Answered(q, m.skip), h.p, m);
    VerdictIsExact(h.p, m);
    SeenConcat(h.evs, AsData(BodyData, bytes));
    SeenData(BodyData, bytes);
    NoTrailer(m.body);
  }

  lemma BodyIsText(b: Body)
    ensures b.Sized? || b.UpToEnd? ==> BodyText(b) == b.bytes
  {
  }

  /**
   Every well-formed message is consumed, without an error, and seen as what it is; behind it
   the parser waits for a further message exactly if the message keeps the connection alive.
   */
  lemma MessageIsRead(s: Settings, p: Parser, m: Message)
    requires Ready(p, m) && Proper(m) && Answers(s, m)
    ensures IsRead(p, m, Feed(s, Start(p), Text(m)))
  {
    hide Feed, Take, IsRead, HeadEnded, HeadText, BodyText, Framed, ProperFirst, ProperHeaders, ProperBody;
    var r := HeadIsRead(s, p, m);
    assert Take(s, r, '\n') == HeadEnded(r, m.skip) by {
      HeadEnds(s, r);
      assert Announces(Announced(r.p), m);
    }
    FeedConcat(s, Start(p), HeadText(m), BodyText(m.body));
    if m.body.NoBody? || m.body == Sized("") {
      BodyOfNothing(m.body);
      NothingFed(s, HeadEnded(r, m.skip));
      HeadOnlyIsRead(s, p, m, r);
    } else {
      BodyIsText(m.body);
      match m.body
      case Sized(_) => SizedMessageIsRead(s, p, m, r);
      case InChunks(_, _, _, _) => ChunkedMessageIsRead(s, p, m, r);
      case UpToEnd(_) => OpenMessageIsRead(s, p, m, r);
    }
  }

  // ---- line ends in front of a message ----

  /** Where CR and LF count for nothing. */
  predicate SkipsBreaks(st: State) { st.StartReq? || st.StartReqOrRes? || st.Dead? }

  predicate OnlyBreaks(text: string) { forall i :: 0 <= i < |text| ==> text[i] == '\r' || text[i] == '\n' }

  lemma OneBreak(s: Settings, r: Run, c: char)
    requires r.ctl.Advance? && SkipsBreaks(r.p.state) && r.p.nread < MAX_HEADER_SIZE
    requires c == '\r' || c == '\n'
    ensures Take(s, r, c) == On(r, r.p, 1)
  {
    hide Take;
    Quiet(s, r, c);
  }

  lemma {:induction false} BreaksAreSkipped(s: Settings, r: Run, breaks: string)
    requires r.ctl.Advance? && SkipsBreaks(r.p.state) && r.p.nread + |breaks| <= MAX_HEADER_SIZE && OnlyBreaks(breaks)
    ensures Feed(s, r, breaks) == On(r, r.p, |breaks|)
  {
    hide Take;
    if breaks != "" {
      var front, c := breaks[..|breaks| - 1], breaks[|breaks| - 1];
      BreaksAreSkipped(s, r, front);
      OneBreak(s, On(r, r.p, |front|), c);
    }
  }

  lemma ShiftedRun(r: Run, f: Run, n: nat)
    requires r.consumed == n && r.evs == []
    ensures var g := Run(f.p, r.consumed + f.consumed, r.evs + f.evs, f.ctl);
      g.consumed >= n && g.(consumed := g.consumed - n) == f
  {
  }

  /**
   Line ends in front of a message are skipped by a parser that waits for a request, or for
   either kind; they only add to its header count.
   */
  lemma MessageBehindBreaks(s: Settings, p: Parser, breaks: string, m: Message)
    requires (p.state.StartReq? || p.state.StartReqOrRes?) && OnlyBreaks(breaks)
    requires Ready(p.(nread := p.nread + |breaks|), m) && Proper(m) && Answers(s, m)
    ensures var f := Feed(s, Start(p), breaks + Text(m));
      f.consumed >= |breaks| && IsRead(p.(nread := p.nread + |breaks|), m, f.(consumed := f.consumed - |breaks|))
  {
    hide Feed, IsRead, Proper, Text, HeadText;
    var q := p.(nread := p.nread + |breaks|);
    BreaksAreSkipped(s, Start(p), breaks);
    var r := On(Start(p), p, |breaks|);
    MessageIsRead(s, q, m);
    FeedConcat(s, Start(p), breaks, Text(m));
    FeedFromRun(s, r, Text(m));
    ShiftedRun(r, Feed(s, Start(q), Text(m)), |breaks|);
  }

  // ---- whether a further message may begin ----

  /** HTTP/1.1 is persistent by default; HTTP/1.0 and requests without a version are not. */
  lemma VersionsDecide(f: FirstLine)
    requires f.RequestLine? && f.version.Http? ==> SmallNumber(f.version.major) && SmallNumber(f.version.minor)
    ensures f.RequestLine? && f.version.Http? && f.version.major == "1" && f.version.minor == "1" ==> Persistent(f)
    ensures f.RequestLine? && f.version.Http? && f.version.minor == "0" ==> !Persistent(f)
    ensures f.RequestLine? && f.version.Unversioned? ==> !Persistent(f)
  {
    HttpBounds.DecimalIsSpelled("1", 1);
    HttpBounds.DecimalIsSpelled("0", 0);
  }

  /** The letter begins a message of this kind. */
  predicate Initial(f: FirstLine, c: char) {
    if f.RequestLine? then exists v :: MethodString(v)[0] == c else c == 'H'
  }

  lemma InitialOfMethod(c: char, v: Method)
    requires MethodString(v)[0] == c
    ensures IsMethodInitial(c) && c != '\r' && c != '\n'
  {
  }

  /** The first letter of a further message, in front of a parser that waits for one. */
  lemma FurtherLetter(s: Settings, p: Parser, f: FirstLine, c: char)
    requires p.kind == KindOf(f) && p.state == StartFor(f) && p.nread < MAX_HEADER_SIZE && Initial(f, c)
    ensures var o := StepByte(s, p, c); o.ctl.Advance? && Seen(o.evs) == [Starts]
  {
    hide StepByte, Seen;
    if f.RequestLine? {
      var v :| MethodString(v)[0] == c;
      InitialOfMethod(c, v);
      HttpMethod.FirstByte(s, p, c);
      SeenOne(Notify(Begin(HttpMethod.Begun(p, c))));
    } else {
      LetterH(s, p);
      var r := Take(s, Start(p), c);
      assert r.evs == StepByte(s, p, c).evs;
      SeenOne(r.evs[0]);
    }
  }

  lemma ClosedRefuses(s: Settings, p: Parser, c: char)
    requires p.state.Dead? && p.nread < MAX_HEADER_SIZE && c != '\r' && c != '\n'
    ensures var o := StepByte(s, p, c); o.ctl.Fail? && o.p.errno == ClosedConnection && o.evs == []
  {
    NoNotices();
    hide AsData;
  }

  lemma InitialIsLetter(f: FirstLine, c: char)
    requires Initial(f, c)
    ensures c != '\r' && c != '\n'
  {
    if f.RequestLine? {
      var v :| MethodString(v)[0] == c;
      InitialOfMethod(c, v);
    }
  }

  lemma NothingSeen()
    ensures Seen([]) == []
  {
  }

  /**
   A further message begins exactly if the last one keeps the connection alive; otherwise its
   first letter is refused.
   */
  lemma FurtherMessage(s: Settings, p: Parser, m: Message, c: char)
    requires Ready(p, m) && Proper(m) && Answers(s, m) && !Upgrades(m) && !m.body.UpToEnd?
    requires TrailerCount(m.body) < MAX_HEADER_SIZE && Initial(m.first, c)
    ensures var r := Feed(s, Start(p), Text(m) + [c]);
      if KeepsAlive(m) then r.ctl.Advance? && Seen(r.evs) == Sights(m) + [Starts]
      else r.ctl.Fail? && r.p.errno == ClosedConnection && Seen(r.evs) == Sights(m)
  {
    hide Feed, StepByte, Text, Proper, Ready, Answers, KeepsAlive, Upgrades, Sights, Seen, Initial;
    MessageIsRead(s, p, m);
    var r := Feed(s, Start(p), Text(m));
    FeedConcat(s, Start(p), Text(m), [c]);
    FeedOne(s, r, c);
    InitialIsLetter(m.first, c);
    if KeepsAlive(m) { FurtherLetter(s, r.p, m.first, c); } else { ClosedRefuses(s, r.p, c); }
    SeenConcat(r.evs, StepByte(s, r.p, c).evs);
    NothingSeen();
  }

  /**
   Behind a message that closes the connection line ends are skipped, and anything else is
   refused; nothing is seen of either.
   */
  lemma NothingBehindClose(s: Settings, p: Parser, m: Message, breaks: string, c: char)
    requires Ready(p, m) && Proper(m) && Answers(s, m) && !Upgrades(m) && !m.body.UpToEnd? && !KeepsAlive(m)
    requires TrailerCount(m.body) + |breaks| < MAX_HEADER_SIZE && OnlyBreaks(breaks) && c != '\r' && c != '\n'
    ensures var r := Feed(s, Start(p), Text(m) + breaks);
      && r.ctl.Advance? && r.p.errno.OK? && r.consumed == |Text(m) + breaks| && Seen(r.evs) == Sights(m)
    ensures var r := Feed(s, Start(p), Text(m) + breaks + [c]);
      && r.ctl.Fail? && r.p.errno == ClosedConnection && r.consumed == |Text(m) + breaks| && Seen(r.evs) == Sights(m)
  {
    hide Feed, StepByte, Text, Proper, Ready, Answers, KeepsAlive, Upgrades, Sights, Seen, OnlyBreaks;
    MessageIsRead(s, p, m);
    var r := Feed(s, Start(p), Text(m));
    FeedConcat(s, Start(p), Text(m), breaks);
    BreaksAreSkipped(s, r, breaks);
    var f := On(r, r.p, |breaks|);
    FeedConcat(s, Start(p), Text(m) + breaks, [c]);
    FeedOne(s, f, c);
    ClosedRefuses(s, f.p, c);
    assert r.evs + [] == r.evs;
  }

  // ---- conversations ----

  function Texts(ms: seq<Message>): string {
    if ms == [] then "" else Texts(ms[..|ms| - 1]) + Text(ms[|ms| - 1])
  }

  function AllSights(ms: seq<Message>): seq<Sight> {
    if ms == [] then [] else AllSights(ms[..|ms| - 1]) + Sights(ms[|ms| - 1])
  }

  /** Where the header count stands in front of message i. */
  function CountBefore(ms: seq<Message>, i: nat): nat
    requires i <= |ms|
  {
    if i == 0 then 0 else TrailerCount(ms[i - 1].body)
  }

  /** Message i is well-formed, of the kind of the others, and has room for its head. */
  ghost predicate Fitting(s: Settings, kind: ParserType, ms: seq<Message>, i: nat)
    requires i < |ms|
  {
    && Proper(ms[i]) && Answers(s, ms[i])
    && KindOf(ms[i].first) == KindOf(ms[0].first) && (kind.Both? || kind == KindOf(ms[0].first))
    && CountBefore(ms, i) + |HeadText(ms[i])| <= MAX_HEADER_SIZE
  }

  predicate LeavesOpen(m: Message) { KeepsAlive(m) && !Upgrades(m) }

  /** Fitting messages, each but the last leaving the connection open. */
  ghost predicate Fluent(s: Settings, kind: ParserType, ms: seq<Message>) {
    (forall i :: 0 <= i < |ms| ==> Fitting(s, kind, ms, i)) && (forall i :: 0 <= i < |ms| - 1 ==> LeavesOpen(ms[i]))
  }

  /** What is still to be seen when the connection ends. */
  function AtClose(ms: seq<Message>): seq<Sight> {
    if ms != [] && ms[|ms| - 1].body.UpToEnd? then [Ends(KeepsAlive(ms[|ms| - 1]))] else []
  }

  /** The record behind messages. */
  predicate Behind(kind: ParserType, ms: seq<Message>, p: Parser) {
    if ms == [] then p == InitialRecord(kind)
    else
      var m := ms[|ms| - 1];
      && p.errno.OK? && p.kind == KindOf(m.first) && p.nread == CountBefore(ms, |ms|)
      && (m.first.StatusLine? ==> !p.verb.CONNECT?)
      && (if m.body.UpToEnd? then p.state.BodyIdentityEof? && ShouldKeepAlive(p) == KeepsAlive(m)
          else p.state == if KeepsAlive(m) then StartFor(m.first) else Dead)
  }

  /** The run over messages. */
  predicate Spoken(kind: ParserType, ms: seq<Message>, r: Run) {
    && r.consumed == |Texts(ms)| && r.ctl == (if ms != [] && Upgrades(ms[|ms| - 1]) then Leave else Advance)
    && Behind(kind, ms, r.p) && Seen(r.evs) + AtClose(ms) == AllSights(ms)
  }

  lemma NothingSpoken(s: Settings, kind: ParserType)
    ensures Spoken(kind, [], Feed(s, Start(InitialRecord(kind)), Texts([])))
  {
  }

  lemma FrontFits(s: Settings, kind: ParserType, ms: seq<Message>, i: nat)
    requires i < |ms| - 1 && Fitting(s, kind, ms, i)
    ensures Fitting(s, kind, ms[..|ms| - 1], i)
  {
    hide Proper, Answers, HeadText, TrailerCount;
  }

  lemma FrontIsFluent(s: Settings, kind: ParserType, ms: seq<Message>)
    requires Fluent(s, kind, ms) && ms != []
    ensures Fluent(s, kind, ms[..|ms| - 1])
  {
    hide Fitting, LeavesOpen;
    var front := ms[..|ms| - 1];
    forall i | 0 <= i < |front| ensures Fitting(s, kind, front, i) { FrontFits(s, kind, ms, i); }
  }

  lemma OpenEndCloses(m: Message)
    requires Framed(m) && m.body.UpToEnd?
    ensures !KeepsAlive(m)
  {
    hide AsksChunked, AsksKeepAlive, AsksClose, AsksUpgrade, GivenLength, HttpBounds.DecimalValue;
  }

  lemma FirstIsReady(s: Settings, kind: ParserType, ms: seq<Message>)
    requires |ms| > 0 && Fitting(s, kind, ms, 0)
    ensures Ready(InitialRecord(kind), ms[0])
  {
    hide Proper, Answers, HeadText;
  }

  lemma OpenIsEnded(m: Message)
    requires Proper(m) && LeavesOpen(m)
    ensures KeepsAlive(m) && !m.body.UpToEnd?
  {
    hide KeepsAlive, Framed, ProperFirst, ProperHeaders, ProperBody;
    if m.body.UpToEnd? { OpenEndCloses(m); }
  }

  /** Behind a message that leaves the connection open the next one can be read. */
  lemma NextIsReady(s: Settings, kind: ParserType, ms: seq<Message>, p: Parser)
    requires |ms| > 1 && Behind(kind, ms[..|ms| - 1], p)
    requires Fitting(s, kind, ms, |ms| - 2) && Fitting(s, kind, ms, |ms| - 1) && LeavesOpen(ms[|ms| - 2])
    ensures Ready(p, ms[|ms| - 1]) && AtClose(ms[..|ms| - 1]) == []
  {
    var n := |ms| - 1;
    OpenIsEnded(ms[n - 1]);
    assert CountBefore(ms[..n], n) == CountBefore(ms, n) && ms[..n][n - 1] == ms[n - 1];
    hide Proper, Answers, KeepsAlive, Upgrades, HeadText, TrailerCount, ShouldKeepAlive, CountBefore;
  }

  /** One message more. */
  lemma OneMoreSpoken(s: Settings, kind: ParserType, ms: seq<Message>, r: Run, f: Run)
    requires ms != [] && Spoken(kind, ms[..|ms| - 1], r) && AtClose(ms[..|ms| - 1]) == []
    requires Ready(r.p, ms[|ms| - 1]) && IsRead(r.p, ms[|ms| - 1], f)
    ensures Spoken(kind, ms, Run(f.p, r.consumed + f.consumed, r.evs + f.evs, f.ctl))
  {
    hide Expects, KeepsAlive, Upgrades, Sights, Seen, Text, HeadText, ShouldKeepAlive, InitialRecord, TrailerCount;
    var front, m := ms[..|ms| - 1], ms[|ms| - 1];
    SeenConcat(r.evs, f.evs);
    assert Seen(r.evs) == AllSights(front);
  }

  lemma SpokenGoesOn(s: Settings, kind: ParserType, ms: seq<Message>, r: Run)
    requires Fluent(s, kind, ms) && ms != [] && Spoken(kind, ms[..|ms| - 1], r)
    ensures r.ctl.Advance? && Ready(r.p, ms[|ms| - 1]) && AtClose(ms[..|ms| - 1]) == []
  {
    var n := |ms| - 1;
    assert Fitting(s, kind, ms, n);
    if n == 0 {
      assert ms[..n] == [];
      FirstIsReady(s, kind, ms);
    } else {
      assert Fitting(s, kind, ms, n - 1) && LeavesOpen(ms[n - 1]) && ms[..n][n - 1] == ms[n - 1];
      NextIsReady(s, kind, ms, r.p);
    }
    hide Fitting, KeepsAlive, Upgrades, Ready, Seen, ShouldKeepAlive;
  }

  /** Every conversation of well-formed messages is consumed and seen as what it is. */
  lemma {:induction false} ConversationIsRead(s: Settings, kind: ParserType, ms: seq<Message>)
    requires Fluent(s, kind, ms)
    ensures Spoken(kind, ms, Feed(s, Start(InitialRecord(kind)), Texts(ms)))
    decreases |ms|
  {
    if ms == [] {
      NothingSpoken(s, kind);
    } else {
      var front, m := ms[..|ms| - 1], ms[|ms| - 1];
      assert Fitting(s, kind, ms, |ms| - 1);
      hide Fluent, Ready, Proper, Answers, Text, Feed, InitialRecord, Spoken, IsRead;
      FrontIsFluent(s, kind, ms);
      ConversationIsRead(s, kind, front);
      var r := Feed(s, Start(InitialRecord(kind)), Texts(front));
      SpokenGoesOn(s, kind, ms, r);
      MessageIsRead(s, r.p, m);
      FeedConcat(s, Start(InitialRecord(kind)), Texts(front), Text(m));
      FeedFromRun(s, r, Text(m));
      OneMoreSpoken(s, kind, ms, r, Feed(s, Start(r.p), Text(m)));
    }
  }

  lemma CloseDelivers(p: Parser, kind: ParserType, ms: seq<Message>)
    requires Behind(kind, ms, p)
    ensures var e := EndOfInput(p); e.p == p && e.consumed == 0 && e.ctl.Advance? && Seen(e.evs) == AtClose(ms)
  {
    hide KeepsAlive, ShouldKeepAlive, TrailerCount, Seen;
    NothingSeen();
    if p.state.BodyIdentityEof? { SeenOne(Notify(Complete(p))); }
  }

  lemma UpgradeHasNoBody(m: Message)
    requires Framed(m) && Upgrades(m)
    ensures !m.body.UpToEnd?
  {
  }

  /** The run, and the end of the connection if it goes on. */
  function Closed(r: Run): Run {
    if r.ctl.Advance? then
      var e := EndOfInput(r.p);
      Run(e.p, r.consumed + e.consumed, r.evs + e.evs, e.ctl)
    else r
  }

  lemma BehindIsOk(kind: ParserType, ms: seq<Message>, p: Parser)
    requires Behind(kind, ms, p)
    ensures p.errno.OK?
  {
  }

  lemma SpokenCloses(kind: ParserType, ms: seq<Message>, r: Run)
    requires Spoken(kind, ms, r) && (ms != [] ==> Framed(ms[|ms| - 1]))
    ensures var c := Closed(r); c.consumed == |Texts(ms)| && c.p.errno.OK? && Seen(c.evs) == AllSights(ms)
  {
    hide Seen, Upgrades, KeepsAlive, Texts, AllSights, EndOfInput, Framed, Behind;
    BehindIsOk(kind, ms, r.p);
    if ms != [] && Upgrades(ms[|ms| - 1]) { UpgradeHasNoBody(ms[|ms| - 1]); }
    if r.ctl.Advance? {
      CloseDelivers(r.p, kind, ms);
      SeenConcat(r.evs, EndOfInput(r.p).evs);
    }
  }

  lemma ClosedIs(s: Settings, kind: ParserType, data: string)
    ensures HttpTrace.Connection(s, kind, data, true) == Closed(Feed(s, Start(InitialRecord(kind)), data))
  {
    hide Feed, EndOfInput;
  }

  lemma LastIsFramed(s: Settings, kind: ParserType, ms: seq<Message>)
    requires Fluent(s, kind, ms) && ms != []
    ensures Framed(ms[|ms| - 1])
  {
    assert Fitting(s, kind, ms, |ms| - 1);
    hide Framed, ProperFirst, ProperBody, ProperHeaders, Answers, LeavesOpen;
  }

  /** The same up to the end of the connection, which delivers what is still to be seen. */
  lemma ConnectionIsRead(s: Settings, kind: ParserType, ms: seq<Message>)
    requires Fluent(s, kind, ms)
    ensures var r := HttpTrace.Connection(s, kind, Texts(ms), true);
      r.consumed == |Texts(ms)| && r.p.errno.OK? && Seen(r.evs) == AllSights(ms)
  {
    hide HttpTrace.Connection, Closed, Feed, Seen, Texts, AllSights, Fluent, Spoken, Framed;
    ConversationIsRead(s, kind, ms);
    ClosedIs(s, kind, Texts(ms));
    if ms != [] { LastIsFramed(s, kind, ms); }
    SpokenCloses(kind, ms, Feed(s, Start(InitialRecord(kind)), Texts(ms)));
  }

  /**
   A client serves a connection on which messages arrive in pieces of any size: it sees the
   messages.
   */
  method ServeMessages(s: Settings, kind: ParserType, pieces: seq<string>, ghost ms: seq<Message>)
    returns (consumed: nat, errno: Errno, calls: seq<Callback>)
    requires (forall i :: 0 <= i < |pieces| ==> pieces[i] != "") && Join(pieces) == Texts(ms) && Fluent(s, kind, ms)
    ensures consumed == |Texts(ms)| && errno == OK && Seen(Flatten(calls)) == AllSights(ms)
  {
    hide Texts, Join, Fluent, Flatten, Seen, HttpTrace.Connection, HttpTrace.Grammatical;
    ConnectionIsRead(s, kind, ms);
    consumed, errno, calls := HttpTrace.ServeConnection(s, kind, pieces, true);
  }

  // ---- the smallest request ----

  lemma SlashIsTaken()
    ensures UrlTaken("/", false)
  {
    assert HttpUrl.UrlRun(SpacesBeforeUrl, "") == Url(SpacesBeforeUrl);
    assert "/"[..0] == "";
  }

  lemma OneDigit(c: char, d: nat)
    requires d < 10 && Common.IsDecimalFor(c, d)
    ensures SmallNumber([c]) && HttpBounds.DecimalValue([c]) == d
  {
    assert Common.SpellsDecimal([c], d);
    HttpBounds.DecimalIsSpelled([c], d);
  }

  const SMALLEST := Message(RequestLine(GET, 0, "/", Http(0, "1", "1"), false), [], false, NoBody, false)

  lemma SmallestText()
    ensures Text(SMALLEST) == "GET / HTTP/1.1\r\n\r\n" && HeadText(SMALLEST) == Text(SMALLEST)
  {
    assert HeadersText([]) == "";
    assert VersionText(Http(0, "1", "1")) == " HTTP/1.1";
  }

  lemma SmallestIsProper()
    ensures Proper(SMALLEST) && KeepsAlive(SMALLEST) && !Upgrades(SMALLEST)
    ensures NumbersIn(SMALLEST.first) == OfRequest(GET, 1, 1)
  {
    SlashIsTaken();
    OneDigit('1', 1);
    assert "1"[0] == '1' && ['1'] == "1";
    assert GivenLength([]) == ULLONG_MAX;
    hide UrlTaken, SmallNumber, HttpBounds.DecimalValue;
  }

  lemma SmallestSights()
    ensures Sights(SMALLEST) ==
            [Starts, Datum(UrlData, '/'), Head(OfRequest(GET, 1, 1), false, ULLONG_MAX), Ends(true)]
  {
    SmallestIsProper();
    hide NumbersIn, KeepsAlive, Upgrades, Proper;
    assert "/"[..0] == "" && Shown(UrlData, "") == [];
    assert Shown(UrlData, "/") == [Datum(UrlData, '/')];
    assert HeadersSights([]) == [] && GivenLength([]) == ULLONG_MAX;
  }

  /** The smallest request. */
  lemma GetSlash(s: Settings)
    requires forall q: Parser :: !s.skipBody(q)
    ensures var r := Feed(s, Start(InitialRecord(Request)), "GET / HTTP/1.1\r\n\r\n");
      && r.ctl.Advance? && r.p.errno.OK? && r.p.state.StartReq?
      && Seen(r.evs) == [Starts, Datum(UrlData, '/'), Head(OfRequest(GET, 1, 1), false, ULLONG_MAX), Ends(true)]
  {
    hide Feed, Seen, Sights, Proper, KeepsAlive, Upgrades, Announces, HeadText, Text;
    SmallestText();
    SmallestIsProper();
    SmallestSights();
    MessageIsRead(s, InitialRecord(Request), SMALLEST);
  }
}
