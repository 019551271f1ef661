/**
 One execution of the switch of http_parser_execute, as a function of the parser
 record, the current byte and the number of bytes left in the buffer.
 */
module HttpSwitch {
  import opened HttpTypes

  /**
   How a case of the switch ends: break, goto reexecute_byte, goto error, return,
   or a failed assert().
   */
  datatype Control = Advance | Again | Fail | Leave | Abort

  /** What a case does besides changing the record, in order. */
  datatype Act =
    | Mark(kind: Kind)       // MARK
    | Flush(kind: Kind)      // CALLBACK_DATA up to p
    | FlushIncl(kind: Kind)  // CALLBACK_DATA up to and including p
    | Call(notice: Notice)   // CALLBACK_NOTIFY

  /** skip is how far a case moves p by itself. */
  datatype Turn = Turn(p: Parser, acts: seq<Act>, ctl: Control, skip: nat)

  function Go(p: Parser): Turn { Turn(p, [], Advance, 0) }

  function GoWith(p: Parser, acts: seq<Act>): Turn { Turn(p, acts, Advance, 0) }

  function Redo(p: Parser): Turn { Turn(p, [], Again, 0) }

  function Err(p: Parser, e: Errno): Turn { Turn(p.(errno := e), [], Fail, 0) }

  /** STRICT_CHECK followed by a change of state. */
  function Expect(p: Parser, good: bool, next: State): Turn {
    if good then Go(p.(state := next)) else Err(p, StrictCheck)
  }

  // ---- message framing ----

  predicate MessageNeedsEof(p: Parser) {
    if p.kind.Request? then false
    else if p.statusCode / 100 == 1 || p.statusCode == 204 || p.statusCode == 304 || p.flags.skipBody then false
    else if p.flags.chunked || p.contentLength != ULLONG_MAX then false
    else true
  }

  predicate ShouldKeepAlive(p: Parser) {
    (if p.httpMajor > 0 && p.httpMinor > 0 then !p.flags.close else p.flags.keepAlive) &&
    !MessageNeedsEof(p)
  }

  function StartState(p: Parser): State {
    if p.kind.Request? then StartReq else StartRes
  }

  /** NEW_MESSAGE() of strict mode. */
  function NewMessage(p: Parser): State {
    if ShouldKeepAlive(p) then StartState(p) else Dead
  }

  /** Enters the next message's state and calls on_message_complete. */
  function Finish(p: Parser, ctl: Control): Turn {
    var q := p.(state := NewMessage(p));
    Turn(q, [Call(Complete(q))], ctl, 0)
  }

  // ---- url states ----

  /** The next url state, or Dead. */
  function ParseUrlChar(u: UrlState, ch: char): State {
    if ch == ' ' || ch == '\r' || ch == '\n' || ch == '\t' || ch == '\U{0C}' then Dead
    else match u
      case SpacesBeforeUrl =>
        if ch == '/' || ch == '*' then Url(Path)
        else if IsAlpha(ch) then Url(Schema)
        else Dead
      case Schema =>
        if IsAlpha(ch) then Url(Schema) else if ch == ':' then Url(SchemaSlash) else Dead
      case SchemaSlash =>
        if ch == '/' then Url(SchemaSlashSlash) else Dead
      case SchemaSlashSlash =>
        if ch == '/' then Url(ServerStart) else Dead
      case ServerWithAt | ServerStart | Server =>
        if u.ServerWithAt? && ch == '@' then Dead
        else if ch == '/' then Url(Path)
        else if ch == '?' then Url(QueryStringStart)
        else if ch == '@' then Url(ServerWithAt)
        else if IsUserinfoChar(ch) || ch == '[' || ch == ']' then Url(Server)
        else Dead
      case Path =>
        if IsUrlChar(ch) then Url(Path)
        else if ch == '?' then Url(QueryStringStart)
        else if ch == '#' then Url(FragmentStart)
        else Dead
      case QueryStringStart | QueryString =>
        if IsUrlChar(ch) || ch == '?' then Url(QueryString)
        else if ch == '#' then Url(FragmentStart)
        else Dead
      case FragmentStart =>
        if IsUrlChar(ch) || ch == '?' then Url(Fragment)
        else if ch == '#' then Url(FragmentStart)
        else Dead
      case Fragment =>
        if IsUrlChar(ch) || ch == '?' || ch == '#' then Url(Fragment)
        else Dead
  }

  // ---- the cases of the switch, grouped ----

  predicate InStart(s: State) {
    s.Dead? || s.StartReqOrRes? || s.ResOrRespH? || s.StartRes? || s.StartReq?
  }

  function InitialMethod(ch: char): Method {
    match ch
    case 'C' => CONNECT
    case 'D' => DELETE
    case 'G' => GET
    case 'H' => HEAD
    case 'L' => LOCK
    case 'M' => MKCOL
    case 'N' => NOTIFY
    case 'O' => OPTIONS
    case 'P' => POST
    case 'R' => REPORT
    case 'S' => SUBSCRIBE
    case 'T' => TRACE
    case 'U' => UNLOCK
    case _ => DELETE
  }

  predicate IsMethodInitial(ch: char) {
    ch == 'C' || ch == 'D' || ch == 'G' || ch == 'H' || ch == 'L' || ch == 'M' || ch == 'N' ||
    ch == 'O' || ch == 'P' || ch == 'R' || ch == 'S' || ch == 'T' || ch == 'U'
  }

  function SwitchStart(p: Parser, ch: char): Turn
    requires InStart(p.state)
  {
    var clean := p.(flags := NO_FLAGS, contentLength := ULLONG_MAX);
    match p.state
    case Dead =>
      if ch == '\r' || ch == '\n' then Go(p) else Err(p, ClosedConnection)
    case StartReqOrRes =>
      if ch == '\r' || ch == '\n' then Go(p)
      else if ch == 'H' then
        var q := clean.(state := ResOrRespH);
        GoWith(q, [Call(Begin(q))])
      else Redo(clean.(kind := Request, state := StartReq))
    case ResOrRespH =>
      if ch == 'T' then Go(p.(kind := Response, state := Status(ResHT)))
      else if ch != 'E' then Err(p, InvalidConstant)
      else Go(p.(kind := Request, verb := HEAD, index := 2, state := ReqMethod))
    case StartRes =>
      // on_message_begin is called for a leading CR or LF as well
      if ch == 'H' then
        var q := clean.(state := Status(ResH));
        GoWith(q, [Call(Begin(q))])
      else if ch == '\r' || ch == '\n' then GoWith(clean, [Call(Begin(clean))])
      else Err(clean, InvalidConstant)
    case StartReq =>
      if ch == '\r' || ch == '\n' then Go(p)
      else if !IsAlpha(ch) then Err(clean, InvalidMethod)
      else if !IsMethodInitial(ch) then Err(clean.(verb := DELETE, index := 1), InvalidMethod)
      else
        var q := clean.(verb := InitialMethod(ch), index := 1, state := ReqMethod);
        GoWith(q, [Call(Begin(q))])
  }

  /** A further digit of the major version. */
  function MoreMajor(p: Parser, ch: char): Turn {
    if !IsNum(ch) then Err(p, InvalidVersion)
    else
      var q := p.(httpMajor := p.httpMajor * 10 + Digit(ch));
      if q.httpMajor > 999 then Err(q, InvalidVersion) else Go(q)
  }

  /** A further digit of the minor version. */
  function MoreMinor(p: Parser, ch: char): Turn {
    if !IsNum(ch) then Err(p, InvalidVersion)
    else
      var q := p.(httpMinor := p.httpMinor * 10 + Digit(ch));
      if q.httpMinor > 999 then Err(q, InvalidVersion) else Go(q)
  }

  function SwitchStatus(p: Parser, ch: char): Turn
    requires p.state.Status?
  {
    match p.state.status
    case ResH => Expect(p, ch == 'T', Status(ResHT))
    case ResHT => Expect(p, ch == 'T', Status(ResHTT))
    case ResHTT => Expect(p, ch == 'P', Status(ResHTTP))
    case ResHTTP => Expect(p, ch == '/', Status(ResFirstHttpMajor))
    case ResFirstHttpMajor =>
      if !IsNum(ch) then Err(p, InvalidVersion)
      else Go(p.(httpMajor := Digit(ch), state := Status(ResHttpMajor)))
    case ResHttpMajor =>
      if ch == '.' then Go(p.(state := Status(ResFirstHttpMinor))) else MoreMajor(p, ch)
    case ResFirstHttpMinor =>
      if !IsNum(ch) then Err(p, InvalidVersion)
      else Go(p.(httpMinor := Digit(ch), state := Status(ResHttpMinor)))
    case ResHttpMinor =>
      if ch == ' ' then Go(p.(state := Status(ResFirstStatusCode))) else MoreMinor(p, ch)
    case ResFirstStatusCode =>
      if IsNum(ch) then Go(p.(statusCode := Digit(ch), state := Status(ResStatusCode)))
      else if ch == ' ' then Go(p)
      else Err(p, InvalidStatus)
    case ResStatusCode =>
      if IsNum(ch) then
        var q := p.(statusCode := p.statusCode * 10 + Digit(ch));
        if q.statusCode > 999 then Err(q, InvalidStatus) else Go(q)
      else if ch == ' ' then Go(p.(state := Status(ResStatusStart)))
      else if ch == '\r' then Go(p.(state := Status(ResLineAlmostDone)))
      else if ch == '\n' then Go(p.(state := HeaderFieldStart))
      else Err(p, InvalidStatus)
    case ResStatusStart =>
      if ch == '\r' then Go(p.(state := Status(ResLineAlmostDone)))
      else if ch == '\n' then Go(p.(state := HeaderFieldStart))
      else GoWith(p.(state := Status(ResStatus), index := 0), [Mark(StatusData)])
    case ResStatus =>
      if ch == '\r' then GoWith(p.(state := Status(ResLineAlmostDone)), [Flush(StatusData)])
      else if ch == '\n' then GoWith(p.(state := HeaderFieldStart), [Flush(StatusData)])
      else Go(p)
    case ResLineAlmostDone => Expect(p, ch == '\n', HeaderFieldStart)
  }

  /** The method a mismatching byte switches to, if any. */
  function OtherMethod(m: Method, index: nat, ch: char): (r: (bool, Method)) {
    if m.CONNECT? then
      if index == 1 && ch == 'H' then (true, CHECKOUT)
      else if index == 2 && ch == 'P' then (true, COPY)
      else (false, m)
    else if m.MKCOL? then
      if index == 1 && ch == 'O' then (true, MOVE)
      else if index == 1 && ch == 'E' then (true, MERGE)
      else if index == 1 && ch == '-' then (true, MSEARCH)
      else if index == 2 && ch == 'A' then (true, MKACTIVITY)
      else if index == 3 && ch == 'A' then (true, MKCALENDAR)
      else (false, m)
    else if m.SUBSCRIBE? then
      if index == 1 && ch == 'E' then (true, SEARCH) else (false, m)
    else if index == 1 && m.POST? then
      if ch == 'R' then (true, PROPFIND)
      else if ch == 'U' then (true, PUT)
      else if ch == 'A' then (true, PATCH)
      else (false, m)
    else if index == 2 then
      if m.PUT? then (if ch == 'R' then (true, PURGE) else (false, m))
      else if m.UNLOCK? then (if ch == 'S' then (true, UNSUBSCRIBE) else (false, m))
      else (false, m)
    else if index == 4 && m.PROPFIND? && ch == 'P' then (true, PROPPATCH)
    else (false, m)
  }

  function SwitchMethod(p: Parser, ch: char): Turn
    requires p.state.ReqMethod?
  {
    var expected := At(MethodString(p.verb), p.index);
    if ch == '\0' then Err(p, InvalidMethod)
    else if ch == ' ' && expected == '\0' then Go(p.(state := Url(SpacesBeforeUrl), index := p.index + 1))
    else if ch == expected then Go(p.(index := p.index + 1))
    else
      var (found, m) := OtherMethod(p.verb, p.index, ch);
      if found then Go(p.(verb := m, index := p.index + 1)) else Err(p, InvalidMethod)
  }

  /** Moves on by one url character, or fails. */
  function UrlStep(p: Parser, from: UrlState, ch: char, acts: seq<Act>): Turn {
    var q := p.(state := ParseUrlChar(from, ch));
    if q.state.Dead? then Turn(q.(errno := InvalidUrl), acts, Fail, 0) else GoWith(q, acts)
  }

  function SwitchUrl(p: Parser, ch: char): Turn
    requires p.state.Url?
  {
    match p.state.url
    case SpacesBeforeUrl =>
      if ch == ' ' then Go(p)
      else UrlStep(p, if p.verb.CONNECT? then ServerStart else SpacesBeforeUrl, ch, [Mark(UrlData)])
    case Schema | SchemaSlash | SchemaSlashSlash | ServerStart =>
      if ch == ' ' || ch == '\r' || ch == '\n' then Err(p, InvalidUrl)
      else UrlStep(p, p.state.url, ch, [])
    case _ =>
      if ch == ' ' then GoWith(p.(state := Version(ReqHttpStart)), [Flush(UrlData)])
      else if ch == '\r' then
        GoWith(p.(httpMajor := 0, httpMinor := 9, state := Version(ReqLineAlmostDone)), [Flush(UrlData)])
      else if ch == '\n' then
        GoWith(p.(httpMajor := 0, httpMinor := 9, state := HeaderFieldStart), [Flush(UrlData)])
      else UrlStep(p, p.state.url, ch, [])
  }

  function SwitchVersion(p: Parser, ch: char): Turn
    requires p.state.Version?
  {
    match p.state.version
    case ReqHttpStart =>
      if ch == 'H' then Go(p.(state := Version(ReqHttpH)))
      else if ch == ' ' then Go(p)
      else Err(p, InvalidConstant)
    case ReqHttpH => Expect(p, ch == 'T', Version(ReqHttpHT))
    case ReqHttpHT => Expect(p, ch == 'T', Version(ReqHttpHTT))
    case ReqHttpHTT => Expect(p, ch == 'P', Version(ReqHttpHTTP))
    case ReqHttpHTTP => Expect(p, ch == '/', Version(ReqFirstHttpMajor))
    case ReqFirstHttpMajor =>
      if !('1' <= ch <= '9') then Err(p, InvalidVersion)
      else Go(p.(httpMajor := Digit(ch), state := Version(ReqHttpMajor)))
    case ReqHttpMajor =>
      if ch == '.' then Go(p.(state := Version(ReqFirstHttpMinor))) else MoreMajor(p, ch)
    case ReqFirstHttpMinor =>
      if !IsNum(ch) then Err(p, InvalidVersion)
      else Go(p.(httpMinor := Digit(ch), state := Version(ReqHttpMinor)))
    case ReqHttpMinor =>
      if ch == '\r' then Go(p.(state := Version(ReqLineAlmostDone)))
      else if ch == '\n' then Go(p.(state := HeaderFieldStart))
      else MoreMinor(p, ch)
    case ReqLineAlmostDone =>
      if ch != '\n' then Err(p, LfExpected) else Go(p.(state := HeaderFieldStart))
  }

  predicate Matching(h: HeaderState) {
    h.MatchingConnection? || h.MatchingProxyConnection? || h.MatchingContentLength? ||
    h.MatchingTransferEncoding? || h.MatchingUpgrade? ||
    h.MatchingChunked? || h.MatchingKeepAlive? || h.MatchingClose?
  }

  /** The header name or value a matching state compares with. */
  function Pattern(h: HeaderState): (s: string)
    ensures Matching(h) ==> |s| >= 5
  {
    match h
    case MatchingConnection => "connection"
    case MatchingProxyConnection => "proxy-connection"
    case MatchingContentLength => "content-length"
    case MatchingTransferEncoding => "transfer-encoding"
    case MatchingUpgrade => "upgrade"
    case MatchingChunked => "chunked"
    case MatchingKeepAlive => "keep-alive"
    case MatchingClose => "close"
    case _ => ""
  }

  /** The state reached when the whole pattern has been seen. */
  function Matched(h: HeaderState): HeaderState {
    match h
    case MatchingConnection => Connection
    case MatchingProxyConnection => Connection
    case MatchingContentLength => ContentLength
    case MatchingTransferEncoding => TransferEncoding
    case MatchingUpgrade => Upgrade
    case MatchingChunked => Chunked
    case MatchingKeepAlive => KeepAlive
    case MatchingClose => Close
    case _ => General
  }

  /** One step of a matcher; sizeof(X)-1 in the source is |Pattern| here. */
  function MatchStep(p: Parser, c: char): Parser {
    var pattern := Pattern(p.headerState);
    var q := p.(index := p.index + 1);
    if q.index > |pattern| || c != At(pattern, q.index) then q.(headerState := General)
    else if q.index == |pattern| - 1 then q.(headerState := Matched(p.headerState))
    else q
  }

  predicate InField(s: State) { s.HeaderFieldStart? || s.HeaderField? }

  function FieldFirst(c: char): HeaderState {
    match c
    case 'c' => HC
    case 'p' => MatchingProxyConnection
    case 't' => MatchingTransferEncoding
    case 'u' => MatchingUpgrade
    case _ => General
  }

  /** A further token character of a header name. */
  function FieldNext(p: Parser, ch: char, c: char): Turn {
    match p.headerState
    case General => Go(p)
    case HC => Go(p.(index := p.index + 1, headerState := if c == 'o' then HCO else General))
    case HCO => Go(p.(index := p.index + 1, headerState := if c == 'n' then HCON else General))
    case HCON =>
      Go(p.(index := p.index + 1,
            headerState := if c == 'n' then MatchingConnection
                           else if c == 't' then MatchingContentLength else General))
    case MatchingConnection | MatchingProxyConnection | MatchingContentLength
       | MatchingTransferEncoding | MatchingUpgrade => Go(MatchStep(p, c))
    case Connection | ContentLength | TransferEncoding | Upgrade =>
      Go(if ch != ' ' then p.(headerState := General) else p)
    case _ => Turn(p, [], Abort, 0)  // "Unknown header_state"
  }

  function SwitchField(p: Parser, ch: char): Turn
    requires InField(p.state)
  {
    var c := Token(ch);
    match p.state
    case HeaderFieldStart =>
      if ch == '\r' then Go(p.(state := HeadersAlmostDone))
      else if ch == '\n' then Redo(p.(state := HeadersAlmostDone))
      else if c == '\0' then Err(p, InvalidHeaderToken)
      else GoWith(p.(index := 0, state := HeaderField, headerState := FieldFirst(c)), [Mark(FieldData)])
    case HeaderField =>
      if c != '\0' then FieldNext(p, ch, c)
      else if ch == ':' then GoWith(p.(state := Value(DiscardWs)), [Flush(FieldData)])
      else Err(p, InvalidHeaderToken)
  }

  /** The case of s_header_value_start. */
  function ValueFirst(p: Parser, ch: char): Turn {
    var q := p.(state := Value(ValueText), index := 0);
    var c := Lower(ch);
    match p.headerState
    case Upgrade =>
      GoWith(q.(flags := q.flags.(upgrade := true), headerState := General), [Mark(ValueData)])
    case TransferEncoding =>
      GoWith(q.(headerState := if c == 'c' then MatchingChunked else General), [Mark(ValueData)])
    case ContentLength =>
      if !IsNum(ch) then Turn(q.(errno := InvalidContentLength), [Mark(ValueData)], Fail, 0)
      else GoWith(q.(contentLength := Digit(ch)), [Mark(ValueData)])
    case Connection =>
      GoWith(q.(headerState := if c == 'k' then MatchingKeepAlive
                               else if c == 'c' then MatchingClose else General), [Mark(ValueData)])
    case _ =>
      GoWith(q.(headerState := General), [Mark(ValueData)])
  }

  /** A further byte of a header value that is neither CR nor LF. */
  function ValueNext(p: Parser, ch: char): Turn {
    match p.headerState
    case General => Go(p)
    case Connection | TransferEncoding => Turn(p, [], Abort, 0)  // "Shouldn't get here."
    case ContentLength =>
      if ch == ' ' then Go(p)
      else if !IsNum(ch) then Err(p, InvalidContentLength)
      else if (ULLONG_MAX - 10) / 10 < p.contentLength then Err(p, InvalidContentLength)
      else Go(p.(contentLength := (p.contentLength * 10 + Digit(ch)) % U64))
    case MatchingChunked | MatchingKeepAlive | MatchingClose => Go(MatchStep(p, Lower(ch)))
    case Chunked | KeepAlive | Close =>
      if ch != ' ' then Go(p.(headerState := General)) else Go(p)
    case _ => Go(p.(headerState := General))
  }

  /** The flags a finished header leaves behind. */
  function HeaderFlags(f: Flags, h: HeaderState): Flags {
    match h
    case KeepAlive => f.(keepAlive := true)
    case Close => f.(close := true)
    case Chunked => f.(chunked := true)
    case _ => f
  }

  function SwitchValue(p: Parser, ch: char): Turn
    requires p.state.Value?
  {
    match p.state.value
    case DiscardWs =>
      if ch == ' ' || ch == '\t' then Go(p)
      else if ch == '\r' then Go(p.(state := Value(DiscardWsAlmostDone)))
      else if ch == '\n' then Go(p.(state := Value(DiscardLws)))
      else ValueFirst(p, ch)
    case ValueStart => ValueFirst(p, ch)
    case ValueText =>
      if ch == '\r' then GoWith(p.(state := Value(ValueAlmostDone)), [Flush(ValueData)])
      else if ch == '\n' then Turn(p.(state := Value(ValueAlmostDone)), [Flush(ValueData)], Again, 0)
      else ValueNext(p, ch)
    case ValueAlmostDone => Expect(p, ch == '\n', Value(ValueLws))
    case ValueLws =>
      if ch == ' ' || ch == '\t' then Redo(p.(state := Value(ValueStart)))
      else Redo(p.(flags := HeaderFlags(p.flags, p.headerState), state := HeaderFieldStart))
    case DiscardWsAlmostDone => Expect(p, ch == '\n', Value(DiscardLws))
    case DiscardLws =>
      if ch == ' ' || ch == '\t' then Go(p.(state := Value(DiscardWs)))
      else Turn(p.(state := HeaderFieldStart), [Mark(ValueData), Flush(ValueData)], Again, 0)
  }

  predicate InHeadersEnd(s: State) { s.HeadersAlmostDone? || s.HeadersDone? }

  function SwitchHeadersEnd(s: Settings, p: Parser, ch: char): Turn
    requires InHeadersEnd(p.state)
  {
    match p.state
    case HeadersAlmostDone =>
      if ch != '\n' then Err(p, StrictCheck)
      else if p.flags.trailing then Finish(p, Advance)
      else
        var q := p.(state := HeadersDone, upgrade := p.flags.upgrade || p.verb.CONNECT?);
        var skip := s.skipBody(q);
        Turn(if skip then q.(flags := q.flags.(skipBody := true)) else q,
             [Call(HeadersComplete(q, skip))], Again, 0)
    case HeadersDone =>
      if ch != '\n' then Err(p, StrictCheck)
      else
        var q := p.(nread := 0);
        if q.upgrade then Finish(q, Leave)
        else if q.flags.skipBody then Finish(q, Advance)
        else if q.flags.chunked then Go(q.(state := Chunk(SizeStart)))
        else if q.contentLength == 0 then Finish(q, Advance)
        else if q.contentLength != ULLONG_MAX then Go(q.(state := BodyIdentity))
        else if q.kind.Request? || !MessageNeedsEof(q) then Finish(q, Advance)
        else Go(q.(state := BodyIdentityEof))
  }

  predicate InBody(s: State) { s.BodyIdentity? || s.BodyIdentityEof? || s.MessageDone? }

  function Min(a: nat, b: nat): nat { if a < b then a else b }

  /** The assertion in front of taking bytes from a counted body. */
  predicate Counted(p: Parser) { p.contentLength != 0 && p.contentLength != ULLONG_MAX }

  function SwitchBody(p: Parser, avail: nat): Turn
    requires InBody(p.state)
    requires avail > 0
  {
    match p.state
    case BodyIdentity =>
      if !Counted(p) then Turn(p, [], Abort, 0)
      else
        var toRead := Min(p.contentLength, avail);
        var q := p.(contentLength := p.contentLength - toRead);
        if q.contentLength == 0 then
          Turn(q.(state := MessageDone), [Mark(BodyData), FlushIncl(BodyData)], Again, toRead - 1)
        else Turn(q, [Mark(BodyData)], Advance, toRead - 1)
    case BodyIdentityEof => Turn(p, [Mark(BodyData)], Advance, avail - 1)
    case MessageDone => Finish(p, Advance)
  }

  /** The cases of the chunk states, after assert(flags & F_CHUNKED). */
  function ChunkCase(p: Parser, ch: char, avail: nat): Turn
    requires p.state.Chunk?
    requires avail > 0
  {
    match p.state.chunk
    case SizeStart =>
      if p.nread != 1 then Turn(p, [], Abort, 0)
      else if Unhex(ch) == -1 then Err(p, InvalidChunkSize)
      else Go(p.(contentLength := Unhex(ch), state := Chunk(Size)))
    case Size =>
      if ch == '\r' then Go(p.(state := Chunk(SizeAlmostDone)))
      else if Unhex(ch) == -1 then
        if ch == ';' || ch == ' ' then Go(p.(state := Chunk(Parameters))) else Err(p, InvalidChunkSize)
      else if (ULLONG_MAX - 16) / 16 < p.contentLength then Err(p, InvalidContentLength)
      else Go(p.(contentLength := (p.contentLength * 16 + Unhex(ch)) % U64))
    case Parameters =>
      if ch == '\r' then Go(p.(state := Chunk(SizeAlmostDone))) else Go(p)
    case SizeAlmostDone =>
      if ch != '\n' then Err(p, StrictCheck)
      else
        var q := p.(nread := 0);
        if q.contentLength == 0 then Go(q.(flags := q.flags.(trailing := true), state := HeaderFieldStart))
        else Go(q.(state := Chunk(Data)))
    case Data =>
      if !Counted(p) then Turn(p, [], Abort, 0)
      else
        var toRead := Min(p.contentLength, avail);
        var q := p.(contentLength := p.contentLength - toRead);
        Turn(if q.contentLength == 0 then q.(state := Chunk(DataAlmostDone)) else q,
             [Mark(BodyData)], Advance, toRead - 1)
    case DataAlmostDone =>
      if p.contentLength != 0 then Turn(p, [], Abort, 0)
      else if ch != '\r' then Err(p, StrictCheck)
      else GoWith(p.(state := Chunk(DataDone)), [Flush(BodyData)])
    case DataDone =>
      if ch != '\n' then Err(p, StrictCheck)
      else Go(p.(nread := 0, state := Chunk(SizeStart)))
  }

  function SwitchChunk(p: Parser, ch: char, avail: nat): Turn
    requires p.state.Chunk?
    requires avail > 0
  {
    if p.flags.chunked then ChunkCase(p, ch, avail) else Turn(p, [], Abort, 0)
  }

  /** The whole switch. */
  function Switch(s: Settings, p: Parser, ch: char, avail: nat): Turn
    requires avail > 0
  {
    match p.state
    case Dead | StartReqOrRes | ResOrRespH | StartRes | StartReq => SwitchStart(p, ch)
    case Status(_) => SwitchStatus(p, ch)
    case ReqMethod => SwitchMethod(p, ch)
    case Url(_) => SwitchUrl(p, ch)
    case Version(_) => SwitchVersion(p, ch)
    case HeaderFieldStart | HeaderField => SwitchField(p, ch)
    case Value(_) => SwitchValue(p, ch)
    case HeadersAlmostDone | HeadersDone => SwitchHeadersEnd(s, p, ch)
    case BodyIdentity | BodyIdentityEof | MessageDone => SwitchBody(p, avail)
    case Chunk(_) => SwitchChunk(p, ch, avail)
  }

  /** Strictly smaller after every goto reexecute_byte. */
  function Rank(s: State): nat {
    match s
    case StartReqOrRes => 1
    case Value(v) => if v.ValueLws? || v.DiscardLws? then 5 else if v.ValueText? then 1 else 0
    case HeaderFieldStart => 3
    case HeadersAlmostDone => 2
    case HeadersDone => 1
    case BodyIdentity => 1
    case _ => 0
  }
}
