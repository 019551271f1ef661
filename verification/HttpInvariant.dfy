/**
 The invariant of the parser record, kept by every turn of the switch, and with it
 that no assert() of http_parser_execute ever fails.
 */
module HttpInvariant {
  import opened HttpTypes
  import opened HttpSwitch

  /** Header states inside a header name, and those a header name leaves behind. */
  predicate FieldMatcher(h: HeaderState, index: nat) {
    match h
    case HC => index == 0
    case HCO => index == 1
    case HCON => index == 2
    case MatchingConnection | MatchingProxyConnection | MatchingContentLength
       | MatchingTransferEncoding | MatchingUpgrade => index + 2 <= |Pattern(h)|
    case General | Connection | ContentLength | TransferEncoding | Upgrade => true
    case _ => false
  }

  /** Header states inside a header value. */
  predicate ValueMatcher(h: HeaderState, index: nat, length: u64) {
    match h
    case MatchingChunked | MatchingKeepAlive | MatchingClose => index + 2 <= |Pattern(h)|
    case ContentLength => length != ULLONG_MAX
    case General | Chunked | KeepAlive | Close => true
    case _ => false
  }

  /** The value of content_length in the chunk states. */
  predicate ChunkLength(c: ChunkState, n: u64) {
    match c
    case SizeStart | DataDone => true
    case Size | Parameters | SizeAlmostDone => n != ULLONG_MAX
    case Data => n != 0 && n != ULLONG_MAX
    case DataAlmostDone => n == 0
  }

  /** What is known of the matcher and the counters in each state. */
  predicate Shape(p: Parser) {
    match p.state
    case ReqMethod => 1 <= p.index <= |MethodString(p.verb)|
    case HeaderField => FieldMatcher(p.headerState, p.index)
    case Value(v) =>
      if v.DiscardWs? || v.DiscardWsAlmostDone? || v.DiscardLws? then FieldMatcher(p.headerState, p.index)
      else ValueMatcher(p.headerState, p.index, p.contentLength)
    case Chunk(c) =>
      p.flags.chunked && !p.flags.trailing && ChunkLength(c, p.contentLength)
    case HeadersDone => !p.flags.trailing
    case BodyIdentity => Counted(p) && !p.flags.trailing
    case BodyIdentityEof => !p.flags.trailing
    case _ => true
  }

  /** Which kind of message a state belongs to. */
  predicate KindFits(p: Parser) {
    match p.state
    case StartReqOrRes | ResOrRespH => p.kind.Both?
    case StartRes | Status(_) | BodyIdentityEof => p.kind.Response?
    case StartReq | ReqMethod | Url(_) | Version(_) => p.kind.Request?
    case _ => !p.kind.Both?
  }

  predicate Inv(p: Parser) {
    p.errno.OK? && p.nread <= MAX_HEADER_SIZE && (p.flags.trailing ==> p.flags.chunked) &&
    Shape(p) && KindFits(p)
  }

  /** States entered only by goto reexecute_byte. */
  predicate Transient(s: State) { s == Value(ValueStart) || s.HeadersDone? || s.MessageDone? }

  /** The invariant between two bytes. */
  predicate AtRest(p: Parser) {
    Inv(p) && !Transient(p.state) && (p.state == Chunk(SizeStart) ==> p.nread == 0)
  }

  /** The invariant in front of the switch, the current byte having been counted. */
  predicate InByte(p: Parser) {
    Inv(p) && (p.state == Chunk(SizeStart) ==> p.nread == 1)
  }

  /** What a turn from an InByte record leaves. */
  predicate GoodTurn(p: Parser, t: Turn) {
    match t.ctl
    case Advance => AtRest(t.p)
    case Again => InByte(t.p) && !t.p.state.Chunk?
    case Fail => !t.p.errno.OK?
    case Leave => AtRest(t.p) && InStart(t.p.state)
    case Abort => false
  }

  lemma StartTurn(p: Parser, ch: char)
    requires InByte(p) && InStart(p.state)
    ensures GoodTurn(p, SwitchStart(p, ch))
  {
    hide Pattern, MethodString, InitialMethod, IsMethodInitial, FieldMatcher, ValueMatcher;
  }

  lemma StatusTurn(p: Parser, ch: char)
    requires InByte(p) && p.state.Status?
    ensures GoodTurn(p, SwitchStatus(p, ch))
  {
    hide Pattern, MethodString, FieldMatcher, ValueMatcher;
  }

  /** A switch to another method keeps the matcher inside the new method's name. */
  lemma OtherMethodInRange(m: Method, index: nat, ch: char)
    requires OtherMethod(m, index, ch).0
    ensures index + 1 <= |MethodString(OtherMethod(m, index, ch).1)|
  {
  }

  lemma MethodTurn(p: Parser, ch: char)
    requires InByte(p) && p.state.ReqMethod?
    ensures GoodTurn(p, SwitchMethod(p, ch))
  {
    if OtherMethod(p.verb, p.index, ch).0 { OtherMethodInRange(p.verb, p.index, ch); }
    hide Pattern, MethodString, OtherMethod, FieldMatcher, ValueMatcher;
  }

  /** A url character leads to another url state, past the spaces, or to Dead. */
  lemma UrlCharStates(u: UrlState, ch: char)
    ensures var s := ParseUrlChar(u, ch); s.Dead? || (s.Url? && !s.url.SpacesBeforeUrl?)
  {
    hide IsUrlChar, IsUserinfoChar, IsAlpha;
  }

  lemma UrlTurn(p: Parser, ch: char)
    requires InByte(p) && p.state.Url?
    ensures GoodTurn(p, SwitchUrl(p, ch))
  {
    UrlCharStates(p.state.url, ch);
    UrlCharStates(ServerStart, ch);
    hide Pattern, MethodString, ParseUrlChar, FieldMatcher, ValueMatcher;
  }

  lemma VersionTurn(p: Parser, ch: char)
    requires InByte(p) && p.state.Version?
    ensures GoodTurn(p, SwitchVersion(p, ch))
  {
    hide Pattern, MethodString, FieldMatcher, ValueMatcher;
  }

  /** A matcher keeps its index in range, drops back to General or completes. */
  lemma MatchStepInRange(p: Parser, c: char)
    requires Matching(p.headerState) && p.index + 2 <= |Pattern(p.headerState)|
    ensures var q := MatchStep(p, c);
      && q == p.(index := p.index + 1, headerState := q.headerState)
      && (q.headerState.General? || q.headerState == Matched(p.headerState) ||
          (q.headerState == p.headerState && q.index + 2 <= |Pattern(q.headerState)|))
  {
    hide Pattern, Matched;
  }

  lemma FieldNextTurn(p: Parser, ch: char, c: char)
    requires InByte(p) && p.state.HeaderField?
    ensures GoodTurn(p, FieldNext(p, ch, c))
  {
    hide Pattern, MethodString, MatchStep, ValueMatcher;
    match p.headerState
    case MatchingConnection | MatchingProxyConnection | MatchingContentLength
       | MatchingTransferEncoding | MatchingUpgrade => MatchStepInRange(p, c);
    case General | HC | HCO | HCON =>
    case _ =>
  }

  lemma FieldTurn(p: Parser, ch: char)
    requires InByte(p) && InField(p.state)
    ensures GoodTurn(p, SwitchField(p, ch))
  {
    hide Pattern, MethodString, FieldNext, Token, ValueMatcher;
    if p.state.HeaderField? { FieldNextTurn(p, ch, Token(ch)); }
  }

  lemma ValueFirstTurn(p: Parser, ch: char)
    requires InByte(p) && (p.state == Value(ValueStart) || p.state == Value(DiscardWs))
    ensures GoodTurn(p, ValueFirst(p, ch))
  {
    hide Pattern, MethodString, Lower, FieldMatcher;
    match p.headerState
    case Upgrade =>
    case TransferEncoding =>
    case ContentLength =>
    case Connection =>
    case _ =>
  }

  lemma ValueNextTurn(p: Parser, ch: char)
    requires InByte(p) && p.state == Value(ValueText)
    ensures GoodTurn(p, ValueNext(p, ch))
  {
    if Matching(p.headerState) { MatchStepInRange(p, Lower(ch)); }
    hide Pattern, MethodString, MatchStep, Lower, FieldMatcher;
  }

  /** A finished header sets flags and clears none. */
  lemma FlagsKept(p: Parser)
    ensures var f := HeaderFlags(p.flags, p.headerState);
      (p.flags.chunked ==> f.chunked) && (f.trailing <==> p.flags.trailing)
  {
  }

  lemma ValueTurn(p: Parser, ch: char)
    requires InByte(p) && p.state.Value?
    ensures GoodTurn(p, SwitchValue(p, ch))
  {
    hide Pattern, MethodString, ValueFirst, ValueNext, HeaderFlags, FieldMatcher, ValueMatcher;
    match p.state.value
    case ValueText => ValueNextTurn(p, ch);
    case ValueStart | DiscardWs => ValueFirstTurn(p, ch);
    case ValueLws => FlagsKept(p);
    case _ =>
  }

  lemma HeadersEndTurn(s: Settings, p: Parser, ch: char)
    requires InByte(p) && InHeadersEnd(p.state)
    ensures GoodTurn(p, SwitchHeadersEnd(s, p, ch))
  {
    hide Pattern, MethodString, FieldMatcher, ValueMatcher;
  }

  lemma BodyTurn(p: Parser, avail: nat)
    requires InByte(p) && InBody(p.state) && avail > 0
    ensures GoodTurn(p, SwitchBody(p, avail))
  {
    hide Pattern, MethodString, FieldMatcher, ValueMatcher;
  }

  lemma ChunkTurn(p: Parser, ch: char, avail: nat)
    requires InByte(p) && p.state.Chunk? && avail > 0
    ensures GoodTurn(p, SwitchChunk(p, ch, avail))
  {
    hide Pattern, MethodString, Unhex, FieldMatcher, ValueMatcher;
    match p.state.chunk
    case SizeStart =>
    case Size =>
    case Parameters =>
    case SizeAlmostDone =>
    case Data =>
    case DataAlmostDone =>
    case DataDone =>
  }

  /**
   Every turn keeps the invariant, and no turn reaches a failing assert().
   */
  lemma TurnKeepsInvariant(s: Settings, p: Parser, ch: char, avail: nat)
    requires InByte(p) && avail > 0
    ensures GoodTurn(p, Switch(s, p, ch, avail))
  {
    hide GoodTurn, InByte, SwitchStart, SwitchStatus, SwitchMethod, SwitchUrl, SwitchVersion,
      SwitchField, SwitchValue, SwitchHeadersEnd, SwitchBody, SwitchChunk;
    match p.state
    case Dead | StartReqOrRes | ResOrRespH | StartRes | StartReq => StartTurn(p, ch);
    case Status(_) => StatusTurn(p, ch);
    case ReqMethod => MethodTurn(p, ch);
    case Url(_) => UrlTurn(p, ch);
    case Version(_) => VersionTurn(p, ch);
    case HeaderFieldStart | HeaderField => FieldTurn(p, ch);
    case Value(_) => ValueTurn(p, ch);
    case HeadersAlmostDone | HeadersDone => HeadersEndTurn(s, p, ch);
    case BodyIdentity | BodyIdentityEof | MessageDone => BodyTurn(p, avail);
    case Chunk(_) => ChunkTurn(p, ch, avail);
  }

  lemma FieldNextAdvances(p: Parser, ch: char, c: char)
    ensures !FieldNext(p, ch, c).ctl.Again?
  {
    hide MatchStep;
  }

  lemma HeadersLowerRank(s: Settings, p: Parser, ch: char, avail: nat)
    requires avail > 0
    requires var q := p.state;
      q.HeaderFieldStart? || q.HeaderField? || q.Value? || q.HeadersAlmostDone? || q.HeadersDone?
    ensures var t := Switch(s, p, ch, avail);
      t.ctl.Again? ==>
        Rank(t.p.state) < Rank(p.state) && !t.p.state.Chunk? &&
        !t.p.state.BodyIdentity? && !t.p.state.BodyIdentityEof?
  {
    hide InitialMethod, IsMethodInitial, OtherMethod, MethodString, FieldFirst, FieldNext,
      MatchStep, Pattern, ParseUrlChar, Lower, Token, Unhex, NewMessage, ShouldKeepAlive;
    match p.state
    case HeaderFieldStart =>
    case HeaderField => FieldNextAdvances(p, ch, Token(ch));
    case Value(_) =>
    case HeadersAlmostDone | HeadersDone =>
  }

  /** The lines in front of the headers are never switched on again. */
  lemma LinesGoOn(p: Parser, ch: char)
    ensures p.state.Status? ==> !SwitchStatus(p, ch).ctl.Again?
    ensures p.state.ReqMethod? ==> !SwitchMethod(p, ch).ctl.Again?
    ensures p.state.Url? ==> !SwitchUrl(p, ch).ctl.Again?
    ensures p.state.Version? ==> !SwitchVersion(p, ch).ctl.Again?
  {
    hide OtherMethod, MethodString, ParseUrlChar;
  }

  lemma OthersLowerRank(s: Settings, p: Parser, ch: char, avail: nat)
    requires avail > 0
    requires var q := p.state;
      !(q.HeaderFieldStart? || q.HeaderField? || q.Value? || q.HeadersAlmostDone? || q.HeadersDone?)
    ensures var t := Switch(s, p, ch, avail);
      t.ctl.Again? ==>
        Rank(t.p.state) < Rank(p.state) && !t.p.state.Chunk? &&
        !t.p.state.BodyIdentity? && !t.p.state.BodyIdentityEof?
  {
    LinesGoOn(p, ch);
    hide InitialMethod, IsMethodInitial, SwitchStatus, SwitchMethod, SwitchUrl, SwitchVersion, SwitchField, SwitchValue,
      Unhex, NewMessage, ShouldKeepAlive;
    match p.state
    case Dead | StartReqOrRes | ResOrRespH | StartRes | StartReq =>
    case Status(_) =>
    case ReqMethod =>
    case Url(_) =>
    case Version(_) =>
    case BodyIdentity | BodyIdentityEof | MessageDone =>
    case Chunk(_) =>
  }

  /** Every goto reexecute_byte lowers the rank of the state, whatever the record holds. */
  lemma ReexecutionLowersRank(s: Settings, p: Parser, ch: char, avail: nat)
    requires avail > 0
    ensures var t := Switch(s, p, ch, avail);
      t.ctl.Again? ==>
        Rank(t.p.state) < Rank(p.state) && !t.p.state.Chunk? &&
        !t.p.state.BodyIdentity? && !t.p.state.BodyIdentityEof?
  {
    match p.state
    case HeaderFieldStart | HeaderField | Value(_) | HeadersAlmostDone | HeadersDone =>
      HeadersLowerRank(s, p, ch, avail);
    case _ => OthersLowerRank(s, p, ch, avail);
  }
}
