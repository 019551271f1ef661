/**
 What the errno of a parser says: over every run, an error names what the parser was reading
 when it met the byte that it refused.
 */
module HttpErrors {
  import opened HttpTypes
  import opened HttpSwitch
  import opened HttpInvariant
  import opened HttpRun

  /** What a message is made of, as far as errors tell its parts apart. */
  datatype Part =
    | NoMessage
    | Greeting
    | MethodName
    | Address
    | Letters
    | VersionNumber
    | StatusNumber
    | Name
    | Length
    | SizeDigits
    | LineEnd

  /** The part that a byte is met in. */
  function PartAt(st: State, ch: char): Part {
    match st
    case Dead => NoMessage
    case StartRes | ResOrRespH => Greeting
    case StartReqOrRes | StartReq | ReqMethod => MethodName
    case Url(_) => Address
    case Version(v) => (
      match v
      case ReqHttpStart => Greeting
      case ReqHttpH | ReqHttpHT | ReqHttpHTT | ReqHttpHTTP => Letters
      case ReqLineAlmostDone => LineEnd
      case _ => VersionNumber
    )
    case Status(v) => (
      match v
      case ResH | ResHT | ResHTT | ResHTTP => Letters
      case ResLineAlmostDone => LineEnd
      case ResFirstStatusCode | ResStatusCode => StatusNumber
      case _ => VersionNumber
    )
    case HeaderFieldStart | HeaderField => Name
    case Value(v) => (
      match v
      case DiscardWsAlmostDone | ValueAlmostDone => LineEnd
      case ValueLws | DiscardLws => if ch == ' ' || ch == '\t' then Length else Name
      case _ => Length
    )
    case Chunk(c) => (
      match c
      case SizeStart => SizeDigits
      case Size => if Unhex(ch) == -1 then SizeDigits else Length
      case _ => LineEnd
    )
    case _ => LineEnd
  }

  /** What is wrong with a part; in a request line a missing LF has a code of its own. */
  function Complaint(part: Part, st: State): Errno {
    match part
    case NoMessage => ClosedConnection
    case Greeting => InvalidConstant
    case MethodName => InvalidMethod
    case Address => InvalidUrl
    case Letters => StrictCheck
    case VersionNumber => InvalidVersion
    case StatusNumber => InvalidStatus
    case Name => InvalidHeaderToken
    case Length => InvalidContentLength
    case SizeDigits => InvalidChunkSize
    case LineEnd => if st == Version(ReqLineAlmostDone) then LfExpected else StrictCheck
  }

  function ErrorAt(st: State, ch: char): Errno { Complaint(PartAt(st, ch), st) }

  /** A byte that is met here is not refused. */
  predicate Smooth(st: State, ch: char) {
    st.MessageDone? || (ch == '\n' && (st == Value(ValueAlmostDone) || st.HeadersAlmostDone? || st.HeadersDone?))
  }

  lemma SmoothTurn(s: Settings, p: Parser, ch: char)
    requires Smooth(p.state, ch)
    ensures var t := Switch(s, p, ch, 1); !t.ctl.Fail? && (t.ctl.Again? ==> Smooth(t.p.state, ch))
  {
    hide ShouldKeepAlive, MessageNeedsEof;
  }

  lemma {:induction false} SmoothLoop(s: Settings, p: Parser, ch: char)
    requires Smooth(p.state, ch)
    ensures !Loop(s, p, ch).ctl.Fail?
    decreases Rank(p.state)
  {
    hide Switch, Smooth, TurnEvents;
    SmoothTurn(s, p, ch);
    ReexecutionLowersRank(s, p, ch, 1);
    var t := Switch(s, p, ch, 1);
    if t.ctl.Again? { SmoothLoop(s, t.p, ch); }
  }

  lemma BeginningComplains(s: Settings, p: Parser, ch: char)
    requires match p.state
             case Dead | StartReqOrRes | ResOrRespH | StartRes | StartReq | ReqMethod | Url(_) => true
             case _ => false
    ensures var t := Switch(s, p, ch, 1);
      && (t.ctl.Fail? ==> t.p.errno == ErrorAt(p.state, ch))
      && (t.ctl.Again? ==> ErrorAt(t.p.state, ch) == ErrorAt(p.state, ch))
  {
    hide MethodString, OtherMethod, ParseUrlChar, At;
    match p.state
    case Url(_) =>
    case _ =>
  }

  lemma LineComplains(s: Settings, p: Parser, ch: char)
    requires p.state.Status? || p.state.Version?
    ensures var t := Switch(s, p, ch, 1); !t.ctl.Again? && (t.ctl.Fail? ==> t.p.errno == ErrorAt(p.state, ch))
  {
    hide Digit;
    match p.state
    case Status(_) =>
    case Version(_) =>
  }

  lemma HeaderComplains(s: Settings, p: Parser, ch: char)
    requires p.state.HeaderFieldStart? || p.state.HeaderField? || p.state.Value?
    ensures var t := Switch(s, p, ch, 1);
      && (t.ctl.Fail? ==> t.p.errno == ErrorAt(p.state, ch))
      && (t.ctl.Again? ==> ErrorAt(t.p.state, ch) == ErrorAt(p.state, ch) || Smooth(t.p.state, ch))
  {
    hide Token, Lower, MatchStep, HeaderFlags, Digit;
    match p.state
    case Value(_) =>
    case _ =>
  }

  lemma BodyComplains(s: Settings, p: Parser, ch: char)
    requires match p.state
             case HeadersAlmostDone | HeadersDone | BodyIdentity | BodyIdentityEof | MessageDone | Chunk(_) => true
             case _ => false
    ensures var t := Switch(s, p, ch, 1);
      && (t.ctl.Fail? ==> t.p.errno == ErrorAt(p.state, ch))
      && (t.ctl.Again? ==> ErrorAt(t.p.state, ch) == ErrorAt(p.state, ch) || Smooth(t.p.state, ch))
  {
    hide ShouldKeepAlive, MessageNeedsEof, Min, Unhex;
    match p.state
    case Chunk(_) =>
    case _ =>
  }

  lemma TurnComplains(s: Settings, p: Parser, ch: char)
    ensures var t := Switch(s, p, ch, 1);
      && (t.ctl.Fail? ==> t.p.errno == ErrorAt(p.state, ch))
      && (t.ctl.Again? ==> ErrorAt(t.p.state, ch) == ErrorAt(p.state, ch) || Smooth(t.p.state, ch))
  {
    hide Switch, ErrorAt, Smooth;
    match p.state
    case HeaderFieldStart | HeaderField | Value(_) => HeaderComplains(s, p, ch);
    case HeadersAlmostDone | HeadersDone | BodyIdentity | BodyIdentityEof | MessageDone | Chunk(_) =>
      BodyComplains(s, p, ch);
    case Status(_) | Version(_) => LineComplains(s, p, ch);
    case _ => BeginningComplains(s, p, ch);
  }

  lemma {:induction false} LoopComplains(s: Settings, p: Parser, ch: char)
    ensures Loop(s, p, ch).ctl.Fail? ==> Loop(s, p, ch).p.errno == ErrorAt(p.state, ch)
    decreases Rank(p.state)
  {
    hide Switch, ErrorAt, Smooth, TurnEvents;
    TurnComplains(s, p, ch);
    ReexecutionLowersRank(s, p, ch, 1);
    var t := Switch(s, p, ch, 1);
    if t.ctl.Again? {
      if Smooth(t.p.state, ch) { SmoothLoop(s, t.p, ch); } else { LoopComplains(s, t.p, ch); }
    }
  }

  /** The byte at k is refused, and the errno says in which part of a message. */
  predicate RefusedAt(s: Settings, p: Parser, data: string, k: nat, e: Errno)
    requires k < |data|
  {
    var r := Feed(s, Start(p), data[..k]);
    && r.ctl.Advance? && r.consumed == k && StepByte(s, r.p, data[k]).ctl.Fail?
    && e == if ParsingHeader(r.p.state) && r.p.nread >= MAX_HEADER_SIZE then HeaderOverflow
            else ErrorAt(r.p.state, data[k])
  }

  lemma StepComplains(s: Settings, p: Parser, ch: char)
    requires StepByte(s, p, ch).ctl.Fail?
    ensures StepByte(s, p, ch).p.errno ==
            if ParsingHeader(p.state) && p.nread >= MAX_HEADER_SIZE then HeaderOverflow else ErrorAt(p.state, ch)
  {
    hide Loop, ErrorAt, ParsingHeader;
    LoopComplains(s, p, ch);
    LoopComplains(s, p.(nread := p.nread + 1), ch);
  }

  lemma {:induction false} ConsumedAll(s: Settings, p: Parser, data: string)
    requires Feed(s, Start(p), data).ctl.Advance?
    ensures Feed(s, Start(p), data).consumed == |data|
  {
    hide StepByte;
    if data != "" { ConsumedAll(s, p, data[..|data| - 1]); }
  }

  /**
   Every run that fails stops at the first byte that is refused, with the error of the part it
   was met in.
   */
  lemma {:induction false} ErrorsNameTheirPart(s: Settings, p: Parser, data: string)
    requires Feed(s, Start(p), data).ctl.Fail?
    ensures var f := Feed(s, Start(p), data);
      f.consumed < |data| && RefusedAt(s, p, data, f.consumed, f.p.errno)
  {
    hide StepByte, ErrorAt, ParsingHeader;
    var n := |data| - 1;
    var r := Feed(s, Start(p), data[..n]);
    if r.ctl.Advance? {
      StepComplains(s, r.p, data[n]);
      ConsumedAll(s, p, data[..n]);
    } else {
      ErrorsNameTheirPart(s, p, data[..n]);
      assert data[..n][..r.consumed] == data[..r.consumed];
    }
  }
}
