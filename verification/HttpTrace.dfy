/**
 What the owner of a parser observes: the callback trace, of requests as of responses, follows
 the grammar of HTTP messages, with bodies of exactly the announced length and nothing after a
 message that closes the connection.
 */
module HttpTrace {
  import opened HttpTypes
  import opened HttpSwitch
  import opened HttpInvariant
  import opened HttpRun
  import opened HttpTape
  import opened HttpExecute

  /** Where a trace is between two observations. */
  datatype Phase =
    | Idle                      // a message may begin
    | Closed                    // no further message may begin
    | Begun(kind: ParserType)   // no byte of the url or the status text yet
    | OnUrl
    | OnStatus
    | OnName(trailer: bool)     // in a header or trailer name, which still lacks its value
    | OnValue(trailer: bool)    // in its value
    | NoValue(trailer: bool)    // behind its value, which was empty
    | Identity(left: nat)       // body bytes left
    | Chunks                    // in a chunked body
    | ToEnd                     // in a body that reaches to the end of the input
    | Wrong

  /** The body announced by the record on_headers_complete sees (section 4.4 of RFC 2616). */
  function AnnouncedBody(p: Parser, skip: bool): Phase {
    if p.upgrade || skip || p.flags.skipBody then Identity(0)
    else if p.flags.chunked then Chunks
    else if p.contentLength != ULLONG_MAX then Identity(p.contentLength)
    else if p.kind.Request? || !MessageNeedsEof(p) then Identity(0)
    else ToEnd
  }

  function EndOfMessage(p: Parser): Phase {
    if ShouldKeepAlive(p) then Idle else Closed
  }

  /** Header lines, or trailer lines, each name of which has had its value. */
  predicate BehindFields(ph: Phase, trailer: bool) {
    (ph.OnValue? && ph.trailer == trailer) || (ph.NoValue? && ph.trailer == trailer)
  }

  /** The first line of a message is over; a response need not have a status text. */
  predicate BehindFirstLine(ph: Phase) { ph.OnUrl? || ph.OnStatus? || (ph.Begun? && !ph.kind.Request?) }

  /**
   The grammar, as an automaton over observations.  A name is followed by exactly one value,
   bytes or an empty one, before the next name and before the headers or trailers end.  A
   response may begin more than once, because every CR or LF in front of it begins it.
   */
  function Next(ph: Phase, e: Ev): Phase {
    match e
    case Byte(UrlData, _) => if (ph.Begun? && !ph.kind.Response?) || ph.OnUrl? then OnUrl else Wrong
    case Byte(StatusData, _) => if (ph.Begun? && !ph.kind.Request?) || ph.OnStatus? then OnStatus else Wrong
    case Byte(FieldData, _) =>
      if BehindFirstLine(ph) then OnName(false)
      else if ph.OnName? then ph
      else if ph.OnValue? || ph.NoValue? then OnName(ph.trailer)
      else if ph.Chunks? then OnName(true)
      else Wrong
    case Byte(ValueData, _) =>
      if ph.OnName? then OnValue(ph.trailer) else if ph.OnValue? then ph else Wrong
    case Byte(BodyData, _) =>
      if ph.Identity? && ph.left > 0 then Identity(ph.left - 1)
      else if ph.Chunks? || ph.ToEnd? then ph
      else Wrong
    case Empty(k) => if k.ValueData? && ph.OnName? then NoValue(ph.trailer) else Wrong
    case Notify(Begin(p)) =>
      if ph.Idle? || (ph == Begun(Response) && p.kind.Response?) then Begun(p.kind) else Wrong
    case Notify(HeadersComplete(p, skip)) =>
      if BehindFirstLine(ph) || BehindFields(ph, false) then AnnouncedBody(p, skip) else Wrong
    case Notify(Complete(p)) =>
      if ph == Identity(0) || ph.Chunks? || ph.ToEnd? || BehindFields(ph, true) then EndOfMessage(p) else Wrong
  }

  function After(ph: Phase, evs: seq<Ev>): Phase {
    if evs == [] then ph else Next(After(ph, evs[..|evs| - 1]), evs[|evs| - 1])
  }

  /** Every prefix of the trace is within the grammar; Wrong is never left. */
  predicate Grammatical(evs: seq<Ev>) { !After(Idle, evs).Wrong? }

  lemma {:induction false} AfterConcat(ph: Phase, a: seq<Ev>, b: seq<Ev>)
    ensures After(ph, a + b) == After(After(ph, a), b)
  {
    hide Next;
    if b == [] {
      assert a + b == a;
    } else {
      AfterConcat(ph, a, b[..|b| - 1]);
      assert (a + b)[..|a + b| - 1] == a + b[..|b| - 1];
    }
  }

  lemma AfterOne(ph: Phase, e: Ev)
    ensures After(ph, [e]) == Next(ph, e)
  {
    hide Next;
    assert [e][..0] == [];
  }

  // ---- the grammar and the parser's states ----

  /** Between the header lines of a message, or its trailer lines. */
  predicate HeaderPhase(ph: Phase, trailing: bool) {
    BehindFields(ph, trailing) || (if trailing then ph.Chunks? else BehindFirstLine(ph))
  }

  /** The body a parser will read after its headers, once they are done. */
  predicate BodyPhase(p: Parser, ph: Phase) {
    if p.upgrade || p.flags.skipBody then ph == Identity(0)
    else if p.flags.chunked then ph.Chunks?
    else if p.contentLength != ULLONG_MAX then ph == Identity(p.contentLength)
    else if p.kind.Request? || !MessageNeedsEof(p) then ph == Identity(0)
    else ph.ToEnd?
  }

  /** Where the trace is in the first line of a response. */
  predicate StatusPhase(st: StatusState, ph: Phase) {
    if st.ResStatus? then ph.OnStatus?
    else if st.ResLineAlmostDone? then ph.OnStatus? || (ph.Begun? && !ph.kind.Request?)
    else ph.Begun? && !ph.kind.Request?
  }

  /** Where the trace is when a parser is in a state. */
  predicate PhaseFits(p: Parser, ph: Phase) {
    match p.state
    case Dead => ph.Closed?
    case StartReqOrRes | StartReq => ph.Idle?
    case ResOrRespH => ph == Begun(Both) && !p.flags.trailing
    case StartRes => ph.Idle? || ph == Begun(Response)
    case Status(st) => StatusPhase(st, ph) && !p.flags.trailing
    case ReqMethod => ph.Begun? && !ph.kind.Response? && !p.flags.trailing
    case Url(u) =>
      (if u.SpacesBeforeUrl? then ph.Begun? && !ph.kind.Response? else ph.OnUrl?) && !p.flags.trailing
    case Version(_) => ph.OnUrl? && !p.flags.trailing
    case HeaderFieldStart | HeadersAlmostDone => HeaderPhase(ph, p.flags.trailing)
    case HeaderField => ph == OnName(p.flags.trailing)
    case Value(v) =>
      if v.ValueText? || v.ValueAlmostDone? || v.ValueLws? || v.ValueStart? then ph == OnValue(p.flags.trailing)
      else ph == OnName(p.flags.trailing)
    case HeadersDone => BodyPhase(p, ph)
    case Chunk(_) => ph.Chunks?
    case BodyIdentity => ph == Identity(p.contentLength)
    case BodyIdentityEof => ph.ToEnd?
    case MessageDone => ph == Identity(0)
  }

  /** The phase after the one observation, if any, a turn makes. */
  function PhaseAfter(ph: Phase, from: State, t: Turn, ch: char): Phase {
    var data := DataKind(from, t);
    if data != [] then Next(ph, Byte(data[0], ch))
    else if t.acts == [] then ph
    else match t.acts[0]
      case Call(n) => Next(ph, Notify(n))
      case Mark(k) => if t.acts[1..] == [Flush(k)] then Next(ph, Empty(k)) else ph
      case _ => ph
  }

  /** What the acts of a turn make observable, written out. */
  lemma ActNotices(from: State, t: Turn)
    requires Tidy(from, t)
    ensures Notices(t.acts) ==
            if t.acts == [] then []
            else match t.acts[0]
              case Call(n) => [Notify(n)]
              case Mark(k) => if t.acts[1..] == [Flush(k)] then [Empty(k)] else []
              case _ => []
    ensures |DataKind(from, t)| <= 1 && (DataKind(from, t) != [] ==> Notices(t.acts) == [])
  {
    hide MarkKind, Notices;
    if |t.acts| == 0 {
      NoNotices();
    } else if |t.acts| == 1 {
      assert t.acts == [t.acts[0]];
      NoticesOne(t.acts[0]);
    } else {
      assert t.acts == [t.acts[0], t.acts[1]];
      NoticesTwo(t.acts[0], t.acts[1]);
    }
  }

  lemma AfterNone(ph: Phase)
    ensures After(ph, []) == ph
  {
  }

  /** A turn delivers at most one byte, or makes one other observation. */
  lemma ObservationOf(from: State, t: Turn, ch: char)
    requires Tidy(from, t)
    ensures TurnEvents(from, t, [ch]) ==
            if DataKind(from, t) != [] then [Byte(DataKind(from, t)[0], ch)] else Notices(t.acts)
  {
    ActNotices(from, t);
    hide Tidy, DataKind, AsData, Notices;
    if DataKind(from, t) != [] { OneByteData(DataKind(from, t)[0], ch); }
  }

  lemma OneObservation(ph: Phase, from: State, t: Turn, ch: char)
    requires Tidy(from, t)
    ensures After(ph, TurnEvents(from, t, [ch])) == PhaseAfter(ph, from, t, ch)
  {
    ActNotices(from, t);
    ObservationOf(from, t, ch);
    AfterNone(ph);
    hide Next, Tidy, DataKind, After, TurnEvents, Notices;
    if DataKind(from, t) != [] {
      AfterOne(ph, Byte(DataKind(from, t)[0], ch));
    } else if t.acts != [] {
      match t.acts[0]
      case Call(n) => AfterOne(ph, Notify(n));
      case Mark(k) => AfterOne(ph, Empty(k));
      case _ =>
    }
  }

  /** A turn moves the trace on in step with the state. */
  predicate KeepsPhase(p: Parser, ph: Phase, t: Turn, ch: char) {
    t.ctl.Advance? || t.ctl.Again? || t.ctl.Leave? ==> PhaseFits(t.p, PhaseAfter(ph, p.state, t, ch))
  }

  predicate InPhase(p: Parser, ph: Phase) { KindFits(p) && PhaseFits(p, ph) }

  lemma StartPhase(p: Parser, ph: Phase, ch: char)
    requires InPhase(p, ph) && InStart(p.state)
    ensures KeepsPhase(p, ph, SwitchStart(p, ch), ch)
  {
    hide InitialMethod, IsMethodInitial;
  }

  lemma StatusTurn(p: Parser, ch: char)
    requires p.state.Status?
    ensures var t, st := SwitchStatus(p, ch), p.state.status;
      && t.p.flags == p.flags && t.p.kind == p.kind && (t.ctl.Advance? || t.ctl.Fail?)
      && (t.ctl.Advance? ==>
            && (t.p.state.HeaderFieldStart?
                || (t.p.state.Status? && (st.ResLineAlmostDone? ==> t.p.state.status == st)))
            && (t.acts == [] || t.acts == [Mark(StatusData)] || t.acts == [Flush(StatusData)])
            && (st.ResStatus? && t.p.state.Status? ==>
                  t.p.state.status.ResStatus? || t.p.state.status.ResLineAlmostDone?))
  {
    match p.state.status
    case ResStatusStart =>
    case ResStatus =>
    case ResStatusCode =>
    case ResLineAlmostDone =>
    case _ =>
  }

  lemma StatusPhaseKept(p: Parser, ph: Phase, ch: char)
    requires InPhase(p, ph) && p.state.Status?
    ensures KeepsPhase(p, ph, SwitchStatus(p, ch), ch)
  {
    StatusTurn(p, ch);
    hide SwitchStatus, BodyPhase;
  }

  lemma MethodPhase(p: Parser, ph: Phase, ch: char)
    requires InPhase(p, ph) && p.state.ReqMethod?
    ensures KeepsPhase(p, ph, SwitchMethod(p, ch), ch)
  {
    hide MethodString, OtherMethod;
  }

  lemma UrlPhase(p: Parser, ph: Phase, ch: char)
    requires InPhase(p, ph) && p.state.Url?
    ensures KeepsPhase(p, ph, SwitchUrl(p, ch), ch)
  {
    UrlCharStates(p.state.url, ch);
    UrlCharStates(ServerStart, ch);
    hide ParseUrlChar;
  }

  lemma LineEnds(ph: Phase)
    requires ph.OnUrl?
    ensures HeaderPhase(ph, false)
  {
  }

  lemma VersionTurn(p: Parser, ch: char)
    requires p.state.Version?
    ensures var t := SwitchVersion(p, ch);
      && t.acts == [] && t.p.flags == p.flags && t.p.kind == p.kind && (t.ctl.Advance? || t.ctl.Fail?)
      && (t.p.state.Version? || t.p.state.HeaderFieldStart?)
  {
    match p.state.version
    case ReqHttpMinor | ReqLineAlmostDone =>
    case _ =>
  }

  lemma VersionPhase(p: Parser, ph: Phase, ch: char)
    requires InPhase(p, ph) && p.state.Version?
    ensures KeepsPhase(p, ph, SwitchVersion(p, ch), ch)
  {
    hide HeaderPhase, BodyPhase;
    VersionTurn(p, ch);
    var t := SwitchVersion(p, ch);
    hide SwitchVersion;
    if t.ctl.Advance? && !t.p.state.Version? { assert HeaderPhase(ph, false) by { LineEnds(ph); } }
  }

  lemma FieldNextFlags(p: Parser, ch: char, c: char)
    ensures FieldNext(p, ch, c).p.flags == p.flags && FieldNext(p, ch, c).p.kind == p.kind
  {
    hide Pattern;
  }

  lemma FieldPhase(p: Parser, ph: Phase, ch: char)
    requires InPhase(p, ph) && InField(p.state)
    ensures KeepsPhase(p, ph, SwitchField(p, ch), ch)
  {
    hide Token, FieldNext, FieldFirst;
    if p.state.HeaderField? {
      FieldNextStays(p, ch, Token(ch));
      FieldNextFlags(p, ch, Token(ch));
    }
  }

  lemma ValueNextFlags(p: Parser, ch: char)
    ensures ValueNext(p, ch).p.flags == p.flags && ValueNext(p, ch).p.kind == p.kind
  {
    hide Pattern, Lower;
  }

  /** The bytes of a connection and, after them, the zero-length call if the other side closes it. */
  function Connection(s: Settings, kind: ParserType, data: string, closed: bool): Run {
    var r := Feed(s, Start(InitialRecord(kind)), data);
    if closed && r.ctl.Advance? then
      var e := EndOfInput(r.p);
      Run(e.p, r.consumed + e.consumed, r.evs + e.evs, e.ctl)
    else r
  }

  lemma ValueFirstPhase(p: Parser, ph: Phase, ch: char)
    requires InPhase(p, ph) && (p.state == Value(ValueStart) || p.state == Value(DiscardWs))
    ensures KeepsPhase(p, ph, ValueFirst(p, ch), ch)
  {
    hide Lower;
    match p.headerState
    case Upgrade =>
    case TransferEncoding =>
    case ContentLength =>
    case Connection =>
    case _ =>
  }

  lemma ValuePhase(p: Parser, ph: Phase, ch: char)
    requires InPhase(p, ph) && p.state.Value?
    ensures KeepsPhase(p, ph, SwitchValue(p, ch), ch)
  {
    hide HeaderFlags, Lower, ValueNext, ValueFirst;
    match p.state.value
    case ValueText => ValueNextStays(p, ch); ValueNextFlags(p, ch);
    case ValueStart | DiscardWs => ValueFirstPhase(p, ph, ch);
    case ValueLws => FlagsKept(p);
    case _ =>
  }

  /** The keep-alive verdict does not depend on the state. */
  lemma VerdictKept(p: Parser, s: State)
    ensures ShouldKeepAlive(p.(state := s)) == ShouldKeepAlive(p)
  {
  }

  lemma FinishPhase(p: Parser, ph: Phase, ctl: Control, ch: char)
    requires !p.kind.Both? && !BodyByte(p.state) && (ctl.Advance? || ctl.Leave?)
    requires ph == Identity(0) || ph.Chunks? || BehindFields(ph, true)
    ensures KeepsPhase(p, ph, Finish(p, ctl), ch)
  {
    hide ShouldKeepAlive;
    VerdictKept(p, NewMessage(p));
  }

  lemma HeadersCompletePhase(s: Settings, p: Parser, ph: Phase, ch: char)
    requires InPhase(p, ph) && p.state.HeadersAlmostDone? && !p.flags.trailing
    ensures KeepsPhase(p, ph, SwitchHeadersEnd(s, p, ch), ch)
  {
    hide Finish, ShouldKeepAlive, MessageNeedsEof, EndOfMessage, OpenKind;
  }

  lemma HeadersDonePhase(s: Settings, p: Parser, ph: Phase, ch: char)
    requires InPhase(p, ph) && p.state.HeadersDone?
    ensures KeepsPhase(p, ph, SwitchHeadersEnd(s, p, ch), ch)
  {
    hide Finish, ShouldKeepAlive;
    var q := p.(nread := 0);
    if ph == Identity(0) {
      FinishPhase(q, ph, Leave, ch);
      FinishPhase(q, ph, Advance, ch);
    }
  }

  lemma HeadersEndPhase(s: Settings, p: Parser, ph: Phase, ch: char)
    requires InPhase(p, ph) && InHeadersEnd(p.state)
    ensures KeepsPhase(p, ph, SwitchHeadersEnd(s, p, ch), ch)
  {
    hide Finish, ShouldKeepAlive, MessageNeedsEof, PhaseAfter, BodyPhase;
    if p.state.HeadersAlmostDone? {
      if p.flags.trailing { FinishPhase(p, ph, Advance, ch); } else { HeadersCompletePhase(s, p, ph, ch); }
    } else {
      HeadersDonePhase(s, p, ph, ch);
    }
  }

  lemma BodyPhaseKept(p: Parser, ph: Phase, ch: char)
    requires InPhase(p, ph) && InBody(p.state)
    ensures KeepsPhase(p, ph, SwitchBody(p, 1), ch)
  {
    hide Finish;
    if p.state.MessageDone? { FinishPhase(p, ph, Advance, ch); }
  }

  lemma ChunkPhase(p: Parser, ph: Phase, ch: char)
    requires InPhase(p, ph) && p.state.Chunk?
    ensures KeepsPhase(p, ph, SwitchChunk(p, ch, 1), ch)
  {
    hide Unhex;
    match p.state.chunk
    case SizeStart =>
    case Size =>
    case Parameters =>
    case SizeAlmostDone =>
    case Data =>
    case DataAlmostDone =>
    case DataDone =>
  }

  lemma TurnKeepsPhase(s: Settings, p: Parser, ph: Phase, ch: char)
    requires InPhase(p, ph)
    ensures KeepsPhase(p, ph, Switch(s, p, ch, 1), ch)
  {
    hide KeepsPhase, SwitchStart, SwitchStatus, SwitchMethod, SwitchUrl, SwitchVersion,
      SwitchField, SwitchValue, SwitchHeadersEnd, SwitchBody, SwitchChunk;
    match p.state
    case Dead | StartReqOrRes | ResOrRespH | StartRes | StartReq => StartPhase(p, ph, ch);
    case Status(_) => StatusPhaseKept(p, ph, ch);
    case ReqMethod => MethodPhase(p, ph, ch);
    case Url(_) => UrlPhase(p, ph, ch);
    case Version(_) => VersionPhase(p, ph, ch);
    case HeaderFieldStart | HeaderField => FieldPhase(p, ph, ch);
    case Value(_) => ValuePhase(p, ph, ch);
    case HeadersAlmostDone | HeadersDone => HeadersEndPhase(s, p, ph, ch);
    case BodyIdentity | BodyIdentityEof | MessageDone => BodyPhaseKept(p, ph, ch);
    case Chunk(_) => ChunkPhase(p, ph, ch);
  }

  lemma FreshIsIdle(kind: ParserType)
    ensures PhaseFits(InitialRecord(kind), After(Idle, []))
  {
  }

  lemma FitIsNotWrong(p: Parser, ph: Phase)
    requires PhaseFits(p, ph)
    ensures !ph.Wrong?
  {
  }

  // ---- over bytes and runs ----

  /** What has been observed is within the grammar, and fits the record unless there is an error. */
  predicate Within(p: Parser, ctl: Control, ph: Phase) {
    && (ctl.Advance? || ctl.Leave? ==> PhaseFits(p, ph))
    && (ctl.Fail? ==> !ph.Wrong?)
  }

  /** A failing turn delivers nothing. */
  lemma FailIsSilent(s: Settings, p: Parser, ch: char)
    requires Switch(s, p, ch, 1).ctl.Fail?
    ensures TurnEvents(p.state, Switch(s, p, ch, 1), [ch]) == []
  {
    hide Switch;
    TurnIsTidy(s, p, ch, 1);
    FailIgnoresAvail(s, p, ch, 1);
    var acts := Switch(s, p, ch, 1).acts;
    if acts == [] {
      NoNotices();
    } else {
      assert acts == [acts[0]];
      NoticesOne(acts[0]);
    }
  }

  lemma {:induction false} LoopKeepsPhase(s: Settings, p: Parser, ph: Phase, ch: char)
    requires InByte(p) && PhaseFits(p, ph)
    ensures var o := Loop(s, p, ch); Within(o.p, o.ctl, After(ph, o.evs))
    decreases Rank(p.state)
  {
    AfterNone(ph);
    FitIsNotWrong(p, ph);
    hide Switch, TurnEvents, PhaseFits, PhaseAfter, Tidy, After, Rank, Shape;
    var t := Switch(s, p, ch, 1);
    TurnKeepsInvariant(s, p, ch, 1);
    ReexecutionLowersRank(s, p, ch, 1);
    TurnKeepsPhase(s, p, ph, ch);
    TurnIsTidy(s, p, ch, 1);
    var evs := TurnEvents(p.state, t, [ch]);
    if t.ctl.Fail? { FailIsSilent(s, p, ch); }
    if t.ctl.Advance? || t.ctl.Again? || t.ctl.Leave? { OneObservation(ph, p.state, t, ch); }
    if t.ctl.Again? {
      LoopKeepsPhase(s, t.p, After(ph, evs), ch);
      AfterConcat(ph, evs, Loop(s, t.p, ch).evs);
    }
  }

  lemma CountingKeepsPhase(p: Parser, ph: Phase)
    requires PhaseFits(p, ph)
    ensures PhaseFits(Counting(p), ph)
  {
  }

  lemma StepKeepsPhase(s: Settings, p: Parser, ph: Phase, ch: char)
    requires AtRest(p) && PhaseFits(p, ph)
    ensures var o := StepByte(s, p, ch); Within(o.p, o.ctl, After(ph, o.evs))
  {
    hide Loop, After, PhaseFits, AtRest, InByte, ParsingHeader;
    AfterNone(ph);
    FitIsNotWrong(p, ph);
    CountingKeepsPhase(p, ph);
    var q := Counting(p);
    if q.nread <= MAX_HEADER_SIZE || !ParsingHeader(p.state) {
      CountedInByte(p);
      LoopKeepsPhase(s, q, ph, ch);
    }
  }

  lemma {:induction false} FeedKeepsPhase(s: Settings, r: Run, start: Phase, data: string)
    requires r.ctl.Advance? && AtRest(r.p) && PhaseFits(r.p, After(start, r.evs))
    ensures var f := Feed(s, r, data); Within(f.p, f.ctl, After(start, f.evs))
  {
    hide StepByte, PhaseFits, After, AtRest;
    if data != "" {
      var n := |data| - 1;
      var front := Feed(s, r, data[..n]);
      FeedKeepsPhase(s, r, start, data[..n]);
      FeedKeepsInvariant(s, r, data[..n]);
      if front.ctl.Advance? {
        StepKeepsPhase(s, front.p, After(start, front.evs), data[n]);
        AfterConcat(start, front.evs, StepByte(s, front.p, data[n]).evs);
      }
    }
  }

  /**
   Every run of a fresh parser, for requests, responses or both, is observed as a grammatical
   sequence of messages: begin, url or status text, header fields each with its value, headers
   complete, a body of exactly the announced length, a chunked one with optional trailers or
   one that reaches to the end of the input, message complete.  Once a message whose
   keep-alive verdict is 0 is complete, the phase is Closed, which admits no observation.  An
   error cuts the trace short, and nothing more.
   */
  lemma TraceIsGrammatical(s: Settings, kind: ParserType, data: string)
    ensures var r := Feed(s, Start(InitialRecord(kind)), data);
      && !r.ctl.Abort?
      && Grammatical(r.evs)
      && (!r.ctl.Fail? ==> PhaseFits(r.p, After(Idle, r.evs)))
  {
    hide Feed, PhaseFits;
    var first := Start(InitialRecord(kind));
    InitialIsAtRest(kind);
    FeedKeepsInvariant(s, first, data);
    assert PhaseFits(first.p, After(Idle, [])) by { FreshIsIdle(kind); }
    FeedKeepsPhase(s, first, Idle, data);
    var r := Feed(s, first, data);
    if !r.ctl.Fail? { FitIsNotWrong(r.p, After(Idle, r.evs)); }
  }

  /** The zero-length call either completes a body or observes nothing. */
  lemma EndFails(p: Parser)
    ensures var e := EndOfInput(p); e.ctl.Fail? ==> e.evs == [] && !e.p.errno.OK?
    ensures p.errno.OK? && !EndOfInput(p).ctl.Fail? ==> EndOfInput(p).p.errno.OK?
  {
  }

  /** The same with the end of the connection, which completes a body that reaches to it. */
  lemma ConnectionIsGrammatical(s: Settings, kind: ParserType, data: string, closed: bool)
    ensures Grammatical(Connection(s, kind, data, closed).evs)
  {
    hide Feed, After;
    TraceIsGrammatical(s, kind, data);
    var r := Feed(s, Start(InitialRecord(kind)), data);
    if closed && r.ctl.Advance? {
      var e := EndOfInput(r.p);
      AfterConcat(Idle, r.evs, e.evs);
      AfterNone(After(Idle, r.evs));
      if r.p.state.BodyIdentityEof? { AfterOne(After(Idle, r.evs), Notify(Complete(r.p))); }
    }
  }

  // ---- the end of a connection ----

  /** Something has been observed since the last message was complete. */
  predicate Midway(evs: seq<Ev>) {
    evs != [] && !(evs[|evs| - 1].Notify? && evs[|evs| - 1].notice.Complete?)
  }

  lemma IdleIsBetween(evs: seq<Ev>)
    requires Grammatical(evs)
    ensures var ph := After(Idle, evs); Midway(evs) <==> !ph.Idle? && !ph.Closed?
  {
    if evs != [] {
      var front := evs[..|evs| - 1];
      PrefixIsGrammatical(evs, |front|);
      LeadsOn(After(Idle, front), evs[|evs| - 1]);
    }
  }

  /** Only the end of a message leads to where a further one may begin, or none. */
  lemma LeadsOn(ph: Phase, e: Ev)
    requires !Next(ph, e).Wrong?
    ensures Next(ph, e).Idle? || Next(ph, e).Closed? <==> e.Notify? && e.notice.Complete?
  {
  }

  lemma StatesBetween(p: Parser, ph: Phase)
    requires PhaseFits(p, ph) && KindFits(p) && p.kind.Request?
    ensures EndOfInput(p).ctl.Fail? <==> !ph.Idle? && !ph.Closed?
    ensures EndOfInput(p).ctl.Fail? ==> EndOfInput(p).p.errno == InvalidEofState
  {
  }

  lemma TurnKeepsKind(s: Settings, p: Parser, ch: char)
    requires !p.kind.Both? && KindFits(p)
    ensures Switch(s, p, ch, 1).p.kind == p.kind
  {
    hide InitialMethod, IsMethodInitial, OtherMethod, MethodString, FieldFirst,
      Pattern, ParseUrlChar, Lower, Token, Unhex, ShouldKeepAlive, IsNum;
    match p.state
    case Dead | StartReqOrRes | ResOrRespH | StartRes | StartReq =>
    case Status(_) =>
    case ReqMethod =>
    case Url(_) =>
    case Version(_) =>
    case HeaderFieldStart | HeaderField =>
    case Value(_) =>
    case HeadersAlmostDone | HeadersDone =>
    case BodyIdentity | BodyIdentityEof | MessageDone =>
    case Chunk(_) =>
  }

  lemma {:induction false} LoopKeepsKind(s: Settings, p: Parser, ch: char)
    requires !p.kind.Both? && InByte(p)
    ensures Loop(s, p, ch).p.kind == p.kind
    decreases Rank(p.state)
  {
    hide Switch, TurnEvents, Rank, Shape, KindFits;
    TurnKeepsKind(s, p, ch);
    TurnKeepsInvariant(s, p, ch, 1);
    ReexecutionLowersRank(s, p, ch, 1);
    var t := Switch(s, p, ch, 1);
    if t.ctl.Again? { LoopKeepsKind(s, t.p, ch); }
  }

  lemma {:induction false} FeedKeepsKind(s: Settings, r: Run, data: string)
    requires r.ctl.Advance? && AtRest(r.p) && !r.p.kind.Both?
    ensures Feed(s, r, data).p.kind == r.p.kind
  {
    hide Loop, Shape, KindFits;
    if data != "" {
      var front := Feed(s, r, data[..|data| - 1]);
      FeedKeepsKind(s, r, data[..|data| - 1]);
      FeedKeepsInvariant(s, r, data[..|data| - 1]);
      if front.ctl.Advance? && Counting(front.p).nread <= MAX_HEADER_SIZE {
        CountedInByte(front.p);
        LoopKeepsKind(s, Counting(front.p), data[|data| - 1]);
      }
    }
  }

  /**
   When the other side closes the connection of a request parser, that is an error exactly if
   a message has begun that is not complete.
   */
  lemma CutShortIsAnError(s: Settings, data: string)
    requires Feed(s, Start(InitialRecord(Request)), data).ctl.Advance?
    ensures var r := Feed(s, Start(InitialRecord(Request)), data);
      && (EndOfInput(r.p).ctl.Fail? <==> Midway(r.evs))
      && (Midway(r.evs) ==> EndOfInput(r.p).p.errno == InvalidEofState)
  {
    hide Feed, PhaseFits, After, EndOfInput, Midway;
    TraceIsGrammatical(s, Request, data);
    var first := Start(InitialRecord(Request));
    InitialIsAtRest(Request);
    FeedKeepsInvariant(s, first, data);
    FeedKeepsKind(s, first, data);
    var r := Feed(s, first, data);
    IdleIsBetween(r.evs);
    StatesBetween(r.p, After(Idle, r.evs));
  }

  // ---- where responses differ ----

  /** A response parser begins a message for every CR or LF in front of it. */
  lemma BreakBeginsResponse(s: Settings, p: Parser, c: char)
    requires p.state.StartRes? && p.nread < MAX_HEADER_SIZE && (c == '\r' || c == '\n')
    ensures var o := StepByte(s, p, c);
      o.ctl.Advance? && o.p.state.StartRes? && |o.evs| == 1 && o.evs[0].Notify? && o.evs[0].notice.Begin?
  {
    hide Notices;
    var q := p.(nread := p.nread + 1);
    NoticesOne(SwitchStart(q, c).acts[0]);
  }

  /** The statuses whose responses have no body (section 4.4 of RFC 2616). */
  predicate Bodiless(p: Parser) { p.statusCode / 100 == 1 || p.statusCode == 204 || p.statusCode == 304 }

  /**
   The parser reads no body for such a response exactly when the headers announce none
   either, or it is told not to.
   */
  lemma BodilessExactly(p: Parser, skip: bool)
    requires Bodiless(p)
    ensures AnnouncedBody(p, skip) == Identity(0) <==>
            p.upgrade || skip || p.flags.skipBody ||
            (!p.flags.chunked && (p.contentLength == 0 || p.contentLength == ULLONG_MAX))
  {
  }

  // ---- what the grammar says ----

  lemma {:induction false} WrongIsFinal(evs: seq<Ev>)
    ensures After(Wrong, evs).Wrong?
  {
    if evs != [] { WrongIsFinal(evs[..|evs| - 1]); }
  }

  /** Every prefix of a grammatical trace is grammatical. */
  lemma PrefixIsGrammatical(evs: seq<Ev>, n: nat)
    requires Grammatical(evs) && n <= |evs|
    ensures Grammatical(evs[..n])
  {
    hide After;
    assert evs == evs[..n] + evs[n..];
    AfterConcat(Idle, evs[..n], evs[n..]);
    if After(Idle, evs[..n]).Wrong? { WrongIsFinal(evs[n..]); }
  }

  lemma {:induction false} ClosedIsFinal(evs: seq<Ev>)
    requires evs != []
    ensures After(Closed, evs).Wrong?
  {
    var front := evs[..|evs| - 1];
    if front != [] { ClosedIsFinal(front); }
  }

  /** After a message that closes the connection nothing is observed any more. */
  lemma NothingAfterClose(evs: seq<Ev>, n: nat)
    requires Grammatical(evs) && n < |evs|
    requires evs[n].Notify? && evs[n].notice.Complete? && !ShouldKeepAlive(evs[n].notice.p)
    ensures n == |evs| - 1
  {
    hide ShouldKeepAlive;
    PrefixIsGrammatical(evs, n + 1);
    assert evs[..n + 1][..n] == evs[..n];
    assert After(Idle, evs[..n + 1]) == Closed;
    assert evs == evs[..n + 1] + evs[n + 1..];
    AfterConcat(Idle, evs[..n + 1], evs[n + 1..]);
    if evs[n + 1..] != [] { ClosedIsFinal(evs[n + 1..]); }
  }

  /**
   A whole connection.  However its bytes are cut into buffers, and whether or not it is
   closed behind them, the callbacks, those before an error included, follow the grammar.
   */
  method ServeConnection(s: Settings, kind: ParserType, pieces: seq<string>, closed: bool)
    returns (consumed: nat, errno: Errno, calls: seq<Callback>)
    requires forall i :: 0 <= i < |pieces| ==> pieces[i] != ""
    ensures Grammatical(Flatten(calls))
    ensures var r := Connection(s, kind, Join(pieces), closed);
      && consumed == r.consumed && errno == r.p.errno
      && (errno.OK? ==> Flatten(calls) == r.evs) && Flatten(calls) <= r.evs
  {
    hide Feed, Flatten, After, Join, AtRest, EndOfInput;
    var parser := new HttpParser(kind);
    ghost var first := Start(parser.rec);
    ConnectionIsGrammatical(s, kind, Join(pieces), closed);
    ghost var whole := Connection(s, kind, Join(pieces), closed);
    FeedKeepsInvariant(s, first, Join(pieces));
    FeedSettlesUpgrade(s, parser.rec, Join(pieces));
    ghost var r := Feed(s, first, Join(pieces));
    if !r.ctl.Fail? { RestIsOk(r.p); }
    consumed, calls := parser.ExecuteAll(s, pieces);
    if closed && parser.rec.errno.OK? && !parser.rec.upgrade {
      ghost var before := calls;
      var more, last := parser.Execute(s, "");
      consumed, calls := consumed + more, calls + last;
      FlattenConcat(before, last);
      EndFails(r.p);
    }
    errno := parser.rec.errno;
    PrefixIsGrammatical(whole.evs, |Flatten(calls)|);
    assert Flatten(calls) == whole.evs[..|Flatten(calls)|];
  }

  lemma {:induction false} StillCounting(n: nat, body: seq<Ev>)
    requires forall i :: 0 <= i < |body| ==> body[i].Byte?
    ensures var ph := After(Identity(n), body);
      ph.Wrong? || (|body| <= n && ph == Identity(n - |body|) && forall i :: 0 <= i < |body| ==> body[i].kind.BodyData?)
  {
    if body != [] {
      StillCounting(n, body[..|body| - 1]);
    }
  }

  /** Between notifications, a body of announced length n has exactly n bytes. */
  lemma {:induction false} AnnouncedLength(n: nat, body: seq<Ev>, done: Notice)
    requires forall i :: 0 <= i < |body| ==> body[i].Byte?
    requires done.Complete? && !After(Identity(n), body + [Notify(done)]).Wrong?
    ensures |body| == n && forall i :: 0 <= i < |body| ==> body[i].kind.BodyData?
  {
    assert (body + [Notify(done)])[..|body|] == body;
    StillCounting(n, body);
  }
}
