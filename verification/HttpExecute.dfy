/**
 http_parser_execute as it is written: a loop over the buffer with marks into it, bulk
 skips over body bytes and data callbacks that hand out slices, proved to observe
 exactly what the bytewise runs of HttpRun observe.
 */
module HttpExecute {
  import opened HttpTypes
  import opened HttpSwitch
  import opened HttpInvariant
  import opened HttpRun
  import opened HttpTape

  // ---- bulk skips ----

  /** p after n of its body bytes. */
  function AfterBody(p: Parser, n: nat): Parser
    requires p.state.BodyIdentityEof? || n <= p.contentLength
  {
    if p.state.BodyIdentityEof? then p else p.(contentLength := p.contentLength - n)
  }

  /** What the assertions on a body state say. */
  predicate BodyBytesCounted(p: Parser) {
    BodyByte(p.state) ==>
      (p.state.BodyIdentityEof? || p.contentLength != ULLONG_MAX) && (p.flags.chunked || !p.state.Chunk?)
  }

  /** A body byte that is not the last one. */
  lemma BodyStep(s: Settings, p: Parser, ch: char)
    requires BodyByte(p.state) && BodyBytesCounted(p)
    requires p.state.BodyIdentityEof? || 1 < p.contentLength
    ensures StepByte(s, p, ch) == Outcome(AfterBody(p, 1), [Byte(BodyData, ch)], Advance)
  {
    OneByteData(BodyData, ch);
    NoticesOne(Mark(BodyData));
    hide AsData, Notices;
  }

  lemma {:induction false} FeedBody(s: Settings, r: Run, bytes: string)
    requires r.ctl.Advance? && BodyByte(r.p.state) && BodyBytesCounted(r.p)
    requires r.p.state.BodyIdentityEof? || |bytes| < r.p.contentLength
    ensures Feed(s, r, bytes) ==
            Run(AfterBody(r.p, |bytes|), r.consumed + |bytes|, r.evs + AsData(BodyData, bytes), Advance)
  {
    hide StepByte;
    if bytes != "" {
      var n := |bytes| - 1;
      FeedBody(s, r, bytes[..n]);
      BodyStep(s, AfterBody(r.p, n), bytes[n]);
    }
  }

  /** A bulk turn is the single-byte turn at the last byte it covers. */
  lemma BulkTurn(s: Settings, p: Parser, ch: char, last: char, avail: nat)
    requires avail > 0 && BodyByte(p.state) && !Switch(s, p, ch, avail).ctl.Abort?
    ensures var t := Switch(s, p, ch, avail);
      && t.skip < avail
      && (p.state.BodyIdentityEof? || t.skip < p.contentLength)
      && (p.state.BodyIdentityEof? || p.contentLength != ULLONG_MAX)
      && (p.flags.chunked || !p.state.Chunk?)
      && Switch(s, AfterBody(p, t.skip), last, 1) == t.(skip := 0)
  {
  }

  lemma SkipInRange(s: Settings, p: Parser, ch: char, avail: nat)
    requires avail > 0
    ensures var t := Switch(s, p, ch, avail);
      (t.ctl.Advance? || t.ctl.Again? || t.ctl.Leave?) ==>
        t.skip < avail && (!BodyByte(p.state) ==> t.skip == 0 && t == Switch(s, p, ch, 1))
  {
    hide SwitchStart, SwitchStatus, SwitchMethod, SwitchUrl, SwitchVersion,
      SwitchField, SwitchValue, SwitchHeadersEnd, ShouldKeepAlive, Unhex, MarkKind;
    TurnIsTidy(s, p, ch, avail);
    if BodyByte(p.state) && !Switch(s, p, ch, avail).ctl.Abort? { BulkTurn(s, p, ch, ch, avail); }
  }

  /** The record a turn at the last byte it covers starts from. */
  function AtLastByte(p: Parser, t: Turn): Parser
    requires BodyByte(p.state) && !p.state.BodyIdentityEof? ==> t.skip <= p.contentLength
  {
    if BodyByte(p.state) then AfterBody(p, t.skip) else p
  }

  /** The bytes of a turn before its last one are body data. */
  lemma TurnEventsSplit(p: Parser, t: Turn, init: string, last: char)
    requires BodyByte(p.state) || init == ""
    ensures TurnEvents(p.state, t, init + [last]) ==
            AsData(BodyData, init) + TurnEvents(p.state, t, [last])
  {
    hide Notices, OpenKind, AsData;
    if BodyByte(p.state) {
      AsDataConcat(BodyData, init, [last]);
    } else {
      assert init + [last] == [last];
      EmptyData(BodyData);
    }
  }

  lemma SameEvents(q: Parser, p: Parser, t: Turn, last: char)
    requires q.state == p.state
    ensures TurnEvents(q.state, t.(skip := 0), [last]) == TurnEvents(p.state, t, [last])
  {
  }

  lemma DoneIgnoresByte(s: Settings, p: Parser, a: char, b: char, avail: nat)
    requires p.state.MessageDone? && avail > 0
    ensures Switch(s, p, a, avail) == Switch(s, p, b, avail) && !Switch(s, p, a, avail).ctl.Fail?
  {
  }

  lemma FailIgnoresAvail(s: Settings, p: Parser, ch: char, avail: nat)
    requires avail > 0 && Switch(s, p, ch, avail).ctl.Fail?
    ensures Switch(s, p, ch, 1) == Switch(s, p, ch, avail) && !BodyByte(p.state)
  {
    hide SwitchStart, SwitchStatus, SwitchMethod, SwitchUrl, SwitchVersion,
      SwitchField, SwitchValue, SwitchHeadersEnd, ShouldKeepAlive, Unhex;
  }

  /**
   One turn of the code at position at, against the bytewise machine at the last byte
   the turn covers.
   */
  lemma TurnRefines(s: Settings, data: string, tape: Tape, p: Parser, at: nat, ch: char)
    requires InByte(p) && Fits(p.state, tape.marks) && at < |data| && Collected(tape, at)
    requires ch == data[at] || p.state.MessageDone?
    ensures var t := Switch(s, p, ch, |data| - at);
      && !t.ctl.Abort?
      && (t.ctl.Advance? || t.ctl.Again? || t.ctl.Leave? ==>
            && at + t.skip < |data|
            && (BodyByte(p.state) && !p.state.BodyIdentityEof? ==> t.skip < p.contentLength)
            && (t.skip == 0 || BodyByte(p.state))
            && var last := data[at + t.skip];
               var evs := TurnEvents(p.state, t, [last]);
            && Loop(s, AtLastByte(p, t), last) ==
               (if t.ctl.Again? then var o := Loop(s, t.p, last); Outcome(o.p, evs + o.evs, o.ctl)
                else Outcome(t.p, evs, t.ctl))
            && var r := PerformAll(data, tape, t.acts, at, at + t.skip);
               Fits(t.p.state, r.marks) && Collected(r, at + t.skip + 1) &&
               Rendered(data, r, at + t.skip + 1) ==
               Rendered(data, tape, at) + AsData(BodyData, data[at..at + t.skip]) + evs)
      && (t.ctl.Fail? ==> exists evs :: Loop(s, p, data[at]) == Outcome(t.p, evs, Fail))
  {
    hide Switch, InByte, Fits, PerformAll, Rendered, Tidy, TurnEvents, AsData;
    var avail := |data| - at;
    var t := Switch(s, p, ch, avail);
    assert !t.ctl.Abort? by { TurnKeepsInvariant(s, p, ch, avail); }
    TurnIsTidy(s, p, ch, avail);
    SkipInRange(s, p, ch, avail);
    if p.state.MessageDone? {
      DoneIgnoresByte(s, p, ch, data[at], avail);
      DoneIgnoresByte(s, p, ch, data[at], 1);
    }
    if t.ctl.Fail? {
      FailIgnoresAvail(s, p, ch, avail);
      assert Loop(s, p, data[at]) == Outcome(t.p, TurnEvents(p.state, t, [data[at]]), Fail);
    } else {
      var to := at + t.skip;
      TidyTurnRenders(data, tape, p.state, t, at);
      assert data[at..to + 1] == data[at..to] + [data[to]];
      TurnEventsSplit(p, t, data[at..to], data[to]);
      if BodyByte(p.state) {
        BulkTurn(s, p, ch, data[to], avail);
        SameEvents(AfterBody(p, t.skip), p, t, data[to]);
      }
    }
  }

  /** The record http_parser_init leaves. */
  function InitialRecord(kind: ParserType): Parser {
    Parser(kind, NO_FLAGS,
           match kind case Request => StartReq case Response => StartRes case Both => StartReqOrRes,
           General, 0, 0, 0, 0, 0, 0, DELETE, OK, false)
  }

  lemma InitialIsAtRest(kind: ParserType)
    ensures AtRest(InitialRecord(kind))
  {
  }

  /** Whether the code, starting at i, may treat position to as its current byte. */
  predicate ByteAt(start: Parser, i: nat, to: nat) {
    i <= to && (to == i || (BodyByte(start.state) && (start.state.BodyIdentityEof? || to - i < start.contentLength)))
  }

  /** The record in front of that byte. */
  function FromByte(start: Parser, i: nat, to: nat): Parser
    requires ByteAt(start, i, to)
  {
    if to == i then start else AfterBody(start, to - i)
  }

  /** Between two turns of one byte: the record p at position to, against the byte as a whole. */
  ghost predicate Midway(s: Settings, data: string, start: Parser, i: nat, before: seq<Ev>,
                         p: Parser, to: nat, tape: Tape)
  {
    i <= to < |data| && InByte(p) && Fits(p.state, tape.marks) && Collected(tape, to) &&
    ((p == start && to == i) || !BodyByte(p.state)) &&
    (to == i || p.state.MessageDone?) &&
    ByteAt(start, i, to) &&
    var whole, rest := Loop(s, FromByte(start, i, to), data[to]), Loop(s, p, data[to]);
    whole.p == rest.p && whole.ctl == rest.ctl &&
    before + AsData(BodyData, data[i..to]) + whole.evs == Rendered(data, tape, to) + rest.evs
  }

  /** After the last turn of a byte. */
  ghost predicate Finished(s: Settings, data: string, start: Parser, i: nat, before: seq<Ev>,
                           p: Parser, to: nat, tape: Tape, ctl: Control)
  {
    i <= to < |data| && ByteAt(start, i, to) &&
    var o := Loop(s, FromByte(start, i, to), data[to]);
    p == o.p && ctl == o.ctl &&
    if ctl.Fail? then to == i && Flatten(tape.calls) <= before + o.evs
    else
      Fits(p.state, tape.marks) && Collected(tape, to + 1) &&
      Rendered(data, tape, to + 1) == before + AsData(BodyData, data[i..to]) + o.evs
  }

  lemma AgainTargets(s: Settings, p: Parser, ch: char, avail: nat)
    requires avail > 0 && Switch(s, p, ch, avail).ctl.Again?
    ensures MarkKind(Switch(s, p, ch, avail).p.state) == []
    ensures BodyByte(p.state) ==> Switch(s, p, ch, avail).p.state.MessageDone?
    ensures !p.state.MessageDone?
  {
    hide SwitchStart, SwitchStatus, SwitchMethod, SwitchUrl, SwitchVersion,
      SwitchField, SwitchValue, SwitchHeadersEnd, ShouldKeepAlive, Unhex;
    TurnIsTidy(s, p, ch, avail);
    ReexecutionLowersRank(s, p, ch, avail);
  }

  /** After a goto no mark is set, so the position does not matter to what is rendered. */
  lemma NoMarkAfterAgain(s: Settings, data: string, p: Parser, ch: char, avail: nat, tape: Tape, upto: nat)
    requires avail > 0 && upto < |data| && MarksBefore(tape, upto) && Collected(tape, upto + 1)
    requires var t := Switch(s, p, ch, avail); t.ctl.Again? && Fits(t.p.state, tape.marks)
    ensures Collected(tape, upto)
    ensures Rendered(data, tape, upto) == Rendered(data, tape, upto + 1)
    ensures !BodyByte(Switch(s, p, ch, avail).p.state)
  {
    hide Switch, Pending, Flatten, Rank;
    ReexecutionLowersRank(s, p, ch, avail);
    AgainTargets(s, p, ch, avail);
    assert tape.marks == map[];
    NothingPending(data, tape.marks, upto);
    NothingPending(data, tape.marks, upto + 1);
  }

  lemma DeliveredFirst(data: string, tape: Tape, upto: nat)
    requires upto <= |data| && MarksBefore(tape, upto)
    ensures Flatten(tape.calls) <= Rendered(data, tape, upto)
  {
    hide Pending, Flatten;
  }

  lemma CancelRight(a: seq<Ev>, b: seq<Ev>, c: seq<Ev>)
    requires a + c == b + c
    ensures a == b
  {
    assert |a + c| == |b + c|;
    assert a == (a + c)[..|a|] && b == (b + c)[..|b|];
  }

  lemma BodyStart(s: Settings, data: string, start: Parser, i: nat, before: seq<Ev>,
                  p: Parser, to: nat, tape: Tape)
    requires Midway(s, data, start, i, before, p, to, tape) && BodyByte(p.state)
    ensures Rendered(data, tape, to) == before
  {
    hide InByte, Fits, Rendered, Loop;
    var evs := Loop(s, p, data[to]).evs;
    assert data[i..to] == "";
    assert before + [] + evs == Rendered(data, tape, to) + evs;
    CancelRight(before, Rendered(data, tape, to), evs);
  }

  /** One turn of the loop inside SwitchByte. */
  lemma TurnMidway(s: Settings, data: string, start: Parser, i: nat, before: seq<Ev>,
                   p: Parser, to: nat, tape: Tape)
    requires Midway(s, data, start, i, before, p, to, tape)
    ensures var t := Switch(s, p, data[i], |data| - to);
      if t.ctl.Fail? then Finished(s, data, start, i, before, t.p, to, tape, Fail)
      else
        to + t.skip < |data| && !t.ctl.Abort? &&
        var r := PerformAll(data, tape, t.acts, to, to + t.skip);
        if t.ctl.Again? then Midway(s, data, start, i, before, t.p, to + t.skip, r)
        else Finished(s, data, start, i, before, t.p, to + t.skip, r, t.ctl)
  {
    hide Switch, InByte, Fits, PerformAll, Rendered, TurnEvents, AsData, Loop, Rank;
    var ch := data[i];
    var t := Switch(s, p, ch, |data| - to);
    TurnRefines(s, data, tape, p, to, ch);
    TurnKeepsInvariant(s, p, ch, |data| - to);
    if t.ctl.Fail? {
      FailIgnoresAvail(s, p, ch, |data| - to);
      assert to == i by { if p.state.MessageDone? { DoneIgnoresByte(s, p, ch, ch, |data| - to); } }
      assert data[i..i] == "";
      EmptyData(BodyData);
      DeliveredFirst(data, tape, to);
      var whole, rest := Loop(s, FromByte(start, i, to), data[to]), Loop(s, p, data[to]);
      assert before + whole.evs == Rendered(data, tape, to) + rest.evs;
    } else {
      var r := PerformAll(data, tape, t.acts, to, to + t.skip);
      assert data[to..to] == "";
      EmptyData(BodyData);
      if BodyByte(p.state) {
        assert data[i..i] == "";
        assert Rendered(data, tape, to) == before by { BodyStart(s, data, start, i, before, p, to, tape); }
      }
      if t.ctl.Again? {
        NoMarkAfterAgain(s, data, p, ch, |data| - to, r, to + t.skip);
        AgainTargets(s, p, ch, |data| - to);
      }
    }
  }

  // ---- whole buffers ----

  /** The marks set before the first byte, by the state left over from the last buffer. */
  function EntryMarks(state: State): Tape {
    if OpenKind(state) == [] then Tape(map[], {}, [])
    else Tape(map[OpenKind(state)[0] := 0], {OpenKind(state)[0]}, [])
  }

  lemma EntryRenders(data: string, state: State)
    ensures Fits(state, EntryMarks(state).marks) && Collected(EntryMarks(state), 0)
    ensures Rendered(data, EntryMarks(state), 0) == []
  {
    hide AsData;
    if OpenKind(state) != [] {
      var k := OpenKind(state)[0];
      PendingOne(data, EntryMarks(state).marks, k, 0);
      assert data[0..0] == "";
      EmptyData(k);
    }
  }

  lemma NothingPendingRendered(data: string, tape: Tape, upto: nat)
    requires upto <= |data| && tape.marks == map[]
    ensures Rendered(data, tape, upto) == Flatten(tape.calls)
  {
    hide Flatten;
    NothingPending(data, tape.marks, upto);
  }

  /** At most one mark is set when the buffer ends, and delivering it renders everything. */
  lemma RestRenders(data: string, tape: Tape, state: State)
    requires Fits(state, tape.marks) && Collected(tape, |data|)
    ensures |tape.marks| <= 1
    ensures Flatten(DeliverRest(data, tape).calls) == Rendered(data, tape, |data|)
  {
    hide MarkKind, AsData, Flatten, Rendered;
    var n := |data|;
    if MarkKind(state) == [] {
      assert tape.marks == map[];
      assert Rendered(data, tape, n) == Flatten(tape.calls) by { NothingPendingRendered(data, tape, n); }
    } else {
      var k := MarkKind(state)[0];
      assert tape.marks.Keys <= {k};
      if k !in tape.marks { assert tape.marks == map[]; }
      else { assert tape.marks.Keys == {k}; assert |tape.marks| == |tape.marks.Keys|; }
      DeliverRenders(data, tape, k, n);
      var r := Deliver(data, tape, k, n);
      assert DeliverRest(data, tape) == r;
      NothingPendingRendered(data, r, n);
    }
  }

  /** Between messages no mark is set. */
  lemma RestRendersNothing(data: string, tape: Tape, state: State, upto: nat)
    requires InStart(state) && Fits(state, tape.marks) && upto <= |data|
    ensures MarksBefore(tape, upto) && Rendered(data, tape, upto) == Flatten(tape.calls)
  {
    hide Rendered;
    assert tape.marks == map[];
    NothingPendingRendered(data, tape, upto);
  }

  /** The record after the header count at the top of the loop. */
  function Counting(p: Parser): Parser {
    if ParsingHeader(p.state) then p.(nread := p.nread + 1) else p
  }

  /** The record that the bytewise machine has in front of position to. */
  function FrontRecord(p0: Parser, i: nat, to: nat): Parser
    requires ByteAt(Counting(p0), i, to)
  {
    if to == i then p0 else AfterBody(p0, to - i)
  }

  lemma RestCounted(p: Parser)
    requires AtRest(p)
    ensures BodyBytesCounted(p)
  {
  }

  /** The bytes in front of position to, all of them body data. */
  lemma FeedUpTo(s: Settings, data: string, p0: Parser, i: nat, before: seq<Ev>, first: Run, to: nat)
    requires AtRest(p0) && i <= to < |data| && ByteAt(Counting(p0), i, to)
    requires Feed(s, first, data[..i]) == Run(p0, i, before, Advance)
    ensures Feed(s, first, data[..to]) ==
            Run(FrontRecord(p0, i, to), to, before + AsData(BodyData, data[i..to]), Advance)
  {
    hide StepByte, AsData, Shape, KindFits;
    assert data[..to] == data[..i] + data[i..to];
    FeedConcat(s, first, data[..i], data[i..to]);
    if to == i {
      assert data[i..to] == "";
      EmptyData(BodyData);
    } else {
      RestCounted(p0);
      FeedBody(s, Run(p0, i, before, Advance), data[i..to]);
    }
  }

  lemma FeedLast(s: Settings, first: Run, data: string, to: nat)
    requires to < |data|
    ensures Feed(s, first, data[..to + 1]) == Take(s, Feed(s, first, data[..to]), data[to])
  {
    hide Take;
    assert data[..to + 1][..to] == data[..to];
  }

  /** Counting the byte at position to, the machine switches on what the code switches on. */
  lemma StepFrom(s: Settings, data: string, p0: Parser, i: nat, to: nat)
    requires i <= to < |data| && ByteAt(Counting(p0), i, to) && Counting(p0).nread <= MAX_HEADER_SIZE
    ensures StepByte(s, FrontRecord(p0, i, to), data[to]) == Loop(s, FromByte(Counting(p0), i, to), data[to])
  {
    hide Loop;
  }

  /** The run over the buffer up to and including the bytes of one pass of the loop. */
  lemma PassRefines(s: Settings, data: string, p0: Parser, i: nat, before: seq<Ev>, first: Run,
                    p: Parser, to: nat, tape: Tape, ctl: Control)
    requires AtRest(p0) && i < |data| && Counting(p0).nread <= MAX_HEADER_SIZE
    requires Feed(s, first, data[..i]) == Run(p0, i, before, Advance)
    requires Finished(s, data, Counting(p0), i, before, p, to, tape, ctl)
    ensures i <= to < |data|
    ensures var r := Feed(s, first, data[..to + 1]);
      && r.p == p && r.ctl == ctl
      && r.consumed == (if ctl.Advance? || ctl.Leave? then to + 1 else to)
      && (if ctl.Fail? then Flatten(tape.calls) <= r.evs
          else Fits(p.state, tape.marks) && Collected(tape, to + 1) && r.evs == Rendered(data, tape, to + 1))
  {
    hide Feed, Loop, StepByte, Fits, Rendered, AsData, AtRest, MarkKind, Flatten, MarksBefore, FromByte, ByteAt,
      Counting;
    FeedUpTo(s, data, p0, i, before, first, to);
    FeedLast(s, first, data, to);
    StepFrom(s, data, p0, i, to);
  }

  lemma CountedInByte(p: Parser)
    requires AtRest(p) && (ParsingHeader(p.state) ==> p.nread + 1 <= MAX_HEADER_SIZE)
    ensures InByte(Counting(p)) && Counting(p).nread <= MAX_HEADER_SIZE
  {
    hide Shape, KindFits;
    CountingKeepsShape(p);
  }

  lemma OverflowRefines(s: Settings, data: string, p0: Parser, i: nat, before: seq<Ev>, first: Run)
    requires i < |data| && ParsingHeader(p0.state) && p0.nread + 1 > MAX_HEADER_SIZE
    requires Feed(s, first, data[..i]) == Run(p0, i, before, Advance)
    ensures Feed(s, first, data[..i + 1]) ==
            Run(p0.(nread := p0.nread + 1, errno := HeaderOverflow), i, before, Fail)
  {
    hide Loop;
    assert data[..i + 1][..i] == data[..i];
  }

  /** A pass that stops the loop settles the whole buffer. */
  lemma StopSettles(s: Settings, first: Run, data: string, n: nat)
    requires n <= |data| && !Feed(s, first, data[..n]).ctl.Advance?
    ensures Feed(s, first, data) == Feed(s, first, data[..n])
  {
    hide Feed;
    assert data == data[..n] + data[n..];
    FeedConcat(s, first, data[..n], data[n..]);
    StoppedFeed(s, Feed(s, first, data[..n]), data[n..]);
  }

  lemma FirstCallKeepsInvariant(s: Settings, p: Parser, data: string)
    requires AtRest(p) && data != ""
    ensures var r := Execution(s, p, data);
      (r.p.errno.OK? ==> AtRest(r.p)) && (r.ctl.Fail? <==> !r.p.errno.OK?)
  {
    hide Feed;
    FeedKeepsInvariant(s, Start(p), data);
  }

  // ---- many buffers ----

  function Join(pieces: seq<string>): string {
    if pieces == [] then "" else Join(pieces[..|pieces| - 1]) + pieces[|pieces| - 1]
  }

  /** The bytes of one more piece. */
  lemma FeedPiece(s: Settings, p0: Parser, pieces: seq<string>, i: nat)
    requires i < |pieces|
    ensures Feed(s, Start(p0), Join(pieces[..i + 1])) == Feed(s, Feed(s, Start(p0), Join(pieces[..i])), pieces[i])
  {
    hide Feed;
    assert pieces[..i + 1][..i] == pieces[..i];
    FeedConcat(s, Start(p0), Join(pieces[..i]), pieces[i]);
  }

  /** Once a run has stopped, further pieces do not matter. */
  lemma {:induction false} StopSettlesPieces(s: Settings, p0: Parser, pieces: seq<string>, i: nat)
    requires i <= |pieces| && !Feed(s, Start(p0), Join(pieces[..i])).ctl.Advance?
    ensures Feed(s, Start(p0), Join(pieces)) == Feed(s, Start(p0), Join(pieces[..i]))
    decreases |pieces| - i
  {
    hide Feed, Join;
    if i == |pieces| {
      assert pieces[..i] == pieces;
    } else {
      FeedPiece(s, p0, pieces, i);
      StoppedFeed(s, Feed(s, Start(p0), Join(pieces[..i])), pieces[i]);
      StopSettlesPieces(s, p0, pieces, i + 1);
    }
  }

  /** p.upgrade is set only between the end of the headers and the exit for an upgrade. */
  predicate UpgradeSettled(o: Outcome) {
    (o.ctl.Advance? ==> !o.p.upgrade) && (o.ctl.Leave? ==> o.p.upgrade)
  }

  /** The cases in front of the end of the headers leave the upgrade field alone. */
  lemma LineKeepsUpgrade(p: Parser, ch: char)
    ensures InStart(p.state) ==> var t := SwitchStart(p, ch); t.p.upgrade == p.upgrade && !t.ctl.Leave?
    ensures p.state.Status? ==> var t := SwitchStatus(p, ch); t.p.upgrade == p.upgrade && !t.ctl.Leave?
    ensures p.state.ReqMethod? ==> var t := SwitchMethod(p, ch); t.p.upgrade == p.upgrade && !t.ctl.Leave?
    ensures p.state.Url? ==> var t := SwitchUrl(p, ch); t.p.upgrade == p.upgrade && !t.ctl.Leave?
    ensures p.state.Version? ==> var t := SwitchVersion(p, ch); t.p.upgrade == p.upgrade && !t.ctl.Leave?
  {
    hide MethodString, OtherMethod, ParseUrlChar, IsMethodInitial, InitialMethod;
    match p.state
    case Status(_) =>
    case ReqMethod =>
    case Url(_) =>
    case Version(_) =>
    case _ =>
  }

  lemma HeaderKeepsUpgrade(p: Parser, ch: char)
    ensures InField(p.state) ==> var t := SwitchField(p, ch); t.p.upgrade == p.upgrade && !t.ctl.Leave?
    ensures p.state.Value? ==> var t := SwitchValue(p, ch); t.p.upgrade == p.upgrade && !t.ctl.Leave?
  {
    hide Token, Lower, Pattern, Matched, HeaderFlags, FieldFirst;
    match p.state
    case HeaderFieldStart =>
    case HeaderField =>
    case Value(_) =>
    case _ =>
  }

  lemma TurnSettlesUpgrade(s: Settings, p: Parser, ch: char)
    requires p.upgrade ==> p.state.HeadersDone?
    ensures var t := Switch(s, p, ch, 1);
      && (t.ctl.Advance? ==> !t.p.upgrade) && (t.ctl.Leave? ==> t.p.upgrade)
      && (t.ctl.Again? && t.p.upgrade ==> t.p.state.HeadersDone?)
  {
    LineKeepsUpgrade(p, ch);
    HeaderKeepsUpgrade(p, ch);
    hide SwitchStart, SwitchStatus, SwitchMethod, SwitchUrl, SwitchVersion, SwitchField, SwitchValue,
      ShouldKeepAlive, MessageNeedsEof, Unhex;
    match p.state
    case HeadersAlmostDone =>
    case HeadersDone =>
    case BodyIdentity | BodyIdentityEof | MessageDone =>
    case Chunk(_) =>
    case _ =>
  }

  lemma {:induction false} LoopSettlesUpgrade(s: Settings, p: Parser, ch: char)
    requires p.upgrade ==> p.state.HeadersDone?
    ensures UpgradeSettled(Loop(s, p, ch))
    decreases Rank(p.state)
  {
    hide Switch, TurnEvents, Rank;
    TurnSettlesUpgrade(s, p, ch);
    ReexecutionLowersRank(s, p, ch, 1);
    var t := Switch(s, p, ch, 1);
    if t.ctl.Again? { LoopSettlesUpgrade(s, t.p, ch); }
  }

  /** A run that goes on has not seen an upgrade; one that leaves has. */
  lemma {:induction false} FeedSettlesUpgrade(s: Settings, p: Parser, data: string)
    requires !p.upgrade
    ensures var r := Feed(s, Start(p), data);
      (r.ctl.Advance? ==> !r.p.upgrade) && (r.ctl.Leave? ==> r.p.upgrade)
  {
    hide Loop;
    if data != "" {
      var front := Feed(s, Start(p), data[..|data| - 1]);
      FeedSettlesUpgrade(s, p, data[..|data| - 1]);
      if front.ctl.Advance? { LoopSettlesUpgrade(s, Counting(front.p), data[|data| - 1]); }
    }
  }

  lemma NothingServed(s: Settings, p0: Parser)
    ensures Feed(s, Start(p0), Join([])) == Run(p0, 0, Flatten([]), Advance)
  {
  }

  /** What executing the next piece adds to a run that goes on. */
  lemma PieceServed(s: Settings, p0: Parser, pieces: seq<string>, i: nat, front: Run)
    requires i < |pieces| && pieces[i] != "" && front.ctl.Advance? && AtRest(front.p) && !front.p.upgrade
    requires Feed(s, Start(p0), Join(pieces[..i])) == front
    ensures var r := Execution(s, front.p, pieces[i]);
      && Feed(s, Start(p0), Join(pieces[..i + 1])) == Run(r.p, front.consumed + r.consumed, front.evs + r.evs, r.ctl)
      && !r.ctl.Abort? && !r.ctl.Again?
      && (r.ctl.Fail? <==> !r.p.errno.OK?)
      && (r.ctl.Advance? <==> r.p.errno.OK? && !r.p.upgrade)
      && (r.ctl.Advance? ==> AtRest(r.p))
  {
    hide AtRest, Feed, Join;
    FeedPiece(s, p0, pieces, i);
    FeedFromRun(s, front, pieces[i]);
    FeedSettlesUpgrade(s, front.p, pieces[i]);
    FeedKeepsInvariant(s, Start(front.p), pieces[i]);
    RestIsOk(front.p);
    var r := Feed(s, Start(front.p), pieces[i]);
    if !r.ctl.Fail? { RestIsOk(r.p); }
  }

  class HttpParser {
    var rec: Parser

    constructor (kind: ParserType)
      ensures rec == InitialRecord(kind) && AtRest(rec) && !rec.upgrade
    {
      rec := InitialRecord(kind);
      InitialIsAtRest(kind);
    }

    /** The switch together with its reexecute_byte label, from position i of the buffer. */
    method SwitchByte(s: Settings, data: string, i: nat, before: Tape)
      returns (to: nat, tape: Tape, ctl: Control)
      requires i < |data| && InByte(rec) && Fits(rec.state, before.marks) && Collected(before, i)
      modifies this
      ensures Finished(s, data, old(rec), i, Rendered(data, before, i), rec, to, tape, ctl)
    {
      hide Switch, InByte, Fits, PerformAll, Rendered, TurnEvents, AsData, Loop, Rank, Finished;
      var ch := data[i];
      to, tape, ctl := i, before, Again;
      ghost var start, rendered := rec, Rendered(data, before, i);
      assert data[i..i] == "" && AsData(BodyData, "") == [] by { EmptyData(BodyData); }
      while ctl.Again?
        invariant ctl.Again? ==> Midway(s, data, start, i, rendered, rec, to, tape)
        invariant !ctl.Again? ==> Finished(s, data, start, i, rendered, rec, to, tape, ctl)
        decreases ctl.Again?, Rank(rec.state)
      {
        TurnMidway(s, data, start, i, rendered, rec, to, tape);
        ReexecutionLowersRank(s, rec, ch, |data| - to);
        var t := Switch(s, rec, ch, |data| - to);
        rec, ctl := t.p, t.ctl;
        if !ctl.Fail? {
          tape := PerformAll(data, tape, t.acts, to, to + t.skip);
          to := to + t.skip;
        }
      }
    }

    /** The loop over a nonempty buffer, and the callbacks left over at its end. */
    method Scan(s: Settings, data: string) returns (consumed: nat, calls: seq<Callback>)
      requires AtRest(rec)
      modifies this
      ensures var r := Feed(s, Start(old(rec)), data);
        && rec == r.p && consumed == r.consumed
        && (if r.ctl.Fail? then Flatten(calls) <= r.evs else Flatten(calls) == r.evs)
    {
      hide StepByte, AtRest, Fits, Rendered, Loop, Finished, AsData, Take, DeliverRest, OpenKind, Flatten;
      var tape := EntryMarks(rec.state);
      EntryRenders(data, rec.state);
      var i := 0;
      ghost var first := Start(rec);
      while i < |data|
        invariant i <= |data| && AtRest(rec) && Fits(rec.state, tape.marks) && Collected(tape, i)
        invariant Feed(s, first, data[..i]) == Run(rec, i, Rendered(data, tape, i), Advance)
      {
        ghost var p0, before := rec, Rendered(data, tape, i);
        hide Feed;
        if ParsingHeader(rec.state) {
          rec := rec.(nread := rec.nread + 1);
          if rec.nread > MAX_HEADER_SIZE {
            rec := rec.(errno := HeaderOverflow);
            OverflowRefines(s, data, p0, i, before, first);
            DeliveredFirst(data, tape, i);
            StopSettles(s, first, data, i + 1);
            return i, tape.calls;
          }
        }
        CountedInByte(p0);
        var to, ctl;
        to, tape, ctl := SwitchByte(s, data, i, tape);
        PassRefines(s, data, p0, i, before, first, rec, to, tape, ctl);
        FeedKeepsInvariant(s, first, data[..to + 1]);
        if !ctl.Advance? {
          StopSettles(s, first, data, to + 1);
          if ctl.Fail? {
            return to, tape.calls;
          }
          RestRendersNothing(data, tape, rec.state, to + 1);
          return to + 1, tape.calls;
        }
        i := to + 1;
      }
      assert data[..i] == data;
      RestRenders(data, tape, rec.state);
      assert |tape.marks| <= 1;  // the assert() on the five marks
      return |data|, DeliverRest(data, tape).calls;
    }

    /**
     http_parser_execute.  calls are the callbacks in the order they are made; on an error
     the bytes still under a mark are not delivered.
     */
    method Execute(s: Settings, data: string) returns (consumed: nat, calls: seq<Callback>)
      requires rec.errno.OK? ==> AtRest(rec)
      modifies this
      ensures var r := Execution(s, old(rec), data);
        && rec == r.p && consumed == r.consumed
        && (if r.ctl.Fail? then Flatten(calls) <= r.evs else Flatten(calls) == r.evs)
    {
      hide AtRest, Feed;
      if !rec.errno.OK? {
        return 0, [];
      }
      if |data| == 0 {
        match rec.state {
          case BodyIdentityEof => return 0, [NotifyCall(Complete(rec))];
          case Dead | StartReqOrRes | StartRes | StartReq => return 0, [];
          case _ =>
            rec := rec.(errno := InvalidEofState);
            return 1, [];
        }
      }
      consumed, calls := Scan(s, data);
    }

    /**
     Two calls on consecutive pieces leave what one call on the whole would, unless the
     first piece ends in the exit for an upgrade.
     */
    method ExecuteInTwo(s: Settings, a: string, b: string) returns (consumed: nat, calls: seq<Callback>)
      requires AtRest(rec) && a != "" && b != "" && !Execution(s, rec, a).ctl.Leave?
      modifies this
      ensures var whole := Execution(s, old(rec), a + b);
        && rec == whole.p && consumed == whole.consumed
        && (!whole.ctl.Fail? ==> Flatten(calls) == whole.evs)
    {
      hide AtRest, Flatten, Feed;
      SplitInvariance(s, rec, a, b);
      FirstCallKeepsInvariant(s, rec, a);
      var first, firstCalls := Execute(s, a);
      var second, secondCalls := Execute(s, b);
      FlattenConcat(firstCalls, secondCalls);
      return first + second, firstCalls + secondCalls;
    }

    /** What the callbacks so far show, and where the run stands, before the next piece. */
    ghost predicate Served(s: Settings, p0: Parser, sofar: string, consumed: nat, calls: seq<Callback>)
      reads this
    {
      AtRest(rec) && !rec.upgrade && Feed(s, Start(p0), sofar) == Run(rec, consumed, Flatten(calls), Advance)
    }

    /**
     A connection: the pieces are executed one after the other as they arrive, up to an error
     or an upgrade.  However the input is cut, the callbacks are those of the bytes.
     */
    method ExecuteAll(s: Settings, pieces: seq<string>) returns (consumed: nat, calls: seq<Callback>)
      requires AtRest(rec) && !rec.upgrade && forall i :: 0 <= i < |pieces| ==> pieces[i] != ""
      modifies this
      ensures var whole := Feed(s, Start(old(rec)), Join(pieces));
        && rec == whole.p && consumed == whole.consumed
        && (if whole.ctl.Fail? then Flatten(calls) <= whole.evs else Flatten(calls) == whole.evs)
    {
      hide AtRest, Flatten, Feed, Join;
      consumed, calls := 0, [];
      ghost var p0 := rec;
      NothingServed(s, p0);
      for i := 0 to |pieces|
        invariant Served(s, p0, Join(pieces[..i]), consumed, calls)
      {
        ghost var front := Run(rec, consumed, Flatten(calls), Advance);
        PieceServed(s, p0, pieces, i, front);
        RestIsOk(rec);
        var taken, more := Execute(s, pieces[i]);
        ghost var before := calls;
        consumed, calls := consumed + taken, calls + more;
        FlattenConcat(before, more);
        if !rec.errno.OK? || rec.upgrade {
          StopSettlesPieces(s, p0, pieces, i + 1);
          return;
        }
      }
      assert pieces[..|pieces|] == pieces;
    }
  }
}
