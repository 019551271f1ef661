/**
 The marks into the buffer and the data callbacks that hand out slices: what each turn of
 the switch does to them renders exactly what the turn makes observable.
 */
module HttpTape {
  import opened Common
  import opened HttpTypes
  import opened HttpSwitch
  import opened HttpInvariant
  import opened HttpRun

  /**
   One callback: a slice of the buffer, or a notification.  resumed says that the slice goes on
   with data that a previous buffer ended in; it can be empty without meaning empty data.
   */
  datatype Callback = DataCall(kind: Kind, bytes: string, resumed: bool) | NotifyCall(notice: Notice)

  /**
   The five marks, those that are NULL left out, and the callbacks made so far.  resumed
   records, for the callbacks, which marks are still those set when the buffer was entered.
   */
  datatype Tape = Tape(marks: map<Kind, nat>, resumed: set<Kind>, calls: seq<Callback>)

  /** The marks point into the buffer, at or before a position. */
  predicate MarksBefore(tape: Tape, at: nat) {
    forall k :: k in tape.marks ==> tape.marks[k] <= at
  }

  /** In front of a position: marks set in this buffer have collected something. */
  predicate Collected(tape: Tape, at: nat) {
    MarksBefore(tape, at) && tape.resumed <= tape.marks.Keys &&
    forall k :: k in tape.marks && k !in tape.resumed ==> tape.marks[k] < at
  }

  /** CALLBACK_DATA: hands out the bytes since the mark, if there is one. */
  function Deliver(data: string, tape: Tape, k: Kind, to: nat): Tape
    requires to <= |data| && MarksBefore(tape, to)
  {
    if k in tape.marks then
      Tape(tape.marks - {k}, tape.resumed - {k},
           tape.calls + [DataCall(k, data[tape.marks[k]..to], k in tape.resumed)])
    else tape
  }

  /** One act of a turn that began at from and left p at to. */
  function Perform(data: string, tape: Tape, a: Act, from: nat, to: nat): Tape
    requires from <= to < |data| && MarksBefore(tape, from)
  {
    match a
    case Mark(k) => if k in tape.marks then tape else tape.(marks := tape.marks[k := from])
    case Flush(k) => Deliver(data, tape, k, to)
    case FlushIncl(k) => Deliver(data, tape, k, to + 1)
    case Call(n) => tape.(calls := tape.calls + [NotifyCall(n)])
  }

  function PerformAll(data: string, tape: Tape, acts: seq<Act>, from: nat, to: nat): (r: Tape)
    requires from <= to < |data| && MarksBefore(tape, from)
    ensures MarksBefore(r, from)
    decreases |acts|
  {
    if acts == [] then tape
    else PerformAll(data, Perform(data, tape, acts[0], from, to), acts[1..], from, to)
  }

  /** The callbacks left over when the buffer ends. */
  function DeliverRest(data: string, tape: Tape): Tape
    requires MarksBefore(tape, |data|)
  {
    var n := |data|;
    var t1 := Deliver(data, tape, FieldData, n);
    var t2 := Deliver(data, t1, ValueData, n);
    var t3 := Deliver(data, t2, UrlData, n);
    var t4 := Deliver(data, t3, BodyData, n);
    Deliver(data, t4, StatusData, n)
  }

  // ---- what the callbacks make observable ----

  function FlattenOne(c: Callback): seq<Ev> {
    match c
    case DataCall(k, bytes, resumed) => if bytes == "" && !resumed then [Empty(k)] else AsData(k, bytes)
    case NotifyCall(n) => [Notify(n)]
  }

  function Flatten(calls: seq<Callback>): seq<Ev> {
    if calls == [] then []
    else Flatten(calls[..|calls| - 1]) + FlattenOne(calls[|calls| - 1])
  }

  /** The bytes a mark has collected up to a position. */
  function Held(data: string, marks: map<Kind, nat>, k: Kind, upto: nat): seq<Ev>
    requires upto <= |data| && forall k :: k in marks ==> marks[k] <= upto
  {
    if k in marks then AsData(k, data[marks[k]..upto]) else []
  }

  function Pending(data: string, marks: map<Kind, nat>, upto: nat): seq<Ev>
    requires upto <= |data| && forall k :: k in marks ==> marks[k] <= upto
  {
    Held(data, marks, FieldData, upto) + Held(data, marks, ValueData, upto) +
    Held(data, marks, UrlData, upto) + Held(data, marks, BodyData, upto) +
    Held(data, marks, StatusData, upto)
  }

  /** Delivered and collected so far. */
  function Rendered(data: string, tape: Tape, upto: nat): seq<Ev>
    requires upto <= |data| && MarksBefore(tape, upto)
  {
    Flatten(tape.calls) + Pending(data, tape.marks, upto)
  }

  /** The one mark a state may have set. */
  function MarkKind(s: State): seq<Kind> {
    match s
    case BodyIdentity | BodyIdentityEof => [BodyData]
    case Chunk(c) => if c.Data? || c.DataAlmostDone? then [BodyData] else []
    case _ => OpenKind(s)
  }

  /** Which marks are set in a state: its own kind, surely so unless that is body data. */
  predicate Fits(s: State, marks: map<Kind, nat>) {
    (forall k :: k in marks ==> MarkKind(s) == [k]) &&
    (MarkKind(s) != [] && !MarkKind(s)[0].BodyData? ==> MarkKind(s)[0] in marks)
  }

  // ---- lemmas about slices ----

  lemma {:induction false} AsDataConcat(k: Kind, a: string, b: string)
    ensures AsData(k, a + b) == AsData(k, a) + AsData(k, b)
  {
    if b == "" {
      assert a + b == a;
    } else {
      AsDataConcat(k, a, b[..|b| - 1]);
      assert (a + b)[..|a + b| - 1] == a + b[..|b| - 1];
    }
  }

  lemma FlattenSnoc(calls: seq<Callback>, c: Callback)
    ensures Flatten(calls + [c]) == Flatten(calls) + FlattenOne(c)
  {
    assert (calls + [c])[..|calls|] == calls;
  }

  lemma NothingFlat()
    ensures Flatten([]) == []
  {
  }

  lemma {:induction false} FlattenConcat(a: seq<Callback>, b: seq<Callback>)
    ensures Flatten(a + b) == Flatten(a) + Flatten(b)
  {
    hide Flatten, FlattenOne;
    if b == [] {
      assert a + b == a;
      NothingFlat();
    } else {
      var front, last := b[..|b| - 1], b[|b| - 1];
      FlattenConcat(a, front);
      assert a + b == (a + front) + [last] && b == front + [last];
      FlattenSnoc(a + front, last);
      FlattenSnoc(front, last);
      Associate(Flatten(a), Flatten(front), FlattenOne(last));
    }
  }

  /** With at most one mark set, what is pending is what that mark holds. */
  lemma PendingOne(data: string, marks: map<Kind, nat>, k: Kind, upto: nat)
    requires upto <= |data| && forall k :: k in marks ==> marks[k] <= upto
    requires forall j :: j in marks ==> j == k
    ensures Pending(data, marks, upto) == Held(data, marks, k, upto)
  {
    hide AsData;
    match k
    case UrlData =>
    case StatusData =>
    case FieldData =>
    case ValueData =>
    case BodyData =>
  }

  lemma EmptyData(k: Kind)
    ensures AsData(k, "") == []
  {
  }

  /** Delivering the only mark moves its bytes from pending to delivered. */
  lemma DeliverRenders(data: string, tape: Tape, k: Kind, to: nat)
    requires to <= |data| && Collected(tape, to)
    requires forall j :: j in tape.marks ==> j == k
    ensures var r := Deliver(data, tape, k, to);
      r.marks == map[] && r.resumed == {} && Rendered(data, r, to) == Rendered(data, tape, to)
  {
    hide AsData, Flatten, Pending;
    PendingOne(data, tape.marks, k, to);
    var r := Deliver(data, tape, k, to);
    PendingOne(data, r.marks, k, to);
    if k in tape.marks {
      FlattenSnoc(tape.calls, DataCall(k, data[tape.marks[k]..to], k in tape.resumed));
      EmptyData(k);
    }
  }

  /** Collecting further bytes under the only mark. */
  lemma PendingGrows(data: string, marks: map<Kind, nat>, k: Kind, from: nat, to: nat)
    requires from <= to <= |data| && forall j :: j in marks ==> j == k && marks[j] <= from
    requires k in marks
    ensures Pending(data, marks, to) == Pending(data, marks, from) + AsData(k, data[from..to])
  {
    hide AsData, Pending;
    PendingOne(data, marks, k, from);
    PendingOne(data, marks, k, to);
    assert data[marks[k]..to] == data[marks[k]..from] + data[from..to];
    AsDataConcat(k, data[marks[k]..from], data[from..to]);
  }

  lemma RenderedGrows(data: string, tape: Tape, k: Kind, from: nat, to: nat)
    requires from <= to <= |data| && MarksBefore(tape, from) && tape.marks.Keys == {k}
    ensures Rendered(data, tape, to) == Rendered(data, tape, from) + AsData(k, data[from..to])
  {
    hide AsData, Pending, Flatten;
    PendingGrows(data, tape.marks, k, from, to);
    Associate(Flatten(tape.calls), Pending(data, tape.marks, from), AsData(k, data[from..to]));
  }

  // ---- how each turn treats the marks ----

  /** The few ways in which a turn combines its acts with the states it joins. */
  predicate Tidy(from: State, t: Turn) {
    var before, after, data := MarkKind(from), MarkKind(t.p.state), DataKind(from, t);
    if t.acts == [] then
      t.skip == 0 &&
      ((before == after == data && before != [BodyData]) ||
       (before == data == [] && after == [BodyData]))
    else match t.acts[0]
      case Mark(k) =>
        if |t.acts| == 1 then
          (before == [] || before == [k]) && after == data == [k] && (t.skip == 0 || k.BodyData?)
        else if t.acts == [Mark(k), Flush(k)] then t.skip == 0 && before == after == data == []
        else t.acts == [Mark(k), FlushIncl(k)] && k.BodyData? && before == data == [k] && after == []
      case Flush(k) => |t.acts| == 1 && t.skip == 0 && before == [k] && after == data == []
      case FlushIncl(_) => false
      case Call(_) => |t.acts| == 1 && t.skip == 0 && before == after == data == []
  }

  /** A turn that goes on is tidy, and one that fails delivers nothing. */
  predicate TidyOnward(from: State, t: Turn) {
    && (t.ctl.Advance? || t.ctl.Again? || t.ctl.Leave? ==> Tidy(from, t))
    && (t.ctl.Fail? ==> t.acts == [] || (|t.acts| == 1 && t.acts[0].Mark?))
  }

  lemma StartTidy(p: Parser, ch: char)
    requires InStart(p.state)
    ensures TidyOnward(p.state, SwitchStart(p, ch))
  {
    hide InitialMethod, IsMethodInitial;
  }

  lemma StatusTidy(p: Parser, ch: char)
    requires p.state.Status?
    ensures TidyOnward(p.state, SwitchStatus(p, ch))
  {
    match p.state.status
    case ResStatusStart =>
    case ResStatus =>
    case _ =>
  }

  lemma UrlTidy(p: Parser, ch: char)
    requires p.state.Url?
    ensures TidyOnward(p.state, SwitchUrl(p, ch))
  {
    UrlCharStates(p.state.url, ch);
    UrlCharStates(ServerStart, ch);
    hide ParseUrlChar;
  }

  lemma FieldNextStays(p: Parser, ch: char, c: char)
    ensures var t := FieldNext(p, ch, c);
      t.ctl.Abort? || (t.ctl.Advance? && t.acts == [] && t.skip == 0 && t.p.state == p.state)
  {
    hide Pattern;
  }

  lemma FieldTidy(p: Parser, ch: char)
    requires InField(p.state)
    ensures TidyOnward(p.state, SwitchField(p, ch))
  {
    if p.state.HeaderField? { FieldNextStays(p, ch, Token(ch)); }
    hide Token, FieldNext, FieldFirst;
  }

  lemma ValueNextStays(p: Parser, ch: char)
    ensures var t := ValueNext(p, ch);
      t.acts == [] && t.skip == 0 && t.p.state == p.state && !t.ctl.Again? && !t.ctl.Leave?
  {
    hide Pattern, Lower;
  }

  lemma ValueTidy(p: Parser, ch: char)
    requires p.state.Value?
    ensures TidyOnward(p.state, SwitchValue(p, ch))
  {
    hide HeaderFlags, Lower, ValueNext;
    match p.state.value
    case ValueText => ValueNextStays(p, ch);
    case ValueStart | DiscardWs =>
    case _ =>
  }

  lemma MethodTidy(p: Parser, ch: char)
    requires p.state.ReqMethod?
    ensures TidyOnward(p.state, SwitchMethod(p, ch))
  {
    hide MethodString, OtherMethod, At;
  }

  lemma VersionTidy(p: Parser, ch: char)
    requires p.state.Version?
    ensures TidyOnward(p.state, SwitchVersion(p, ch))
  {
  }

  lemma HeadersEndTidy(s: Settings, p: Parser, ch: char)
    requires InHeadersEnd(p.state)
    ensures TidyOnward(p.state, SwitchHeadersEnd(s, p, ch))
  {
    hide ShouldKeepAlive, MessageNeedsEof;
  }

  lemma BodyTidy(p: Parser, avail: nat)
    requires InBody(p.state) && avail > 0
    ensures TidyOnward(p.state, SwitchBody(p, avail))
  {
    hide ShouldKeepAlive;
  }

  lemma ChunkTidy(p: Parser, ch: char, avail: nat)
    requires p.state.Chunk? && avail > 0
    ensures TidyOnward(p.state, SwitchChunk(p, ch, avail))
  {
    hide Unhex;
    match p.state.chunk
    case SizeStart | Size | Parameters | SizeAlmostDone =>
    case Data =>
    case DataAlmostDone | DataDone =>
  }

  lemma TurnIsTidy(s: Settings, p: Parser, ch: char, avail: nat)
    requires avail > 0
    ensures TidyOnward(p.state, Switch(s, p, ch, avail))
  {
    hide TidyOnward, SwitchStart, SwitchStatus, SwitchMethod, SwitchUrl, SwitchVersion,
      SwitchField, SwitchValue, SwitchHeadersEnd, SwitchBody, SwitchChunk;
    match p.state
    case Dead | StartReqOrRes | ResOrRespH | StartRes | StartReq => StartTidy(p, ch);
    case Status(_) => StatusTidy(p, ch);
    case ReqMethod => MethodTidy(p, ch);
    case Url(_) => UrlTidy(p, ch);
    case Version(_) => VersionTidy(p, ch);
    case HeaderFieldStart | HeaderField => FieldTidy(p, ch);
    case Value(_) => ValueTidy(p, ch);
    case HeadersAlmostDone | HeadersDone => HeadersEndTidy(s, p, ch);
    case BodyIdentity | BodyIdentityEof | MessageDone => BodyTidy(p, avail);
    case Chunk(_) => ChunkTidy(p, ch, avail);
  }

  // ---- a turn keeps what is rendered in step with what is observable ----

  /** Whether performing a turn's acts on a tape renders its events. */
  predicate Renders(data: string, tape: Tape, from: State, t: Turn, at: nat)
    requires at + t.skip < |data| && MarksBefore(tape, at)
  {
    var to := at + t.skip;
    var r := PerformAll(data, tape, t.acts, at, to);
    Fits(t.p.state, r.marks) && Collected(r, to + 1) &&
    Rendered(data, r, to + 1) == Rendered(data, tape, at) + TurnEvents(from, t, data[at..to + 1])
  }

  lemma OneByteData(k: Kind, ch: char)
    ensures AsData(k, [ch]) == [Byte(k, ch)]
  {
    assert [ch][..0] == "";
  }

  lemma NoticesOne(a: Act)
    ensures Notices([a]) == if a.Call? then [Notify(a.notice)] else []
  {
    assert [a][1..] == [];
  }

  lemma NoNotices()
    ensures Notices([]) == []
  {
  }

  lemma NoticesTwo(a: Act, b: Act)
    requires a.Mark? && !b.Call?
    ensures Notices([a, b]) == if b == Flush(a.kind) then [Empty(a.kind)] else []
  {
    assert [a, b][1..] == [b];
    NoticesOne(b);
  }

  /** A header byte whose case does not ask for the switch again. */
  lemma OnePass(s: Settings, p: Parser, ch: char)
    requires ParsingHeader(p.state) && p.nread < MAX_HEADER_SIZE
    ensures var t := Switch(s, p.(nread := p.nread + 1), ch, 1);
      !t.ctl.Again? ==> StepByte(s, p, ch) == Outcome(t.p, TurnEvents(p.state, t, [ch]), t.ctl)
  {
    hide Switch, TurnEvents, Rank;
  }

  /** What a turn without data and notices makes observable. */
  lemma SilentTurn(from: State, t: Turn, ch: char)
    requires !BodyByte(from) && (t.ctl.Advance? ==> OpenKind(t.p.state) == [])
    requires t.acts == [] || (|t.acts| == 1 && !t.acts[0].Call?)
    ensures TurnEvents(from, t, [ch]) == []
  {
    hide AsData, Notices, OpenKind;
    if t.acts == [] {
      NoNotices();
    } else {
      assert t.acts == [t.acts[0]];
      NoticesOne(t.acts[0]);
    }
  }

  /** What a byte of data makes observable. */
  lemma DataTurn(from: State, t: Turn, ch: char, k: Kind)
    requires !BodyByte(from) && t.ctl.Advance? && OpenKind(t.p.state) == [k]
    requires t.acts == [] || (|t.acts| == 1 && !t.acts[0].Call?)
    ensures TurnEvents(from, t, [ch]) == [Byte(k, ch)]
  {
    hide AsData, Notices, OpenKind;
    OneByteData(k, ch);
    if t.acts == [] {
      NoNotices();
    } else {
      assert t.acts == [t.acts[0]];
      NoticesOne(t.acts[0]);
    }
  }

  /** What a notification makes observable. */
  lemma CallTurn(from: State, t: Turn, ch: char)
    requires !BodyByte(from) && (t.ctl.Advance? ==> OpenKind(t.p.state) == [])
    requires |t.acts| == 1 && t.acts[0].Call?
    ensures TurnEvents(from, t, [ch]) == [Notify(t.acts[0].notice)]
  {
    hide AsData, Notices, OpenKind;
    assert t.acts == [t.acts[0]];
    NoticesOne(t.acts[0]);
  }

  /** Without marks, the position does not matter. */
  lemma NothingPending(data: string, marks: map<Kind, nat>, upto: nat)
    requires upto <= |data| && marks == map[]
    ensures Pending(data, marks, upto) == []
  {
  }

  lemma PlainTurnRenders(data: string, tape: Tape, from: State, t: Turn, at: nat)
    requires Tidy(from, t) && Fits(from, tape.marks) && at + t.skip < |data| && Collected(tape, at)
    requires t.acts == []
    ensures Renders(data, tape, from, t, at)
  {
    hide AsData, Pending, Flatten, MarkKind;
    var before := MarkKind(from);
    if before == [] {
      NothingPending(data, tape.marks, at);
      NothingPending(data, tape.marks, at + 1);
    } else {
      PendingGrows(data, tape.marks, before[0], at, at + 1);
    }
  }

  /** Setting the only mark, unless it is set, renders nothing new. */
  lemma MarkRenders(data: string, tape: Tape, k: Kind, at: nat, to: nat)
    requires at <= to < |data| && Collected(tape, at) && forall j :: j in tape.marks ==> j == k
    ensures var r := Perform(data, tape, Mark(k), at, to);
      && MarksBefore(r, at) && r.marks.Keys == {k} && Collected(r, at + 1)
      && Rendered(data, r, at) == Rendered(data, tape, at)
  {
    hide AsData, Pending, Flatten;
    if k !in tape.marks {
      NothingPending(data, tape.marks, at);
      PendingOne(data, Perform(data, tape, Mark(k), at, to).marks, k, at);
      assert data[at..at] == "";
      EmptyData(k);
    }
  }

  lemma MarkTurnRenders(data: string, tape: Tape, from: State, t: Turn, at: nat, k: Kind)
    requires Tidy(from, t) && Fits(from, tape.marks) && at + t.skip < |data| && Collected(tape, at)
    requires t.acts == [Mark(k)]
    ensures Renders(data, tape, from, t, at)
  {
    hide AsData, Rendered, MarkKind, Notices;
    var to := at + t.skip;
    var r := Perform(data, tape, Mark(k), at, to);
    NoticesOne(Mark(k));
    assert PerformAll(data, tape, t.acts, at, to) == r;
    MarkRenders(data, tape, k, at, to);
    RenderedGrows(data, r, k, at, to + 1);
    assert TurnEvents(from, t, data[at..to + 1]) == AsData(k, data[at..to + 1]);
  }

  lemma FlushTurnRenders(data: string, tape: Tape, from: State, t: Turn, at: nat, k: Kind)
    requires Tidy(from, t) && Fits(from, tape.marks) && at + t.skip < |data| && Collected(tape, at)
    requires t.acts == [Flush(k)]
    ensures Renders(data, tape, from, t, at)
  {
    hide AsData, Pending, Flatten, MarkKind, Notices;
    var r := Deliver(data, tape, k, at);
    NoticesOne(Flush(k));
    assert PerformAll(data, tape, t.acts, at, at) == r;
    DeliverRenders(data, tape, k, at);
    NothingPending(data, r.marks, at);
    NothingPending(data, r.marks, at + 1);
  }

  lemma CallTurnRenders(data: string, tape: Tape, from: State, t: Turn, at: nat, n: Notice)
    requires Tidy(from, t) && Fits(from, tape.marks) && at + t.skip < |data| && Collected(tape, at)
    requires t.acts == [Call(n)]
    ensures Renders(data, tape, from, t, at)
  {
    hide AsData, Pending, Flatten, MarkKind, Notices;
    var r := Perform(data, tape, Call(n), at, at);
    NoticesOne(Call(n));
    assert PerformAll(data, tape, t.acts, at, at) == r;
    FlattenSnoc(tape.calls, NotifyCall(n));
    NothingPending(data, r.marks, at);
    NothingPending(data, r.marks, at + 1);
  }

  lemma EmptyValueTurnRenders(data: string, tape: Tape, from: State, t: Turn, at: nat, k: Kind)
    requires Tidy(from, t) && Fits(from, tape.marks) && at + t.skip < |data| && Collected(tape, at)
    requires t.acts == [Mark(k), Flush(k)]
    ensures Renders(data, tape, from, t, at)
  {
    hide AsData, Pending, Flatten, MarkKind, Notices;
    var m := Perform(data, tape, Mark(k), at, at);
    var r := Deliver(data, m, k, at);
    NoticesTwo(Mark(k), Flush(k));
    assert t.acts[1..] == [Flush(k)];
    assert PerformAll(data, m, [Flush(k)], at, at) == r;
    NothingPending(data, tape.marks, at);
    assert data[at..at] == "";
    FlattenSnoc(tape.calls, DataCall(k, "", false));
    NothingPending(data, r.marks, at + 1);
  }

  lemma BodyEndTurnRenders(data: string, tape: Tape, from: State, t: Turn, at: nat, k: Kind)
    requires Tidy(from, t) && Fits(from, tape.marks) && at + t.skip < |data| && Collected(tape, at)
    requires t.acts == [Mark(k), FlushIncl(k)]
    ensures Renders(data, tape, from, t, at)
  {
    hide AsData, Rendered, MarkKind, Notices;
    var to := at + t.skip;
    var m := Perform(data, tape, Mark(k), at, to);
    var r := Deliver(data, m, k, to + 1);
    NoticesTwo(Mark(k), FlushIncl(k));
    assert PerformAll(data, tape, t.acts, at, to) == r by {
      assert t.acts[1..] == [FlushIncl(k)] && t.acts[2..] == [];
      assert PerformAll(data, m, [FlushIncl(k)], at, to) == r;
    }
    hide PerformAll, Perform, Deliver;
    MarkRenders(data, tape, k, at, to);
    RenderedGrows(data, m, k, at, to + 1);
    DeliverRenders(data, m, k, to + 1);
  }

  lemma TidyTurnRenders(data: string, tape: Tape, from: State, t: Turn, at: nat)
    requires Tidy(from, t) && Fits(from, tape.marks) && at + t.skip < |data| && Collected(tape, at)
    ensures Renders(data, tape, from, t, at)
  {
    hide Renders, MarkKind, DataKind, Fits;
    if t.acts == [] {
      PlainTurnRenders(data, tape, from, t, at);
    } else {
      match t.acts[0]
      case Mark(k) =>
        if |t.acts| == 1 { MarkTurnRenders(data, tape, from, t, at, k); }
        else if t.acts == [Mark(k), Flush(k)] { EmptyValueTurnRenders(data, tape, from, t, at, k); }
        else { BodyEndTurnRenders(data, tape, from, t, at, k); }
      case Flush(k) => FlushTurnRenders(data, tape, from, t, at, k);
      case Call(n) => CallTurnRenders(data, tape, from, t, at, n);
      case FlushIncl(_) =>
    }
  }
}
