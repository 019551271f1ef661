/**
 The bytewise meaning of http_parser_execute: what one byte does, and what a string of
 bytes does.  Nothing here mentions marks, buffers or bulk skips.
 */
module HttpRun {
  import opened HttpTypes
  import opened HttpSwitch
  import opened HttpInvariant

  /** What one byte leads to: the record, what is observed, and how it ended. */
  datatype Outcome = Outcome(p: Parser, evs: seq<Ev>, ctl: Control)

  /** The kind of data a state is in the middle of, body data aside. */
  function OpenKind(s: State): seq<Kind> {
    match s
    case HeaderField => [FieldData]
    case Value(v) => if v.ValueText? then [ValueData] else []
    case Url(u) => if u.SpacesBeforeUrl? then [] else [UrlData]
    case Status(r) => if r.ResStatus? then [StatusData] else []
    case _ => []
  }

  /** The states whose next byte is body data. */
  predicate BodyByte(s: State) { s.BodyIdentity? || s.BodyIdentityEof? || s == Chunk(Data) }

  /** bytes, each delivered as data of kind k. */
  function AsData(k: Kind, bytes: string): seq<Ev> {
    if bytes == "" then [] else AsData(k, bytes[..|bytes| - 1]) + [Byte(k, bytes[|bytes| - 1])]
  }

  /** The notifications of a turn, and the data it both marks and delivers, which has no byte. */
  function Notices(acts: seq<Act>): seq<Ev> {
    if acts == [] then []
    else if acts[0].Mark? && acts[1..] == [Flush(acts[0].kind)] then [Empty(acts[0].kind)]
    else (if acts[0].Call? then [Notify(acts[0].notice)] else []) + Notices(acts[1..])
  }

  /** The kind of data the bytes of a turn are delivered as, if any. */
  function DataKind(from: State, t: Turn): seq<Kind> {
    if BodyByte(from) then [BodyData]
    else if t.ctl.Advance? then OpenKind(t.p.state)
    else []
  }

  function DataEvents(ks: seq<Kind>, bytes: string): seq<Ev> {
    if ks == [] then [] else AsData(ks[0], bytes)
  }

  /** What a turn that begins in a state and covers some bytes makes observable. */
  function TurnEvents(from: State, t: Turn, bytes: string): seq<Ev> {
    DataEvents(DataKind(from, t), bytes) + Notices(t.acts)
  }

  /** The switch, re-executed until a case does not ask for it again. */
  function Loop(s: Settings, p: Parser, ch: char): Outcome
    decreases Rank(p.state)
  {
    var t := Switch(s, p, ch, 1);
    ReexecutionLowersRank(s, p, ch, 1);
    if t.ctl.Again? then
      var o := Loop(s, t.p, ch);
      Outcome(o.p, TurnEvents(p.state, t, [ch]) + o.evs, o.ctl)
    else Outcome(t.p, TurnEvents(p.state, t, [ch]), t.ctl)
  }

  /** One pass of the outer loop: counts a header byte, then switches. */
  function StepByte(s: Settings, p: Parser, ch: char): Outcome {
    if ParsingHeader(p.state) then
      var q := p.(nread := p.nread + 1);
      if q.nread > MAX_HEADER_SIZE then Outcome(q.(errno := HeaderOverflow), [], Fail)
      else Loop(s, q, ch)
    else Loop(s, p, ch)
  }

  /** A run so far; ctl is Advance while it can go on. */
  datatype Run = Run(p: Parser, consumed: nat, evs: seq<Ev>, ctl: Control)

  function Start(p: Parser): Run { Run(p, 0, [], Advance) }

  function Take(s: Settings, r: Run, ch: char): Run {
    if !r.ctl.Advance? then r
    else
      var o := StepByte(s, r.p, ch);
      Run(o.p, if o.ctl.Advance? || o.ctl.Leave? then r.consumed + 1 else r.consumed, r.evs + o.evs, o.ctl)
  }

  function Feed(s: Settings, r: Run, data: string): Run {
    if data == "" then r else Take(s, Feed(s, r, data[..|data| - 1]), data[|data| - 1])
  }

  /** The zero-length call that stands for end of file. */
  function EndOfInput(p: Parser): Run {
    match p.state
    case BodyIdentityEof => Run(p, 0, [Notify(Complete(p))], Advance)
    case Dead | StartReqOrRes | StartRes | StartReq => Run(p, 0, [], Advance)
    case _ => Run(p.(errno := InvalidEofState), 1, [], Fail)
  }

  /** The result of one call of http_parser_execute on a nonempty or empty buffer. */
  function Execution(s: Settings, p: Parser, data: string): Run {
    if !p.errno.OK? then Run(p, 0, [], Fail)
    else if data == "" then EndOfInput(p)
    else Feed(s, Start(p), data)
  }

  // ---- the invariant over runs ----

  predicate GoodOutcome(o: Outcome) {
    match o.ctl
    case Advance => AtRest(o.p)
    case Leave => AtRest(o.p) && InStart(o.p.state)
    case Fail => !o.p.errno.OK?
    case _ => false
  }

  lemma {:induction false} LoopKeepsInvariant(s: Settings, p: Parser, ch: char)
    requires InByte(p)
    ensures GoodOutcome(Loop(s, p, ch))
    decreases Rank(p.state)
  {
    hide Switch, InByte, AtRest, TurnEvents, Rank;
    TurnKeepsInvariant(s, p, ch, 1);
    ReexecutionLowersRank(s, p, ch, 1);
    var t := Switch(s, p, ch, 1);
    if t.ctl.Again? { LoopKeepsInvariant(s, t.p, ch); }
  }

  lemma CountingKeepsShape(p: Parser)
    ensures var q := p.(nread := p.nread + 1); Shape(q) == Shape(p) && KindFits(q) == KindFits(p)
  {
    hide MethodString, Pattern, FieldMatcher, ValueMatcher, ChunkLength;
  }

  lemma StepKeepsInvariant(s: Settings, p: Parser, ch: char)
    requires AtRest(p)
    ensures GoodOutcome(StepByte(s, p, ch))
  {
    hide Loop, Shape, KindFits;
    var q := if ParsingHeader(p.state) then p.(nread := p.nread + 1) else p;
    assert Shape(q) == Shape(p) && KindFits(q) == KindFits(p) by { CountingKeepsShape(p); }
    if q.nread <= MAX_HEADER_SIZE { LoopKeepsInvariant(s, q, ch); }
  }

  /** What every run of a reachable record satisfies. */
  predicate GoodRun(r: Run) {
    match r.ctl
    case Advance => AtRest(r.p)
    case Leave => AtRest(r.p) && InStart(r.p.state)
    case Fail => !r.p.errno.OK?
    case _ => false
  }

  /** Over any bytes, the invariant holds and no assert() fails. */
  lemma {:induction false} FeedKeepsInvariant(s: Settings, r: Run, data: string)
    requires GoodRun(r)
    ensures GoodRun(Feed(s, r, data))
  {
    hide StepByte, AtRest;
    if data != "" {
      var front := Feed(s, r, data[..|data| - 1]);
      FeedKeepsInvariant(s, r, data[..|data| - 1]);
      if front.ctl.Advance? { StepKeepsInvariant(s, front.p, data[|data| - 1]); }
    }
  }

  // ---- splitting the input ----

  lemma {:induction false} FeedConcat(s: Settings, r: Run, a: string, b: string)
    ensures Feed(s, r, a + b) == Feed(s, Feed(s, r, a), b)
  {
    hide Take;
    if b == "" {
      assert a + b == a;
    } else {
      FeedConcat(s, r, a, b[..|b| - 1]);
      assert (a + b)[..|a + b| - 1] == a + b[..|b| - 1];
      assert (a + b)[|a + b| - 1] == b[|b| - 1];
    }
  }

  lemma NothingFed(s: Settings, r: Run)
    ensures Feed(s, r, "") == r
  {
  }

  lemma FeedOne(s: Settings, r: Run, a: char)
    ensures Feed(s, r, [a]) == Take(s, r, a)
  {
    hide Take;
    assert [a][..0] == [];
  }

  lemma FeedTwo(s: Settings, r: Run, a: char, b: char)
    ensures Feed(s, r, [a, b]) == Take(s, Take(s, r, a), b)
  {
    hide Take;
    assert [a, b][..1] == [a];
    FeedOne(s, r, a);
  }

  /** A run continues as a fresh run of its record would, its own results in front. */
  lemma {:induction false} FeedFromRun(s: Settings, r: Run, data: string)
    requires r.ctl.Advance?
    ensures var f := Feed(s, Start(r.p), data);
      Feed(s, r, data) == Run(f.p, r.consumed + f.consumed, r.evs + f.evs, f.ctl)
  {
    hide StepByte;
    if data != "" { FeedFromRun(s, r, data[..|data| - 1]); }
  }

  lemma {:induction false} StoppedFeed(s: Settings, r: Run, data: string)
    requires !r.ctl.Advance?
    ensures Feed(s, r, data) == r
  {
    hide StepByte;
    if data != "" { StoppedFeed(s, r, data[..|data| - 1]); }
  }

  lemma RestIsOk(p: Parser)
    requires AtRest(p)
    ensures p.errno.OK?
  {
  }

  /**
   Split invariance: executing a and then b leaves the record, the errno, the total
   consumed and the observations of executing both at once; after the exit for an
   upgrade the first call alone has already done everything.
   */
  lemma SplitInvariance(s: Settings, p: Parser, a: string, b: string)
    requires AtRest(p) && a != "" && b != ""
    ensures var whole := Execution(s, p, a + b);
      var first := Execution(s, p, a);
      var second := Execution(s, first.p, b);
      if first.ctl.Leave? then whole == first
      else whole == Run(second.p, first.consumed + second.consumed, first.evs + second.evs, second.ctl)
  {
    hide StepByte;
    assert p.errno.OK?;
    hide AtRest;
    var first := Feed(s, Start(p), a);
    FeedConcat(s, Start(p), a, b);
    FeedKeepsInvariant(s, Start(p), a);
    if first.ctl.Advance? {
      FeedFromRun(s, first, b);
      assert first.p.errno.OK? by { assert AtRest(first.p); RestIsOk(first.p); }
    } else {
      StoppedFeed(s, first, b);
    }
  }
}
