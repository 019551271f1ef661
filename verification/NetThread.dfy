/**
 The net thread of net/net_thread.h over the connection table: accepts, timeouts, reads and
 the commands that other threads post, each drained command being one step.
 */
module NetThread {
  import opened Common
  import opened ConnectorTable

  datatype Command =
    | Send(uid: nat, ip: string, port: nat, bytes: seq<char>)
    | Close(uid: nat, ip: string, port: nat, reason: int)
    | Modify(uid: nat, ip: string, port: nat, data: nat)

  const MAX_QUEUE := 100000
  const TIMEOUT := 0

  /**
   added: the connectors that were given to add_connector.  closed: those for which
   ClosedConnectCB ran, in order.
   */
  datatype Net = Net(
    table: Table,
    conns: seq<Conn>,
    queue: seq<Command>,
    lastCheck: int,
    added: set<nat>,
    closed: seq<nat>)

  datatype Step =
    | Make(ip: string, port: nat, fd: int, listenFd: int, timeout: int, last: int, issue: bool)
    | AddConn(conn: nat, now: int, polled: bool)
    | Tick(now: int)
    | Post(cmd: Command)
    | Drain(ret: int)
    | ReadData(uid: nat, now: int)

  // ---- the effect of each step ----

  /** A new connector, as accept_socket makes it; its last refresh time is whatever was in memory. */
  function NewConn(s: Step, id: nat): Conn
    requires s.Make?
  {
    Conn(id, s.ip, s.port, s.fd, s.listenFd, s.timeout, s.last, false, false, 0, "")
  }

  function AfterMake(n: Net, s: Step): Net
    requires s.Make? && (s.issue ==> n.table.free != [])
  {
    if s.issue then n.(table := Issue(n.table), conns := n.conns + [NewConn(s, n.table.magic + n.table.free[0])])
    else n.(conns := n.conns + [NewConn(s, 0)])
  }

  /** A connector without an id gets one. */
  function WithId(n: Net, c: nat): Net
    requires c < |n.conns| && (n.conns[c].id == 0 ==> n.table.free != [])
  {
    if n.conns[c].id != 0 then n
    else n.(table := Issue(n.table), conns := n.conns[c := n.conns[c].(id := n.table.magic + n.table.free[0])])
  }

  /** connector_list.add, and del again if the event loop refuses the descriptor. */
  function AfterAdd(n: Net, c: nat, now: int, polled: bool): Net
    requires c < |n.conns| && SlotOf(n.conns[c].id) < |n.table.slots|
  {
    var u := SlotOf(n.conns[c].id);
    var t := Enter(n.table, u, c, n.conns[c].timeout + now);
    n.(table := if polled then t else Remove(t, u), added := n.added + {c})
  }

  /** close_connector posts nothing for an empty address or descriptor. */
  function CloseCommand(ip: string, port: nat, uid: nat, fd: int, reason: int): seq<Command> {
    if ip == "" || port == 0 || uid == 0 || fd <= 0 then [] else [Close(uid, ip, port, reason)]
  }

  /** timeoutCb. */
  function TimeoutCommand(c: Conn): seq<Command> { CloseCommand(c.ip, c.port, c.id, c.fd, TIMEOUT) }

  function TimeoutCommands(t: Table, conns: seq<Conn>, us: seq<nat>): seq<Command>
    requires Known(t, conns) && AllOccupied(t, us)
  {
    if us == [] then []
    else
      assert us[|us| - 1] in us;
      TimeoutCommands(t, conns, us[..|us| - 1]) + TimeoutCommand(ConnOf(t, conns, us[|us| - 1]))
  }

  /** write and send; ret is what the kernel answers. */
  function Sent(c: Conn, bytes: seq<char>, ret: int): Conn {
    var o := c.out + bytes;
    if c.closed || c.fd <= 0 then c.(out := "")
    else if o != "" && 0 < ret <= |o| then c.(out := o[ret..])
    else c.(out := o)
  }

  /** close, and the reset of the user data. */
  function Shut(c: Conn): Conn { c.(closed := c.closed || c.fd > 0, data := 0) }

  /** The command is for the connection that has the id now. */
  predicate Addressed(n: Net, cmd: Command)
    requires Readable(n.table, cmd.uid) && Known(n.table, n.conns)
  {
    match Get(n.table, cmd.uid)
    case None => false
    case Some(c) => n.conns[c].port == cmd.port && n.conns[c].ip == cmd.ip
  }

  /** One round of read_pipe_cb. */
  function Execute(n: Net, cmd: Command, ret: int): Net
    requires Shape(n.table) && Readable(n.table, cmd.uid) && Known(n.table, n.conns)
  {
    if !Addressed(n, cmd) then n
    else
      var c := Get(n.table, cmd.uid).value;
      GetMeansListed(n.table, cmd.uid);
      match cmd
      case Send(_, _, _, bytes) => n.(conns := n.conns[c := Sent(n.conns[c], bytes, ret)])
      case Close(uid, _, _, _) =>
        n.(closed := n.closed + [c], conns := n.conns[c := Shut(n.conns[c])], table := Remove(n.table, SlotOf(uid)))
      case Modify(_, _, _, data) => n.(conns := n.conns[c := n.conns[c].(data := data)])
  }

  lemma OverdueIsOccupied(t: Table, conns: seq<Conn>, now: int)
    requires TableInv(t) && Known(t, conns)
    ensures AllOccupied(t, Overdue(t, conns, now))
  {
    forall u | u in Overdue(t, conns, now) ensures InRange(t, u) && t.slots[u].Occupied? {
      OverdueIsExact(t, conns, now, u);
    }
  }

  function AfterTick(n: Net, now: int): Net
    requires TableInv(n.table) && Known(n.table, n.conns)
  {
    if now - n.lastCheck < 1 then n
    else
      var us := Overdue(n.table, n.conns, now);
      OverdueIsOccupied(n.table, n.conns, now);
      n.(conns := MarkAll(n.table, n.conns, us), lastCheck := now,
         queue := n.queue + TimeoutCommands(n.table, n.conns, us))
  }

  /** send and SetConnectorData drop their command when the queue is full. */
  function AfterPost(n: Net, cmd: Command): Net {
    if |n.queue| >= MAX_QUEUE then n else n.(queue := n.queue + [cmd])
  }

  function AfterRead(n: Net, uid: nat, now: int): Net
    requires Readable(n.table, uid) && Known(n.table, n.conns) && Shape(n.table)
    requires forall u :: 0 <= u < |n.table.slots| && n.table.slots[u].Occupied? ==>
               n.conns[n.table.slots[u].conn].id == n.table.magic + u
  {
    match Get(n.table, uid)
    case None => n
    case Some(c) =>
      var u, stamp := SlotOf(uid), n.conns[c].timeout + now;
      if stamp - n.conns[c].last < 1 then n
      else n.(table := Postpone(n.table, u, stamp), conns := n.conns[c := n.conns[c].(last := ToInt(stamp))])
  }

  // ---- the invariant ----

  /** Every occupied slot belongs to a connector that was added, has that id, and was not reported closed. */
  ghost predicate Owned(n: Net) {
    forall u :: 0 <= u < |n.table.slots| && n.table.slots[u].Occupied? ==>
      var c := n.table.slots[u].conn;
      c < |n.conns| && c in n.added && c !in n.closed && n.conns[c].id == n.table.magic + u
  }

  /** Connectors that wait to be added hold reserved ids, no two the same. */
  ghost predicate Pending(n: Net) {
    && (forall c :: 0 <= c < |n.conns| && c !in n.added && n.conns[c].id != 0 ==>
          MagicOf(n.conns[c].id) == n.table.magic && SlotOf(n.conns[c].id) in n.table.reserved)
    && (forall c, d :: 0 <= c < d < |n.conns| && c !in n.added && d !in n.added && n.conns[c].id != 0 ==>
          n.conns[c].id != n.conns[d].id)
  }

  ghost predicate Reported(n: Net) {
    && NoRepeats(n.closed)
    && (forall c :: c in n.closed ==> c in n.added)
    && (forall c :: c in n.added ==> c < |n.conns|)
  }

  /** An id that this table has issued, now or in the past. */
  predicate IsIssued(t: Table, id: nat) { MagicOf(id) == t.magic && InRange(t, SlotOf(id)) }

  /** A connector has no id, or one that the table has issued. */
  predicate Issued(n: Net) {
    forall c :: 0 <= c < |n.conns| && n.conns[c].id != 0 ==> IsIssued(n.table, n.conns[c].id)
  }

  ghost predicate Inv(n: Net) {
    && TableInv(n.table) && Known(n.table, n.conns) && Owned(n) && Pending(n) && Reported(n) && Issued(n)
    && forall cmd :: cmd in n.queue ==> Readable(n.table, cmd.uid)
  }

  function Init(size: nat, index: nat, time: int): (n: Net)
    requires size < SLOTS && index < 16
    ensures Inv(n)
  {
    InitIsGood(size, index, time);
    Net(InitTable(size, index, time), [], [], time, {}, [])
  }

  /**
   What the callers owe: an id can be issued only while there is one; a connector is added
   once; an id in a command stays inside the slot table; and a post of a close command waits
   for room in the queue.
   */
  ghost predicate Proper(n: Net, s: Step)
    requires Inv(n)
  {
    match s
    case Make(_, _, _, _, _, _, issue) => issue ==> n.table.free != []
    case AddConn(c, _, _) => c < |n.conns| && c !in n.added && (n.conns[c].id == 0 ==> n.table.free != [])
    case Tick(now) => |AfterTick(n, now).queue| <= MAX_QUEUE || AfterTick(n, now).queue == n.queue
    case Post(cmd) => Readable(n.table, cmd.uid) && (cmd.Close? ==> |n.queue| < MAX_QUEUE)
    case Drain(_) => true
    case ReadData(uid, _) => Readable(n.table, uid)
  }

  /** The assertion in add holds: the id of an added connector is reserved, so its slot is empty. */
  lemma AddIsListed(n: Net, c: nat)
    requires Inv(n) && c < |n.conns| && c !in n.added && (n.conns[c].id == 0 ==> n.table.free != [])
    ensures var m := WithId(n, c); var id := m.conns[c].id;
      && TableInv(m.table) && MagicOf(id) == m.table.magic && SlotOf(id) in m.table.reserved
      && InRange(m.table, SlotOf(id)) && m.table.slots[SlotOf(id)].Vacant?
  {
    if n.conns[c].id == 0 { IssueKeepsInv(n.table); }
  }

  ghost function Next(n: Net, s: Step): Net
    requires Inv(n) && Proper(n, s)
  {
    match s
    case Make(_, _, _, _, _, _, _) => AfterMake(n, s)
    case AddConn(c, now, polled) =>
      AddIsListed(n, c);
      AfterAdd(WithId(n, c), c, now, polled)
    case Tick(now) => AfterTick(n, now)
    case Post(cmd) => AfterPost(n, cmd)
    case Drain(ret) =>
      if n.queue == [] then n
      else
        assert n.queue[0] in n.queue;
        Execute(n.(queue := n.queue[1..]), n.queue[0], ret)
    case ReadData(uid, now) => AfterRead(n, uid, now)
  }

  lemma MakeKeepsInv(n: Net, s: Step)
    requires Inv(n) && s.Make? && Proper(n, s)
    ensures Inv(AfterMake(n, s))
  {
    hide TableInv;
    if s.issue { IssueKeepsInv(n.table); }
  }

  lemma WithIdKeepsInv(n: Net, c: nat)
    requires Inv(n) && c < |n.conns| && c !in n.added && (n.conns[c].id == 0 ==> n.table.free != [])
    ensures Inv(WithId(n, c))
  {
    hide TableInv;
    if n.conns[c].id == 0 { IssueKeepsInv(n.table); }
  }

  /** The table after add and, if the descriptor was refused, del. */
  lemma AddedTable(t: Table, u: nat, c: nat, key: int, polled: bool)
    requires TableInv(t) && u in t.reserved
    ensures var e := Enter(t, u, c, key); var r := if polled then e else Remove(e, u);
      && TableInv(e) && TableInv(r) && r.magic == t.magic && r.total == t.total && |r.slots| == |t.slots|
      && r.reserved == t.reserved - {u}
      && (polled ==> r.slots == t.slots[u := Occupied(c, t.nodes)]) && (!polled ==> r.slots == t.slots)
  {
    EnterKeepsInv(t, u, c, key);
    var e := Enter(t, u, c, key);
    if !polled {
      RemoveKeepsInv(e, u);
      assert Remove(e, u).slots == t.slots;
    }
  }

  lemma ReservedInRange(t: Table, u: nat)
    requires TableInv(t) && u in t.reserved
    ensures InRange(t, u) && t.slots[u].Vacant?
  {
  }

  lemma OwnedIsKnown(n: Net)
    requires Owned(n)
    ensures Known(n.table, n.conns)
  {
  }

  lemma IdParts(id: nat)
    ensures id == MagicOf(id) + SlotOf(id)
  {
  }

  /** No other pending connector has the slot of c. */
  lemma OthersElsewhere(n: Net, c: nat)
    requires Pending(n) && c < |n.conns| && c !in n.added && n.conns[c].id != 0
    ensures forall d :: 0 <= d < |n.conns| && d != c && d !in n.added && n.conns[d].id != 0 ==>
              SlotOf(n.conns[d].id) != SlotOf(n.conns[c].id)
  {
    forall d | 0 <= d < |n.conns| && d != c && d !in n.added && n.conns[d].id != 0
      ensures SlotOf(n.conns[d].id) != SlotOf(n.conns[c].id)
    {
      IdParts(n.conns[c].id);
      IdParts(n.conns[d].id);
    }
  }

  lemma AddKeepsInv(n: Net, c: nat, now: int, polled: bool)
    requires Inv(n) && c < |n.conns| && c !in n.added && n.conns[c].id != 0
    ensures SlotOf(n.conns[c].id) < |n.table.slots| && Inv(AfterAdd(n, c, now, polled))
  {
    hide TableInv, Enter, Remove, Known;
    var u := SlotOf(n.conns[c].id);
    assert u in n.table.reserved;
    ReservedInRange(n.table, u);
    AddedTable(n.table, u, c, n.conns[c].timeout + now, polled);
    IdParts(n.conns[c].id);
    var m := AfterAdd(n, c, now, polled);
    assert n.table.slots[u].Vacant?;
    assert Reported(m);
    OthersElsewhere(n, c);
    assert Pending(m);
    hide Pending, Reported;
    assert Owned(m);
    assert Known(m.table, m.conns) by { OwnedIsKnown(m); }
  }

  /** A change of connectors that leaves their ids, addresses and descriptors alone. */
  predicate SameIds(a: seq<Conn>, b: seq<Conn>) {
    |a| == |b| && forall c :: 0 <= c < |a| ==> a[c].id == b[c].id
  }

  lemma ConnsKeepInv(n: Net, conns: seq<Conn>)
    requires Inv(n) && SameIds(n.conns, conns)
    ensures Inv(n.(conns := conns))
  {
    hide TableInv;
  }

  lemma QueueKeepsInv(n: Net, queue: seq<Command>)
    requires Inv(n) && forall cmd :: cmd in queue ==> Readable(n.table, cmd.uid)
    ensures Inv(n.(queue := queue))
  {
    hide TableInv;
  }

  /** Closing removes the connection from the table and reports it, for the first time. */
  lemma CloseKeepsInv(n: Net, uid: nat, c: nat)
    requires Inv(n) && Readable(n.table, uid) && Get(n.table, uid) == Some(c)
    ensures Listed(n.table, uid) && c < |n.conns| && c !in n.closed && c in n.added
    ensures Inv(n.(closed := n.closed + [c], conns := n.conns[c := Shut(n.conns[c])],
                   table := Remove(n.table, SlotOf(uid))))
  {
    GetMeansListed(n.table, uid);
    var u := SlotOf(uid);
    RemoveKeepsInv(n.table, u);
    var t := Remove(n.table, u);
    assert t.slots == n.table.slots[u := Vacant] && t.magic == n.table.magic && t.reserved == n.table.reserved;
    hide TableInv, Remove;
    var m := n.(closed := n.closed + [c], conns := n.conns[c := Shut(n.conns[c])], table := t);
    assert Owned(m);
    assert Pending(m);
    assert Reported(m);
    assert Known(m.table, m.conns);
  }

  lemma SentKeepsId(c: Conn, bytes: seq<char>, ret: int)
    ensures Sent(c, bytes, ret).id == c.id
  {
  }

  lemma ExecuteKeepsInv(n: Net, cmd: Command, ret: int)
    requires Inv(n) && Readable(n.table, cmd.uid)
    ensures Inv(Execute(n, cmd, ret))
  {
    hide TableInv, Sent, Shut, Remove;
    if Addressed(n, cmd) {
      var c := Get(n.table, cmd.uid).value;
      match cmd
      case Send(_, _, _, bytes) =>
        SentKeepsId(n.conns[c], bytes, ret);
        ConnsKeepInv(n, n.conns[c := Sent(n.conns[c], bytes, ret)]);
      case Close(uid, _, _, _) => CloseKeepsInv(n, uid, c);
      case Modify(_, _, _, data) => ConnsKeepInv(n, n.conns[c := n.conns[c].(data := data)]);
    }
  }

  lemma {:induction false} TimeoutsAreReadable(n: Net, us: seq<nat>)
    requires Inv(n) && AllOccupied(n.table, us)
    ensures forall cmd :: cmd in TimeoutCommands(n.table, n.conns, us) ==> Readable(n.table, cmd.uid)
    decreases |us|
  {
    if us != [] {
      var last := us[|us| - 1];
      assert last in us;
      TimeoutsAreReadable(n, us[..|us| - 1]);
      assert ConnOf(n.table, n.conns, last).id == n.table.magic + last;
    }
  }

  lemma TickKeepsInv(n: Net, now: int)
    requires Inv(n)
    ensures Inv(AfterTick(n, now))
  {
    if now - n.lastCheck >= 1 {
      var us := Overdue(n.table, n.conns, now);
      OverdueIsOccupied(n.table, n.conns, now);
      TimeoutsAreReadable(n, us);
      hide TableInv, Overdue, MarkAll, TimeoutCommands;
      var conns := MarkAll(n.table, n.conns, us);
      forall c | 0 <= c < |n.conns| ensures n.conns[c].id == conns[c].id { MarksExactly(n.table, n.conns, us, c); }
      ConnsKeepInv(n, conns);
      QueueKeepsInv(n.(conns := conns), n.queue + TimeoutCommands(n.table, n.conns, us));
      hide Readable;
    }
  }

  /** A table whose slots hold the same connectors. */
  lemma MovedKeepsInv(n: Net, t: Table)
    requires Inv(n) && TableInv(t) && t.magic == n.table.magic && |t.slots| == |n.table.slots|
    requires n.table.reserved == t.reserved && n.table.total == t.total
    requires forall u :: 0 <= u < |t.slots| && t.slots[u].Occupied? ==>
               n.table.slots[u].Occupied? && n.table.slots[u].conn == t.slots[u].conn
    ensures Inv(n.(table := t))
  {
    hide TableInv;
  }

  lemma ReadKeepsInv(n: Net, uid: nat, now: int)
    requires Inv(n) && Readable(n.table, uid)
    ensures Inv(AfterRead(n, uid, now))
  {
    hide Insert, Erase, Indexed, Pending, Reported, Issued;
    var g := Get(n.table, uid);
    if g.Some? {
      var c, u := g.value, SlotOf(uid);
      var stamp := n.conns[c].timeout + now;
      GetMeansListed(n.table, uid);
      PostponeKeepsInv(n.table, u, stamp);
      hide TableInv;
      if stamp - n.conns[c].last >= 1 {
        var conns := n.conns[c := n.conns[c].(last := ToInt(stamp))];
        ConnsKeepInv(n, conns);
        MovedKeepsInv(n.(conns := conns), Postpone(n.table, u, stamp));
      }
    }
  }

  lemma NextKeepsInv(n: Net, s: Step)
    requires Inv(n) && Proper(n, s)
    ensures Inv(Next(n, s))
  {
    match s
    case Make(_, _, _, _, _, _, _) => MakeKeepsInv(n, s);
    case AddConn(c, now, polled) =>
      WithIdKeepsInv(n, c);
      AddIsListed(n, c);
      hide Inv;
      AddKeepsInv(WithId(n, c), c, now, polled);
    case Tick(now) => TickKeepsInv(n, now);
    case Post(cmd) =>
      if |n.queue| < MAX_QUEUE { QueueKeepsInv(n, n.queue + [cmd]); }
    case Drain(ret) =>
      if n.queue != [] {
        assert n.queue[0] in n.queue;
        QueueKeepsInv(n, n.queue[1..]);
        ExecuteKeepsInv(n.(queue := n.queue[1..]), n.queue[0], ret);
      }
    case ReadData(uid, now) => ReadKeepsInv(n, uid, now);
  }

  // ---- runs ----

  ghost predicate ProperRun(n: Net, ss: seq<Step>)
    requires Inv(n)
    decreases |ss|
  {
    ss == [] || (Proper(n, ss[0]) && (NextKeepsInv(n, ss[0]); ProperRun(Next(n, ss[0]), ss[1..])))
  }

  ghost function Run(n: Net, ss: seq<Step>): Net
    requires Inv(n) && ProperRun(n, ss)
    decreases |ss|
  {
    if ss == [] then n else NextKeepsInv(n, ss[0]); Run(Next(n, ss[0]), ss[1..])
  }

  lemma {:induction false} RunKeepsInv(n: Net, ss: seq<Step>)
    requires Inv(n) && ProperRun(n, ss)
    ensures Inv(Run(n, ss))
    decreases |ss|
  {
    hide Inv, Next, Proper;
    if ss != [] {
      NextKeepsInv(n, ss[0]);
      RunKeepsInv(Next(n, ss[0]), ss[1..]);
    }
  }

  /** Over every interleaving, ClosedConnectCB fires at most once per connector, and only for added ones. */
  lemma ClosedAtMostOnce(size: nat, index: nat, time: int, ss: seq<Step>)
    requires size < SLOTS && index < 16 && ProperRun(Init(size, index, time), ss)
    ensures var n := Run(Init(size, index, time), ss);
      NoRepeats(n.closed) && forall c :: c in n.closed ==> c in n.added
  {
    RunKeepsInv(Init(size, index, time), ss);
  }

  /** A command touches only the connection that it is addressed to. */
  lemma OthersUntouched(n: Net, cmd: Command, ret: int, c: nat)
    requires Shape(n.table) && Known(n.table, n.conns) && Readable(n.table, cmd.uid) && c < |n.conns|
    requires Get(n.table, cmd.uid) != Some(c)
    ensures c < |Execute(n, cmd, ret).conns| && Execute(n, cmd, ret).conns[c] == n.conns[c]
    ensures n.closed <= Execute(n, cmd, ret).closed
  {
    hide Sent, Shut, Remove;
  }

  /** What a step may do to a connector that was reported closed: nothing. */
  lemma StepFreezesClosed(n: Net, s: Step, c: nat)
    requires Inv(n) && Proper(n, s) && c in n.closed
    ensures c < |n.conns| && c < |Next(n, s).conns| && Next(n, s).conns[c] == n.conns[c]
    ensures c in Next(n, s).closed
  {
    hide Partitioned, Sorted, Distinct, HasEntry, Enter, Remove, Postpone, Issue;
    assert c in n.added;
    match s
    case Make(_, _, _, _, _, _, _) =>
    case AddConn(d, _, _) => AddIsListed(n, d);
    case Tick(now) =>
      if now - n.lastCheck >= 1 {
        OverdueIsOccupied(n.table, n.conns, now);
        MarksExactly(n.table, n.conns, Overdue(n.table, n.conns, now), c);
      }
    case Post(_) =>
    case Drain(ret) =>
      if n.queue != [] {
        assert n.queue[0] in n.queue;
        OthersUntouched(n.(queue := n.queue[1..]), n.queue[0], ret, c);
      }
    case ReadData(uid, _) =>
  }

  lemma {:induction false} RunFreezesClosed(n: Net, ss: seq<Step>, c: nat)
    requires Inv(n) && ProperRun(n, ss) && c in n.closed
    ensures c < |n.conns| && c < |Run(n, ss).conns| && Run(n, ss).conns[c] == n.conns[c]
    decreases |ss|
  {
    assert c in n.added && c < |n.conns|;
    hide Inv, Next, Proper;
    if ss != [] {
      NextKeepsInv(n, ss[0]);
      StepFreezesClosed(n, ss[0], c);
      RunFreezesClosed(Next(n, ss[0]), ss[1..], c);
    }
  }

  // ---- ids over runs ----

  /** What never changes about a connector: its id, once it has one, its address, descriptors and timeout. */
  predicate SameAddress(a: Conn, b: Conn) {
    a.ip == b.ip && a.port == b.port && a.fd == b.fd && a.listenFd == b.listenFd && a.timeout == b.timeout &&
    (a.id != 0 ==> b.id == a.id)
  }

  predicate Holds(t: Table, u: nat, c: nat) { u < |t.slots| && t.slots[u].Occupied? && t.slots[u].conn == c }

  /**
   What a step does about ids: the table keeps its magic and size, a connector its number and
   address, and its id once it has one; and an added connector takes no other slot.
   */
  predicate Follows(n: Net, m: Net) {
    && m.table.magic == n.table.magic && m.table.total == n.table.total && |m.table.slots| == |n.table.slots|
    && |n.conns| <= |m.conns| && n.added <= m.added
    && (forall c :: 0 <= c < |n.conns| ==> SameAddress(n.conns[c], m.conns[c]))
    && (forall u, c :: 0 <= u < |n.table.slots| && Holds(m.table, u, c) && c in n.added ==> Holds(n.table, u, c))
  }

  lemma AddFollows(n: Net, c: nat, now: int, polled: bool)
    requires Inv(n) && Proper(n, AddConn(c, now, polled))
    ensures Follows(n, Next(n, AddConn(c, now, polled)))
  {
    AddIsListed(n, c);
    var w := WithId(n, c);
    AddedTable(w.table, SlotOf(w.conns[c].id), c, w.conns[c].timeout + now, polled);
    hide TableInv, Enter, Remove;
  }

  lemma TickFollows(n: Net, now: int)
    requires Inv(n)
    ensures Follows(n, AfterTick(n, now))
  {
    if now - n.lastCheck >= 1 {
      var us := Overdue(n.table, n.conns, now);
      OverdueIsOccupied(n.table, n.conns, now);
      hide TableInv, Overdue, MarkAll, TimeoutCommands;
      var conns := MarkAll(n.table, n.conns, us);
      forall c | 0 <= c < |n.conns| ensures SameAddress(n.conns[c], conns[c]) { MarksExactly(n.table, n.conns, us, c); }
    }
  }

  lemma ExecuteFollows(n: Net, cmd: Command, ret: int)
    requires Inv(n) && Readable(n.table, cmd.uid)
    ensures Follows(n, Execute(n, cmd, ret))
  {
    GetMeansListed(n.table, cmd.uid);
    hide TableInv;
  }

  lemma MakeFollows(n: Net, s: Step)
    requires Inv(n) && s.Make? && Proper(n, s)
    ensures Follows(n, AfterMake(n, s))
  {
    hide TableInv;
  }

  lemma ReadFollows(n: Net, uid: nat, now: int)
    requires Inv(n) && Readable(n.table, uid)
    ensures Follows(n, AfterRead(n, uid, now))
  {
    GetMeansListed(n.table, uid);
    hide TableInv, Insert, Erase, Pending, Reported, Issued;
  }

  lemma DrainFollows(n: Net, ret: int)
    requires Inv(n)
    ensures Follows(n, Next(n, Drain(ret)))
  {
    if n.queue != [] {
      assert n.queue[0] in n.queue;
      hide Execute, TableInv, Owned, Pending, Reported, Issued;
      ExecuteFollows(n.(queue := n.queue[1..]), n.queue[0], ret);
    }
  }

  lemma NextFollows(n: Net, s: Step)
    requires Inv(n) && Proper(n, s)
    ensures Follows(n, Next(n, s))
  {
    hide AfterMake, AfterTick, AfterRead, AfterAdd, WithId, Execute, TableInv, Owned, Pending, Reported, Issued;
    match s
    case Make(_, _, _, _, _, _, _) => MakeFollows(n, s);
    case AddConn(c, now, polled) => AddFollows(n, c, now, polled);
    case Tick(now) => TickFollows(n, now);
    case Post(_) =>
    case Drain(ret) => DrainFollows(n, ret);
    case ReadData(uid, now) => ReadFollows(n, uid, now);
  }

  lemma FollowsOn(n: Net, m: Net, k: Net)
    requires Follows(n, m) && Follows(m, k)
    ensures Follows(n, k)
  {
  }

  lemma SelfFollows(n: Net)
    ensures Follows(n, n)
  {
  }

  lemma {:induction false} RunFollows(n: Net, ss: seq<Step>)
    requires Inv(n) && ProperRun(n, ss)
    ensures Follows(n, Run(n, ss))
    decreases |ss|
  {
    hide Inv, Next, Proper, Follows;
    if ss == [] {
      SelfFollows(n);
    } else {
      NextKeepsInv(n, ss[0]);
      NextFollows(n, ss[0]);
      RunFollows(Next(n, ss[0]), ss[1..]);
      FollowsOn(n, Next(n, ss[0]), Run(n, ss));
    }
  }

  /** An id that a connector has ever had can be looked up for good, so a command with it may be posted. */
  lemma HeldIdsStayReadable(n: Net, ss: seq<Step>, c: nat)
    requires Inv(n) && ProperRun(n, ss) && c < |n.conns| && n.conns[c].id != 0
    ensures var m := Run(n, ss); c < |m.conns| && m.conns[c].id == n.conns[c].id && Readable(m.table, n.conns[c].id)
  {
    RunKeepsInv(n, ss);
    RunFollows(n, ss);
    hide TableInv;
  }

  /** The connector was made, or got its id, after the state n. */
  predicate Later(n: Net, d: nat) { d !in n.added && (d < |n.conns| ==> n.conns[d].id == 0) }

  lemma SlotIsHeld(n: Net, id: nat, c: nat)
    requires Inv(n) && Readable(n.table, id) && Get(n.table, id) == Some(c)
    ensures IsIssued(n.table, id) && Holds(n.table, SlotOf(id), c)
    ensures c < |n.conns| && n.conns[c].id == id && c in n.added && c !in n.closed
  {
    GetMeansListed(n.table, id);
    IdParts(id);
    hide Partitioned;
  }

  /** The slot of a connector that waits to be added is empty. */
  lemma PendingAreVacant(n: Net)
    requires Inv(n)
    ensures forall c :: 0 <= c < |n.conns| && c !in n.added && n.conns[c].id != 0 ==>
              SlotOf(n.conns[c].id) < |n.table.slots| && n.table.slots[SlotOf(n.conns[c].id)].Vacant?
  {
    forall u | u in n.table.reserved ensures InRange(n.table, u) && n.table.slots[u].Vacant? {
      ReservedInRange(n.table, u);
    }
    hide TableInv;
  }

  /** Whoever holds the slot of a closed connection got its id later. */
  lemma HolderIsLater(n: Net, m: Net, u: nat, c: nat, d: nat)
    requires Inv(n) && Inv(m) && Follows(n, m)
    requires Holds(n.table, u, c) && Holds(m.table, u, d) && c in m.closed
    ensures d != c && Later(n, d)
  {
    assert d in m.added && d !in m.closed && m.conns[d].id == m.table.magic + u;
    assert d in n.added ==> Holds(n.table, u, d);
    PendingAreVacant(n);
    IdParts(m.conns[d].id);
    assert SlotOf(n.table.magic + u) == u;
    hide TableInv;
  }

  /**
   A command for the connection c that comes when c has been closed never touches c.  If its
   id is free or waits to be used again, it does nothing; otherwise the id now belongs to a
   later connection, which it reaches exactly if that one has the same address and port.
   */
  lemma StaleCommand(n: Net, ss: seq<Step>, c: nat, cmd: Command, ret: int)
    requires Inv(n) && ProperRun(n, ss) && Readable(n.table, cmd.uid) && Get(n.table, cmd.uid) == Some(c)
    requires c in Run(n, ss).closed
    ensures Inv(Run(n, ss)) && Readable(Run(n, ss).table, cmd.uid)
    ensures var m := Run(n, ss); var e := Execute(m, cmd, ret);
      && c < |m.conns| && m.conns[c].id == cmd.uid && e.conns[c] == m.conns[c] && e.closed[..|m.closed|] == m.closed
      && (Addressed(m, cmd) ==>
            var d := Get(m.table, cmd.uid).value;
            && d != c && Later(n, d) && d < |m.conns| && m.conns[d].id == cmd.uid
            && m.conns[d].ip == cmd.ip && m.conns[d].port == cmd.port
            && forall k :: 0 <= k < |m.conns| && k != d ==> e.conns[k] == m.conns[k])
      && (!Addressed(m, cmd) ==> e == m)
      && (cmd.Close? ==> (e == m <==> !Addressed(m, cmd)))
  {
    var m := Run(n, ss);
    RunKeepsInv(n, ss);
    RunFollows(n, ss);
    hide ProperRun, Run;
    SlotIsHeld(n, cmd.uid, c);
    if Addressed(m, cmd) {
      var d := Get(m.table, cmd.uid).value;
      SlotIsHeld(m, cmd.uid, d);
      HolderIsLater(n, m, SlotOf(cmd.uid), c, d);
    }
    hide TableInv, Sent, Shut, Remove, Follows, Later;
    if Get(m.table, cmd.uid) != Some(c) { OthersUntouched(m, cmd, ret, c); }
  }

  // ---- an id that is used again ----

  /** One more step in front of a run. */
  lemma StepRun(n: Net, ss: seq<Step>, k: nat, m: Net)
    requires k < |ss| && Inv(n) && Proper(n, ss[k]) && Next(n, ss[k]) == m && Inv(m) && ProperRun(m, ss[k + 1..])
    ensures ProperRun(n, ss[k..]) && Run(n, ss[k..]) == Run(m, ss[k + 1..])
  {
    hide Inv, Proper, Next;
    assert ss[k..][1..] == ss[k + 1..];
  }

  /** The table with one slot, its id being free, reserved, or with connector c under a deadline. */
  function FreeTable(nodes: nat): Table { Table(1, 0, [1], {}, [Vacant, Vacant], [], nodes) }

  function ReservedTable(nodes: nat): Table { Table(1, 0, [], {1}, [Vacant, Vacant], [], nodes) }

  function TakenTable(c: nat, nodes: nat): Table {
    Table(1, 0, [], {}, [Vacant, Occupied(c, nodes)], [Entry(10, 1, nodes)], nodes + 1)
  }

  function OpenConn(): Conn { Conn(1, "1", 7, 5, 3, 10, 0, false, false, 0, "") }

  function ShutConn(): Conn { OpenConn().(closed := true) }

  /** Accepts a connection, from one address and port every time. */
  function Accept(): Step { Make("1", 7, 5, 3, 10, 0, true) }

  function CloseFirst(): Command { Close(1, "1", 7, 9) }

  function FirstSteps(): seq<Step> {
    [Accept(), AddConn(0, 0, true), Post(CloseFirst()), Post(CloseFirst()), Drain(0)]
  }

  function LaterSteps(): seq<Step> { [Accept(), AddConn(1, 0, true), Drain(0)] }

  lemma AcceptStep(n: Net, nodes: nat) returns (m: Net)
    requires Inv(n) && n.table == FreeTable(nodes)
    ensures var s := Accept();
      Proper(n, s) && Next(n, s) == m && m == n.(table := ReservedTable(nodes), conns := n.conns + [OpenConn()])
    ensures Inv(m)
  {
    var s := Accept();
    NextKeepsInv(n, s);
    m := Next(n, s);
    hide Inv;
    assert [1][1..] == [];
  }

  lemma AddStep(n: Net, c: nat, nodes: nat) returns (m: Net)
    requires Inv(n) && n.table == ReservedTable(nodes) && c < |n.conns| && c !in n.added && n.conns[c] == OpenConn()
    ensures var s := AddConn(c, 0, true);
      Proper(n, s) && Next(n, s) == m && m == n.(table := TakenTable(c, nodes), added := n.added + {c})
    ensures Inv(m)
  {
    var s := AddConn(c, 0, true);
    NextKeepsInv(n, s);
    m := Next(n, s);
    hide Inv;
  }

  lemma PostStep(n: Net, cmd: Command) returns (m: Net)
    requires Inv(n) && |n.queue| < MAX_QUEUE && Readable(n.table, cmd.uid)
    ensures Proper(n, Post(cmd)) && Next(n, Post(cmd)) == m && m == n.(queue := n.queue + [cmd])
    ensures Inv(m)
  {
    NextKeepsInv(n, Post(cmd));
    m := Next(n, Post(cmd));
    hide Inv;
  }

  lemma CloseStep(n: Net, c: nat, nodes: nat) returns (m: Net)
    requires Inv(n) && n.table == TakenTable(c, nodes) && c < |n.conns| && n.conns[c] == OpenConn()
    requires n.queue != [] && n.queue[0] == CloseFirst()
    ensures Proper(n, Drain(0)) && Next(n, Drain(0)) == m
    ensures m == n.(table := FreeTable(nodes + 1), queue := n.queue[1..], closed := n.closed + [c],
                    conns := n.conns[c := ShutConn()])
    ensures Inv(m)
  {
    hide Inv, Sent, Insert;
    NextKeepsInv(n, Drain(0));
    m := Next(n, Drain(0));
  }

  lemma FreshNet()
    ensures Init(1, 0, 0) == Net(FreeTable(0), [], [], 0, {}, [])
  {
  }

  lemma SmallId(c: nat, nodes: nat)
    ensures Readable(TakenTable(c, nodes), 1)
  {
  }

  lemma NoSteps(n: Net, ss: seq<Step>)
    requires Inv(n)
    ensures ProperRun(n, ss[|ss|..]) && Run(n, ss[|ss|..]) == n
  {
    assert ss[|ss|..] == [];
  }

  /** The first connection is there, and two commands are posted for it. */
  lemma FirstConnection() returns (n: Net)
    ensures var ss := FirstSteps()[..4];
      && ProperRun(Init(1, 0, 0), ss) && n == Run(Init(1, 0, 0), ss)
      && Inv(n) && n == Net(TakenTable(0, 0), [OpenConn()], [CloseFirst(), CloseFirst()], 0, {0}, [])
  {
    hide Inv, Next, Proper, Run, ProperRun, Init, Readable, FreeTable, ReservedTable, TakenTable, OpenConn;
    FreshNet();
    var n0 := Init(1, 0, 0);
    var n1 := AcceptStep(n0, 0);
    var n2 := AddStep(n1, 0, 0);
    assert Readable(n2.table, 1) by { SmallId(0, 0); }
    var n3 := PostStep(n2, CloseFirst());
    n := PostStep(n3, CloseFirst());
    var ss := FirstSteps()[..4];
    NoSteps(n, ss);
    StepRun(n3, ss, 3, n);
    StepRun(n2, ss, 2, n3);
    StepRun(n1, ss, 1, n2);
    StepRun(n0, ss, 0, n1);
    assert ss[0..] == ss;
  }

  lemma {:induction false} RunOn(n: Net, ss: seq<Step>, s: Step)
    requires Inv(n) && ProperRun(n, ss) && Inv(Run(n, ss)) && Proper(Run(n, ss), s)
    ensures ProperRun(n, ss + [s]) && Run(n, ss + [s]) == Next(Run(n, ss), s)
    decreases |ss|
  {
    hide Inv, Proper, Next;
    if ss == [] {
      assert [] + [s] == [s] && [s][1..] == [];
      NextKeepsInv(n, s);
    } else {
      NextKeepsInv(n, ss[0]);
      RunOn(Next(n, ss[0]), ss[1..], s);
      assert (ss + [s])[1..] == ss[1..] + [s];
    }
  }

  /** The first connection, up to its close, with one more command waiting. */
  lemma FirstLife() returns (n: Net)
    ensures ProperRun(Init(1, 0, 0), FirstSteps()) && n == Run(Init(1, 0, 0), FirstSteps())
    ensures Inv(n) && n == Net(FreeTable(1), [ShutConn()], [CloseFirst()], 0, {0}, [0])
  {
    hide Inv, Next, Proper, Run, ProperRun, Init, FreeTable, TakenTable, OpenConn, ShutConn;
    var m := FirstConnection();
    n := CloseStep(m, 0, 0);
    RunOn(Init(1, 0, 0), FirstSteps()[..4], Drain(0));
    assert FirstSteps()[..4] + [Drain(0)] == FirstSteps();
  }

  /**
   Two commands are posted for connector 0; the first one closes it.  Connector 1 gets its id,
   from the same address and port, before the second one is drained, which then closes it.
   */
  lemma ReusedId() returns (n: Net)
    ensures ProperRun(Init(1, 0, 0), FirstSteps()) && n == Run(Init(1, 0, 0), FirstSteps())
    ensures |n.conns| == 1 && n.queue == [CloseFirst()] && n.closed == [0]
    ensures Inv(n) && ProperRun(n, LaterSteps()) && Run(n, LaterSteps()).closed == [0, 1]
  {
    n := FirstLife();
    hide Inv, Next, Proper, Run, ProperRun, Init, FreeTable, ReservedTable, TakenTable, OpenConn, ShutConn;
    var n6 := AcceptStep(n, 1);
    var n7 := AddStep(n6, 1, 1);
    var n8 := CloseStep(n7, 1, 1);
    var ss := LaterSteps();
    NoSteps(n8, ss);
    StepRun(n7, ss, 2, n8);
    StepRun(n6, ss, 1, n7);
    StepRun(n, ss, 0, n6);
    assert ss[0..] == ss;
  }

  // ---- deadlines over runs ----

  /** A connector in the multimap under another slot keeps its deadline. */
  lemma EnterDeadlines(t: Table, u: nat, c: nat, key: int)
    requires TableInv(t) && u in t.reserved
    ensures var e := Enter(t, u, c, key);
      && DeadlineIs(e, u, key) && forall v, k :: v != u && DeadlineIs(t, v, k) ==> DeadlineIs(e, v, k)
  {
    InsertKeeps(t.tl, Entry(key, u, t.nodes)) by {
      forall x | x in t.tl ensures x.node != t.nodes { assert PointsBack(t, x); }
    }
    hide Insert, Sorted, Distinct, Partitioned;
    var e := Enter(t, u, c, key);
    assert Entry(key, u, t.nodes) in e.tl;
    forall v, k | v != u && DeadlineIs(t, v, k) ensures DeadlineIs(e, v, k) {
      var x :| x in t.tl && x.uid == v && x.key == k;
      assert x in e.tl;
    }
  }

  lemma RemoveDeadlines(t: Table, u: nat)
    requires TableInv(t) && InRange(t, u) && t.slots[u].Occupied?
    ensures forall v, k :: v != u && DeadlineIs(t, v, k) ==> DeadlineIs(Remove(t, u), v, k)
  {
    ErasedIndex(t, u);
    hide Erase, Sorted, Distinct, Partitioned, HasEntry;
    forall v, k | v != u && DeadlineIs(t, v, k) ensures DeadlineIs(Remove(t, u), v, k) {
      var x :| x in t.tl && x.uid == v && x.key == k;
      assert x in Remove(t, u).tl;
    }
  }

  lemma PostponeDeadlines(t: Table, u: nat, key: int)
    requires TableInv(t) && InRange(t, u) && t.slots[u].Occupied?
    ensures var e := Postpone(t, u, key);
      && DeadlineIs(e, u, key) && forall v, k :: v != u && DeadlineIs(t, v, k) ==> DeadlineIs(e, v, k)
  {
    var s := t.(tl := Erase(t.tl, t.slots[u].node));
    ErasedIndex(t, u);
    InsertKeeps(s.tl, Entry(key, u, t.nodes)) by {
      forall x | x in s.tl ensures x.node != t.nodes { assert PointsBack(t, x); }
    }
    hide Erase, Insert, Sorted, Distinct, Partitioned, HasEntry;
    var e := Postpone(t, u, key);
    assert Entry(key, u, t.nodes) in e.tl;
    forall v, k | v != u && DeadlineIs(t, v, k) ensures DeadlineIs(e, v, k) {
      var x :| x in t.tl && x.uid == v && x.key == k;
      assert x in e.tl;
    }
  }

  /** Arrived bytes set a new deadline for c, which is later than its last refresh time. */
  predicate Renews(n: Net, s: Step, c: nat) {
    s.ReadData? && c < |n.conns| && MagicOf(s.uid) == n.table.magic && Holds(n.table, SlotOf(s.uid), c) &&
    n.conns[c].timeout + s.now > n.conns[c].last
  }

  /** The time of the add of c, or of its last renewal, after a step. */
  function SinceStep(n: Net, s: Step, c: nat, since: int): int {
    if s.AddConn? && s.conn == c then s.now else if Renews(n, s, c) then s.now else since
  }

  /** The same after a run. */
  ghost function Since(n: Net, ss: seq<Step>, c: nat, since: int): int
    requires Inv(n) && ProperRun(n, ss)
    decreases |ss|
  {
    if ss == [] then since
    else NextKeepsInv(n, ss[0]); Since(Next(n, ss[0]), ss[1..], c, SinceStep(n, ss[0], c, since))
  }

  /** The deadline of c, if it is in the table, is its timeout after that time. */
  ghost predicate DueAfter(n: Net, c: nat, since: int) {
    forall u :: Holds(n.table, u, c) ==> c < |n.conns| && DeadlineIs(n.table, u, n.conns[c].timeout + since)
  }

  /** An added connector is due its timeout after it was added. */
  lemma AddSetsDeadline(n: Net, c: nat, now: int)
    requires Inv(n) && Proper(n, AddConn(c, now, true))
    ensures var m := Next(n, AddConn(c, now, true));
      && c < |m.conns| && Holds(m.table, SlotOf(m.conns[c].id), c) && m.conns[c].timeout == n.conns[c].timeout
      && DeadlineIs(m.table, SlotOf(m.conns[c].id), n.conns[c].timeout + now)
  {
    AddIsListed(n, c);
    var w := WithId(n, c);
    var u := SlotOf(w.conns[c].id);
    hide Inv, TableInv, Enter, DeadlineIs;
    EnterDeadlines(w.table, u, c, w.conns[c].timeout + now);
    AddedTable(w.table, u, c, w.conns[c].timeout + now, true);
  }

  /** A renewal makes it due its timeout after that. */
  lemma ReadSetsDeadline(n: Net, uid: nat, now: int, c: nat)
    requires Inv(n) && Readable(n.table, uid) && Renews(n, ReadData(uid, now), c)
    ensures var m := Next(n, ReadData(uid, now)); DeadlineIs(m.table, SlotOf(uid), n.conns[c].timeout + now)
  {
    GetMeansListed(n.table, uid);
    hide TableInv, Postpone, DeadlineIs, Pending, Reported, Issued;
    PostponeDeadlines(n.table, SlotOf(uid), n.conns[c].timeout + now);
  }

  /** Deadlines outside slot u stay. */
  ghost predicate SameDeadlines(t: Table, e: Table, u: nat) {
    forall v, k :: v != u && DeadlineIs(t, v, k) ==> DeadlineIs(e, v, k)
  }

  /** No connection holds two slots. */
  lemma OneSlot(n: Net, u: nat, v: nat, c: nat)
    requires Inv(n) && Holds(n.table, u, c) && Holds(n.table, v, c)
    ensures u == v
  {
    hide TableInv, Pending, Reported, Issued;
  }

  /** A step that leaves other slots alone. */
  lemma DueMoves(n: Net, m: Net, u: nat, c: nat, since: int, later: int)
    requires Inv(n) && Inv(m) && Follows(n, m) && DueAfter(n, c, since)
    requires c in n.added || c !in m.added
    requires SameDeadlines(n.table, m.table, u)
    requires Holds(m.table, u, c) ==> c < |m.conns| && DeadlineIs(m.table, u, m.conns[c].timeout + later)
    requires !Holds(m.table, u, c) ==> since == later
    ensures DueAfter(m, c, later)
  {
    hide TableInv, DeadlineIs, Pending, Reported, Issued;
    forall v | Holds(m.table, v, c) ensures c < |m.conns| && DeadlineIs(m.table, v, m.conns[c].timeout + later) {
      if v != u {
        assert Holds(n.table, v, c);
        if Holds(m.table, u, c) { OneSlot(m, u, v, c); }
      }
    }
  }

  lemma EnteredSlot(t: Table, u: nat, c: nat, key: int)
    requires TableInv(t) && u in t.reserved
    ensures InRange(t, u) && InRange(Enter(t, u, c, key), u) && Enter(t, u, c, key).slots[u].Occupied?
  {
    hide Insert;
  }

  /** The deadlines after add and, if the descriptor was refused, del. */
  lemma AddedDeadlines(t: Table, u: nat, c: nat, key: int, polled: bool)
    requires TableInv(t) && u in t.reserved
    ensures u < |t.slots| && Enter(t, u, c, key).slots[u].Occupied?
    ensures var e := Enter(t, u, c, key); var r := if polled then e else Remove(e, u);
      SameDeadlines(t, r, u) && (polled ==> DeadlineIs(r, u, key))
  {
    hide TableInv, Enter, Remove, DeadlineIs;
    EnterDeadlines(t, u, c, key);
    EnteredSlot(t, u, c, key);
    if !polled {
      EnterKeepsInv(t, u, c, key);
      RemoveDeadlines(Enter(t, u, c, key), u);
    }
  }

  lemma WithIdSame(n: Net, d: nat)
    requires Inv(n) && d < |n.conns| && (n.conns[d].id == 0 ==> n.table.free != [])
    ensures var w := WithId(n, d);
      && w.table.tl == n.table.tl && w.table.slots == n.table.slots && |w.conns| == |n.conns| && w.added == n.added
      && w.conns[d].timeout == n.conns[d].timeout
  {
    hide Inv;
  }

  lemma SameEntries(t: Table, e: Table, u: nat)
    requires t.tl == e.tl
    ensures SameDeadlines(t, e, u)
  {
  }

  lemma AddedTo(n: Net, d: nat, now: int, polled: bool) returns (u: nat)
    requires Inv(n) && Proper(n, AddConn(d, now, polled))
    ensures var m := Next(n, AddConn(d, now, polled));
      && SameDeadlines(n.table, m.table, u) && m.added == n.added + {d}
      && d < |m.conns| && m.conns[d].timeout == n.conns[d].timeout && u < |n.table.slots| == |m.table.slots|
      && n.table.slots[u].Vacant?
      && (polled ==> DeadlineIs(m.table, u, n.conns[d].timeout + now) && Holds(m.table, u, d))
      && (!polled ==> m.table.slots == n.table.slots)
  {
    hide Inv, TableInv, Enter, Remove, WithId, DeadlineIs;
    AddIsListed(n, d);
    WithIdSame(n, d);
    var w := WithId(n, d);
    u := SlotOf(w.conns[d].id);
    AddedTable(w.table, u, d, w.conns[d].timeout + now, polled);
    AddedDeadlines(w.table, u, d, w.conns[d].timeout + now, polled);
    SameEntries(n.table, w.table, u);
  }

  lemma AddKeepsDue(n: Net, d: nat, now: int, polled: bool, c: nat, since: int)
    requires Inv(n) && Proper(n, AddConn(d, now, polled)) && DueAfter(n, c, since)
    ensures DueAfter(Next(n, AddConn(d, now, polled)), c, if d == c then now else since)
  {
    hide TableInv, DeadlineIs, Follows, Next, Pending, Reported, Issued, SameDeadlines;
    var s := AddConn(d, now, polled);
    var m := Next(n, s);
    NextKeepsInv(n, s);
    NextFollows(n, s);
    var u := AddedTo(n, d, now, polled);
    if d != c {
      DueMoves(n, m, u, c, since, since);
    } else if polled {
      forall v | Holds(m.table, v, c) ensures DeadlineIs(m.table, v, m.conns[c].timeout + now) { OneSlot(m, u, v, c); }
    } else {
      assert forall v :: Holds(m.table, v, c) <==> Holds(n.table, v, c);
    }
  }

  /** A step that leaves the multimap alone. */
  lemma DueStays(n: Net, m: Net, c: nat, since: int)
    requires Inv(n) && Inv(m) && Follows(n, m) && DueAfter(n, c, since)
    requires c in n.added || c !in m.added
    requires n.table.tl == m.table.tl
    ensures DueAfter(m, c, since)
  {
    hide TableInv, Pending, Reported, Issued;
    forall v | Holds(m.table, v, c) ensures c < |m.conns| && DeadlineIs(m.table, v, m.conns[c].timeout + since) {
      assert Holds(n.table, v, c);
    }
  }

  lemma TickKeepsDue(n: Net, now: int, c: nat, since: int)
    requires Inv(n) && Proper(n, Tick(now)) && DueAfter(n, c, since)
    ensures DueAfter(Next(n, Tick(now)), c, since)
  {
    hide TableInv, DeadlineIs, Follows, Pending, Reported, Issued, Overdue, MarkAll, TimeoutCommands, InRange;
    NextKeepsInv(n, Tick(now));
    NextFollows(n, Tick(now));
    DueStays(n, Next(n, Tick(now)), c, since);
  }

  lemma RemovedSlot(t: Table, u: nat)
    requires u < |t.slots| && t.slots[u].Occupied?
    ensures |Remove(t, u).slots| == |t.slots| && Remove(t, u).slots[u].Vacant?
  {
    hide Erase;
  }

  lemma DrainKeepsDue(n: Net, ret: int, c: nat, since: int)
    requires Inv(n) && DueAfter(n, c, since)
    ensures DueAfter(Next(n, Drain(ret)), c, since)
  {
    hide DeadlineIs, Follows, Pending, Reported, Issued, Sent, Shut, Remove;
    var m := Next(n, Drain(ret));
    NextKeepsInv(n, Drain(ret));
    NextFollows(n, Drain(ret));
    if n.queue != [] {
      var cmd := n.queue[0];
      assert cmd in n.queue;
      GetMeansListed(n.table, cmd.uid);
      hide TableInv;
      var u := SlotOf(cmd.uid);
      if cmd.Close? && Addressed(n, cmd) {
        RemoveDeadlines(n.table, u);
        RemovedSlot(n.table, u);
        DueMoves(n, m, u, c, since, since);
      } else {
        DueStays(n, m, c, since);
      }
    }
  }

  lemma ShapeOf(t: Table)
    requires TableInv(t)
    ensures Shape(t)
  {
  }

  lemma PostponedSlots(t: Table, u: nat, key: int)
    requires u < |t.slots| && t.slots[u].Occupied?
    ensures var e := Postpone(t, u, key);
      |e.slots| == |t.slots| && forall v, c :: Holds(e, v, c) <==> Holds(t, v, c)
  {
    hide Erase, Insert;
  }

  /** What arrived bytes do, in terms of the table. */
  lemma ReadMoves(n: Net, uid: nat, now: int)
    requires Inv(n) && Readable(n.table, uid)
    ensures Known(n.table, n.conns)
    ensures match Get(n.table, uid)
      case None => Next(n, ReadData(uid, now)) == n
      case Some(c) =>
        c < |n.conns| && n.conns[c].id == uid &&
        var u, stamp := SlotOf(uid), n.conns[c].timeout + now;
        Next(n, ReadData(uid, now)) ==
        if Refreshes(n.table, n.conns, u, stamp) then
          n.(table := Postpone(n.table, u, stamp), conns := n.conns[c := n.conns[c].(last := ToInt(stamp))])
        else n
  {
    GetMeansListed(n.table, uid);
    IdParts(uid);
    hide Partitioned, Sorted, Distinct, HasEntry, Insert, Erase;
  }

  lemma ReadKeepsDue(n: Net, uid: nat, now: int, c: nat, since: int)
    requires Inv(n) && Readable(n.table, uid) && DueAfter(n, c, since)
    ensures var s := ReadData(uid, now); DueAfter(Next(n, s), c, SinceStep(n, s, c, since))
  {
    hide TableInv, DeadlineIs, Follows, Pending, Reported, Issued, Postpone;
    var s := ReadData(uid, now);
    var m := Next(n, s);
    NextKeepsInv(n, s);
    NextFollows(n, s);
    ReadMoves(n, uid, now);
    ShapeOf(n.table);
    GetMeansListed(n.table, uid);
    match Get(n.table, uid)
    case None => DueStays(n, m, c, since);
    case Some(d) =>
      var u, stamp := SlotOf(uid), n.conns[d].timeout + now;
      if Refreshes(n.table, n.conns, u, stamp) {
        PostponeDeadlines(n.table, u, stamp);
        PostponedSlots(n.table, u, stamp);
        DueMoves(n, m, u, c, since, SinceStep(n, s, c, since));
      } else {
        DueStays(n, m, c, since);
      }
  }

  lemma MakeKeepsDue(n: Net, s: Step, c: nat, since: int)
    requires Inv(n) && s.Make? && Proper(n, s) && DueAfter(n, c, since)
    ensures DueAfter(Next(n, s), c, since)
  {
    NextKeepsInv(n, s);
    NextFollows(n, s);
    hide TableInv, DueAfter, Follows, Owned, Pending, Reported, Issued;
    DueStays(n, Next(n, s), c, since);
  }

  lemma PostKeepsDue(n: Net, cmd: Command, c: nat, since: int)
    requires Inv(n) && Proper(n, Post(cmd)) && DueAfter(n, c, since)
    ensures DueAfter(Next(n, Post(cmd)), c, since)
  {
  }

  /** Every step keeps the deadline of a connection its timeout after its add or its last renewal. */
  lemma StepKeepsDue(n: Net, s: Step, c: nat, since: int)
    requires Inv(n) && Proper(n, s) && DueAfter(n, c, since)
    ensures DueAfter(Next(n, s), c, SinceStep(n, s, c, since))
  {
    hide Inv, TableInv, DueAfter, Next;
    match s
    case Make(_, _, _, _, _, _, _) => MakeKeepsDue(n, s, c, since);
    case AddConn(d, now, polled) => AddKeepsDue(n, d, now, polled, c, since);
    case Tick(now) => TickKeepsDue(n, now, c, since);
    case Post(cmd) => PostKeepsDue(n, cmd, c, since);
    case Drain(ret) => DrainKeepsDue(n, ret, c, since);
    case ReadData(uid, now) => ReadKeepsDue(n, uid, now, c, since);
  }

  /** So does every run. */
  lemma {:induction false} RunKeepsDue(n: Net, ss: seq<Step>, c: nat, since: int)
    requires Inv(n) && ProperRun(n, ss) && DueAfter(n, c, since)
    ensures Inv(Run(n, ss)) && DueAfter(Run(n, ss), c, Since(n, ss, c, since))
    decreases |ss|
  {
    hide Inv, Next, Proper, DueAfter, SinceStep;
    if ss != [] {
      NextKeepsInv(n, ss[0]);
      StepKeepsDue(n, ss[0], c, since);
      RunKeepsDue(Next(n, ss[0]), ss[1..], c, SinceStep(n, ss[0], c, since));
    }
  }

  lemma NothingDue(size: nat, index: nat, time: int, c: nat)
    requires size < SLOTS && index < 16
    ensures DueAfter(Init(size, index, time), c, 0)
  {
  }

  /** The connector is in the table. */
  ghost predicate InTable(n: Net, c: nat) { exists u :: Holds(n.table, u, c) }

  // ---- what a connection writes ----

  /** What the kernel takes of the output with a send; ret is its answer. */
  function Taken(c: Conn, bytes: seq<char>, ret: int): seq<char> {
    var o := c.out + bytes;
    if !c.closed && c.fd > 0 && 0 < ret <= |o| then o[..ret] else []
  }

  /** Bytes of a send, and the answer of the kernel. */
  datatype Write = Write(bytes: seq<char>, ret: int)

  function SentAll(c: Conn, ws: seq<Write>): Conn {
    if ws == [] then c else Sent(SentAll(c, ws[..|ws| - 1]), ws[|ws| - 1].bytes, ws[|ws| - 1].ret)
  }

  function TakenAll(c: Conn, ws: seq<Write>): seq<char> {
    if ws == [] then []
    else TakenAll(c, ws[..|ws| - 1]) + Taken(SentAll(c, ws[..|ws| - 1]), ws[|ws| - 1].bytes, ws[|ws| - 1].ret)
  }

  function Written(ws: seq<Write>): seq<char> {
    if ws == [] then [] else Written(ws[..|ws| - 1]) + ws[|ws| - 1].bytes
  }

  lemma OneSend(b: Conn, w: Write, taken: seq<char>, all: seq<char>)
    requires !b.closed && b.fd > 0 ==> taken + b.out == all
    ensures !b.closed && b.fd > 0 ==>
              taken + Taken(b, w.bytes, w.ret) + Sent(b, w.bytes, w.ret).out == all + w.bytes
  {
    if !b.closed && b.fd > 0 {
      var o := b.out + w.bytes;
      assert Taken(b, w.bytes, w.ret) + Sent(b, w.bytes, w.ret).out == o;
    }
  }

  /**
   On an open connection what the kernel has taken, followed by what is buffered, is what was
   buffered at first, followed by all bytes sent, in order; a closed one drops them.
   */
  lemma {:induction false} SendsKeepOrder(c: Conn, ws: seq<Write>)
    ensures SentAll(c, ws) == c.(out := SentAll(c, ws).out)
    ensures !c.closed && c.fd > 0 ==> TakenAll(c, ws) + SentAll(c, ws).out == c.out + Written(ws)
    ensures (c.closed || c.fd <= 0) && ws != [] ==> SentAll(c, ws).out == []
  {
    if ws != [] {
      var front, w := ws[..|ws| - 1], ws[|ws| - 1];
      SendsKeepOrder(c, front);
      var b := SentAll(c, front);
      OneSend(b, w, TakenAll(c, front), c.out + Written(front));
    }
  }

  // ---- closes and ticks ----

  /** A close command that reaches its connection reports it, empties its slot and frees its id. */
  lemma CloseTakesEffect(n: Net, cmd: Command, ret: int)
    requires Inv(n) && Readable(n.table, cmd.uid) && cmd.Close? && Addressed(n, cmd)
    ensures var m, c := Execute(n, cmd, ret), Get(n.table, cmd.uid).value;
      && m.closed == n.closed + [c] && Readable(m.table, cmd.uid) && Get(m.table, cmd.uid) == None
      && m.table.free == n.table.free + [SlotOf(cmd.uid)] && m.conns[c].data == 0
      && (n.conns[c].fd > 0 ==> m.conns[c].closed)
  {
    CloseKeepsInv(n, cmd.uid, Get(n.table, cmd.uid).value);
    hide TableInv, Erase;
  }

  /** The other commands that reach their connection change its output or its data, and nothing else. */
  lemma CommandsTakeEffect(n: Net, cmd: Command, ret: int)
    requires Shape(n.table) && Known(n.table, n.conns) && Readable(n.table, cmd.uid) && !cmd.Close? && Addressed(n, cmd)
    ensures var m, c := Execute(n, cmd, ret), Get(n.table, cmd.uid).value;
      && m == n.(conns := n.conns[c := m.conns[c]])
      && (cmd.Modify? ==> m.conns[c] == n.conns[c].(data := cmd.data))
      && (cmd.Send? ==> m.conns[c] == n.conns[c].(out := m.conns[c].out))
      && (cmd.Send? && !n.conns[c].closed && n.conns[c].fd > 0 ==>
            Taken(n.conns[c], cmd.bytes, ret) + m.conns[c].out == n.conns[c].out + cmd.bytes)
  {
    if cmd.Send? {
      var c := n.conns[Get(n.table, cmd.uid).value];
      OneSend(c, Write(cmd.bytes, ret), [], c.out);
    }
  }

  /** The assertion in del after a refused descriptor. */
  lemma RefusedIsListed(n: Net, c: nat, key: int)
    requires Inv(n) && c < |n.conns| && c !in n.added && n.conns[c].id != 0
    ensures Listed(Enter(n.table, SlotOf(n.conns[c].id), c, key), n.conns[c].id)
  {
    AddIsListed(n, c);
    hide Insert;
  }

  lemma {:induction false} TimeoutIsPosted(t: Table, conns: seq<Conn>, us: seq<nat>, u: nat, cmd: Command)
    requires Known(t, conns) && AllOccupied(t, us) && u in us && cmd in TimeoutCommand(ConnOf(t, conns, u))
    ensures cmd in TimeoutCommands(t, conns, us)
    decreases |us|
  {
    var last := us[|us| - 1];
    assert us == us[..|us| - 1] + [last];
    if u != last { TimeoutIsPosted(t, conns, us[..|us| - 1], u, cmd); }
  }

  /** The connector is in the table, does not listen, and its deadline has come. */
  ghost predicate Late(n: Net, c: nat, now: int)
    requires c < |n.conns|
  {
    n.conns[c].listenFd != -1 &&
    exists u :: InRange(n.table, u) && n.table.slots[u].Occupied? && n.table.slots[u].conn == c &&
      exists key :: key <= now && DeadlineIs(n.table, u, key)
  }

  /**
   A tick, unless it comes within a second of the last one, marks exactly the connections
   with a deadline at most now that do not listen, and posts their close commands.
   */
  lemma TickIsExact(n: Net, now: int, c: nat)
    requires Inv(n) && now - n.lastCheck >= 1 && c < |n.conns|
    ensures var m := AfterTick(n, now);
      && c < |m.conns| && m.conns[c] == n.conns[c].(timedOut := m.conns[c].timedOut)
      && (m.conns[c].timedOut <==> n.conns[c].timedOut || Late(n, c, now))
      && (Late(n, c, now) ==> forall cmd :: cmd in TimeoutCommand(n.conns[c]) ==> cmd in m.queue)
  {
    var us := Overdue(n.table, n.conns, now);
    OverdueIsOccupied(n.table, n.conns, now);
    MarksExactly(n.table, n.conns, us, c);
    if Late(n, c, now) {
      var u :| InRange(n.table, u) && n.table.slots[u].Occupied? && n.table.slots[u].conn == c &&
        exists key :: key <= now && DeadlineIs(n.table, u, key);
      OverdueIsExact(n.table, n.conns, now, u);
      forall cmd | cmd in TimeoutCommand(n.conns[c]) ensures cmd in TimeoutCommands(n.table, n.conns, us) {
        TimeoutIsPosted(n.table, n.conns, us, u, cmd);
      }
    }
    if exists u :: u in us && n.table.slots[u].conn == c {
      var u :| u in us && n.table.slots[u].conn == c;
      OverdueIsExact(n.table, n.conns, now, u);
    }
  }

  lemma {:induction false} PostedIsTimeout(t: Table, conns: seq<Conn>, us: seq<nat>, cmd: Command) returns (u: nat)
    requires Known(t, conns) && AllOccupied(t, us) && cmd in TimeoutCommands(t, conns, us)
    ensures u in us && cmd in TimeoutCommand(ConnOf(t, conns, u))
    decreases |us|
  {
    hide TimeoutCommand;
    var last := us[|us| - 1];
    assert us == us[..|us| - 1] + [last];
    if cmd in TimeoutCommand(ConnOf(t, conns, last)) { u := last; }
    else { u := PostedIsTimeout(t, conns, us[..|us| - 1], cmd); }
  }

  /** The close command that a tick posts for a connection. */
  predicate ClosesLate(c: Conn, cmd: Command) {
    cmd == Close(c.id, c.ip, c.port, TIMEOUT) && c.ip != "" && c.port != 0 && c.fd > 0
  }

  lemma LateHasId(n: Net, c: nat, now: int)
    requires Inv(n) && c < |n.conns| && Late(n, c, now)
    ensures n.conns[c].id != 0
  {
  }

  /** What a tick posts: close commands of exactly the late connections that have an address and a descriptor. */
  lemma TickPosts(n: Net, now: int, cmd: Command)
    requires Inv(n) && now - n.lastCheck >= 1
    ensures var m := AfterTick(n, now);
      && n.queue <= m.queue
      && (cmd in m.queue[|n.queue|..] <==>
          exists c :: 0 <= c < |n.conns| && Late(n, c, now) && ClosesLate(n.conns[c], cmd))
  {
    var us := Overdue(n.table, n.conns, now);
    var posted := AfterTick(n, now).queue[|n.queue|..];
    OverdueIsOccupied(n.table, n.conns, now);
    hide Overdue, MarkAll, TableInv, TimeoutCommands, DeadlineIs;
    assert posted == TimeoutCommands(n.table, n.conns, us);
    if cmd in posted {
      var u := PostedIsTimeout(n.table, n.conns, us, cmd);
      OverdueIsExact(n.table, n.conns, now, u);
      assert ClosesLate(n.conns[n.table.slots[u].conn], cmd) && Late(n, n.table.slots[u].conn, now);
    }
    if c :| 0 <= c < |n.conns| && Late(n, c, now) && ClosesLate(n.conns[c], cmd) {
      LateHasId(n, c, now);
      var u :| InRange(n.table, u) && n.table.slots[u].Occupied? && n.table.slots[u].conn == c &&
        exists key :: key <= now && DeadlineIs(n.table, u, key);
      OverdueIsExact(n.table, n.conns, now, u);
      TimeoutIsPosted(n.table, n.conns, us, u, cmd);
    }
  }

  /** The time of the last tick that looked for late connections: it came at least a second after the one before. */
  function LastPass(last: int, ss: seq<Step>): int
    decreases |ss|
  {
    if ss == [] then last
    else LastPass(if ss[0].Tick? && ss[0].now >= last + 1 then ss[0].now else last, ss[1..])
  }

  lemma PassIsTimed(n: Net, s: Step)
    requires Inv(n) && Proper(n, s)
    ensures Next(n, s).lastCheck == LastPass(n.lastCheck, [s])
  {
    hide Inv, Overdue, MarkAll, TimeoutCommands, Proper;
  }

  lemma LastPassFirst(last: int, s: Step, ss: seq<Step>)
    ensures LastPass(last, [s] + ss) == LastPass(LastPass(last, [s]), ss)
  {
    assert ([s] + ss)[1..] == ss && [s][1..] == [];
  }

  lemma {:induction false} RunIsTimed(n: Net, ss: seq<Step>)
    requires Inv(n) && ProperRun(n, ss)
    ensures Run(n, ss).lastCheck == LastPass(n.lastCheck, ss)
    decreases |ss|
  {
    hide Inv, Next, Proper, LastPass;
    if ss == [] {
      NoPass(n.lastCheck);
    } else {
      NextKeepsInv(n, ss[0]);
      PassIsTimed(n, ss[0]);
      RunIsTimed(Next(n, ss[0]), ss[1..]);
      LastPassFirst(n.lastCheck, ss[0], ss[1..]);
      assert [ss[0]] + ss[1..] == ss;
    }
  }

  lemma NoPass(last: int)
    ensures LastPass(last, []) == last
  {
  }

  lemma LateIsDue(n: Net, c: nat, now: int, since: int)
    requires Inv(n) && c < |n.conns| && DueAfter(n, c, since)
    ensures Late(n, c, now) <==> n.conns[c].listenFd != -1 && InTable(n, c) && n.conns[c].timeout + since <= now
  {
    hide Partitioned, Indexed, Pending, Reported, Issued, DeadlineIs;
    if Late(n, c, now) {
      var u :| InRange(n.table, u) && n.table.slots[u].Occupied? && n.table.slots[u].conn == c &&
        exists key :: key <= now && DeadlineIs(n.table, u, key);
      var key :| key <= now && DeadlineIs(n.table, u, key);
      assert Holds(n.table, u, c);
      DeadlineIsUnique(n.table, u, key, n.conns[c].timeout + since);
    }
    if InTable(n, c) && n.conns[c].timeout + since <= now {
      var u: nat :| Holds(n.table, u, c);
      assert InRange(n.table, u);
    }
  }

  lemma SoonTick(n: Net, now: int)
    requires Inv(n) && now - n.lastCheck < 1
    ensures AfterTick(n, now) == n
  {
  }

  /**
   Over every run, a tick within a second of the last one that passed does nothing; a later one
   newly marks exactly the connections in the table that do not listen and whose timeout has
   passed since they were added or last renewed.
   */
  lemma TickAfterRun(size: nat, index: nat, time: int, ss: seq<Step>, now: int, c: nat)
    requires size < SLOTS && index < 16 && ProperRun(Init(size, index, time), ss)
    requires c < |Run(Init(size, index, time), ss).conns|
    ensures var n0 := Init(size, index, time); var n := Run(n0, ss);
      && Inv(n) && c < |AfterTick(n, now).conns|
      && if now < LastPass(time, ss) + 1 then AfterTick(n, now) == n
         else AfterTick(n, now).conns[c].timedOut <==>
              n.conns[c].timedOut ||
              (n.conns[c].listenFd != -1 && InTable(n, c) && now >= n.conns[c].timeout + Since(n0, ss, c, 0))
  {
    hide Inv, Run, ProperRun, DueAfter, Since, InTable, Late, LastPass;
    var n0 := Init(size, index, time);
    NothingDue(size, index, time, c);
    RunKeepsDue(n0, ss, c, 0);
    RunIsTimed(n0, ss);
    var n := Run(n0, ss);
    if now - n.lastCheck >= 1 {
      LateIsDue(n, c, now, Since(n0, ss, c, 0));
      TickIsExact(n, now, c);
    } else {
      SoonTick(n, now);
    }
  }

  // ---- the thread object ----

  /** What the kernel answers to the sends, one after the other. */
  function Head(rets: seq<int>): int { if rets == [] then 0 else rets[0] }

  function Tail(rets: seq<int>): seq<int> { if rets == [] then [] else rets[1..] }

  /** read_pipe_cb without another thread in between: it drains until the queue is empty. */
  ghost function DrainAll(n: Net, rets: seq<int>): Net
    requires Inv(n)
    decreases |n.queue|
  {
    if n.queue == [] then n
    else
      NextKeepsInv(n, Drain(Head(rets)));
      DrainAll(Next(n, Drain(Head(rets))), Tail(rets))
  }

  lemma NoTimeouts(t: Table, conns: seq<Conn>)
    requires Known(t, conns)
    ensures AllOccupied(t, []) && TimeoutCommands(t, conns, []) == []
  {
  }

  lemma OneTimeout(t: Table, conns: seq<Conn>, us: seq<nat>, i: nat, q: seq<Command>)
    requires Known(t, conns) && AllOccupied(t, us) && i < |us|
    ensures AllOccupied(t, us[..i]) && AllOccupied(t, us[..i + 1]) && InRange(t, us[i]) && t.slots[us[i]].Occupied?
    ensures t.slots[us[i]].conn < |conns|
    ensures q + TimeoutCommands(t, conns, us[..i + 1]) ==
            q + TimeoutCommands(t, conns, us[..i]) + TimeoutCommand(ConnOf(t, conns, us[i]))
  {
    assert us[..i + 1][..i] == us[..i];
    assert us[i] in us;
  }

  lemma MakeStep(n: Net, s: Step)
    requires Inv(n) && s.Make? && Proper(n, s)
    ensures s.issue ==> n.table.free != []
    ensures Next(n, s) == AfterMake(n, s)
  {
    hide Inv;
  }

  class NetThread {
    const connectors: Connectors
    const list: ConnectorList
    var sendlist: seq<Command>
    ghost var added: set<nat>
    ghost var closed: seq<nat>

    ghost function View(): Net
      reads this, list, list.vConn, connectors
    {
      Net(list.View(), connectors.all, sendlist, list.lastTimeoutTime, added, closed)
    }

    ghost predicate Valid()
      reads this, list, list.vConn, connectors
    {
      list.connectors == connectors && list.Valid() && Inv(View())
    }

    constructor (size: nat, index: nat, time: int)
      requires size < SLOTS && index < 16
      ensures Valid() && View() == Init(size, index, time)
      ensures fresh(connectors) && fresh(list) && fresh(list.vConn)
    {
      var all := new Connectors();
      var table := new ConnectorList(size, index, time, all);
      connectors, list := all, table;
      sendlist, added, closed := [], {}, [];
    }

    /** What accept_socket does up to CreateConnectorCB; the new connector has the last number. */
    method MakeConnector(s: Step)
      requires Valid() && s.Make? && Proper(View(), s)
      modifies list, connectors
      ensures Valid() && View() == Next(old(View()), s)
    {
      hide Inv, Partitioned, Sorted, Distinct, HasEntry;
      MakeStep(View(), s);
      MakeKeepsInv(View(), s);
      var id := 0;
      if s.issue { id := list.GetUniqId(); }
      connectors.all := connectors.all + [NewConn(s, id)];
    }

    /** A connector without an id gets one. */
    method GiveId(c: nat)
      requires Valid() && c < |connectors.all| && c !in added
      requires connectors.all[c].id == 0 ==> View().table.free != []
      modifies list, connectors
      ensures Valid() && View() == WithId(old(View()), c)
    {
      hide Inv, TableInv, Owned, Pending, Reported, Known;
      WithIdKeepsInv(View(), c);
      if connectors.all[c].id == 0 {
        var uid := list.GetUniqId();
        connectors.all := connectors.all[c := connectors.all[c].(id := uid)];
      }
    }

    /** The part of add_connector below the id. */
    method AddListed(c: nat, now: int, polled: bool)
      requires Valid() && c < |connectors.all| && c !in added && connectors.all[c].id != 0
      modifies this, list, list.vConn
      ensures SlotOf(connectors.all[c].id) < |old(View()).table.slots|
      ensures Valid() && View() == AfterAdd(old(View()), c, now, polled)
    {
      hide Inv, TableInv, Owned, Pending, Reported, Known, Enter, Remove;
      AddKeepsInv(View(), c, now, polled);
      AddIsListed(View(), c);
      RefusedIsListed(View(), c, connectors.all[c].timeout + now);
      list.Add(c, connectors.all[c].timeout + now);
      if !polled { list.Del(connectors.all[c].id); }
      added := added + {c};
    }

    method AddConnector(c: nat, now: int, polled: bool)
      requires Valid() && Proper(View(), AddConn(c, now, polled))
      modifies this, list, list.vConn, connectors
      ensures Valid() && View() == Next(old(View()), AddConn(c, now, polled))
    {
      AddIsListed(View(), c);
      hide Inv, WithId, AfterAdd;
      GiveId(c);
      AddListed(c, now, polled);
    }

    /** close_connector; waiting for room is up to the caller. */
    method CloseConnector(ip: string, port: nat, uid: nat, fd: int, reason: int)
      requires Valid() && Readable(View().table, uid) && |sendlist| < MAX_QUEUE
      modifies `sendlist
      ensures Valid() && sendlist == old(sendlist) + CloseCommand(ip, port, uid, fd, reason)
    {
      QueueKeepsInv(View(), sendlist + CloseCommand(ip, port, uid, fd, reason));
      hide Inv;
      if |ip| == 0 || port == 0 || uid == 0 || fd <= 0 {
        return;
      }
      sendlist := sendlist + [Close(uid, ip, port, reason)];
    }

    /** send, close_connector and SetConnectorData, once they have built their command. */
    method PostCommand(cmd: Command)
      requires Valid() && Proper(View(), Post(cmd))
      modifies `sendlist
      ensures Valid() && View() == Next(old(View()), Post(cmd))
    {
      NextKeepsInv(View(), Post(cmd));
      hide Inv;
      if |sendlist| < MAX_QUEUE { sendlist := sendlist + [cmd]; }
    }

    /** timeoutCb on the connections that timed out, in the table t with the connectors as they were. */
    method PostTimeouts(us: seq<nat>, ghost t: Table, ghost conns: seq<Conn>)
      requires list.vConn[..] == t.slots && Known(t, conns) && AllOccupied(t, us)
      requires connectors.all == MarkAll(t, conns, us)
      modifies `sendlist
      ensures sendlist == old(sendlist) + TimeoutCommands(t, conns, us)
    {
      hide TimeoutCommands, AllOccupied, Known, MarkAll;
      NoTimeouts(t, conns);
      ghost var q := sendlist;
      for i := 0 to |us|
        invariant AllOccupied(t, us[..i]) && sendlist == q + TimeoutCommands(t, conns, us[..i])
      {
        OneTimeout(t, conns, us, i, q);
        MarksExactly(t, conns, us, t.slots[us[i]].conn);
        sendlist := sendlist + TimeoutCommand(connectors.all[list.vConn[us[i]].conn]);
      }
      assert us[..|us|] == us;
    }

    /** tick_timer_cb. */
    method TickTimer(now: int)
      requires Valid() && Proper(View(), Tick(now))
      modifies this, list, connectors
      ensures Valid() && View() == Next(old(View()), Tick(now))
    {
      ghost var n := View();
      NextKeepsInv(n, Tick(now));
      NoTimeouts(n.table, n.conns);
      hide Inv, TimeoutCommands, MarkAll, AllOccupied, Overdue;
      var us := list.CheckTimeout(now);
      PostTimeouts(us, n.table, n.conns);
    }

    /** One drained command. */
    method DrainOne(ret: int)
      requires Valid() && sendlist != []
      modifies this, list, list.vConn, connectors
      ensures Valid() && View() == Next(old(View()), Drain(ret)) && sendlist == old(sendlist)[1..]
    {
      ghost var n := View();
      NextKeepsInv(n, Drain(ret));
      var cmd := sendlist[0];
      assert cmd in n.queue;
      sendlist := sendlist[1..];
      GetMeansListed(n.table, cmd.uid);
      hide Inv;
      var found := list.GetConn(cmd.uid);
      if found.None? {
        return;
      }
      var c := found.value;
      if connectors.all[c].port != cmd.port || connectors.all[c].ip != cmd.ip {
        return;
      }
      match cmd {
        case Send(_, _, _, bytes) =>
          connectors.all := connectors.all[c := Sent(connectors.all[c], bytes, ret)];
        case Close(uid, _, _, _) =>
          closed := closed + [c];
          connectors.all := connectors.all[c := Shut(connectors.all[c])];
          list.Del(uid);
        case Modify(_, _, _, data) =>
          connectors.all := connectors.all[c := connectors.all[c].(data := data)];
      }
    }

    /** read_pipe_cb. */
    method ReadPipe(rets: seq<int>)
      requires Valid()
      modifies this, list, list.vConn, connectors
      ensures Valid() && View() == DrainAll(old(View()), rets) && sendlist == []
    {
      ghost var n := View();
      hide Inv, Next;
      var left := rets;
      while sendlist != []
        invariant Valid() && DrainAll(View(), left) == DrainAll(n, rets)
        decreases |sendlist|
      {
        DrainOne(Head(left));
        left := Tail(left);
      }
    }

    /** The end of read_data when bytes have arrived. */
    method ReadDone(uid: nat, now: int)
      requires Valid() && Readable(View().table, uid)
      modifies list, list.vConn, connectors
      ensures Valid() && View() == Next(old(View()), ReadData(uid, now))
    {
      hide Inv, Next, Partitioned, Sorted, Distinct, HasEntry, Insert, Erase;
      ghost var n := View();
      NextKeepsInv(n, ReadData(uid, now));
      GetMeansListed(n.table, uid);
      ReadMoves(n, uid, now);
      var found := list.GetConn(uid);
      if found.Some? { list.Refresh(connectors.all[found.value].id, connectors.all[found.value].timeout + now); }
    }
  }
}
