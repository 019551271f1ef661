/**
 The bounded thread pool of base/thread_pool.cc as a step system: any number of workers and
 callers, any interleaving.  A task is named by its place among the accepted tasks.
 */
module ThreadPool {
  /** Where a worker stands; the comments name the step it takes next. */
  datatype Worker =
    | Locking             // take the lock, at the top of the loop or after a wait
    | Checking            // the loop around wait
    | Waiting             // woken up, by a notification or spuriously
    | Deciding            // the test of shutdown
    | Taking              // front and pop, and release the lock
    | Running(task: nat)  // the call of the task
    | Exited

  datatype Shutdown = No | Immediate | Graceful

  /**
   accepted counts the tasks that add_task took; taken lists those dequeued, in order; late
   counts those dequeued after immediate shutdown was asked for.
   */
  datatype Pool = Pool(
    available: int,
    queue: seq<nat>,
    shutdown: Shutdown,
    lockFree: bool,
    workers: seq<Worker>,
    accepted: nat,
    taken: seq<nat>,
    done: set<nat>,
    late: nat)

  function Init(threads: nat, queueSize: int): Pool {
    Pool(queueSize, [], No, true, seq(threads, _ => Locking), 0, [], {}, 0)
  }

  datatype Turn = AddTask | Work(worker: nat) | Shut

  /** add_task; the result says whether the task was accepted. */
  function Add(p: Pool): (Pool, int) {
    if p.available > 0 then
      (p.(queue := p.queue + [p.accepted], available := p.available - 1, accepted := p.accepted + 1), 0)
    else (p, -1)
  }

  predicate Blocked(p: Pool, i: nat)
    requires i < |p.workers|
  {
    (p.workers[i].Locking? && !p.lockFree) || p.workers[i].Exited?
  }

  /** One step of a worker that is not blocked. */
  function WorkerStep(p: Pool, i: nat): Pool
    requires i < |p.workers| && !Blocked(p, i)
    requires p.workers[i].Taking? ==> p.queue != []
  {
    match p.workers[i]
    case Locking => p.(lockFree := false, workers := p.workers[i := Checking])
    case Checking =>
      if p.queue == [] && p.shutdown.No? then p.(lockFree := true, workers := p.workers[i := Waiting])
      else p.(workers := p.workers[i := Deciding])
    case Waiting => p.(workers := p.workers[i := Locking])
    case Deciding =>
      if p.shutdown.Immediate? || (p.shutdown.Graceful? && p.queue == []) then
        p.(lockFree := true, workers := p.workers[i := Exited])
      else p.(workers := p.workers[i := Taking])
    case Taking =>
      p.(queue := p.queue[1..], available := p.available + 1, lockFree := true,
         workers := p.workers[i := Running(p.queue[0])], taken := p.taken + [p.queue[0]],
         late := p.late + if p.shutdown.Immediate? then 1 else 0)
    case Running(t) => p.(done := p.done + {t}, workers := p.workers[i := Locking])
  }

  predicate Enabled(p: Pool, t: Turn) {
    match t
    case AddTask => p.lockFree
    case Work(i) => i < |p.workers| && !Blocked(p, i) && (p.workers[i].Taking? ==> p.queue != [])
    case Shut => true
  }

  /** A turn; the destructor sets the flag without taking the lock. */
  function Next(p: Pool, t: Turn): Pool
    requires Enabled(p, t)
  {
    match t
    case AddTask => Add(p).0
    case Work(i) => WorkerStep(p, i)
    case Shut => p.(shutdown := Immediate)
  }

  /** A schedule; a thread that cannot go on, waits. */
  function Run(p: Pool, ts: seq<Turn>): Pool
    decreases |ts|
  {
    if ts == [] then p else Run(if Enabled(p, ts[0]) then Next(p, ts[0]) else p, ts[1..])
  }

  // ---- the invariant ----

  function Ids(n: nat): seq<nat> { seq(n, i => i) }

  predicate HoldsLock(w: Worker) { w.Checking? || w.Deciding? || w.Taking? }

  /** The lock has at most one holder, and the holder may go on as it decided. */
  predicate Locked(p: Pool) {
    && (forall i :: 0 <= i < |p.workers| && HoldsLock(p.workers[i]) ==> !p.lockFree)
    && (forall i, j :: 0 <= i < j < |p.workers| ==> !(HoldsLock(p.workers[i]) && HoldsLock(p.workers[j])))
    && (forall i :: 0 <= i < |p.workers| && p.workers[i].Taking? ==> p.queue != [])
    && (forall i :: 0 <= i < |p.workers| && p.workers[i].Deciding? ==> p.queue != [] || !p.shutdown.No?)
  }

  /** Tasks leave the queue in the order in which they came, and the room adds up. */
  predicate Queued(p: Pool, queueSize: int) {
    p.taken + p.queue == Ids(p.accepted) && p.available + |p.queue| == queueSize
  }

  /** Every dequeued task is either done or with exactly one worker. */
  ghost predicate Placed(p: Pool) {
    && (forall t :: t in p.done ==> t < |p.taken|)
    && (forall i :: 0 <= i < |p.workers| && p.workers[i].Running? ==>
          p.workers[i].task < |p.taken| && p.workers[i].task !in p.done)
    && (forall i, j :: 0 <= i < j < |p.workers| && p.workers[i].Running? && p.workers[j].Running? ==>
          p.workers[i].task != p.workers[j].task)
    && (forall t: nat :: t < |p.taken| && t !in p.done ==>
          exists i :: 0 <= i < |p.workers| && p.workers[i] == Running(t))
  }

  /** At most one task is dequeued after immediate shutdown: the one already decided on. */
  predicate Punctual(p: Pool) {
    && (!p.shutdown.Immediate? ==> p.late == 0)
    && (p.late > 0 ==> p.late == 1 && forall i :: 0 <= i < |p.workers| ==> !p.workers[i].Taking?)
  }

  ghost predicate Inv(p: Pool, queueSize: int) { Locked(p) && Queued(p, queueSize) && Placed(p) && Punctual(p) }

  lemma InitIsGood(threads: nat, queueSize: int)
    ensures Inv(Init(threads, queueSize), queueSize)
  {
  }

  lemma StepKeepsLocked(p: Pool, i: nat)
    requires Locked(p) && Enabled(p, Work(i))
    ensures Locked(WorkerStep(p, i))
  {
  }

  lemma StepKeepsQueued(p: Pool, i: nat, queueSize: int)
    requires Queued(p, queueSize) && Enabled(p, Work(i))
    ensures Queued(WorkerStep(p, i), queueSize)
  {
    if p.workers[i].Taking? { assert p.taken + [p.queue[0]] + p.queue[1..] == p.taken + p.queue; }
  }

  lemma TakingKeepsPlaced(p: Pool, i: nat, queueSize: int)
    requires Placed(p) && Queued(p, queueSize) && Enabled(p, Work(i)) && p.workers[i].Taking?
    ensures Placed(WorkerStep(p, i))
  {
    var q := WorkerStep(p, i);
    var n := |p.taken|;
    assert p.queue[0] == n by { assert (p.taken + p.queue)[n] == p.queue[0]; }
    assert |q.taken| == n + 1 && q.workers == p.workers[i := Running(n)] && q.done == p.done;
    forall t: nat | t < n + 1 && t !in q.done ensures exists j :: 0 <= j < |q.workers| && q.workers[j] == Running(t) {
      if t == n {
        assert q.workers[i] == Running(t);
      } else {
        var j :| 0 <= j < |p.workers| && p.workers[j] == Running(t);
        assert q.workers[j] == Running(t);
      }
    }
    hide Queued;
  }

  lemma DoneKeepsPlaced(p: Pool, i: nat)
    requires Placed(p) && Enabled(p, Work(i)) && p.workers[i].Running?
    ensures Placed(WorkerStep(p, i))
  {
    var q := WorkerStep(p, i);
    forall t: nat | t < |q.taken| && t !in q.done
      ensures exists j :: 0 <= j < |q.workers| && q.workers[j] == Running(t)
    {
      var j :| 0 <= j < |p.workers| && p.workers[j] == Running(t);
      assert q.workers[j] == Running(t);
    }
  }

  lemma MoveKeepsPlaced(p: Pool, q: Pool, i: nat)
    requires Placed(p) && i < |p.workers| == |q.workers| && q.workers == p.workers[i := q.workers[i]]
    requires !p.workers[i].Running? && !q.workers[i].Running? && q.taken == p.taken && q.done == p.done
    ensures Placed(q)
  {
    forall t: nat | t < |q.taken| && t !in q.done
      ensures exists j :: 0 <= j < |q.workers| && q.workers[j] == Running(t)
    {
      var j :| 0 <= j < |p.workers| && p.workers[j] == Running(t);
      assert q.workers[j] == Running(t);
    }
  }

  lemma StepKeepsPlaced(p: Pool, i: nat, queueSize: int)
    requires Placed(p) && Queued(p, queueSize) && Enabled(p, Work(i))
    ensures Placed(WorkerStep(p, i))
  {
    if p.workers[i].Taking? {
      TakingKeepsPlaced(p, i, queueSize);
    } else if p.workers[i].Running? {
      DoneKeepsPlaced(p, i);
    } else {
      MoveKeepsPlaced(p, WorkerStep(p, i), i);
    }
  }

  lemma StepKeepsPunctual(p: Pool, i: nat)
    requires Punctual(p) && Enabled(p, Work(i))
    requires forall j :: 0 <= j < |p.workers| && p.workers[j].Taking? && p.workers[i].Taking? ==> j == i
    ensures Punctual(WorkerStep(p, i))
  {
  }

  lemma NextKeepsInv(p: Pool, t: Turn, queueSize: int)
    requires Inv(p, queueSize) && Enabled(p, t)
    ensures Inv(Next(p, t), queueSize)
  {
    match t
    case AddTask =>
      assert Ids(p.accepted + 1) == Ids(p.accepted) + [p.accepted];
      assert p.taken + (p.queue + [p.accepted]) == p.taken + p.queue + [p.accepted];
    case Work(i) =>
      StepKeepsLocked(p, i);
      StepKeepsQueued(p, i, queueSize);
      StepKeepsPlaced(p, i, queueSize);
      hide Locked, Queued, Placed;
      StepKeepsPunctual(p, i);
    case Shut =>
  }

  lemma {:induction false} RunKeepsInv(p: Pool, ts: seq<Turn>, queueSize: int)
    requires Inv(p, queueSize)
    ensures Inv(Run(p, ts), queueSize)
    decreases |ts|
  {
    hide Inv, Next, Enabled;
    if ts != [] {
      if Enabled(p, ts[0]) {
        NextKeepsInv(p, ts[0], queueSize);
        RunKeepsInv(Next(p, ts[0]), ts[1..], queueSize);
      } else {
        RunKeepsInv(p, ts[1..], queueSize);
      }
    }
  }

  // ---- what the pool promises ----

  /** Every accepted task is exactly one of queued, running and done; dequeues follow acceptance. */
  lemma TasksAreKept(threads: nat, queueSize: int, ts: seq<Turn>, t: nat)
    requires t < Run(Init(threads, queueSize), ts).accepted
    ensures var p := Run(Init(threads, queueSize), ts);
      var running := exists i :: 0 <= i < |p.workers| && p.workers[i] == Running(t);
      && p.taken + p.queue == Ids(p.accepted) && p.available + |p.queue| == queueSize
      && (if t in p.queue then t !in p.done && !running else (t in p.done <==> !running))
  {
    var p := Run(Init(threads, queueSize), ts);
    InitIsGood(threads, queueSize);
    RunKeepsInv(Init(threads, queueSize), ts, queueSize);
    hide Run;
    var all := p.taken + p.queue;
    assert all == Ids(p.accepted);
    if t < |p.taken| {
      forall j | 0 <= j < |p.queue| ensures p.queue[j] != t { assert p.queue[j] == all[|p.taken| + j]; }
    } else {
      assert p.queue[t - |p.taken|] == all[t] == t;
    }
  }

  lemma {:induction false} RoomStaysPositive(p: Pool, ts: seq<Turn>)
    requires p.available >= 0
    ensures Run(p, ts).available >= 0
    decreases |ts|
  {
    if ts != [] { RoomStaysPositive(if Enabled(p, ts[0]) then Next(p, ts[0]) else p, ts[1..]); }
  }

  /** The room never runs below zero, so the queue never exceeds its size. */
  lemma {:induction false} QueueIsBounded(threads: nat, queueSize: nat, ts: seq<Turn>)
    ensures var p := Run(Init(threads, queueSize), ts); 0 <= p.available <= queueSize && |p.queue| <= queueSize
  {
    InitIsGood(threads, queueSize);
    RunKeepsInv(Init(threads, queueSize), ts, queueSize);
    RoomStaysPositive(Init(threads, queueSize), ts);
  }

  /** Over every schedule a task is accepted exactly while the queue is shorter than its size. */
  lemma AcceptedExactly(threads: nat, queueSize: nat, ts: seq<Turn>)
    ensures var p := Run(Init(threads, queueSize), ts); var (q, r) := Add(p);
      if |p.queue| < queueSize then r == 0 && q.queue == p.queue + [p.accepted] && q.accepted == p.accepted + 1
      else r == -1 && q == p
  {
    InitIsGood(threads, queueSize);
    RunKeepsInv(Init(threads, queueSize), ts, queueSize);
  }

  // ---- tasks can be dequeued ----

  predicate Holder(p: Pool, i: int) { 0 <= i < |p.workers| && HoldsLock(p.workers[i]) }

  /** Workers exit only after a shutdown, and a taken lock has a holder. */
  ghost predicate AllWork(p: Pool) {
    && (p.shutdown.No? ==> forall i :: 0 <= i < |p.workers| ==> !p.workers[i].Exited?)
    && (!p.lockFree ==> exists i :: Holder(p, i))
  }

  lemma StepKeepsWork(p: Pool, t: Turn)
    requires AllWork(p) && Enabled(p, t)
    ensures AllWork(Next(p, t)) && |Next(p, t).workers| == |p.workers|
  {
    var q := Next(p, t);
    if !q.lockFree {
      if t.Work? && HoldsLock(q.workers[t.worker]) {
        assert Holder(q, t.worker);
      } else {
        var j :| Holder(p, j);
        assert Holder(q, j);
      }
    }
  }

  lemma {:induction false} RunKeepsWork(p: Pool, ts: seq<Turn>)
    requires AllWork(p)
    ensures AllWork(Run(p, ts)) && |Run(p, ts).workers| == |p.workers|
    decreases |ts|
  {
    hide AllWork, Next, Enabled;
    if ts != [] {
      if Enabled(p, ts[0]) {
        StepKeepsWork(p, ts[0]);
        RunKeepsWork(Next(p, ts[0]), ts[1..]);
      } else {
        RunKeepsWork(p, ts[1..]);
      }
    }
  }

  /** How many steps a worker is away from taking a task. */
  function Distance(w: Worker): nat {
    match w
    case Running(_) | Waiting => 5
    case Locking => 4
    case Checking => 3
    case Deciding => 2
    case Taking => 1
    case Exited => 0
  }

  /** Nothing keeps the worker from taking the first task. */
  predicate Unhindered(p: Pool, i: nat) {
    i < |p.workers| && !p.workers[i].Exited? && p.queue != [] && p.shutdown.No? &&
    (HoldsLock(p.workers[i]) <==> !p.lockFree)
  }

  /** The same worker again and again. */
  function Alone(i: nat, k: nat): seq<Turn> { if k == 0 then [] else [Work(i)] + Alone(i, k - 1) }

  /** A worker that nobody hinders takes the first task, and no other. */
  lemma {:induction false} AloneItTakes(p: Pool, i: nat)
    requires Unhindered(p, i)
    ensures var q := Run(p, Alone(i, Distance(p.workers[i])));
      q.taken == p.taken + [p.queue[0]] && |q.workers| == |p.workers| && q.workers[i] == Running(p.queue[0])
    decreases Distance(p.workers[i])
  {
    var q := Next(p, Work(i));
    if !p.workers[i].Taking? { AloneItTakes(q, i); }
  }

  /** Whenever a task is queued and no shutdown was asked for, some worker can take it. */
  lemma FirstTaskCanBeTaken(threads: nat, queueSize: nat, ts: seq<Turn>)
    requires threads > 0
    requires var p := Run(Init(threads, queueSize), ts); p.queue != [] && p.shutdown.No?
    ensures var p := Run(Init(threads, queueSize), ts);
      exists i, k :: Run(p, Alone(i, k)).taken == p.taken + [p.queue[0]]
  {
    InitIsGood(threads, queueSize);
    RunKeepsInv(Init(threads, queueSize), ts, queueSize);
    RunKeepsWork(Init(threads, queueSize), ts);
    hide Run, Placed;
    var p := Run(Init(threads, queueSize), ts);
    if p.lockFree {
      AloneItTakes(p, 0);
    } else {
      var j :| Holder(p, j);
      AloneItTakes(p, j);
    }
  }

  // ---- shutdown ----

  /** After immediate shutdown at most one more task is dequeued. */
  lemma ShutdownIsPunctual(threads: nat, queueSize: int, ts: seq<Turn>)
    ensures Run(Init(threads, queueSize), ts).late <= 1
  {
    InitIsGood(threads, queueSize);
    RunKeepsInv(Init(threads, queueSize), ts, queueSize);
  }

  /**
   One is possible, because the flag is set without the lock: a worker that has passed the
   test still takes its task.
   */
  lemma LateTask()
    ensures var ts := [AddTask, Work(0), Work(0), Work(0), Shut, Work(0)];
      Run(Init(1, 1), ts).late == 1 && Run(Init(1, 1), ts).workers[0] == Running(0)
  {
    var ts := [AddTask, Work(0), Work(0), Work(0), Shut, Work(0)];
    var p0 := Init(1, 1);
    var p1 := Next(p0, AddTask);
    var p2 := Next(p1, Work(0));
    var p3 := Next(p2, Work(0));
    var p4 := Next(p3, Work(0));
    var p5 := Next(p4, Shut);
    var p6 := Next(p5, Work(0));
    assert Run(p5, ts[5..]) == p6;
    assert Run(p4, ts[4..]) == p6;
    assert Run(p3, ts[3..]) == p6;
    assert Run(p2, ts[2..]) == p6;
    assert Run(p1, ts[1..]) == p6;
  }

  /** The flag is set, nothing is late, and no worker is about to take a task. */
  predicate Quiet(p: Pool) {
    p.shutdown.Immediate? && p.late == 0 && forall i :: 0 <= i < |p.workers| ==> !p.workers[i].Taking?
  }

  lemma {:induction false} StaysQuiet(p: Pool, ts: seq<Turn>)
    requires Quiet(p)
    ensures Quiet(Run(p, ts))
    decreases |ts|
  {
    if ts != [] { StaysQuiet(if Enabled(p, ts[0]) then Next(p, ts[0]) else p, ts[1..]); }
  }

  ghost predicate NeverLate(p: Pool) { forall ts :: Run(p, ts).late == 0 }

  /**
   Exactly when no task is dequeued after immediate shutdown, whatever the schedule: when no
   worker has passed the test of the flag and not yet taken its task.
   */
  lemma ShutdownIsExact(p: Pool, queueSize: int)
    requires Inv(p, queueSize) && !p.shutdown.Immediate?
    ensures NeverLate(Next(p, Shut)) <==> forall i :: 0 <= i < |p.workers| ==> !p.workers[i].Taking?
  {
    var q := Next(p, Shut);
    if i: nat :| i < |p.workers| && p.workers[i].Taking? {
      assert Enabled(q, Work(i));
      var ts := [Work(i)];
      assert Run(q, ts) == Run(Next(q, ts[0]), ts[1..]) == Next(q, Work(i));
      assert Run(Next(p, Shut), ts).late == 1;
      assert !NeverLate(Next(p, Shut));
    } else {
      forall ts ensures Run(q, ts).late == 0 { StaysQuiet(q, ts); }
    }
  }

  // ---- graceful shutdown, for which there is a flag ----

  /** The flag asks for a graceful shutdown, and workers have only left an empty queue. */
  predicate Draining(p: Pool) {
    p.shutdown.Graceful? && (p.queue == [] || forall i :: 0 <= i < |p.workers| ==> !p.workers[i].Exited?)
  }

  /** Under a graceful shutdown, once nothing is added, no worker leaves as long as a task is queued. */
  lemma {:induction false} GracefulDrains(p: Pool, ts: seq<Turn>)
    requires Draining(p) && forall k :: 0 <= k < |ts| ==> ts[k].Work?
    ensures Draining(Run(p, ts))
    decreases |ts|
  {
    if ts != [] { GracefulDrains(if Enabled(p, ts[0]) then Next(p, ts[0]) else p, ts[1..]); }
  }
}
