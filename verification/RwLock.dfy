/**
 The two-mutex reader/writer lock of base/rw_locker.h as a step system: any number of
 threads, any interleaving.  Each mutex is a binary semaphore, because the first reader
 locks the write mutex and the last one unlocks it.
 */
module RwLock {
  /** Where a thread stands; the comments name the step it takes next. */
  datatype Place =
    | Idle          // enter readLock or writeLock
    | ReadLock      // read_mtx.lock()
    | Increment     // ++read_cnt
    | FirstReader   // write_mtx.lock()
    | ReadLocked    // read_mtx.unlock()
    | Reading       // enter readUnlock
    | ReadUnlock    // read_mtx.lock()
    | Decrement     // --read_cnt
    | LastReader    // write_mtx.unlock()
    | ReadUnlocked  // read_mtx.unlock()
    | WriteLock     // write_mtx.lock()
    | Writing       // write_mtx.unlock()

  /**
   The last three fields are a record for the proofs, which no step looks at: the threads that
   locked read_mtx and write_mtx last, and the thread that last raised read_cnt from 0.
   */
  datatype State = State(
    readFree: bool,
    writeFree: bool,
    readCnt: int,
    at: seq<Place>,
    readLocker: nat,
    writeLocker: nat,
    opener: nat)

  function Init(threads: nat): State {
    State(true, true, 0, seq(threads, _ => Idle), 0, 0, 0)
  }

  /** A mutex operation that has to wait. */
  predicate Blocked(s: State, i: nat)
    requires i < |s.at|
  {
    match s.at[i]
    case ReadLock => !s.readFree
    case ReadUnlock => !s.readFree
    case FirstReader => !s.writeFree
    case WriteLock => !s.writeFree
    case _ => false
  }

  /** One step of thread i, which is not blocked; write is what an idle thread goes for. */
  function Step(s: State, i: nat, write: bool): State
    requires i < |s.at|
  {
    match s.at[i]
    case Idle => s.(at := s.at[i := if write then WriteLock else ReadLock])
    case ReadLock => s.(readFree := false, at := s.at[i := Increment], readLocker := i)
    case Increment =>
      s.(readCnt := s.readCnt + 1, at := s.at[i := if s.readCnt + 1 == 1 then FirstReader else ReadLocked],
         opener := if s.readCnt == 0 then i else s.opener)
    case FirstReader => s.(writeFree := false, at := s.at[i := ReadLocked], writeLocker := i)
    case ReadLocked => s.(readFree := true, at := s.at[i := Reading])
    case Reading => s.(at := s.at[i := ReadUnlock])
    case ReadUnlock => s.(readFree := false, at := s.at[i := Decrement], readLocker := i)
    case Decrement =>
      s.(readCnt := s.readCnt - 1, at := s.at[i := if s.readCnt - 1 == 0 then LastReader else ReadUnlocked])
    case LastReader => s.(writeFree := true, at := s.at[i := ReadUnlocked])
    case ReadUnlocked => s.(readFree := true, at := s.at[i := Idle])
    case WriteLock => s.(writeFree := false, at := s.at[i := Writing], writeLocker := i)
    case Writing => s.(writeFree := true, at := s.at[i := Idle])
  }

  datatype Turn = Turn(thread: nat, write: bool)

  /** A turn of a thread; one that has to wait, waits. */
  function After(s: State, t: Turn): State {
    if t.thread < |s.at| && !Blocked(s, t.thread) then Step(s, t.thread, t.write) else s
  }

  /** A schedule. */
  function Run(s: State, turns: seq<Turn>): State
    decreases |turns|
  {
    if turns == [] then s else Run(After(s, turns[0]), turns[1..])
  }

  // ---- counting threads ----

  datatype Group = InReadSection | Counted | Writers | First | Last | Inner

  predicate In(g: Group, p: Place) {
    match g
    case InReadSection =>
      p.Increment? || p.FirstReader? || p.ReadLocked? || p.Decrement? || p.LastReader? || p.ReadUnlocked?
    case Counted => p.FirstReader? || p.ReadLocked? || p.Reading? || p.ReadUnlock? || p.Decrement?
    case Writers => p.Writing?
    case First => p.FirstReader?
    case Last => p.LastReader?
    case Inner => p.Increment? || p.ReadLocked? || p.Decrement? || p.ReadUnlocked?
  }

  function Count(at: seq<Place>, g: Group): nat {
    if at == [] then 0 else Count(at[1..], g) + if In(g, at[0]) then 1 else 0
  }

  lemma {:induction false} CountUpdate(at: seq<Place>, g: Group, i: nat, p: Place)
    requires i < |at|
    ensures Count(at[i := p], g) == Count(at, g) - (if In(g, at[i]) then 1 else 0) + (if In(g, p) then 1 else 0)
  {
    hide In;
    if i == 0 {
      assert at[i := p][1..] == at[1..];
    } else {
      assert at[i := p][1..] == at[1..][i - 1 := p];
      CountUpdate(at[1..], g, i - 1, p);
    }
  }

  /** A group that counts something has a member. */
  lemma {:induction false} Member(at: seq<Place>, g: Group) returns (i: nat)
    requires Count(at, g) > 0
    ensures i < |at| && In(g, at[i])
  {
    hide In;
    if In(g, at[0]) { i := 0; } else { i := Member(at[1..], g); i := i + 1; }
  }

  /** One member counts one, two members two. */
  lemma {:induction false} CountsMembers(at: seq<Place>, g: Group, i: nat, j: nat)
    requires i <= j < |at| && In(g, at[i]) && In(g, at[j])
    ensures Count(at, g) >= if i == j then 1 else 2
  {
    hide In;
    if i > 0 {
      CountsMembers(at[1..], g, i - 1, j - 1);
    } else if j > 0 {
      CountsMembers(at[1..], g, j - 1, j - 1);
    }
  }

  lemma {:induction false} Includes(at: seq<Place>, g: Group, h: Group)
    requires forall p :: In(g, p) ==> In(h, p)
    ensures Count(at, g) <= Count(at, h)
  {
    hide In;
    if at != [] { Includes(at[1..], g, h); }
  }

  lemma {:induction false} AllIdle(n: nat, g: Group)
    ensures Count(seq(n, _ => Idle), g) == 0
  {
    if n > 0 {
      assert seq(n, _ => Idle)[1..] == seq(n - 1, _ => Idle);
      AllIdle(n - 1, g);
    }
  }

  // ---- the invariant ----

  /** Whether the readers, as a group, hold the write mutex. */
  predicate ReadersHold(s: State) {
    Count(s.at, First) == 0 && (s.readCnt > 0 || Count(s.at, Last) > 0)
  }

  predicate Inv(s: State) {
    && Count(s.at, InReadSection) == (if s.readFree then 0 else 1)
    && s.readCnt == Count(s.at, Counted)
    && (Count(s.at, First) > 0 ==> s.readCnt == 1)
    && (Count(s.at, Last) > 0 ==> s.readCnt == 0)
    && Count(s.at, Writers) + (if ReadersHold(s) then 1 else 0) == (if s.writeFree then 0 else 1)
  }

  lemma InitIsGood(threads: nat)
    ensures Inv(Init(threads))
  {
    forall g ensures Count(Init(threads).at, g) == 0 { AllIdle(threads, g); }
  }

  /** The section of the read mutex splits into its places. */
  lemma {:induction false} SectionSplits(at: seq<Place>)
    ensures Count(at, InReadSection) == Count(at, First) + Count(at, Last) + Count(at, Inner)
  {
    if at != [] { SectionSplits(at[1..]); }
  }

  /** How a step of thread i changes each count, and which counts it stands for. */
  lemma Counts(at: seq<Place>, i: nat, p: Place, g: Group)
    requires i < |at|
    ensures Count(at[i := p], g) == Count(at, g) - (if In(g, at[i]) then 1 else 0) + (if In(g, p) then 1 else 0)
    ensures In(g, at[i]) ==> Count(at, g) >= 1
  {
    hide In;
    CountUpdate(at, g, i, p);
    if In(g, at[i]) { CountsMembers(at, g, i, i); }
  }

  lemma StepKeepsInv(s: State, i: nat, write: bool)
    requires Inv(s) && i < |s.at| && !Blocked(s, i)
    ensures Inv(Step(s, i, write))
  {
    hide Count;
    var t := Step(s, i, write);
    assert t.at == s.at[i := t.at[i]];
    Counts(s.at, i, t.at[i], InReadSection);
    Counts(s.at, i, t.at[i], Counted);
    Counts(s.at, i, t.at[i], Writers);
    Counts(s.at, i, t.at[i], First);
    Counts(s.at, i, t.at[i], Last);
    Counts(s.at, i, t.at[i], Inner);
    SectionSplits(s.at);
    match s.at[i]
    case Idle =>
    case ReadLock =>
    case Increment =>
    case FirstReader =>
    case ReadLocked =>
    case Reading =>
    case ReadUnlock =>
    case Decrement =>
    case LastReader =>
    case ReadUnlocked =>
    case WriteLock =>
    case Writing =>
  }

  lemma {:induction false} RunKeepsInv(s: State, turns: seq<Turn>)
    requires Inv(s)
    ensures Inv(Run(s, turns))
    decreases |turns|
  {
    hide Inv, Step, Blocked;
    if turns != [] {
      var t := turns[0];
      if t.thread < |s.at| && !Blocked(s, t.thread) { StepKeepsInv(s, t.thread, t.write); }
      RunKeepsInv(After(s, t), turns[1..]);
    }
  }

  // ---- what the lock is for ----

  /** While a thread reads, the readers hold the write mutex. */
  lemma ReaderHolds(s: State, j: nat)
    requires Inv(s) && j < |s.at| && s.at[j].Reading?
    ensures ReadersHold(s)
  {
    CountsMembers(s.at, Counted, j, j);
    if Count(s.at, First) > 0 {
      var k := Member(s.at, First);
      CountsMembers(s.at, Counted, if j < k then j else k, if j < k then k else j);
    }
  }

  /** A writer is alone: no other writer, and no reader. */
  lemma MutualExclusion(threads: nat, turns: seq<Turn>, i: nat, j: nat)
    requires var s := Run(Init(threads), turns); i < |s.at| && j < |s.at| && i != j && s.at[i].Writing?
    ensures var s := Run(Init(threads), turns); !s.at[j].Writing? && !s.at[j].Reading?
  {
    var s := Run(Init(threads), turns);
    InitIsGood(threads);
    RunKeepsInv(Init(threads), turns);
    hide Run;
    CountsMembers(s.at, Writers, i, i);
    if s.at[j].Writing? { CountsMembers(s.at, Writers, if i < j then i else j, if i < j then j else i); }
    if s.at[j].Reading? { ReaderHolds(s, j); }
  }

  /** read_cnt is the number of threads between their increment and their decrement. */
  lemma CountIsExact(threads: nat, turns: seq<Turn>)
    ensures var s := Run(Init(threads), turns); s.readCnt == Count(s.at, Counted)
  {
    InitIsGood(threads);
    RunKeepsInv(Init(threads), turns);
  }

  lemma CanStep(s: State, busy: nat) returns (i: nat)
    requires Inv(s) && busy < |s.at| && !s.at[busy].Idle?
    ensures i < |s.at| && !s.at[i].Idle? && !Blocked(s, i)
  {
    if !Blocked(s, busy) { return busy; }
    if !s.readFree {
      i := Member(s.at, InReadSection);
      if s.at[i].FirstReader? {
        CountsMembers(s.at, First, i, i);
        if !s.writeFree { i := Member(s.at, Writers); }
      }
    } else if ReadersHold(s) {
      Includes(s.at, Last, InReadSection);
      i := Member(s.at, Counted);
      if In(InReadSection, s.at[i]) { CountsMembers(s.at, InReadSection, i, i); }
    } else {
      if s.at[busy].FirstReader? { CountsMembers(s.at, InReadSection, busy, busy); }
      i := Member(s.at, Writers);
    }
  }

  /** Unless all threads are idle, one that is not idle can step. */
  lemma SomeoneCanStep(threads: nat, turns: seq<Turn>, busy: nat) returns (i: nat)
    requires var s := Run(Init(threads), turns); busy < |s.at| && !s.at[busy].Idle?
    ensures var s := Run(Init(threads), turns); i < |s.at| && !s.at[i].Idle? && !Blocked(s, i)
  {
    InitIsGood(threads);
    RunKeepsInv(Init(threads), turns);
    i := CanStep(Run(Init(threads), turns), busy);
  }

  // ---- which thread unlocks what ----

  /** The thread in the section of read_mtx is the one that locked it. */
  predicate ReadsOwn(s: State) {
    forall i :: 0 <= i < |s.at| && In(InReadSection, s.at[i]) ==> s.readLocker == i
  }

  predicate WritesOwn(s: State) {
    forall i :: 0 <= i < |s.at| && s.at[i].Writing? ==> s.writeLocker == i
  }

  predicate OpensOwn(s: State) {
    forall i :: 0 <= i < |s.at| && s.at[i].FirstReader? ==> s.opener == i
  }

  /** What the readers hold was locked by the one that raised read_cnt from 0. */
  predicate OpenerLocked(s: State) { ReadersHold(s) ==> s.writeLocker == s.opener }

  predicate Owned(s: State) { ReadsOwn(s) && WritesOwn(s) && OpensOwn(s) && OpenerLocked(s) }

  /** A thread in a section counts. */
  lemma SectionCounts(s: State, i: nat)
    requires i < |s.at|
    ensures In(InReadSection, s.at[i]) ==> Count(s.at, InReadSection) >= 1
    ensures s.at[i].Writing? ==> Count(s.at, Writers) >= 1
    ensures s.at[i].FirstReader? ==> Count(s.at, First) >= 1
    ensures s.at[i].LastReader? ==> Count(s.at, Last) >= 1
  {
    if In(InReadSection, s.at[i]) { CountsMembers(s.at, InReadSection, i, i); }
    if s.at[i].Writing? { CountsMembers(s.at, Writers, i, i); }
    if s.at[i].FirstReader? { CountsMembers(s.at, First, i, i); }
    if s.at[i].LastReader? { CountsMembers(s.at, Last, i, i); }
  }

  lemma StepKeepsReadsOwn(s: State, i: nat, write: bool)
    requires Inv(s) && ReadsOwn(s) && i < |s.at| && !Blocked(s, i)
    ensures ReadsOwn(Step(s, i, write))
  {
    hide Count, ReadersHold;
    if s.at[i].ReadLock? || s.at[i].ReadUnlock? {
      forall j | 0 <= j < |s.at| && In(InReadSection, Step(s, i, write).at[j])
        ensures Step(s, i, write).readLocker == j
      {
        SectionCounts(s, j);
      }
    }
  }

  lemma StepKeepsWritesOwn(s: State, i: nat, write: bool)
    requires Inv(s) && WritesOwn(s) && i < |s.at| && !Blocked(s, i)
    ensures WritesOwn(Step(s, i, write))
  {
    hide Count;
    if s.at[i].FirstReader? || s.at[i].WriteLock? {
      forall j | 0 <= j < |s.at| && Step(s, i, write).at[j].Writing? ensures Step(s, i, write).writeLocker == j {
        SectionCounts(s, j);
      }
    }
  }

  lemma StepKeepsOpensOwn(s: State, i: nat, write: bool)
    requires Inv(s) && OpensOwn(s) && i < |s.at| && !Blocked(s, i)
    ensures OpensOwn(Step(s, i, write))
  {
    hide Count, ReadersHold;
    if s.at[i].Increment? {
      forall j | 0 <= j < |s.at| && Step(s, i, write).at[j].FirstReader? ensures Step(s, i, write).opener == j {
        SectionCounts(s, j);
      }
    }
  }

  lemma StepKeepsOpenerLocked(s: State, i: nat, write: bool)
    requires Inv(s) && OpensOwn(s) && OpenerLocked(s) && i < |s.at| && !Blocked(s, i)
    ensures OpenerLocked(Step(s, i, write))
  {
    hide Count;
    var t := Step(s, i, write);
    Counts(s.at, i, t.at[i], First);
    Counts(s.at, i, t.at[i], Last);
    match s.at[i]
    case Idle =>
    case ReadLock =>
    case Increment =>
    case FirstReader =>
    case ReadLocked =>
    case Reading =>
    case ReadUnlock =>
    case Decrement =>
    case LastReader =>
    case ReadUnlocked =>
    case WriteLock =>
    case Writing =>
  }

  lemma {:induction false} RunKeepsOwned(s: State, turns: seq<Turn>)
    requires Inv(s) && Owned(s)
    ensures Inv(Run(s, turns)) && Owned(Run(s, turns))
    decreases |turns|
  {
    hide Inv, ReadsOwn, WritesOwn, OpensOwn, OpenerLocked, Step, Blocked;
    if turns != [] {
      var t := turns[0];
      if t.thread < |s.at| && !Blocked(s, t.thread) {
        StepKeepsInv(s, t.thread, t.write);
        StepKeepsReadsOwn(s, t.thread, t.write);
        StepKeepsWritesOwn(s, t.thread, t.write);
        StepKeepsOpensOwn(s, t.thread, t.write);
        StepKeepsOpenerLocked(s, t.thread, t.write);
      }
      RunKeepsOwned(After(s, t), turns[1..]);
    }
  }

  /**
   The thread that unlocks a mutex is the one that locked it: always for read_mtx and for
   writers.  The last reader unlocks a lock of its own exactly when it also was the first one.
   */
  lemma UnlockIsOwn(threads: nat, turns: seq<Turn>, i: nat)
    requires i < |Run(Init(threads), turns).at|
    ensures var s := Run(Init(threads), turns);
      && (s.at[i].ReadLocked? || s.at[i].ReadUnlocked? ==> s.readLocker == i)
      && (s.at[i].Writing? ==> s.writeLocker == i)
      && (s.at[i].LastReader? ==> (s.writeLocker == i <==> s.opener == i))
  {
    var s := Run(Init(threads), turns);
    InitIsGood(threads);
    forall g ensures Count(Init(threads).at, g) == 0 { AllIdle(threads, g); }
    RunKeepsOwned(Init(threads), turns);
    hide Run;
    SectionCounts(s, i);
    SectionSplits(s.at);
  }

  function Reads(thread: nat, steps: nat): seq<Turn> { seq(steps, _ => Turn(thread, false)) }

  function Later(s: State, thread: nat, steps: nat): State
    decreases steps
  {
    if steps == 0 then s else Later(After(s, Turn(thread, false)), thread, steps - 1)
  }

  /** What a stretch of turns of one thread does. */
  lemma {:induction false} ReadsOn(s: State, thread: nat, steps: nat, rest: seq<Turn>)
    ensures Run(s, Reads(thread, steps) + rest) == Run(Later(s, thread, steps), rest)
    decreases steps
  {
    hide Step, Blocked;
    var turns := Reads(thread, steps) + rest;
    if steps == 0 {
      assert turns == rest;
    } else {
      assert turns[1..] == Reads(thread, steps - 1) + rest;
      ReadsOn(After(s, turns[0]), thread, steps - 1, rest);
    }
  }

  lemma FirstIn()
    ensures Later(Init(2), 0, 5) == State(true, false, 1, [Reading, Idle], 0, 0, 0)
  {
  }

  lemma SecondIn()
    ensures Later(State(true, false, 1, [Reading, Idle], 0, 0, 0), 1, 4)
         == State(true, false, 2, [Reading, Reading], 1, 0, 0)
  {
  }

  lemma FirstOut()
    ensures Later(State(true, false, 2, [Reading, Reading], 1, 0, 0), 0, 4)
         == State(true, false, 1, [Idle, Reading], 0, 0, 0)
  {
  }

  lemma LastOut()
    ensures Later(State(true, false, 1, [Idle, Reading], 0, 0, 0), 1, 3)
         == State(false, false, 0, [Idle, LastReader], 1, 0, 0)
  {
  }

  /** Two readers: the first one in is the first one out, and the other one unlocks its lock. */
  lemma ForeignUnlock()
    ensures var s := Run(Init(2), Reads(0, 5) + (Reads(1, 4) + (Reads(0, 4) + Reads(1, 3))));
      s == State(false, false, 0, [Idle, LastReader], 1, 0, 0)
  {
    var s0, s1 := Init(2), State(true, false, 1, [Reading, Idle], 0, 0, 0);
    var s2, s3 := State(true, false, 2, [Reading, Reading], 1, 0, 0), State(true, false, 1, [Idle, Reading], 0, 0, 0);
    FirstIn();
    SecondIn();
    FirstOut();
    LastOut();
    hide After, Later;
    ReadsOn(s0, 0, 5, Reads(1, 4) + (Reads(0, 4) + Reads(1, 3)));
    ReadsOn(s1, 1, 4, Reads(0, 4) + Reads(1, 3));
    ReadsOn(s2, 0, 4, Reads(1, 3));
    ReadsOn(s3, 1, 3, []);
    assert Reads(1, 3) + [] == Reads(1, 3);
  }
}
