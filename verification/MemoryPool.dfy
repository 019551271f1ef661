/**
 The segregated free-list allocator of base/memory_pool.cc.  The links of the free lists
 live in the first cell of the free blocks, so the pool and its clients share one memory.
 */
module MemoryPool {
  import opened Common

  const ALIGN := 8
  const MAX_BYTES := 256
  const LISTS := 32
  const BATCH := 20

  function RoundUp(bytes: nat): nat { (bytes + ALIGN - 1) / ALIGN * ALIGN }

  /** _S_free_list[_M_round_up(bytes)/_S_align-1], before the subtraction wraps around. */
  function Index(bytes: nat): int { RoundUp(bytes) / ALIGN - 1 }

  /** The block size of a list. */
  function Size(k: int): int { ALIGN * (k + 1) }

  /** The list exists exactly for the sizes from 1 to the maximum, and its blocks are the tightest fit. */
  lemma IndexFits(bytes: nat)
    ensures 0 <= Index(bytes) < LISTS <==> 1 <= bytes <= MAX_BYTES
    ensures RoundUp(bytes) == Size(Index(bytes)) && bytes <= RoundUp(bytes) < bytes + ALIGN
  {
  }

  // ---- the state ----

  /**
   cells: the memory, one word per aligned address.  blocks: every block carved out so far,
   with its size.  live: those handed out.  lists: the free blocks, one list per size.
   refills: how often each list was filled.
   */
  datatype Pool = Pool(
    cells: map<nat, nat>,
    blocks: map<nat, nat>,
    live: set<nat>,
    lists: seq<seq<nat>>,
    refills: seq<nat>)

  predicate Apart(a: nat, n: nat, b: nat, m: nat) { a + n <= b || b + m <= a }

  /** Blocks are aligned, have the size of a list, and do not overlap. */
  predicate Separate(s: Pool) {
    && (forall a :: a in s.blocks ==> a > 0 && a % ALIGN == 0)
    && (forall a :: a in s.blocks ==> exists k :: 0 <= k < LISTS && s.blocks[a] == Size(k))
    && (forall a, b :: a in s.blocks && b in s.blocks && a != b ==> Apart(a, s.blocks[a], b, s.blocks[b]))
  }

  /** The list of a size holds exactly the blocks of that size that are not live, each once. */
  ghost predicate Holds(s: Pool, k: nat, l: seq<nat>) {
    NoRepeats(l) && forall a :: a in l <==> a in s.blocks && s.blocks[a] == Size(k) && a !in s.live
  }

  ghost predicate Filed(s: Pool) {
    && |s.lists| == |s.refills| == LISTS
    && s.live <= s.blocks.Keys
    && forall k :: 0 <= k < LISTS ==> Holds(s, k, s.lists[k])
  }

  /** NULL ends a list. */
  function At(l: seq<nat>, i: nat): nat { if i < |l| then l[i] else 0 }

  predicate LinkedList(cells: map<nat, nat>, l: seq<nat>) {
    forall i :: 0 <= i < |l| ==> l[i] in cells && cells[l[i]] == At(l, i + 1)
  }

  predicate Linked(s: Pool)
    requires |s.lists| == LISTS
  {
    forall k :: 0 <= k < LISTS ==> LinkedList(s.cells, s.lists[k])
  }

  function LiveOf(s: Pool, k: nat): set<nat> {
    set a | a in s.live && a in s.blocks && s.blocks[a] == Size(k)
  }

  /** No block is lost: free and live blocks of a size make up its refills. */
  predicate Counted(s: Pool)
    requires |s.lists| == |s.refills| == LISTS
  {
    forall k :: 0 <= k < LISTS ==> |LiveOf(s, k)| + |s.lists[k]| == BATCH * s.refills[k]
  }

  ghost predicate Good(s: Pool) { Separate(s) && Filed(s) && Linked(s) && Counted(s) }

  function Empty(cells: map<nat, nat>): Pool {
    Pool(cells, map[], {}, seq(LISTS, _ => []), seq(LISTS, _ => 0))
  }

  lemma EmptyIsGood(cells: map<nat, nat>)
    ensures Good(Empty(cells))
  {
    var s := Empty(cells);
    forall k | 0 <= k < LISTS ensures |LiveOf(s, k)| == 0 { assert LiveOf(s, k) == {}; }
  }

  ghost predicate Unfilled(s: Pool, cells: map<nat, nat>, heads: seq<nat>)
    requires |heads| == LISTS
  {
    && Good(s) && s.cells == cells
    && forall k :: 0 <= k < LISTS ==> s.refills[k] == 0 && heads[k] == At(s.lists[k], 0)
  }

  /**
   Heads describe some pool that has not been refilled yet exactly when they all are NULL,
   and then that pool is the empty one.
   */
  lemma UnfilledHeads(cells: map<nat, nat>, heads: seq<nat>)
    requires |heads| == LISTS
    ensures (exists s :: Unfilled(s, cells, heads)) <==> forall k :: 0 <= k < LISTS ==> heads[k] == 0
  {
    if s :| Unfilled(s, cells, heads) {
      forall k | 0 <= k < LISTS ensures heads[k] == 0 { assert s.lists[k] == []; }
    } else if forall k :: 0 <= k < LISTS ==> heads[k] == 0 {
      EmptyIsGood(cells);
      assert Unfilled(Empty(cells), cells, heads);
    }
  }

  // ---- walking a free list ----

  /** The address reached from a head over n links. */
  function Walk(cells: map<nat, nat>, head: nat, n: nat): nat {
    if n == 0 then head
    else var a := Walk(cells, head, n - 1); if a in cells then cells[a] else 0
  }

  /** The links of a list lead through its blocks, one after the other, to NULL. */
  lemma {:induction false} WalkIsList(cells: map<nat, nat>, l: seq<nat>, n: nat)
    requires LinkedList(cells, l) && n <= |l|
    ensures Walk(cells, At(l, 0), n) == At(l, n)
  {
    if n > 0 {
      WalkIsList(cells, l, n - 1);
      assert l[n - 1] in cells;
    }
  }

  lemma ListIsProper(s: Pool, k: nat)
    requires Good(s) && k < LISTS
    ensures var l := s.lists[k];
      LinkedList(s.cells, l) && NoRepeats(l) && (forall i :: 0 <= i < |l| ==> l[i] > 0 && l[i] in s.blocks)
  {
    hide Counted, LinkedList;
    var l := s.lists[k];
    assert LinkedList(s.cells, l) && Holds(s, k, l);
    forall i | 0 <= i < |l| ensures l[i] > 0 && l[i] in s.blocks { assert l[i] in l; }
  }

  /** The list is acyclic: no block, and not NULL, comes up twice before its end. */
  lemma ListIsAcyclic(s: Pool, k: nat, n: nat, m: nat)
    requires Good(s) && k < LISTS && n < m <= |s.lists[k]|
    ensures var head := At(s.lists[k], 0); Walk(s.cells, head, n) != Walk(s.cells, head, m)
    ensures Walk(s.cells, At(s.lists[k], 0), |s.lists[k]|) == 0
  {
    var l := s.lists[k];
    ListIsProper(s, k);
    hide Good, Walk;
    WalkIsList(s.cells, l, n);
    WalkIsList(s.cells, l, m);
    WalkIsList(s.cells, l, |l|);
  }

  // ---- the three changes ----

  function Take(s: Pool, k: nat): Pool
    requires k < |s.lists| && s.lists[k] != []
  {
    s.(lists := s.lists[k := s.lists[k][1..]], live := s.live + {s.lists[k][0]})
  }

  function Give(s: Pool, k: nat, a: nat): Pool
    requires k < |s.lists|
  {
    s.(cells := s.cells[a := At(s.lists[k], 0)], live := s.live - {a}, lists := s.lists[k := [a] + s.lists[k]])
  }

  /** The blocks of a fresh chunk. */
  function Row(p: nat, size: nat, n: nat): (r: seq<nat>)
    ensures |r| == n && forall i :: 0 <= i < n ==> r[i] == p + size * i
  {
    seq(n, i requires 0 <= i < n => p + size * i)
  }

  /** Their links. */
  function Links(p: nat, size: nat, n: nat): map<nat, nat> {
    map a | a in Row(p, size, n) :: if a == p + size * (n - 1) then 0 else a + size
  }

  function Fill(s: Pool, k: nat, p: nat): Pool
    requires k < |s.lists| && k < |s.refills|
  {
    s.(cells := s.cells + Links(p, Size(k), BATCH),
       blocks := s.blocks + (map a | a in Row(p, Size(k), BATCH) :: Size(k)),
       lists := s.lists[k := Row(p, Size(k), BATCH)],
       refills := s.refills[k := s.refills[k] + 1])
  }

  /** What operator new promises: aligned memory that overlaps nothing in use. */
  predicate Fresh(s: Pool, p: nat, n: nat) {
    p > 0 && p % ALIGN == 0 && forall a :: a in s.blocks ==> Apart(p, n, a, s.blocks[a])
  }

  lemma LiveOfOthers(s: Pool, t: Pool, k: nat, j: nat)
    requires k != j && t.blocks == s.blocks
    requires forall a :: a in s.blocks && s.blocks[a] != Size(k) ==> (a in s.live <==> a in t.live)
    ensures LiveOf(t, j) == LiveOf(s, j)
  {
  }

  lemma Rest(l: seq<nat>)
    requires l != [] && NoRepeats(l)
    ensures NoRepeats(l[1..]) && forall b :: b in l[1..] <==> b in l && b != l[0]
  {
    assert l == [l[0]] + l[1..];
  }

  lemma RestIsLinked(cells: map<nat, nat>, l: seq<nat>)
    requires l != [] && LinkedList(cells, l)
    ensures LinkedList(cells, l[1..])
  {
    var r := l[1..];
    forall i | 0 <= i < |r| ensures r[i] in cells && cells[r[i]] == At(r, i + 1) { assert r[i] == l[i + 1]; }
  }

  lemma TakeKeepsLinked(s: Pool, k: nat)
    requires |s.lists| == LISTS && Linked(s) && k < LISTS && s.lists[k] != []
    ensures Linked(Take(s, k))
  {
    hide LinkedList;
    var t := Take(s, k);
    RestIsLinked(s.cells, s.lists[k]);
    forall j | 0 <= j < LISTS ensures LinkedList(t.cells, t.lists[j]) { assert LinkedList(s.cells, s.lists[j]); }
  }

  lemma TakeKeepsCount(s: Pool, k: nat)
    requires Filed(s) && Counted(s) && k < LISTS && s.lists[k] != []
    ensures Counted(Take(s, k))
  {
    var a, t := s.lists[k][0], Take(s, k);
    assert Holds(s, k, s.lists[k]) && a in s.lists[k];
    assert LiveOf(t, k) == LiveOf(s, k) + {a} && a !in LiveOf(s, k);
    hide LiveOf;
    forall j | 0 <= j < LISTS ensures |LiveOf(t, j)| + |t.lists[j]| == BATCH * t.refills[j] {
      if j != k { LiveOfOthers(s, t, k, j); }
    }
  }

  lemma TakeKeepsGood(s: Pool, k: nat)
    requires Good(s) && k < LISTS && s.lists[k] != []
    ensures Good(Take(s, k))
  {
    hide Linked, Counted, LinkedList, LiveOf;
    var l, t := s.lists[k], Take(s, k);
    assert Holds(s, k, l) && l[0] in l;
    Rest(l);
    forall j | 0 <= j < LISTS ensures Holds(t, j, t.lists[j]) { assert Holds(s, j, s.lists[j]); }
    TakeKeepsLinked(s, k);
    TakeKeepsCount(s, k);
  }

  /** A store at an address that is not in the list leaves it linked. */
  lemma StoreKeepsList(s: Pool, j: nat, at: nat, word: nat)
    requires |s.lists| == LISTS && Linked(s) && j < LISTS && at !in s.lists[j]
    ensures LinkedList(s.cells[at := word], s.lists[j])
  {
    var l := s.lists[j];
    assert LinkedList(s.cells, l);
    forall i | 0 <= i < |l| ensures l[i] != at { assert l[i] in l; }
  }

  lemma GiveKeepsLinked(s: Pool, k: nat, a: nat)
    requires Filed(s) && Linked(s) && k < LISTS && a in s.live
    ensures Linked(Give(s, k, a))
  {
    var l, t := s.lists[k], Give(s, k, a);
    forall j | 0 <= j < LISTS ensures LinkedList(t.cells, s.lists[j]) {
      assert Holds(s, j, s.lists[j]);
      StoreKeepsList(s, j, a, At(l, 0));
    }
    var r := t.lists[k];
    forall i | 0 <= i < |r| ensures r[i] in t.cells && t.cells[r[i]] == At(r, i + 1) {
      if i > 0 { assert r[i] == l[i - 1]; }
    }
  }

  lemma GiveKeepsCount(s: Pool, k: nat, a: nat)
    requires Filed(s) && Counted(s) && k < LISTS && a in s.live && s.blocks[a] == Size(k)
    ensures Counted(Give(s, k, a))
  {
    var t := Give(s, k, a);
    assert LiveOf(s, k) == LiveOf(t, k) + {a} && a !in LiveOf(t, k);
    hide LiveOf;
    forall j | 0 <= j < LISTS ensures |LiveOf(t, j)| + |t.lists[j]| == BATCH * t.refills[j] {
      if j != k { LiveOfOthers(s, t, k, j); }
    }
  }

  lemma GiveKeepsGood(s: Pool, k: nat, a: nat)
    requires Good(s) && k < LISTS && a in s.live && s.blocks[a] == Size(k)
    ensures Good(Give(s, k, a))
  {
    hide Linked, Counted, LinkedList, LiveOf;
    var l, t := s.lists[k], Give(s, k, a);
    assert Holds(s, k, l);
    forall j | 0 <= j < LISTS ensures Holds(t, j, t.lists[j]) { assert Holds(s, j, s.lists[j]); }
    GiveKeepsLinked(s, k, a);
    GiveKeepsCount(s, k, a);
  }

  lemma {:induction false} Spread(size: nat, i: nat, j: nat)
    requires i < j
    ensures size * i + size <= size * j
  {
    assert size * j == size * (j - 1) + size;
    if i < j - 1 { Spread(size, i, j - 1); }
  }

  /** The blocks of a row follow each other without overlap, inside the chunk. */
  lemma RowIsSpread(p: nat, size: nat, n: nat)
    requires size > 0
    ensures NoRepeats(Row(p, size, n))
    ensures forall a, b :: a in Row(p, size, n) && b in Row(p, size, n) && a != b ==> Apart(a, size, b, size)
    ensures forall a :: a in Row(p, size, n) ==> p <= a && a + size <= p + size * n
  {
    var r := Row(p, size, n);
    forall i, j | 0 <= i < j < n ensures r[i] + size <= r[j] { Spread(size, i, j); }
    forall a | a in r ensures p <= a && a + size <= p + size * n {
      var i :| 0 <= i < n && r[i] == a;
      Spread(size, i, n);
    }
  }

  lemma AlignedSum(a: nat, b: nat)
    requires a % ALIGN == 0 && b % ALIGN == 0
    ensures (a + b) % ALIGN == 0
  {
  }

  lemma {:induction false} Aligned(p: nat, size: nat, i: nat)
    requires p % ALIGN == 0 && size % ALIGN == 0
    ensures (p + size * i) % ALIGN == 0
  {
    if i > 0 {
      Aligned(p, size, i - 1);
      assert size * i == size * (i - 1) + size;
      AlignedSum(p + size * (i - 1), size);
    }
  }

  lemma RowIsAligned(p: nat, k: nat)
    requires p % ALIGN == 0 && p > 0
    ensures forall a :: a in Row(p, Size(k), BATCH) ==> a % ALIGN == 0 && a > 0
  {
    var r := Row(p, Size(k), BATCH);
    forall i | 0 <= i < BATCH ensures r[i] % ALIGN == 0 && r[i] > 0 { Aligned(p, Size(k), i); }
  }

  /** The blocks of a fresh chunk overlap no block in use. */
  lemma RowIsNew(s: Pool, k: nat, p: nat)
    requires Separate(s) && Fresh(s, p, BATCH * Size(k))
    ensures forall a, b :: a in Row(p, Size(k), BATCH) && b in s.blocks ==> Apart(a, Size(k), b, s.blocks[b]) && a != b
  {
    RowIsSpread(p, Size(k), BATCH);
  }

  lemma FillSeparates(s: Pool, k: nat, p: nat)
    requires Good(s) && k < LISTS && Fresh(s, p, BATCH * Size(k))
    ensures Separate(Fill(s, k, p))
  {
    hide Filed, Linked, Counted, Row;
    RowIsSpread(p, Size(k), BATCH);
    RowIsAligned(p, k);
    RowIsNew(s, k, p);
  }

  lemma FillHolds(s: Pool, k: nat, p: nat, j: nat)
    requires Good(s) && k < LISTS && s.lists[k] == [] && Fresh(s, p, BATCH * Size(k)) && j < LISTS
    ensures Holds(Fill(s, k, p), j, Fill(s, k, p).lists[j])
  {
    RowIsSpread(p, Size(k), BATCH);
    RowIsNew(s, k, p);
    hide Separate, Linked, Counted, Row, Apart, Fresh, NoRepeats;
    assert forall a :: a in Row(p, Size(k), BATCH) ==> a !in s.blocks;
    assert Holds(s, j, s.lists[j]);
  }

  lemma FillFiles(s: Pool, k: nat, p: nat)
    requires Good(s) && k < LISTS && s.lists[k] == [] && Fresh(s, p, BATCH * Size(k))
    ensures Filed(Fill(s, k, p))
  {
    hide Separate, Linked, Counted, Holds;
    var t := Fill(s, k, p);
    forall j | 0 <= j < LISTS ensures Holds(t, j, t.lists[j]) { FillHolds(s, k, p, j); }
  }

  lemma FillCounts(s: Pool, k: nat, p: nat)
    requires Good(s) && k < LISTS && s.lists[k] == [] && Fresh(s, p, BATCH * Size(k))
    ensures Counted(Fill(s, k, p))
  {
    var t := Fill(s, k, p);
    RowIsNew(s, k, p);
    hide Separate, Linked, Row;
    forall j | 0 <= j < LISTS ensures |LiveOf(t, j)| + |t.lists[j]| == BATCH * t.refills[j] {
      assert LiveOf(t, j) == LiveOf(s, j);
    }
  }

  /** A fresh row is linked in order. */
  lemma RowIsLinked(p: nat, size: nat, n: nat)
    requires size > 0 && n > 0
    ensures LinkedList(Links(p, size, n), Row(p, size, n))
  {
    var r := Row(p, size, n);
    forall i | 0 <= i < n ensures r[i] in Links(p, size, n) && Links(p, size, n)[r[i]] == At(r, i + 1) {
      assert r[i] in r;
      if i < n - 1 {
        Spread(size, i, n - 1);
        assert size * (i + 1) == size * i + size;
      }
    }
  }

  lemma FillLinks(s: Pool, k: nat, p: nat)
    requires Good(s) && k < LISTS && s.lists[k] == [] && Fresh(s, p, BATCH * Size(k))
    ensures Linked(Fill(s, k, p))
  {
    var t, row := Fill(s, k, p), Row(p, Size(k), BATCH);
    RowIsLinked(p, Size(k), BATCH);
    RowIsNew(s, k, p);
    assert forall a :: a in row ==> a !in s.blocks;
    hide Row, Separate, Counted, Apart, Fresh;
    forall j | 0 <= j < LISTS ensures LinkedList(t.cells, t.lists[j]) {
      if j != k {
        assert LinkedList(s.cells, s.lists[j]) && Holds(s, j, s.lists[j]);
        forall a | a in s.lists[j] ensures a !in row { assert a in s.blocks; }
      }
    }
  }

  lemma FillKeepsGood(s: Pool, k: nat, p: nat)
    requires Good(s) && k < LISTS && s.lists[k] == [] && Fresh(s, p, BATCH * Size(k))
    ensures Good(Fill(s, k, p))
  {
    hide Separate, Linked, Counted;
    RowIsNew(s, k, p);
    FillSeparates(s, k, p);
    FillLinks(s, k, p);
    FillFiles(s, k, p);
    FillCounts(s, k, p);
  }

  // ---- calls ----

  /**
   A call of the pool, or a store of a client.  p is what operator new returns if it is
   asked, 0 for NULL.
   */
  datatype Call = Allocate(bytes: nat, p: nat) | Deallocate(pointer: nat, bytes: nat) | Store(at: nat, word: nat)

  /** No free block contains the address. */
  predicate Outside(s: Pool, at: nat) {
    forall a :: a in s.blocks && a !in s.live ==> at < a || a + s.blocks[a] <= at
  }

  /**
   What is asked of the callers: a size that is not 0, a pointer given back with a size of
   its list, no store into memory given back; and of operator new, fresh memory.
   */
  predicate Proper(s: Pool, c: Call)
    requires |s.lists| == LISTS
  {
    match c
    case Allocate(bytes, p) =>
      bytes > 0 &&
      (bytes <= MAX_BYTES && s.lists[Index(bytes)] == [] && p != 0 ==> Fresh(s, p, BATCH * RoundUp(bytes)))
    case Deallocate(pointer, bytes) =>
      bytes > 0 &&
      (pointer == 0 || bytes > MAX_BYTES ||
       (pointer in s.live && pointer in s.blocks && s.blocks[pointer] == RoundUp(bytes)))
    case Store(at, _) => at % ALIGN == 0 && Outside(s, at)
  }

  function Next(s: Pool, c: Call): Pool
    requires Good(s) && Proper(s, c)
  {
    match c
    case Allocate(bytes, p) =>
      if bytes > MAX_BYTES then s
      else
        var k := Index(bytes);
        if s.lists[k] != [] then Take(s, k)
        else if p == 0 then s
        else Take(Fill(s, k, p), k)
    case Deallocate(pointer, bytes) =>
      if pointer == 0 || bytes > MAX_BYTES then s else Give(s, Index(bytes), pointer)
    case Store(at, word) => s.(cells := s.cells[at := word])
  }

  /** What allocate returns. */
  function Result(s: Pool, bytes: nat, p: nat): nat
    requires Good(s) && Proper(s, Allocate(bytes, p))
  {
    if bytes > MAX_BYTES || s.lists[Index(bytes)] == [] then p else s.lists[Index(bytes)][0]
  }

  lemma FilledList(s: Pool, k: nat, p: nat)
    requires |s.lists| == |s.refills| == LISTS && k < LISTS
    ensures |Fill(s, k, p).lists| == LISTS && |Fill(s, k, p).lists[k]| == BATCH && Fill(s, k, p).lists[k][0] == p
  {
  }

  lemma SameBlocks(s: Pool, t: Pool)
    requires Separate(s) && s.blocks == t.blocks
    ensures Separate(t)
  {
  }

  /** A client's store cannot break a free list. */
  lemma StoreKeepsGood(s: Pool, at: nat, word: nat)
    requires Good(s) && Outside(s, at)
    ensures Good(s.(cells := s.cells[at := word]))
  {
    hide LinkedList, Separate, NoRepeats;
    var t := s.(cells := s.cells[at := word]);
    forall k | 0 <= k < LISTS ensures LinkedList(t.cells, t.lists[k]) && LiveOf(t, k) == LiveOf(s, k) {
      assert Holds(s, k, s.lists[k]);
      StoreKeepsList(s, k, at, word);
    }
    hide LiveOf;
    assert Separate(t) && Filed(t) && Linked(t) && Counted(t) by { SameBlocks(s, t); }
  }

  lemma NextKeepsGood(s: Pool, c: Call)
    requires Good(s) && Proper(s, c)
    ensures Good(Next(s, c))
  {
    hide Fill, Take, Give, Separate, Linked, Counted;
    match c
    case Allocate(bytes, p) =>
      if bytes <= MAX_BYTES {
        var k := Index(bytes);
        IndexFits(bytes);
        if s.lists[k] != [] {
          TakeKeepsGood(s, k);
        } else if p != 0 {
          FillKeepsGood(s, k, p);
          FilledList(s, k, p);
          TakeKeepsGood(Fill(s, k, p), k);
        }
      }
    case Deallocate(pointer, bytes) =>
      if pointer != 0 && bytes <= MAX_BYTES {
        IndexFits(bytes);
        GiveKeepsGood(s, Index(bytes), pointer);
      }
    case Store(at, word) => StoreKeepsGood(s, at, word);
  }

  lemma FillKeepsBlock(s: Pool, k: nat, p: nat, a: nat)
    requires Good(s) && k < LISTS && Fresh(s, p, BATCH * Size(k)) && a in s.blocks
    ensures a in Fill(s, k, p).blocks && Fill(s, k, p).blocks[a] == s.blocks[a]
    ensures forall at :: a <= at < a + s.blocks[a] ==> at !in Links(p, Size(k), BATCH) && at != p
  {
    RowIsSpread(p, Size(k), BATCH);
    var k0 :| 0 <= k0 < LISTS && s.blocks[a] == Size(k0);
  }

  /** What allocate gives is disjoint from everything given before, and large enough. */
  lemma AllocatedIsSeparate(s: Pool, bytes: nat, p: nat)
    requires Good(s) && Proper(s, Allocate(bytes, p)) && bytes <= MAX_BYTES
    ensures var r, t := Result(s, bytes, p), Next(s, Allocate(bytes, p));
      if r == 0 then t == s
      else
        && t.live == s.live + {r} && r !in s.live && r in t.blocks && bytes <= t.blocks[r] && r % ALIGN == 0
        && forall a :: a in s.live ==>
             a in t.blocks && t.blocks[a] == s.blocks[a] && Apart(r, t.blocks[r], a, t.blocks[a])
  {
    hide Linked;
    IndexFits(bytes);
    var k, r := Index(bytes), Result(s, bytes, p);
    if s.lists[k] != [] {
      assert r in s.lists[k];
    } else if p != 0 {
      FillKeepsGood(s, k, p);
      var u := Fill(s, k, p);
      assert u.lists[k][0] == p;
      assert p in u.lists[k];
      forall a | a in s.live ensures a in u.blocks && u.blocks[a] == s.blocks[a] && a != p {
        FillKeepsBlock(s, k, p, a);
      }
    }
  }

  function Word(s: Pool, at: nat): nat { if at in s.cells then s.cells[at] else 0 }

  /** The call leaves the block with its client and stores nothing there. */
  predicate Spares(s: Pool, c: Call, a: nat)
    requires a in s.blocks
  {
    match c
    case Allocate(_, _) => true
    case Deallocate(pointer, _) => pointer != a
    case Store(at, _) => at < a || a + s.blocks[a] <= at
  }

  /** The pool never writes into a live block. */
  lemma LiveBlockIsKept(s: Pool, c: Call, a: nat)
    requires Good(s) && Proper(s, c) && a in s.live && Spares(s, c, a)
    ensures var t := Next(s, c);
      && a in t.live && a in t.blocks && t.blocks[a] == s.blocks[a]
      && forall at :: a <= at < a + s.blocks[a] ==> Word(t, at) == Word(s, at)
  {
    hide Linked, Counted;
    match c
    case Allocate(bytes, p) =>
      IndexFits(bytes);
      if bytes <= MAX_BYTES && s.lists[Index(bytes)] == [] && p != 0 { FillKeepsBlock(s, Index(bytes), p, a); }
    case Deallocate(pointer, bytes) => IndexFits(bytes);
    case Store(_, _) =>
  }

  // ---- runs ----

  ghost predicate ProperRun(s: Pool, cs: seq<Call>)
    requires Good(s)
    decreases |cs|
  {
    cs == [] || (Proper(s, cs[0]) && (NextKeepsGood(s, cs[0]); ProperRun(Next(s, cs[0]), cs[1..])))
  }

  function Run(s: Pool, cs: seq<Call>): Pool
    requires Good(s) && ProperRun(s, cs)
    decreases |cs|
  {
    if cs == [] then s
    else NextKeepsGood(s, cs[0]); Run(Next(s, cs[0]), cs[1..])
  }

  /** In every run: blocks are separate, filed, linked and counted. */
  lemma {:induction false} RunIsGood(s: Pool, cs: seq<Call>)
    requires Good(s) && ProperRun(s, cs)
    ensures Good(Run(s, cs))
    decreases |cs|
  {
    hide Good, Next, Proper;
    if cs != [] {
      NextKeepsGood(s, cs[0]);
      RunIsGood(Next(s, cs[0]), cs[1..]);
    }
  }

  ghost predicate RunSpares(s: Pool, cs: seq<Call>, a: nat)
    requires Good(s) && ProperRun(s, cs) && a in s.live
    decreases |cs|
  {
    cs == [] ||
    (Spares(s, cs[0], a) &&
     (NextKeepsGood(s, cs[0]); LiveBlockIsKept(s, cs[0], a); RunSpares(Next(s, cs[0]), cs[1..], a)))
  }

  /** What a client keeps in its block is there until the client overwrites it or gives the block back. */
  lemma {:induction false} RunKeepsData(s: Pool, cs: seq<Call>, a: nat)
    requires Good(s) && ProperRun(s, cs) && a in s.live && RunSpares(s, cs, a)
    ensures var t := Run(s, cs);
      && a in t.live && a in t.blocks && t.blocks[a] == s.blocks[a]
      && forall at :: a <= at < a + s.blocks[a] ==> Word(t, at) == Word(s, at)
    decreases |cs|
  {
    hide Next, Proper, Separate, Linked, Counted, Spares;
    if cs != [] {
      NextKeepsGood(s, cs[0]);
      LiveBlockIsKept(s, cs[0], a);
      RunKeepsData(Next(s, cs[0]), cs[1..], a);
    }
  }

  // ---- the pool object ----

  lemma FirstLink(cells: map<nat, nat>, p: nat, size: nat)
    ensures cells[p := 0] == cells + Links(p, size, 1)
  {
    assert Row(p, size, 1) == [p];
  }

  lemma NextIsBeyond(size: nat, i: nat)
    requires i > 0
    ensures size * i == size * (i - 1) + size
  {
  }

  lemma RowGrows(p: nat, size: nat, i: nat)
    requires size > 0 && i > 0
    ensures var pre, next := p + size * (i - 1), p + size * i;
      && pre in Row(p, size, i) && next !in Row(p, size, i)
      && forall a :: a in Row(p, size, i + 1) <==> a in Row(p, size, i) || a == next
  {
    var r := Row(p, size, i);
    assert Row(p, size, i + 1) == r + [p + size * i];
    assert r[i - 1] == p + size * (i - 1);
    RowIsSpread(p, size, i);
  }

  /** One round of the linking loop. */
  lemma NextLink(cells: map<nat, nat>, p: nat, size: nat, i: nat)
    requires size > 0 && i > 0
    ensures var pre, next := p + size * (i - 1), p + size * i;
      (cells + Links(p, size, i))[next := 0][pre := next] == cells + Links(p, size, i + 1)
  {
    var pre, next := p + size * (i - 1), p + size * i;
    NextIsBeyond(size, i);
    RowGrows(p, size, i);
    hide Row;
    var less, more := Links(p, size, i), Links(p, size, i + 1);
    forall a | a in Row(p, size, i) && a != pre ensures a in less && a in more && less[a] == more[a] { }
    assert (cells + less)[next := 0][pre := next] == cells + more;
  }

  /** A head is NULL exactly when its list is empty. */
  lemma HeadIsZero(s: Pool, k: nat)
    requires Good(s) && k < LISTS
    ensures |s.lists| == |s.refills| == LISTS && (At(s.lists[k], 0) == 0 <==> s.lists[k] == [])
    ensures s.lists[k] != [] ==> s.lists[k][0] in s.cells && s.cells[s.lists[k][0]] == At(s.lists[k], 1)
  {
    ListIsProper(s, k);
    hide Separate, Linked, Counted, Holds;
  }

  lemma GivenHead(s: Pool, k: nat, a: nat)
    requires k < |s.lists|
    ensures var t := Give(s, k, a);
      |t.lists| == |s.lists| && At(t.lists[k], 0) == a &&
      (forall j :: 0 <= j < |s.lists| && j != k ==> t.lists[j] == s.lists[j])
  {
  }

  lemma TakenHead(s: Pool, k: nat)
    requires k < |s.lists| && s.lists[k] != []
    ensures var t := Take(s, k);
      |t.lists| == |s.lists| && At(t.lists[k], 0) == At(s.lists[k], 1) &&
      (forall j :: 0 <= j < |s.lists| && j != k ==> t.lists[j] == s.lists[j])
  {
  }

  class ChunkData {
    var next: ChunkData?
    const data: nat

    constructor (data: nat)
      ensures this.data == data && next == null
    {
      this.data := data;
      next := null;
    }
  }

  class MemoryPoll {
    const freeList: array<nat>
    var cells: map<nat, nat>
    var startChunk: ChunkData?
    var endChunk: ChunkData?
    ghost var pool: Pool
    ghost var chunks: seq<ChunkData>

    /** The chain of chunks, in the order of the refills. */
    ghost predicate Chained()
      reads `startChunk, `endChunk, `chunks, chunks
    {
      && (forall i, j :: 0 <= i < j < |chunks| ==> chunks[i] != chunks[j])
      && startChunk == (if chunks == [] then null else chunks[0])
      && endChunk == (if chunks == [] then null else chunks[|chunks| - 1])
      && forall i :: 0 <= i < |chunks| ==> chunks[i].next == if i + 1 < |chunks| then chunks[i + 1] else null
    }

    ghost predicate Valid()
      reads this, chunks, freeList
    {
      && freeList.Length == LISTS && Good(pool) && cells == pool.cells && Chained()
      && forall k :: 0 <= k < LISTS ==> freeList[k] == At(pool.lists[k], 0)
    }

    /**
     The constructor leaves the heads as they are in the storage of the object; it makes an
     empty pool exactly when they all are NULL.
     */
    constructor (storage: array<nat>, memory: map<nat, nat>)
      requires storage.Length == LISTS
      ensures freeList == storage && storage[..] == old(storage[..])
      ensures cells == memory && pool == Empty(memory) && chunks == []
      ensures Valid() <==> forall k :: 0 <= k < LISTS ==> storage[k] == 0
    {
      freeList := storage;
      cells := memory;
      startChunk, endChunk := null, null;
      pool, chunks := Empty(memory), [];
      new;
      EmptyIsGood(memory);
    }

    /** The end of the chain takes the new chunk. */
    method AppendChunk(p: nat)
      requires Chained()
      modifies `startChunk, `endChunk, `chunks, endChunk
      ensures Chained()
      ensures |chunks| == |old(chunks)| + 1 && chunks[..|old(chunks)|] == old(chunks)
      ensures fresh(chunks[|old(chunks)|]) && chunks[|old(chunks)|].data == p
    {
      var chunk := new ChunkData(p);
      if startChunk == null {
        startChunk := chunk;
        endChunk := chunk;
      } else {
        endChunk.next := chunk;
        endChunk := endChunk.next;
      }
      chunks := chunks + [chunk];
    }

    /** The linking loop of _M_refill. */
    method LinkBlocks(p: nat, bytes: nat, n: nat)
      requires bytes > 0 && n > 0
      modifies `cells
      ensures cells == old(cells) + Links(p, bytes, n)
    {
      hide Links;
      var pre := p;
      cells := cells[pre := 0];
      FirstLink(old(cells), p, bytes);
      for i := 1 to n
        invariant cells == old(cells) + Links(p, bytes, i) && pre == p + bytes * (i - 1)
      {
        var next := p + bytes * i;
        NextLink(old(cells), p, bytes, i);
        cells := cells[next := 0];
        cells := cells[pre := next];
        pre := next;
      }
    }

    /** _M_refill; p is what operator new returned. */
    method Refill(bytes: nat, n: nat, p: nat) returns (r: nat)
      requires Chained() && bytes > 0 && n > 0
      modifies `cells, `startChunk, `endChunk, `chunks, endChunk
      ensures r == p && Chained()
      ensures if p == 0 then cells == old(cells) && chunks == old(chunks)
              else cells == old(cells) + Links(p, bytes, n) && |chunks| == |old(chunks)| + 1 &&
                   chunks[..|old(chunks)|] == old(chunks) && fresh(chunks[|old(chunks)|]) &&
                   chunks[|old(chunks)|].data == p
    {
      if p != 0 {
        AppendChunk(p);
        LinkBlocks(p, bytes, n);
      }
      return p;
    }

    /** _M_allocate_chunk. */
    method AllocateChunk(bytes: nat, ghost asked: nat, p: nat) returns (r: nat)
      requires Valid() && Proper(pool, Call.Allocate(asked, p)) && asked <= MAX_BYTES && bytes == RoundUp(asked)
      modifies this, freeList, endChunk
      ensures Valid() && pool == Next(old(pool), Call.Allocate(asked, p)) && r == Result(old(pool), asked, p)
    {
      hide Good, Links, Row, LinkedList, Fresh;
      IndexFits(asked);
      var k := RoundUp(bytes) / ALIGN - 1;
      var head := freeList[k];
      NextKeepsGood(pool, Call.Allocate(asked, p));
      HeadIsZero(pool, k);
      if head == 0 {
        var obj := Refill(bytes, BATCH, p);
        if obj != 0 {
          head := obj;
          FillKeepsGood(pool, k, p);
          FilledList(pool, k, p);
          pool := Fill(pool, k, p);
          HeadIsZero(pool, k);
        }
      }
      if head != 0 {
        TakenHead(pool, k);
        freeList[k] := cells[head];
        pool := Take(pool, k);
        assert Good(pool);
        return head;
      }
      return 0;
    }

    method Allocate(bytes: nat, p: nat) returns (r: nat)
      requires Valid() && Proper(pool, Call.Allocate(bytes, p))
      modifies this, freeList, endChunk
      ensures Valid() && pool == Next(old(pool), Call.Allocate(bytes, p)) && r == Result(old(pool), bytes, p)
    {
      hide Good;
      if bytes > MAX_BYTES {
        return p;
      }
      r := AllocateChunk(RoundUp(bytes), bytes, p);
    }

    /** deallocate; toSystem says whether operator delete is called. */
    method Deallocate(pointer: nat, bytes: nat) returns (toSystem: bool)
      requires Valid() && Proper(pool, Call.Deallocate(pointer, bytes))
      modifies this, freeList
      ensures Valid() && pool == Next(old(pool), Call.Deallocate(pointer, bytes))
      ensures toSystem <==> pointer != 0 && bytes > MAX_BYTES
    {
      hide Good;
      NextKeepsGood(pool, Call.Deallocate(pointer, bytes));
      IndexFits(bytes);
      if pointer == 0 {
        return false;
      }
      if bytes > MAX_BYTES {
        return true;
      }
      ghost var k := Index(bytes);
      assert |pool.lists| == LISTS by { HeadIsZero(pool, k); }
      GivenHead(pool, k, pointer);
      pool := Give(pool, k, pointer);
      assert Good(pool);
      var head := freeList[RoundUp(bytes) / ALIGN - 1];
      cells := cells[pointer := head];
      head := pointer;
      freeList[RoundUp(bytes) / ALIGN - 1] := head;
      return false;
    }

    /** release_memory: every chunk goes back to the system once, in the order of the chain. */
    method ReleaseMemory() returns (deleted: seq<nat>)
      requires Valid()
      modifies `startChunk, `endChunk, `chunks
      ensures |deleted| == |old(chunks)| && forall i :: 0 <= i < |deleted| ==> deleted[i] == old(chunks)[i].data
      ensures startChunk == null && endChunk == null
    {
      var chunk := startChunk;
      deleted := [];
      while chunk != null
        invariant |deleted| <= |chunks| && chunk == if |deleted| < |chunks| then chunks[|deleted|] else null
        invariant forall i :: 0 <= i < |deleted| ==> deleted[i] == chunks[i].data
        decreases |chunks| - |deleted|
      {
        var next := chunk.next;
        deleted := deleted + [chunk.data];
        chunk := next;
      }
      startChunk, endChunk, chunks := null, null, [];
    }
  }
}
