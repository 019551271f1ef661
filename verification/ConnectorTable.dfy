/**
 The connection table of net/connector_list.cc: a slot table, a first-in first-out pool of
 ids, and a multimap from deadlines to ids that has to agree with both.
 */
module ConnectorTable {
  import opened Common

  const U32 := 0x1_0000_0000
  const SLOTS := 0x10_0000

  // ---- ids ----

  /** A 32-bit id: 8 bits of the time, 4 bits of the list, 20 bits of the slot. */
  function Magic(time: int, index: nat): nat {
    (time % U32 * 0x100_0000 % U32 + index * SLOTS % U32) % U32
  }

  function MagicOf(id: nat): nat { id / SLOTS * SLOTS }

  function SlotOf(id: nat): nat { id % SLOTS }

  /** The masks of the source compute these parts, and its bitwise or the sum. */
  lemma MasksAreArithmetic(id: bv32, magic: bv32, uid: bv32)
    requires magic & 0xFFFFF == 0 && uid & 0xFFF00000 == 0
    ensures id & (0xFFFFFFFF << 20) == id / 0x100000 * 0x100000
    ensures id & (0x7FFFFFFF >> 11) == id % 0x100000
    ensures magic | uid == magic + uid
  {
  }

  lemma ShiftedTime(t: nat)
    ensures t * 0x100_0000 % U32 == t % 256 * 0x100_0000
  {
    assert t * 0x100_0000 == t / 256 * U32 + t % 256 * 0x100_0000;
  }

  lemma MagicParts(time: int, index: nat)
    requires index < 16
    ensures Magic(time, index) == time % 256 * 0x100_0000 + index * SLOTS < U32
    ensures Magic(time, index) % SLOTS == 0 && Magic(time, index) / SLOTS % 16 == index
  {
    var t := time % U32;
    assert t % 256 == time % 256;
    ShiftedTime(t);
    assert index * SLOTS % U32 == index * SLOTS;
  }

  /** An id leads back to its slot in its own list, and is refused by every other list. */
  lemma IdsAreApart(time: int, index: nat, otherTime: int, otherIndex: nat, uid: nat)
    requires index < 16 && otherIndex < 16 && uid < SLOTS
    ensures var id := Magic(time, index) + uid;
      id < U32 && SlotOf(id) == uid && MagicOf(id) == Magic(time, index) &&
      (otherIndex != index ==> MagicOf(id) != Magic(otherTime, otherIndex))
  {
    MagicParts(time, index);
    MagicParts(otherTime, otherIndex);
    hide Magic;
  }

  // ---- the multimap ----

  /** node stands for the iterator that insert returns. */
  datatype Entry = Entry(key: int, uid: nat, node: nat)

  /** std::multimap::insert: behind the entries with the same key. */
  function Insert(tl: seq<Entry>, e: Entry): seq<Entry> {
    if tl == [] || tl[0].key > e.key then [e] + tl else [tl[0]] + Insert(tl[1..], e)
  }

  /** std::multimap::erase of an iterator. */
  function Erase(tl: seq<Entry>, node: nat): seq<Entry> {
    if tl == [] then [] else if tl[0].node == node then tl[1..] else [tl[0]] + Erase(tl[1..], node)
  }

  predicate Sorted(tl: seq<Entry>) { forall i, j :: 0 <= i < j < |tl| ==> tl[i].key <= tl[j].key }

  predicate Distinct(tl: seq<Entry>) { forall i, j :: 0 <= i < j < |tl| ==> tl[i].node != tl[j].node }

  lemma ConsKeeps(e: Entry, r: seq<Entry>)
    requires Sorted(r) && Distinct(r) && forall x :: x in r ==> e.key <= x.key && e.node != x.node
    ensures Sorted([e] + r) && Distinct([e] + r)
    ensures forall x :: x in [e] + r <==> x == e || x in r
  {
    var s := [e] + r;
    forall i, j | 0 <= i < j < |s| ensures s[i].key <= s[j].key && s[i].node != s[j].node {
      assert s[j] == r[j - 1] && s[j] in r;
      if i > 0 { assert s[i] == r[i - 1]; }
    }
  }

  lemma {:induction false} InsertKeeps(tl: seq<Entry>, e: Entry)
    requires Sorted(tl) && Distinct(tl) && forall x :: x in tl ==> x.node != e.node
    ensures Sorted(Insert(tl, e)) && Distinct(Insert(tl, e)) && |Insert(tl, e)| == |tl| + 1
    ensures forall x :: x in Insert(tl, e) <==> x in tl || x == e
    decreases |tl|
  {
    if tl != [] && tl[0].key <= e.key {
      var rest := tl[1..];
      assert forall x :: x in tl <==> x == tl[0] || x in rest;
      assert forall x :: x in rest ==> tl[0].key <= x.key && tl[0].node != x.node;
      InsertKeeps(rest, e);
      var r := Insert(rest, e);
      assert Insert(tl, e) == [tl[0]] + r;
      assert forall x :: x in r ==> tl[0].key <= x.key && tl[0].node != x.node;
      ConsKeeps(tl[0], r);
    } else {
      assert forall x :: x in tl ==> e.key <= x.key;
      ConsKeeps(e, tl);
    }
  }

  /** The new entry comes behind all entries with an earlier deadline or the same, and in front of the others. */
  lemma {:induction false} InsertIsStable(tl: seq<Entry>, e: Entry) returns (k: nat)
    requires Sorted(tl)
    ensures k <= |tl| && Insert(tl, e) == tl[..k] + [e] + tl[k..]
    ensures (forall i :: 0 <= i < k ==> tl[i].key <= e.key) && (forall i :: k <= i < |tl| ==> tl[i].key > e.key)
    decreases |tl|
  {
    if tl == [] || tl[0].key > e.key {
      k := 0;
    } else {
      k := InsertIsStable(tl[1..], e);
      assert tl[..k + 1] == [tl[0]] + tl[1..][..k] && tl[k + 1..] == tl[1..][k..];
      k := k + 1;
    }
  }

  lemma {:induction false} EraseKeeps(tl: seq<Entry>, node: nat)
    requires Sorted(tl) && Distinct(tl)
    ensures Sorted(Erase(tl, node)) && Distinct(Erase(tl, node))
    ensures forall x :: x in Erase(tl, node) <==> x in tl && x.node != node
    decreases |tl|
  {
    if tl != [] {
      var rest := tl[1..];
      assert tl == [tl[0]] + rest;
      assert forall x :: x in tl <==> x == tl[0] || x in rest;
      assert forall x :: x in rest ==> tl[0].key <= x.key && tl[0].node != x.node;
      if tl[0].node != node {
        EraseKeeps(rest, node);
        ConsKeeps(tl[0], Erase(rest, node));
      }
    }
  }

  // ---- the table ----

  datatype Slot = Vacant | Occupied(conn: nat, node: nat)

  /**
   free: the ids to issue next, in order.  reserved: issued and not yet added.  A slot holds
   the number of a connector and its entry in the multimap.  nodes: the next iterator.
   */
  datatype Table = Table(
    total: nat,
    magic: nat,
    free: seq<nat>,
    reserved: set<nat>,
    slots: seq<Slot>,
    tl: seq<Entry>,
    nodes: nat)

  predicate InRange(t: Table, u: int) { 1 <= u <= t.total && u < |t.slots| }

  predicate Shape(t: Table) {
    && t.total < SLOTS && t.magic % SLOTS == 0 && t.magic < U32
    && |t.slots| == t.total + 1 && t.slots[0].Vacant?
  }

  /** Free, reserved and occupied ids partition 1 to total. */
  ghost predicate Partitioned(t: Table) {
    && NoRepeats(t.free)
    && (forall u :: u in t.free ==> InRange(t, u) && t.slots[u].Vacant? && u !in t.reserved)
    && (forall u :: u in t.reserved ==> InRange(t, u) && t.slots[u].Vacant?)
    && (forall u :: InRange(t, u) && t.slots[u].Vacant? ==> u in t.free || u in t.reserved)
  }

  predicate PointsBack(t: Table, e: Entry) {
    InRange(t, e.uid) && t.slots[e.uid].Occupied? && t.slots[e.uid].node == e.node && e.node < t.nodes
  }

  ghost predicate HasEntry(t: Table, u: nat)
    requires u < |t.slots| && t.slots[u].Occupied?
  {
    exists e :: e in t.tl && e.uid == u && e.node == t.slots[u].node
  }

  /** Occupied slots and entries are in bijection through the stored iterators. */
  ghost predicate Indexed(t: Table) {
    && Sorted(t.tl) && Distinct(t.tl)
    && (forall e :: e in t.tl ==> PointsBack(t, e))
    && (forall u :: InRange(t, u) && t.slots[u].Occupied? ==> HasEntry(t, u))
  }

  ghost predicate TableInv(t: Table) { Shape(t) && Partitioned(t) && Indexed(t) }

  function UpTo(n: nat): seq<nat> { seq(n, i requires 0 <= i => i + 1) }

  function InitTable(size: nat, index: nat, time: int): Table {
    Table(size, Magic(time, index), UpTo(size), {}, seq(size + 1, _ => Vacant), [], 0)
  }

  lemma InitIsGood(size: nat, index: nat, time: int)
    requires size < SLOTS && index < 16
    ensures TableInv(InitTable(size, index, time))
  {
    MagicParts(time, index);
    hide Magic;
    var t := InitTable(size, index, time);
    forall u | InRange(t, u) ensures u in t.free { assert t.free[u - 1] == u; }
  }

  function Issue(t: Table): Table
    requires t.free != []
  {
    t.(free := t.free[1..], reserved := t.reserved + {t.free[0]})
  }

  function Enter(t: Table, u: nat, conn: nat, key: int): Table
    requires u < |t.slots|
  {
    t.(slots := t.slots[u := Occupied(conn, t.nodes)], tl := Insert(t.tl, Entry(key, u, t.nodes)),
       nodes := t.nodes + 1, reserved := t.reserved - {u})
  }

  function Postpone(t: Table, u: nat, key: int): Table
    requires u < |t.slots| && t.slots[u].Occupied?
  {
    Enter(t.(tl := Erase(t.tl, t.slots[u].node)), u, t.slots[u].conn, key)
  }

  function Remove(t: Table, u: nat): Table
    requires u < |t.slots| && t.slots[u].Occupied?
  {
    t.(slots := t.slots[u := Vacant], tl := Erase(t.tl, t.slots[u].node), free := t.free + [u])
  }

  lemma IssueKeepsInv(t: Table)
    requires TableInv(t) && t.free != []
    ensures TableInv(Issue(t)) && InRange(t, t.free[0]) && SlotOf(t.magic + t.free[0]) == t.free[0]
    ensures t.free[0] !in t.reserved && t.slots[t.free[0]].Vacant? && MagicOf(t.magic + t.free[0]) == t.magic
  {
    var u := t.free[0];
    assert t.free == [u] + t.free[1..];
    assert u in t.free;
    forall v | v in t.free[1..] ensures v in t.free && v != u { }
    forall e | e in Issue(t).tl ensures PointsBack(Issue(t), e) { assert PointsBack(t, e); }
    forall v | InRange(Issue(t), v) && t.slots[v].Occupied? ensures HasEntry(Issue(t), v) { assert HasEntry(t, v); }
  }

  lemma EnterKeepsPartition(t: Table, u: nat, conn: nat, key: int)
    requires Shape(t) && Partitioned(t) && InRange(t, u) && u !in t.free
    ensures Shape(Enter(t, u, conn, key)) && Partitioned(Enter(t, u, conn, key))
  {
    hide Insert;
  }

  lemma EnterKeepsIndex(t: Table, u: nat, conn: nat, key: int)
    requires Shape(t) && InRange(t, u) && Sorted(t.tl) && Distinct(t.tl)
    requires forall e :: e in t.tl ==> PointsBack(t, e) && e.uid != u
    requires forall v :: InRange(t, v) && v != u && t.slots[v].Occupied? ==> HasEntry(t, v)
    ensures Indexed(Enter(t, u, conn, key))
  {
    var e := Entry(key, u, t.nodes);
    InsertKeeps(t.tl, e);
    hide Insert, Sorted, Distinct;
    var s := Enter(t, u, conn, key);
    forall x | x in s.tl ensures PointsBack(s, x) { if x != e { assert PointsBack(t, x); } }
    forall v | InRange(s, v) && s.slots[v].Occupied? ensures HasEntry(s, v) {
      if v == u {
        assert e in s.tl;
      } else {
        assert HasEntry(t, v);
        var x :| x in t.tl && x.uid == v && x.node == t.slots[v].node;
        assert x in s.tl;
      }
    }
  }

  lemma EnterKeepsInv(t: Table, u: nat, conn: nat, key: int)
    requires TableInv(t) && u in t.reserved
    ensures TableInv(Enter(t, u, conn, key))
  {
    EnterKeepsPartition(t, u, conn, key);
    EnterKeepsIndex(t, u, conn, key);
  }

  /** No two entries share an iterator. */
  lemma SameEntry(t: Table, u: nat, e: Entry)
    requires Indexed(t) && InRange(t, u) && t.slots[u].Occupied? && e in t.tl && e.node == t.slots[u].node
    ensures e.uid == u
  {
    assert HasEntry(t, u);
    var x :| x in t.tl && x.uid == u && x.node == t.slots[u].node;
    var i :| 0 <= i < |t.tl| && t.tl[i] == x;
    var j :| 0 <= j < |t.tl| && t.tl[j] == e;
    assert i == j;
  }

  /** Without the entry of u, the multimap indexes all the other slots. */
  lemma ErasedIndex(t: Table, u: nat)
    requires TableInv(t) && InRange(t, u) && t.slots[u].Occupied?
    ensures var tl := Erase(t.tl, t.slots[u].node);
      && Sorted(tl) && Distinct(tl)
      && (forall e :: e in tl <==> e in t.tl && e.uid != u)
      && (forall v :: InRange(t, v) && v != u && t.slots[v].Occupied? ==> HasEntry(t.(tl := tl), v))
  {
    var tl := Erase(t.tl, t.slots[u].node);
    EraseKeeps(t.tl, t.slots[u].node);
    hide Erase, Sorted, Partitioned;
    forall e | e in t.tl ensures e.uid == u <==> e.node == t.slots[u].node {
      assert PointsBack(t, e);
      if e.node == t.slots[u].node { SameEntry(t, u, e); }
    }
    forall v | InRange(t, v) && v != u && t.slots[v].Occupied? ensures HasEntry(t.(tl := tl), v) {
      assert HasEntry(t, v);
      var x :| x in t.tl && x.uid == v && x.node == t.slots[v].node;
      assert x in tl;
    }
  }

  lemma PostponeKeepsInv(t: Table, u: nat, key: int)
    requires TableInv(t) && InRange(t, u) && t.slots[u].Occupied?
    ensures TableInv(Postpone(t, u, key))
  {
    ErasedIndex(t, u);
    hide Erase, Insert;
    var s := t.(tl := Erase(t.tl, t.slots[u].node));
    forall e | e in s.tl ensures PointsBack(s, e) { assert PointsBack(t, e); }
    EnterKeepsPartition(s, u, t.slots[u].conn, key);
    EnterKeepsIndex(s, u, t.slots[u].conn, key);
  }

  lemma RemoveKeepsPartition(t: Table, u: nat)
    requires Shape(t) && Partitioned(t) && InRange(t, u) && t.slots[u].Occupied?
    ensures Shape(Remove(t, u)) && Partitioned(Remove(t, u))
  {
    var s := Remove(t, u);
    assert u !in t.free;
    forall v ensures v in s.free <==> v in t.free || v == u { }
  }

  lemma RemoveKeepsInv(t: Table, u: nat)
    requires TableInv(t) && InRange(t, u) && t.slots[u].Occupied?
    ensures TableInv(Remove(t, u))
  {
    ErasedIndex(t, u);
    RemoveKeepsPartition(t, u);
    hide Erase, Sorted, Distinct, Partitioned;
    var s := Remove(t, u);
    forall e | e in s.tl ensures PointsBack(s, e) { assert PointsBack(t, e); }
    forall v | InRange(s, v) && s.slots[v].Occupied? ensures HasEntry(s, v) {
      assert HasEntry(t.(tl := s.tl), v);
    }
  }

  /** The deadline of a connection is the key of its one entry. */
  ghost predicate DeadlineIs(t: Table, u: nat, key: int) { exists e :: e in t.tl && e.uid == u && e.key == key }

  lemma DeadlineIsUnique(t: Table, u: nat, key: int, other: int)
    requires TableInv(t) && DeadlineIs(t, u, key) && DeadlineIs(t, u, other)
    ensures key == other
  {
    var e :| e in t.tl && e.uid == u && e.key == key;
    var f :| f in t.tl && f.uid == u && f.key == other;
    assert PointsBack(t, e) && PointsBack(t, f);
    var i :| 0 <= i < |t.tl| && t.tl[i] == e;
    var j :| 0 <= j < |t.tl| && t.tl[j] == f;
    assert i == j;
  }

  /** The slots of the next n ids, one issued after the other. */
  function IssuedNext(t: Table, n: nat): seq<nat>
    requires n <= |t.free|
    decreases n
  {
    if n == 0 then [] else [t.free[0]] + IssuedNext(Issue(t), n - 1)
  }

  lemma {:induction false} IssuedInOrder(t: Table, n: nat)
    requires n <= |t.free|
    ensures IssuedNext(t, n) == t.free[..n]
    decreases n
  {
    if n > 0 {
      IssuedInOrder(Issue(t), n - 1);
      assert t.free[..n] == [t.free[0]] + t.free[1..][..n - 1];
    }
  }

  /** After del with k ids free, the next k ids are exactly those, in order; the deleted one follows. */
  lemma IdsAreReusedInOrder(t: Table, u: nat)
    requires u < |t.slots| && t.slots[u].Occupied?
    ensures IssuedNext(Remove(t, u), |t.free|) == t.free
    ensures IssuedNext(Remove(t, u), |t.free| + 1) == t.free + [u]
  {
    IssuedInOrder(Remove(t, u), |t.free|);
    IssuedInOrder(Remove(t, u), |t.free| + 1);
  }

  // ---- connectors ----

  /** The fields of a connector that the table and the net thread use; out is its output buffer. */
  datatype Conn = Conn(
    id: nat,
    ip: string,
    port: nat,
    fd: int,
    listenFd: int,
    timeout: int,
    last: int,
    timedOut: bool,
    closed: bool,
    data: nat,
    out: seq<char>)

  /** Conversion of a time_t to the int of LastRefreshTime. */
  function ToInt(t: int): int {
    var u := t % U32;
    if u < 0x8000_0000 then u else u - U32
  }

  datatype Option<T> = None | Some(value: T)

  /** The ids for which the array access of get stays inside the array. */
  predicate Readable(t: Table, id: nat) { MagicOf(id) == t.magic ==> SlotOf(id) < |t.slots| }

  function Get(t: Table, id: nat): Option<nat>
    requires Readable(t, id)
  {
    if MagicOf(id) != t.magic || t.slots[SlotOf(id)].Vacant? then None else Some(t.slots[SlotOf(id)].conn)
  }

  /** The assertion in del and refresh. */
  predicate Listed(t: Table, id: nat) {
    MagicOf(id) == t.magic && InRange(t, SlotOf(id)) && t.slots[SlotOf(id)].Occupied?
  }

  /** It holds exactly for the ids that get finds. */
  lemma GetMeansListed(t: Table, id: nat)
    requires Shape(t) && Readable(t, id)
    ensures Get(t, id).Some? <==> Listed(t, id)
  {
  }

  /** Every occupied slot has its connector. */
  predicate Known(t: Table, conns: seq<Conn>) {
    forall u :: 0 <= u < |t.slots| && t.slots[u].Occupied? ==> t.slots[u].conn < |conns|
  }

  function ConnOf(t: Table, conns: seq<Conn>, u: nat): Conn
    requires Known(t, conns) && u < |t.slots| && t.slots[u].Occupied?
  {
    conns[t.slots[u].conn]
  }

  /** refresh happens only when the new time is later than the last one. */
  predicate Refreshes(t: Table, conns: seq<Conn>, u: nat, stamp: int)
    requires Known(t, conns) && u < |t.slots| && t.slots[u].Occupied?
  {
    stamp - ConnOf(t, conns, u).last >= 1
  }

  predicate Pointing(t: Table) { forall e :: e in t.tl ==> PointsBack(t, e) }

  /** The ids of the entries from it on, up to the first later key, whose connector does not listen. */
  function Expiring(t: Table, conns: seq<Conn>, it: nat, now: int): seq<nat>
    requires Known(t, conns) && Pointing(t) && it <= |t.tl|
    decreases |t.tl| - it
  {
    if it == |t.tl| || t.tl[it].key > now then []
    else
      assert PointsBack(t, t.tl[it]);
      var u := t.tl[it].uid;
      (if ConnOf(t, conns, u).listenFd == -1 then [] else [u]) + Expiring(t, conns, it + 1, now)
  }

  /** The ids that an unthrottled checkTimeout times out, by deadline. */
  function Overdue(t: Table, conns: seq<Conn>, now: int): seq<nat>
    requires Known(t, conns) && Pointing(t)
  {
    Expiring(t, conns, 0, now)
  }

  /** Entry j is the reason to time out u. */
  predicate Expires(t: Table, conns: seq<Conn>, j: nat, now: int, u: nat)
    requires Known(t, conns) && Pointing(t)
  {
    j < |t.tl| && t.tl[j].uid == u && t.tl[j].key <= now && t.tl[j] in t.tl && ConnOf(t, conns, u).listenFd != -1
  }

  /** The first of the entries from it on. */
  lemma FirstExpires(t: Table, conns: seq<Conn>, it: nat, now: int, u: nat)
    requires Known(t, conns) && Pointing(t) && it < |t.tl| && t.tl[it].key <= now
    ensures u in Expiring(t, conns, it, now) <==> Expires(t, conns, it, now, u) || u in Expiring(t, conns, it + 1, now)
  {
    assert PointsBack(t, t.tl[it]);
  }

  /** Stopping at the first later key misses nothing. */
  lemma {:induction false} ExpiringMembers(t: Table, conns: seq<Conn>, it: nat, now: int, u: nat)
    requires Known(t, conns) && Pointing(t) && Sorted(t.tl) && it <= |t.tl|
    ensures u in Expiring(t, conns, it, now) <==> exists j :: it <= j < |t.tl| && Expires(t, conns, j, now, u)
    decreases |t.tl| - it
  {
    hide Known, Pointing;
    if it == |t.tl| {
    } else if t.tl[it].key > now {
      assert forall j :: it <= j < |t.tl| ==> t.tl[j].key > now;
    } else {
      hide Sorted;
      FirstExpires(t, conns, it, now, u);
      ExpiringMembers(t, conns, it + 1, now, u);
      hide Expires;
      if u in Expiring(t, conns, it + 1, now) {
        var j :| it + 1 <= j < |t.tl| && Expires(t, conns, j, now, u);
        assert it <= j;
      }
    }
  }

  /** checkTimeout is exact: it times out the connections with a deadline at most now that do not listen. */
  lemma OverdueIsExact(t: Table, conns: seq<Conn>, now: int, u: nat)
    requires TableInv(t) && Known(t, conns)
    ensures u in Overdue(t, conns, now) <==>
            InRange(t, u) && t.slots[u].Occupied? && (exists key :: key <= now && DeadlineIs(t, u, key)) &&
            ConnOf(t, conns, u).listenFd != -1
  {
    ExpiringMembers(t, conns, 0, now, u);
    hide Expiring;
    if u in Overdue(t, conns, now) {
      var j :| 0 <= j < |t.tl| && Expires(t, conns, j, now, u);
      assert PointsBack(t, t.tl[j]) && DeadlineIs(t, u, t.tl[j].key);
    }
    if InRange(t, u) && t.slots[u].Occupied? && ConnOf(t, conns, u).listenFd != -1 &&
      exists key :: key <= now && DeadlineIs(t, u, key) {
      var key :| key <= now && DeadlineIs(t, u, key);
      var e :| e in t.tl && e.uid == u && e.key == key;
      var j :| 0 <= j < |t.tl| && t.tl[j] == e;
      assert Expires(t, conns, j, now, u);
    }
  }

  lemma TwoEntries(t: Table, i: nat, j: nat)
    requires Pointing(t) && Distinct(t.tl) && i < j < |t.tl|
    ensures t.tl[i].uid != t.tl[j].uid
  {
    assert PointsBack(t, t.tl[i]) && PointsBack(t, t.tl[j]);
  }

  /** And it times out no connection twice. */
  lemma {:induction false} OverdueOnce(t: Table, conns: seq<Conn>, it: nat, now: int)
    requires TableInv(t) && Known(t, conns) && it <= |t.tl|
    ensures NoRepeats(Expiring(t, conns, it, now))
    decreases |t.tl| - it
  {
    if it < |t.tl| && t.tl[it].key <= now {
      OverdueOnce(t, conns, it + 1, now);
      ExpiringMembers(t, conns, it + 1, now, t.tl[it].uid);
      forall j | it < j < |t.tl| ensures !Expires(t, conns, j, now, t.tl[it].uid) { TwoEntries(t, it, j); }
    }
  }

  predicate AllOccupied(t: Table, us: seq<nat>) { forall u :: u in us ==> InRange(t, u) && t.slots[u].Occupied? }

  /** set_timeout on the connectors of some ids. */
  function MarkAll(t: Table, conns: seq<Conn>, us: seq<nat>): (r: seq<Conn>)
    requires Known(t, conns) && AllOccupied(t, us)
    ensures |r| == |conns|
    decreases |us|
  {
    if us == [] then conns
    else
      assert us[|us| - 1] in us;
      var c := t.slots[us[|us| - 1]].conn;
      var r := MarkAll(t, conns, us[..|us| - 1]);
      r[c := r[c].(timedOut := true)]
  }

  /** Exactly the connectors of these ids are marked, and nothing else about them changes. */
  lemma {:induction false} MarksExactly(t: Table, conns: seq<Conn>, us: seq<nat>, c: nat)
    requires Known(t, conns) && AllOccupied(t, us) && c < |conns|
    ensures MarkAll(t, conns, us)[c] == conns[c].(timedOut := MarkAll(t, conns, us)[c].timedOut)
    ensures MarkAll(t, conns, us)[c].timedOut <==> conns[c].timedOut || exists u :: u in us && t.slots[u].conn == c
    decreases |us|
  {
    if us != [] {
      var last := us[|us| - 1];
      assert us == us[..|us| - 1] + [last];
      assert last in us;
      MarksExactly(t, conns, us[..|us| - 1], c);
    }
  }

  lemma NothingMarked(t: Table, conns: seq<Conn>)
    requires Known(t, conns)
    ensures AllOccupied(t, []) && MarkAll(t, conns, []) == conns
  {
  }

  lemma KnownMarked(t: Table, conns: seq<Conn>, us: seq<nat>)
    requires Known(t, conns) && AllOccupied(t, us)
    ensures Known(t, MarkAll(t, conns, us))
  {
  }

  /** One round of the loop over the multimap, after the ids in done. */
  lemma ExpiringRound(t: Table, conns: seq<Conn>, it: nat, now: int, done: seq<nat>)
    requires Known(t, conns) && Pointing(t) && it < |t.tl|
    ensures var u := t.tl[it].uid;
      && InRange(t, u) && t.slots[u].Occupied?
      && done + Expiring(t, conns, it, now) ==
         if t.tl[it].key > now then done
         else (if ConnOf(t, conns, u).listenFd != -1 then done + [u] else done) + Expiring(t, conns, it + 1, now)
  {
    assert PointsBack(t, t.tl[it]);
  }

  lemma ExpiringEnds(t: Table, conns: seq<Conn>, now: int)
    requires Known(t, conns) && Pointing(t)
    ensures Expiring(t, conns, |t.tl|, now) == [] && [] + Expiring(t, conns, 0, now) == Overdue(t, conns, now)
  {
  }

  lemma MarkOne(t: Table, conns: seq<Conn>, us: seq<nat>, u: nat)
    requires Known(t, conns) && AllOccupied(t, us) && InRange(t, u) && t.slots[u].Occupied?
    ensures AllOccupied(t, us + [u])
    ensures var r, c := MarkAll(t, conns, us), t.slots[u].conn;
      MarkAll(t, conns, us + [u]) == r[c := r[c].(timedOut := true)]
  {
    assert (us + [u])[..|us|] == us;
  }

  // ---- the table object ----

  /** The connectors, named by their number; a shared_ptr is such a number. */
  class Connectors {
    var all: seq<Conn>

    constructor ()
      ensures all == []
    {
      all := [];
    }
  }

  class ConnectorList {
    var total: nat
    var free: seq<nat>
    var freeSize: int
    const vConn: array<Slot>
    var tl: seq<Entry>
    var nodes: nat
    var lastTimeoutTime: int
    var magic: nat
    const connectors: Connectors
    ghost var reserved: set<nat>

    ghost function View(): Table
      reads `total, `magic, `free, `reserved, `tl, `nodes, vConn
    {
      Table(total, magic, free, reserved, vConn[..], tl, nodes)
    }

    ghost predicate Valid()
      reads `total, `magic, `free, `freeSize, `reserved, `tl, `nodes, vConn
    {
      TableInv(View()) && freeSize == |free|
    }

    /** The constructor and the one call of init. */
    constructor (size: nat, index: nat, time: int, connectors: Connectors)
      requires size < SLOTS && index < 16
      ensures Valid() && fresh(vConn) && this.connectors == connectors
      ensures View() == InitTable(size, index, time) && lastTimeoutTime == time
    {
      total := size;
      vConn := new Slot[size + 1](_ => Vacant);
      this.connectors := connectors;
      lastTimeoutTime := time;
      magic := Magic(time, index);
      free, freeSize, tl, nodes, reserved := [], 0, [], 0, {};
      new;
      InitIsGood(size, index, time);
      hide TableInv, Magic;
      for i := 1 to size + 1
        invariant free == UpTo(i - 1) && freeSize == i - 1
        invariant vConn[..] == seq(size + 1, _ => Vacant)
        invariant total == size && magic == Magic(time, index) && tl == [] && nodes == 0 && reserved == {}
        invariant lastTimeoutTime == time
      {
        vConn[i] := Vacant;
        free := free + [i];
        freeSize := freeSize + 1;
      }
    }

    method GetUniqId() returns (id: nat)
      requires Valid() && free != []
      modifies this
      ensures Valid() && View() == Issue(old(View())) && id == magic + old(free)[0]
      ensures lastTimeoutTime == old(lastTimeoutTime)
    {
      hide TableInv;
      IssueKeepsInv(View());
      var uid := free[0];
      reserved := reserved + {uid};
      free := free[1..];
      freeSize := freeSize - 1;
      id := magic + uid;
    }

    method GetConn(id: nat) returns (conn: Option<nat>)
      requires Valid() && Readable(View(), id)
      ensures conn == Get(View(), id)
    {
      if MagicOf(id) != magic {
        return None;
      }
      conn := match vConn[SlotOf(id)] case Vacant => None case Occupied(c, _) => Some(c);
    }

    method Add(conn: nat, stamp: int)
      requires Valid() && conn < |connectors.all|
      requires var id := connectors.all[conn].id; MagicOf(id) == magic && SlotOf(id) in reserved
      modifies this, vConn
      ensures Valid() && View() == Enter(old(View()), SlotOf(connectors.all[conn].id), conn, stamp)
      ensures lastTimeoutTime == old(lastTimeoutTime)
    {
      hide Insert, Indexed;
      var u := SlotOf(connectors.all[conn].id);
      assert MagicOf(connectors.all[conn].id) == magic && 0 < u <= total && vConn[u].Vacant?;
      EnterKeepsInv(View(), u, conn, stamp);
      hide Partitioned;
      vConn[u] := Occupied(conn, nodes);
      tl := Insert(tl, Entry(stamp, u, nodes));
      nodes := nodes + 1;
      reserved := reserved - {u};
    }

    method Refresh(id: nat, stamp: int)
      requires Valid() && Known(View(), connectors.all) && Listed(View(), id)
      modifies this, vConn, connectors
      ensures Valid() && lastTimeoutTime == old(lastTimeoutTime)
      ensures var u := SlotOf(id); var c := old(View()).slots[u].conn;
        if old(Refreshes(View(), connectors.all, u, stamp)) then
          View() == Postpone(old(View()), u, stamp) &&
          connectors.all == old(connectors.all)[c := old(connectors.all)[c].(last := ToInt(stamp))]
        else View() == old(View()) && connectors.all == old(connectors.all)
    {
      hide Insert, Erase, Indexed, Partitioned;
      var u := SlotOf(id);
      var c := vConn[u].conn;
      if stamp - connectors.all[c].last < 1 {
        return;
      }
      PostponeKeepsInv(View(), u, stamp);
      connectors.all := connectors.all[c := connectors.all[c].(last := ToInt(stamp))];
      tl := Erase(tl, vConn[u].node);
      tl := Insert(tl, Entry(stamp, u, nodes));
      vConn[u] := Occupied(c, nodes);
      nodes := nodes + 1;
      reserved := reserved - {u};
    }

    /** set_timeout, unless the connector of the id listens. */
    method TimeOut(uid: nat, ghost t: Table, ghost conns: seq<Conn>, ghost us: seq<nat>) returns (done: bool)
      requires vConn[..] == t.slots && InRange(t, uid) && t.slots[uid].Occupied?
      requires Known(t, conns) && AllOccupied(t, us) && connectors.all == MarkAll(t, conns, us)
      modifies connectors
      ensures done <==> ConnOf(t, conns, uid).listenFd != -1
      ensures var now := if done then us + [uid] else us;
        AllOccupied(t, now) && connectors.all == MarkAll(t, conns, now)
    {
      hide MarkAll;
      var c := vConn[uid].conn;
      MarksExactly(t, conns, us, c);
      if connectors.all[c].listenFd == -1 {
        return false;
      }
      MarkOne(t, conns, us, uid);
      connectors.all := connectors.all[c := connectors.all[c].(timedOut := true)];
      return true;
    }

    /** The loop of checkTimeout, on the table t. */
    method TimeOutDue(now: int, ghost t: Table) returns (expired: seq<nat>)
      requires tl == t.tl && vConn[..] == t.slots && Pointing(t) && Known(t, connectors.all)
      modifies connectors
      ensures AllOccupied(t, expired) && expired == Overdue(t, old(connectors.all), now)
      ensures connectors.all == MarkAll(t, old(connectors.all), expired)
    {
      expired := [];
      var it := 0;
      ghost var conns := connectors.all;
      ghost var all := Overdue(t, conns, now);
      NothingMarked(t, conns);
      ExpiringEnds(t, conns, now);
      hide MarkAll, Pointing, AllOccupied, Known, Expiring, Overdue;
      while it < |tl|
        modifies connectors
        invariant it <= |tl|
        invariant expired + Expiring(t, conns, it, now) == all
        invariant AllOccupied(t, expired) && connectors.all == MarkAll(t, conns, expired)
      {
        ExpiringRound(t, conns, it, now, expired);
        if tl[it].key > now { break; }
        var uid := tl[it].uid;
        it := it + 1;
        var done := TimeOut(uid, t, conns, expired);
        if done { expired := expired + [uid]; }
      }
    }

    /** checkTimeout; expired lists the ids whose timeout callback runs, in order. */
    method CheckTimeout(now: int) returns (expired: seq<nat>)
      requires Valid() && Known(View(), connectors.all)
      modifies `lastTimeoutTime, connectors
      ensures Valid() && View() == old(View())
      ensures expired == if now - old(lastTimeoutTime) < 1 then [] else old(Overdue(View(), connectors.all, now))
      ensures lastTimeoutTime == if now - old(lastTimeoutTime) < 1 then old(lastTimeoutTime) else now
      ensures AllOccupied(View(), expired)
      ensures connectors.all == MarkAll(View(), old(connectors.all), expired)
    {
      if now - lastTimeoutTime < 1 {
        expired := [];
        NothingMarked(View(), connectors.all);
        return;
      }
      lastTimeoutTime := now;
      ghost var t, conns := View(), connectors.all;
      assert Pointing(t);
      hide TableInv, MarkAll, Overdue;
      expired := TimeOutDue(now, t);
      KnownMarked(t, conns, expired);
    }

    method Del(id: nat)
      requires Valid() && Listed(View(), id)
      modifies this, vConn
      ensures Valid() && View() == Remove(old(View()), SlotOf(id)) && lastTimeoutTime == old(lastTimeoutTime)
    {
      DelSlot(SlotOf(id));
    }

    /** _del. */
    method DelSlot(u: nat)
      requires Valid() && InRange(View(), u) && View().slots[u].Occupied?
      modifies this, vConn
      ensures Valid() && View() == Remove(old(View()), u) && lastTimeoutTime == old(lastTimeoutTime)
    {
      hide Erase, Indexed, Partitioned;
      RemoveKeepsInv(View(), u);
      tl := Erase(tl, vConn[u].node);
      vConn[u] := Vacant;
      free := free + [u];
      freeSize := freeSize + 1;
    }

    /** The issued ids: occupied slots and ids not yet added. */
    method Size() returns (n: int)
      requires Valid()
      ensures n == total - |free|
    {
      n := total - freeSize;
    }
  }
}
