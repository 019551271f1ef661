/**
 The sliding byte buffer of base/buffer.h, and the output side of a connector, which writes
 through it.
 */
module Buffer {
  type Byte = b: nat | b < 256

  const INIT_SIZE := 1024
  const U32 := 0x1_0000_0000

  // ---- 32-bit integers in network byte order ----

  type int32 = n: int | -0x8000_0000 <= n < 0x8000_0000

  /** htonl, as the four bytes that it leaves in memory. */
  function NetworkBytes(x: int32): (r: seq<Byte>)
    ensures |r| == 4
  {
    var u := if x < 0 then x + U32 else x;
    [u / 0x100_0000, u / 0x1_0000 % 256, u / 256 % 256, u % 256]
  }

  function Unsigned(a: nat, b: nat, c: nat, d: nat): nat { a * 0x100_0000 + b * 0x1_0000 + c * 256 + d }

  /** ntohl of four bytes, read as a signed integer. */
  function HostInt(s: seq<Byte>): int32
    requires |s| == 4
  {
    var u := Unsigned(s[0], s[1], s[2], s[3]);
    if u < 0x8000_0000 then u else u - U32
  }

  lemma IntRoundTrip(x: int32)
    ensures HostInt(NetworkBytes(x)) == x
  {
    var u := if x < 0 then x + U32 else x;
    assert u == u / 256 * 256 + u % 256;
    assert u / 256 == u / 0x1_0000 * 256 + u / 256 % 256;
    assert u / 0x1_0000 == u / 0x100_0000 * 256 + u / 0x1_0000 % 256;
  }

  lemma Digits(a: nat, b: nat, c: nat, d: nat)
    requires b < 256 && c < 256 && d < 256
    ensures var u := Unsigned(a, b, c, d);
      u / 0x100_0000 == a && u / 0x1_0000 % 256 == b && u / 256 % 256 == c && u % 256 == d
  {
    assert Unsigned(a, b, c, d) / 0x1_0000 == a * 256 + b;
    assert Unsigned(a, b, c, d) / 256 == a * 0x1_0000 + b * 256 + c;
  }

  lemma BytesRoundTrip(s: seq<Byte>)
    requires |s| == 4
    ensures NetworkBytes(HostInt(s)) == s
  {
    var u := Unsigned(s[0], s[1], s[2], s[3]);
    Digits(s[0], s[1], s[2], s[3]);
  }

  /** The first byte in which they differ is smaller. */
  predicate Before(s: seq<Byte>, t: seq<Byte>)
    requires |s| == |t| == 4
  {
    exists k :: 0 <= k < 4 && s[..k] == t[..k] && s[k] < t[k]
  }

  lemma FirstDifference(s: seq<Byte>, t: seq<Byte>, k: nat)
    requires |s| == |t| == 4 && k < 4 && s[..k] == t[..k] && s[k] < t[k]
    ensures Unsigned(s[0], s[1], s[2], s[3]) < Unsigned(t[0], t[1], t[2], t[3])
  {
    assert forall i :: 0 <= i < k ==> s[i] == s[..k][i] == t[..k][i] == t[i];
  }

  /**
   The first byte counts most: of two integers with the same sign the smaller one has the smaller
   bytes.
   */
  lemma NetworkOrder(x: int32, y: int32)
    requires (x < 0) == (y < 0)
    ensures x < y <==> Before(NetworkBytes(x), NetworkBytes(y))
  {
    var s, t := NetworkBytes(x), NetworkBytes(y);
    IntRoundTrip(x);
    IntRoundTrip(y);
    hide NetworkBytes;
    if k :| 0 <= k < 4 && s[..k] == t[..k] && s[k] < t[k] { FirstDifference(s, t, k); }
    if x != y {
      var k := if s[0] != t[0] then 0 else if s[1] != t[1] then 1 else if s[2] != t[2] then 2 else 3;
      assert s == [s[0], s[1], s[2], s[3]] && t == [t[0], t[1], t[2], t[3]];
      assert s[..k] == t[..k] && s[k] != t[k];
      if t[k] < s[k] { FirstDifference(t, s, k); }
    }
  }

  // ---- the queue that a buffer stands for ----

  /** retrieve: asking for more than there is takes everything. */
  function Dropped(s: seq<Byte>, len: nat): seq<Byte> {
    if len > |s| then [] else s[len..]
  }

  function Taken(s: seq<Byte>, len: nat): seq<Byte> {
    if len > |s| then s else s[..len]
  }

  datatype Op = Append(bytes: seq<Byte>) | Retrieve(len: nat)

  /** The contents after a run. */
  function After(s: seq<Byte>, ops: seq<Op>): seq<Byte>
    decreases |ops|
  {
    if ops == [] then s
    else match ops[0]
      case Append(bytes) => After(s + bytes, ops[1..])
      case Retrieve(len) => After(Dropped(s, len), ops[1..])
  }

  /** The bytes taken out in a run. */
  function Out(s: seq<Byte>, ops: seq<Op>): seq<Byte>
    decreases |ops|
  {
    if ops == [] then []
    else match ops[0]
      case Append(bytes) => Out(s + bytes, ops[1..])
      case Retrieve(len) => Taken(s, len) + Out(Dropped(s, len), ops[1..])
  }

  /** The bytes put in. */
  function In(ops: seq<Op>): seq<Byte> {
    if ops == [] then []
    else (if ops[0].Append? then ops[0].bytes else []) + In(ops[1..])
  }

  lemma TakenAndDropped(s: seq<Byte>, len: nat, o: seq<Byte>, a: seq<Byte>, i: seq<Byte>)
    requires o + a == Dropped(s, len) + i
    ensures Taken(s, len) + o + a == s + i
  {
    assert Taken(s, len) + o + a == Taken(s, len) + (o + a);
    assert Taken(s, len) + Dropped(s, len) == s;
  }

  /** First in, first out: nothing is lost, repeated or reordered. */
  lemma {:induction false} QueueOrder(s: seq<Byte>, ops: seq<Op>)
    ensures Out(s, ops) + After(s, ops) == s + In(ops)
    decreases |ops|
  {
    if ops != [] {
      match ops[0]
      case Append(bytes) =>
        QueueOrder(s + bytes, ops[1..]);
        assert s + bytes + In(ops[1..]) == s + (bytes + In(ops[1..]));
      case Retrieve(len) =>
        QueueOrder(Dropped(s, len), ops[1..]);
        TakenAndDropped(s, len, Out(Dropped(s, len), ops[1..]), After(s, ops), In(ops[1..]));
    }
  }

  // ---- the buffer ----

  class Buffer {
    var data: array<Byte>
    var readIndex: nat
    var writeIndex: nat

    predicate Valid()
      reads this
    {
      readIndex <= writeIndex <= data.Length
    }

    ghost function Contents(): seq<Byte>
      requires Valid()
      reads this, data
    {
      data[readIndex..writeIndex]
    }

    constructor ()
      ensures Valid() && fresh(data) && Contents() == [] && Writeable() == INIT_SIZE
    {
      data := new Byte[INIT_SIZE](_ => 0);
      readIndex, writeIndex := 0, 0;
    }

    function Readable(): (n: nat)
      requires Valid()
      reads this, data
      ensures n == |Contents()|
    {
      writeIndex - readIndex
    }

    function Writeable(): nat
      requires Valid()
      reads this
    {
      data.Length - writeIndex
    }

    /** std::vector::resize, growing. */
    method Resize(n: nat)
      requires Valid() && n >= data.Length
      modifies `data
      ensures Valid() && fresh(data) && data.Length == n && data[..old(data.Length)] == old(data[..])
    {
      var grown := new Byte[n](_ => 0);
      for i := 0 to data.Length
        invariant data == old(data) && grown[..i] == data[..i]
      {
        grown[i] := data[i];
      }
      data := grown;
    }

    /** std::copy of [from, to) to the front, overlapping when from is small. */
    method MoveToFront(from: nat, to: nat)
      requires from <= to <= data.Length
      modifies data
      ensures data[..to - from] == old(data[from..to])
    {
      for i := 0 to to - from
        invariant data[..i] == old(data[from..from + i])
        invariant data[from + i..to] == old(data[from + i..to])
      {
        assert data[from + i] == data[from + i..to][0] == old(data[from + i..to])[0];
        data[i] := data[from + i];
        assert data[from + i + 1..to] == old(data[from + i..to])[1..];
      }
    }

    method MakeSpace(len: nat)
      requires Valid()
      modifies this, data
      ensures Valid() && Contents() == old(Contents()) && Writeable() >= len
      ensures data == old(data) || fresh(data)
    {
      if Writeable() + readIndex < len {
        ghost var front := data[..];
        Resize(writeIndex + len);
        assert forall i :: readIndex <= i < writeIndex ==> data[i] == data[..|front|][i];
      } else {
        var readable := Readable();
        MoveToFront(readIndex, writeIndex);
        readIndex := 0;
        writeIndex := readIndex + readable;
      }
    }

    method EnsureWriteable(len: nat)
      requires Valid()
      modifies this, data
      ensures Valid() && Contents() == old(Contents()) && Writeable() >= len
      ensures data == old(data) || fresh(data)
    {
      if Writeable() < len { MakeSpace(len); }
    }

    method Append(bytes: seq<Byte>)
      requires Valid()
      modifies this, data
      ensures Valid() && Contents() == old(Contents()) + bytes
      ensures data == old(data) || fresh(data)
    {
      EnsureWriteable(|bytes|);
      CopyIn(bytes);
      assert data[readIndex..writeIndex + |bytes|] ==
             data[readIndex..writeIndex] + data[writeIndex..writeIndex + |bytes|];
      writeIndex := writeIndex + |bytes|;
    }

    /** std::copy of the bytes behind the contents. */
    method CopyIn(bytes: seq<Byte>)
      requires Valid() && Writeable() >= |bytes|
      modifies data
      ensures Contents() == old(Contents()) && data[writeIndex..writeIndex + |bytes|] == bytes
    {
      for i := 0 to |bytes|
        invariant data[readIndex..writeIndex] == old(data[readIndex..writeIndex])
        invariant data[writeIndex..writeIndex + i] == bytes[..i]
      {
        data[writeIndex + i] := bytes[i];
        assert data[writeIndex..writeIndex + i + 1] == data[writeIndex..writeIndex + i] + [bytes[i]];
      }
    }

    method RetrieveAll()
      modifies `readIndex, `writeIndex
      ensures Valid() && Contents() == []
    {
      readIndex, writeIndex := 0, 0;
    }

    method Retrieve(len: nat)
      requires Valid()
      modifies `readIndex, `writeIndex
      ensures Valid() && Contents() == Dropped(old(Contents()), len)
    {
      if len > Readable() {
        RetrieveAll();
      } else {
        readIndex := readIndex + len;
      }
    }

    method AppendInt32(x: int32)
      requires Valid()
      modifies this, data
      ensures Valid() && Contents() == old(Contents()) + NetworkBytes(x)
      ensures data == old(data) || fresh(data)
    {
      Append(NetworkBytes(x));
    }

    method PeekInt32() returns (x: int32)
      requires Valid() && Readable() >= 4
      ensures x == HostInt(Contents()[..4])
    {
      x := HostInt(data[readIndex..readIndex + 4]);
    }

    method ReadInt32() returns (x: int32)
      requires Valid() && Readable() >= 4
      modifies `readIndex, `writeIndex
      ensures Valid() && x == HostInt(old(Contents())[..4]) && Contents() == old(Contents())[4..]
    {
      x := PeekInt32();
      Retrieve(4);
    }
  }

  /** A caller's step on the object. */
  method Do(b: Buffer, op: Op) returns (out: seq<Byte>)
    requires b.Valid()
    modifies b, b.data
    ensures b.Valid() && (b.data == old(b.data) || fresh(b.data))
    ensures b.Contents() == After(old(b.Contents()), [op]) && out == Out(old(b.Contents()), [op])
  {
    match op {
      case Append(bytes) =>
        b.Append(bytes);
        out := [];
      case Retrieve(len) =>
        ghost var before := b.Contents();
        out := b.data[b.readIndex..if len > b.Readable() then b.writeIndex else b.readIndex + len];
        assert out == Taken(before, len);
        b.Retrieve(len);
    }
  }

  lemma FirstOp(s: seq<Byte>, ops: seq<Op>)
    requires ops != []
    ensures After(s, ops) == After(After(s, [ops[0]]), ops[1..])
    ensures Out(s, ops) == Out(s, [ops[0]]) + Out(After(s, [ops[0]]), ops[1..])
  {
    assert [ops[0]][1..] == [];
  }

  /** A caller's run: it takes out, in order, what it put in. */
  method Perform(b: Buffer, ops: seq<Op>) returns (out: seq<Byte>)
    requires b.Valid()
    modifies b, b.data
    ensures b.Valid() && b.Contents() == After(old(b.Contents()), ops) && out == Out(old(b.Contents()), ops)
    ensures out + b.Contents() == old(b.Contents()) + In(ops)
  {
    ghost var before := b.Contents();
    QueueOrder(before, ops);
    assert ops[0..] == ops;
    out := [];
    for i := 0 to |ops|
      invariant b.Valid() && (b.data == old(b.data) || fresh(b.data))
      invariant After(before, ops) == After(b.Contents(), ops[i..])
      invariant Out(before, ops) == out + Out(b.Contents(), ops[i..])
    {
      assert ops[i..][0] == ops[i] && ops[i..][1..] == ops[i + 1..];
      FirstOp(b.Contents(), ops[i..]);
      hide After, Out;
      var taken := Do(b, ops[i]);
      out := out + taken;
    }
    assert ops[|ops|..] == [];
  }

  /** Integers come back in the order in which they were appended, whatever else follows. */
  method AppendThenRead(b: Buffer, x: int32, y: int32) returns (x': int32, y': int32)
    requires b.Valid() && b.Contents() == []
    modifies b, b.data
    ensures x' == x && y' == y && b.Valid() && b.Contents() == []
  {
    hide NetworkBytes, HostInt;
    b.AppendInt32(x);
    b.AppendInt32(y);
    IntRoundTrip(x);
    IntRoundTrip(y);
    assert b.Contents() == NetworkBytes(x) + NetworkBytes(y);
    x' := b.ReadInt32();
    assert b.Contents() == NetworkBytes(y) == NetworkBytes(y)[..4];
    y' := b.ReadInt32();
  }

  // ---- the output of a connector ----

  /** Conversion of a size to int. */
  function ToInt(n: nat): int {
    var u := n % U32;
    if u < 0x8000_0000 then u else u - U32
  }

  class Output {
    const out: Buffer
    var isClosed: bool
    var connectFd: int
    /** Every byte given to write while open, and every byte the kernel accepted. */
    ghost var written: seq<Byte>
    ghost var accepted: seq<Byte>

    ghost predicate Valid()
      reads this, out, out.data
    {
      out.Valid() && connectFd > 0 && (!isClosed ==> accepted + out.Contents() == written)
    }

    constructor (fd: int)
      requires fd > 0
      ensures Valid() && fresh(out) && fresh(out.data) && !isClosed && written == accepted == []
    {
      out := new Buffer();
      isClosed, connectFd := false, fd;
      written, accepted := [], [];
    }

    /** write: a length that is not positive, or no data, is ignored. */
    method Write(data: seq<Byte>, len: int, isNull: bool)
      requires Valid() && len <= |data|
      modifies this, out, out.data
      ensures Valid() && isClosed == old(isClosed) && accepted == old(accepted)
      ensures written == old(written) + if len > 0 && !isNull then data[..len] else []
      ensures out.data == old(out.data) || fresh(out.data)
    {
      if len > 0 && !isNull {
        out.Append(data[..len]);
        written := written + data[..len];
      }
    }

    /** How much send offers to the kernel. */
    function Offer(): int
      requires out.Valid()
      reads this, out, out.data
    {
      if !isClosed && connectFd > 0 then ToInt(out.Readable()) else 0
    }

    /** send: of a positive offer the kernel takes ret bytes, or fails with a negative ret. */
    method Send(ret: int) returns (r: int)
      requires Valid() && ret <= Offer()
      modifies this, out
      ensures Valid() && isClosed == old(isClosed) && written == old(written)
      ensures !isClosed && ret > 0 ==>
        accepted == old(accepted) + old(out.Contents())[..ret] &&
        out.Contents() == old(out.Contents())[ret..] && r == ret
      ensures !isClosed && ret <= 0 ==> accepted == old(accepted) && out.Contents() == old(out.Contents())
      ensures isClosed ==> out.Contents() == [] && accepted == old(accepted) && r == 0
    {
      r := 0;
      if !isClosed && connectFd > 0 {
        var writeable := ToInt(out.Readable());
        if writeable > 0 {
          r := ret;
          if r > 0 {
            accepted := accepted + out.Contents()[..r];
            out.Retrieve(r);
          }
        }
      } else {
        out.RetrieveAll();
      }
    }
  }
}
