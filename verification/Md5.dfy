/**
 The streaming MD5 of crypto/md5.cc, against the one-shot definition of sections 3.1 to 3.5
 of RFC 1321.
 */
module Md5 {
  type Word = bv32
  type Byte = bv8

  const U32 := 0x1_0000_0000

  // ---- words and bytes ----

  /** Byte number k of a word, low-order byte first. */
  function ByteOf(w: Word, k: nat): Byte
    requires k < 4
  {
    match k
    case 0 => (w & 0xff) as Byte
    case 1 => ((w >> 8) & 0xff) as Byte
    case 2 => ((w >> 16) & 0xff) as Byte
    case _ => ((w >> 24) & 0xff) as Byte
  }

  function Join(a: Byte, b: Byte, c: Byte, d: Byte): Word {
    (a as Word) | ((b as Word) << 8) | ((c as Word) << 16) | ((d as Word) << 24)
  }

  function Bytes(ws: seq<Word>): (r: seq<Byte>)
    ensures |r| == 4 * |ws|
  {
    seq(4 * |ws|, i requires 0 <= i < 4 * |ws| => ByteOf(ws[i / 4], i % 4))
  }

  function Words(bs: seq<Byte>): (r: seq<Word>)
    requires |bs| % 4 == 0
    ensures |r| == |bs| / 4
  {
    seq(|bs| / 4, i requires 0 <= i < |bs| / 4 => Join(bs[4 * i], bs[4 * i + 1], bs[4 * i + 2], bs[4 * i + 3]))
  }

  lemma JoinBytes(w: Word)
    ensures Join(ByteOf(w, 0), ByteOf(w, 1), ByteOf(w, 2), ByteOf(w, 3)) == w
  {
  }

  lemma BytesOfJoin(a: Byte, b: Byte, c: Byte, d: Byte)
    ensures ByteOf(Join(a, b, c, d), 0) == a && ByteOf(Join(a, b, c, d), 1) == b
    ensures ByteOf(Join(a, b, c, d), 2) == c && ByteOf(Join(a, b, c, d), 3) == d
  {
  }

  lemma BytesAt(ws: seq<Word>, i: nat, k: nat)
    requires i < |ws| && k < 4
    ensures Bytes(ws)[4 * i + k] == ByteOf(ws[i], k)
  {
  }

  lemma WordsOfBytes(ws: seq<Word>)
    ensures Words(Bytes(ws)) == ws
  {
    hide ByteOf, Join, Bytes;
    forall i | 0 <= i < |ws| ensures Words(Bytes(ws))[i] == ws[i] {
      JoinBytes(ws[i]);
      BytesAt(ws, i, 0);
      BytesAt(ws, i, 1);
      BytesAt(ws, i, 2);
      BytesAt(ws, i, 3);
    }
  }

  lemma BytesOfWords(bs: seq<Byte>)
    requires |bs| % 4 == 0
    ensures Bytes(Words(bs)) == bs
  {
    hide ByteOf, Join;
    forall i | 0 <= i < |bs| ensures Bytes(Words(bs))[i] == bs[i] {
      var j := i / 4;
      BytesOfJoin(bs[4 * j], bs[4 * j + 1], bs[4 * j + 2], bs[4 * j + 3]);
      assert i == 4 * j || i == 4 * j + 1 || i == 4 * j + 2 || i == 4 * j + 3;
    }
  }

  method Encode(input: seq<Word>, length: nat) returns (output: seq<Byte>)
    requires length == 4 * |input|
    ensures output == Bytes(input)
  {
    hide ByteOf;
    output := [];
    var i, j := 0, 0;
    while j < length
      invariant j == 4 * i <= length && output == Bytes(input)[..j]
    {
      output := output + [ByteOf(input[i], 0), ByteOf(input[i], 1), ByteOf(input[i], 2), ByteOf(input[i], 3)];
      i, j := i + 1, j + 4;
    }
  }

  method Decode(input: seq<Byte>, length: nat) returns (output: seq<Word>)
    requires length == |input| && length % 4 == 0
    ensures output == Words(input)
  {
    hide Join;
    output := [];
    var i, j := 0, 0;
    while j < length
      invariant j == 4 * i <= length && output == Words(input)[..i]
    {
      output := output + [Join(input[j], input[j + 1], input[j + 2], input[j + 3])];
      i, j := i + 1, j + 4;
    }
  }

  // ---- the compression function of section 3.4 ----

  datatype Regs = Regs(a: Word, b: Word, c: Word, d: Word)

  function F(x: Word, y: Word, z: Word): Word { (x & y) | (!x & z) }
  function G(x: Word, y: Word, z: Word): Word { (x & z) | (y & !z) }
  function H(x: Word, y: Word, z: Word): Word { x ^ y ^ z }
  function I(x: Word, y: Word, z: Word): Word { y ^ (x | !z) }

  /** F selects, and G is F with its arguments turned. */
  lemma Selects(x: Word, y: Word, z: Word)
    ensures F(x, y, z) == ((y ^ z) & x) ^ z && G(x, y, z) == F(z, x, y)
  {
  }

  function RotateLeft(x: Word, n: nat): Word
    requires n <= 32
  {
    (x << n) | (x >> (32 - n))
  }

  /** One operation: a takes the mixed value, added up, rotated, and added to b. */
  function Turn(mix: Word, a: Word, b: Word, x: Word, s: nat, t: Word): Word
    requires s <= 32
  {
    RotateLeft(a + (mix + x + t), s) + b
  }

  /** An operation: the word of the block it reads, its rotation, its entry of the table T. */
  datatype Op = Op(k: nat, s: nat, t: Word)

  // The 64 operations, as section 3.4 lists them.  The postconditions give the pattern
  // behind the choice of words.

  function Round1Op(i: nat): (o: Op)
    requires 0 <= i < 16
    ensures o.k == i && o.s <= 32
  {
    match i
    case 0 => Op(0, 7, 0xd76aa478)
    case 1 => Op(1, 12, 0xe8c7b756)
    case 2 => Op(2, 17, 0x242070db)
    case 3 => Op(3, 22, 0xc1bdceee)
    case 4 => Op(4, 7, 0xf57c0faf)
    case 5 => Op(5, 12, 0x4787c62a)
    case 6 => Op(6, 17, 0xa8304613)
    case 7 => Op(7, 22, 0xfd469501)
    case 8 => Op(8, 7, 0x698098d8)
    case 9 => Op(9, 12, 0x8b44f7af)
    case 10 => Op(10, 17, 0xffff5bb1)
    case 11 => Op(11, 22, 0x895cd7be)
    case 12 => Op(12, 7, 0x6b901122)
    case 13 => Op(13, 12, 0xfd987193)
    case 14 => Op(14, 17, 0xa679438e)
    case _ => Op(15, 22, 0x49b40821)
  }

  function Round2Op(i: nat): (o: Op)
    requires 16 <= i < 32
    ensures o.k == (5 * i + 1) % 16 && o.s <= 32
  {
    match i
    case 16 => Op(1, 5, 0xf61e2562)
    case 17 => Op(6, 9, 0xc040b340)
    case 18 => Op(11, 14, 0x265e5a51)
    case 19 => Op(0, 20, 0xe9b6c7aa)
    case 20 => Op(5, 5, 0xd62f105d)
    case 21 => Op(10, 9, 0x2441453)
    case 22 => Op(15, 14, 0xd8a1e681)
    case 23 => Op(4, 20, 0xe7d3fbc8)
    case 24 => Op(9, 5, 0x21e1cde6)
    case 25 => Op(14, 9, 0xc33707d6)
    case 26 => Op(3, 14, 0xf4d50d87)
    case 27 => Op(8, 20, 0x455a14ed)
    case 28 => Op(13, 5, 0xa9e3e905)
    case 29 => Op(2, 9, 0xfcefa3f8)
    case 30 => Op(7, 14, 0x676f02d9)
    case _ => Op(12, 20, 0x8d2a4c8a)
  }

  function Round3Op(i: nat): (o: Op)
    requires 32 <= i < 48
    ensures o.k == (3 * i + 5) % 16 && o.s <= 32
  {
    match i
    case 32 => Op(5, 4, 0xfffa3942)
    case 33 => Op(8, 11, 0x8771f681)
    case 34 => Op(11, 16, 0x6d9d6122)
    case 35 => Op(14, 23, 0xfde5380c)
    case 36 => Op(1, 4, 0xa4beea44)
    case 37 => Op(4, 11, 0x4bdecfa9)
    case 38 => Op(7, 16, 0xf6bb4b60)
    case 39 => Op(10, 23, 0xbebfbc70)
    case 40 => Op(13, 4, 0x289b7ec6)
    case 41 => Op(0, 11, 0xeaa127fa)
    case 42 => Op(3, 16, 0xd4ef3085)
    case 43 => Op(6, 23, 0x4881d05)
    case 44 => Op(9, 4, 0xd9d4d039)
    case 45 => Op(12, 11, 0xe6db99e5)
    case 46 => Op(15, 16, 0x1fa27cf8)
    case _ => Op(2, 23, 0xc4ac5665)
  }

  function Round4Op(i: nat): (o: Op)
    requires 48 <= i < 64
    ensures o.k == 7 * i % 16 && o.s <= 32
  {
    match i
    case 48 => Op(0, 6, 0xf4292244)
    case 49 => Op(7, 10, 0x432aff97)
    case 50 => Op(14, 15, 0xab9423a7)
    case 51 => Op(5, 21, 0xfc93a039)
    case 52 => Op(12, 6, 0x655b59c3)
    case 53 => Op(3, 10, 0x8f0ccc92)
    case 54 => Op(10, 15, 0xffeff47d)
    case 55 => Op(1, 21, 0x85845dd1)
    case 56 => Op(8, 6, 0x6fa87e4f)
    case 57 => Op(15, 10, 0xfe2ce6e0)
    case 58 => Op(6, 15, 0xa3014314)
    case 59 => Op(13, 21, 0x4e0811a1)
    case 60 => Op(4, 6, 0xf7537e82)
    case 61 => Op(11, 10, 0xbd3af235)
    case 62 => Op(2, 15, 0x2ad7d2bb)
    case _ => Op(9, 21, 0xeb86d391)
  }

  function OpAt(i: nat): (o: Op)
    requires i < 64
    ensures o.k < 16 && o.s <= 32
  {
    if i < 16 then Round1Op(i) else if i < 32 then Round2Op(i) else if i < 48 then Round3Op(i) else Round4Op(i)
  }

  function Mix(i: nat, x: Word, y: Word, z: Word): Word {
    if i < 16 then F(x, y, z) else if i < 32 then G(x, y, z) else if i < 48 then H(x, y, z) else I(x, y, z)
  }

  /** Operation i, after which the roles of the registers move on by one. */
  function Step(i: nat, r: Regs, x: seq<Word>): Regs
    requires i < 64 && |x| == 16
  {
    Regs(r.d, Turn(Mix(i, r.b, r.c, r.d), r.a, r.b, x[OpAt(i).k], OpAt(i).s, OpAt(i).t), r.b, r.c)
  }

  /** The first n of the 64 operations. */
  function Steps(n: nat, r: Regs, x: seq<Word>): Regs
    requires n <= 64 && |x| == 16
  {
    if n == 0 then r else Step(n - 1, Steps(n - 1, r, x), x)
  }

  function Sum(r: Regs, s: Regs): Regs { Regs(r.a + s.a, r.b + s.b, r.c + s.c, r.d + s.d) }

  function Compress(r: Regs, block: seq<Byte>): Regs
    requires |block| == 64
  {
    Sum(r, Steps(64, r, Words(block)))
  }

  const INIT := Regs(0x67452301, 0xefcdab89, 0x98badcfe, 0x10325476)

  /** The registers after whole blocks. */
  function Fold(m: seq<Byte>): Regs
    requires |m| % 64 == 0
  {
    if m == [] then INIT else Compress(Fold(m[..|m| - 64]), m[|m| - 64..])
  }

  function Zeros(n: nat): (r: seq<Byte>)
    ensures |r| == n
  {
    seq(n, _ => 0)
  }

  /** The two words of a 64-bit count of the bits in n bytes. */
  function Low(n: nat): nat { 8 * n % U32 }

  function High(n: nat): nat { 8 * n / U32 % U32 }

  function ToWord(n: nat): Word
    requires n < U32
  {
    n as Word
  }

  /** The length in bits, modulo 2^64, as two words, the low-order one first. */
  function LengthBytes(n: nat): (r: seq<Byte>)
    ensures |r| == 8
  {
    Bytes([ToWord(Low(n)), ToWord(High(n))])
  }

  /** How many padding bytes bring a length to 56 modulo 64: between 1 and 64. */
  function PadLength(n: nat): (k: nat)
    ensures 1 <= k <= 64 && (n + k) % 64 == 56
  {
    1 + (119 - n % 64) % 64
  }

  function Padding(k: nat): (r: seq<Byte>)
    requires 1 <= k
    ensures |r| == k
  {
    [0x80] + Zeros(k - 1)
  }

  lemma PadTotal(n: nat)
    ensures (n + PadLength(n) + 8) % 64 == 0
  {
  }

  /** Sections 3.1 and 3.2. */
  function Pad(m: seq<Byte>): (r: seq<Byte>)
    ensures |r| % 64 == 0
  {
    PadTotal(|m|);
    m + Padding(PadLength(|m|)) + LengthBytes(|m|)
  }

  function RegBytes(r: Regs): seq<Byte> { Bytes([r.a, r.b, r.c, r.d]) }

  /** The one-shot digest. */
  function Md5Of(m: seq<Byte>): seq<Byte> { RegBytes(Fold(Pad(m))) }

  // ---- the unrolled transform ----

  const S11 := 7
  const S12 := 12
  const S13 := 17
  const S14 := 22
  const S21 := 5
  const S22 := 9
  const S23 := 14
  const S24 := 20
  const S31 := 4
  const S32 := 11
  const S33 := 16
  const S34 := 23
  const S41 := 6
  const S42 := 10
  const S43 := 15
  const S44 := 21

  function FF(a: Word, b: Word, c: Word, d: Word, x: Word, s: nat, ac: Word): Word
    requires s <= 32
  {
    Turn(F(b, c, d), a, b, x, s, ac)
  }

  function GG(a: Word, b: Word, c: Word, d: Word, x: Word, s: nat, ac: Word): Word
    requires s <= 32
  {
    Turn(G(b, c, d), a, b, x, s, ac)
  }

  function HH(a: Word, b: Word, c: Word, d: Word, x: Word, s: nat, ac: Word): Word
    requires s <= 32
  {
    Turn(H(b, c, d), a, b, x, s, ac)
  }

  function II(a: Word, b: Word, c: Word, d: Word, x: Word, s: nat, ac: Word): Word
    requires s <= 32
  {
    Turn(I(b, c, d), a, b, x, s, ac)
  }

  lemma NoSteps(r: Regs, x: seq<Word>)
    requires |x| == 16
    ensures Steps(0, r, x) == r
  {
  }

  /** Four operations bring the roles of the registers back. */
  lemma FourSteps(i: nat, r: Regs, x: seq<Word>, at: Regs, s: Regs)
    requires i + 4 <= 64 && |x| == 16 && at == Steps(i, r, x)
    requires s.a == Turn(Mix(i, at.b, at.c, at.d), at.a, at.b, x[OpAt(i).k], OpAt(i).s, OpAt(i).t)
    requires s.d == Turn(Mix(i + 1, s.a, at.b, at.c), at.d, s.a, x[OpAt(i + 1).k], OpAt(i + 1).s, OpAt(i + 1).t)
    requires s.c == Turn(Mix(i + 2, s.d, s.a, at.b), at.c, s.d, x[OpAt(i + 2).k], OpAt(i + 2).s, OpAt(i + 2).t)
    requires s.b == Turn(Mix(i + 3, s.c, s.d, s.a), at.b, s.c, x[OpAt(i + 3).k], OpAt(i + 3).s, OpAt(i + 3).t)
    ensures s == Steps(i + 4, r, x)
  {
    hide Turn, Mix, OpAt;
    assert Steps(i + 1, r, x) == Regs(at.d, s.a, at.b, at.c);
    assert Steps(i + 2, r, x) == Regs(at.c, s.d, s.a, at.b);
    assert Steps(i + 3, r, x) == Regs(at.b, s.c, s.d, s.a);
  }

  method Round1(r: Regs, x: seq<Word>, ghost r0: Regs) returns (out: Regs)
    requires |x| == 16 && r == Steps(0, r0, x)
    ensures out == Steps(16, r0, x)
  {
    hide Steps, F, G, H, I, Turn;
    ghost var at := r;
    var a, b, c, d := r.a, r.b, r.c, r.d;
    a := FF(a, b, c, d, x[0], S11, 0xd76aa478);
    d := FF(d, a, b, c, x[1], S12, 0xe8c7b756);
    c := FF(c, d, a, b, x[2], S13, 0x242070db);
    b := FF(b, c, d, a, x[3], S14, 0xc1bdceee);
    FourSteps(0, r0, x, at, Regs(a, b, c, d));
    at := Regs(a, b, c, d);
    a := FF(a, b, c, d, x[4], S11, 0xf57c0faf);
    d := FF(d, a, b, c, x[5], S12, 0x4787c62a);
    c := FF(c, d, a, b, x[6], S13, 0xa8304613);
    b := FF(b, c, d, a, x[7], S14, 0xfd469501);
    FourSteps(4, r0, x, at, Regs(a, b, c, d));
    at := Regs(a, b, c, d);
    a := FF(a, b, c, d, x[8], S11, 0x698098d8);
    d := FF(d, a, b, c, x[9], S12, 0x8b44f7af);
    c := FF(c, d, a, b, x[10], S13, 0xffff5bb1);
    b := FF(b, c, d, a, x[11], S14, 0x895cd7be);
    FourSteps(8, r0, x, at, Regs(a, b, c, d));
    at := Regs(a, b, c, d);
    a := FF(a, b, c, d, x[12], S11, 0x6b901122);
    d := FF(d, a, b, c, x[13], S12, 0xfd987193);
    c := FF(c, d, a, b, x[14], S13, 0xa679438e);
    b := FF(b, c, d, a, x[15], S14, 0x49b40821);
    FourSteps(12, r0, x, at, Regs(a, b, c, d));
    out := Regs(a, b, c, d);
  }

  method Round2(r: Regs, x: seq<Word>, ghost r0: Regs) returns (out: Regs)
    requires |x| == 16 && r == Steps(16, r0, x)
    ensures out == Steps(32, r0, x)
  {
    hide Steps, F, G, H, I, Turn;
    ghost var at := r;
    var a, b, c, d := r.a, r.b, r.c, r.d;
    a := GG(a, b, c, d, x[1], S21, 0xf61e2562);
    d := GG(d, a, b, c, x[6], S22, 0xc040b340);
    c := GG(c, d, a, b, x[11], S23, 0x265e5a51);
    b := GG(b, c, d, a, x[0], S24, 0xe9b6c7aa);
    FourSteps(16, r0, x, at, Regs(a, b, c, d));
    at := Regs(a, b, c, d);
    a := GG(a, b, c, d, x[5], S21, 0xd62f105d);
    d := GG(d, a, b, c, x[10], S22, 0x2441453);
    c := GG(c, d, a, b, x[15], S23, 0xd8a1e681);
    b := GG(b, c, d, a, x[4], S24, 0xe7d3fbc8);
    FourSteps(20, r0, x, at, Regs(a, b, c, d));
    at := Regs(a, b, c, d);
    a := GG(a, b, c, d, x[9], S21, 0x21e1cde6);
    d := GG(d, a, b, c, x[14], S22, 0xc33707d6);
    c := GG(c, d, a, b, x[3], S23, 0xf4d50d87);
    b := GG(b, c, d, a, x[8], S24, 0x455a14ed);
    FourSteps(24, r0, x, at, Regs(a, b, c, d));
    at := Regs(a, b, c, d);
    a := GG(a, b, c, d, x[13], S21, 0xa9e3e905);
    d := GG(d, a, b, c, x[2], S22, 0xfcefa3f8);
    c := GG(c, d, a, b, x[7], S23, 0x676f02d9);
    b := GG(b, c, d, a, x[12], S24, 0x8d2a4c8a);
    FourSteps(28, r0, x, at, Regs(a, b, c, d));
    out := Regs(a, b, c, d);
  }

  method Round3(r: Regs, x: seq<Word>, ghost r0: Regs) returns (out: Regs)
    requires |x| == 16 && r == Steps(32, r0, x)
    ensures out == Steps(48, r0, x)
  {
    hide Steps, F, G, H, I, Turn;
    ghost var at := r;
    var a, b, c, d := r.a, r.b, r.c, r.d;
    a := HH(a, b, c, d, x[5], S31, 0xfffa3942);
    d := HH(d, a, b, c, x[8], S32, 0x8771f681);
    c := HH(c, d, a, b, x[11], S33, 0x6d9d6122);
    b := HH(b, c, d, a, x[14], S34, 0xfde5380c);
    FourSteps(32, r0, x, at, Regs(a, b, c, d));
    at := Regs(a, b, c, d);
    a := HH(a, b, c, d, x[1], S31, 0xa4beea44);
    d := HH(d, a, b, c, x[4], S32, 0x4bdecfa9);
    c := HH(c, d, a, b, x[7], S33, 0xf6bb4b60);
    b := HH(b, c, d, a, x[10], S34, 0xbebfbc70);
    FourSteps(36, r0, x, at, Regs(a, b, c, d));
    at := Regs(a, b, c, d);
    a := HH(a, b, c, d, x[13], S31, 0x289b7ec6);
    d := HH(d, a, b, c, x[0], S32, 0xeaa127fa);
    c := HH(c, d, a, b, x[3], S33, 0xd4ef3085);
    b := HH(b, c, d, a, x[6], S34, 0x4881d05);
    FourSteps(40, r0, x, at, Regs(a, b, c, d));
    at := Regs(a, b, c, d);
    a := HH(a, b, c, d, x[9], S31, 0xd9d4d039);
    d := HH(d, a, b, c, x[12], S32, 0xe6db99e5);
    c := HH(c, d, a, b, x[15], S33, 0x1fa27cf8);
    b := HH(b, c, d, a, x[2], S34, 0xc4ac5665);
    FourSteps(44, r0, x, at, Regs(a, b, c, d));
    out := Regs(a, b, c, d);
  }

  method Round4(r: Regs, x: seq<Word>, ghost r0: Regs) returns (out: Regs)
    requires |x| == 16 && r == Steps(48, r0, x)
    ensures out == Steps(64, r0, x)
  {
    hide Steps, F, G, H, I, Turn;
    ghost var at := r;
    var a, b, c, d := r.a, r.b, r.c, r.d;
    a := II(a, b, c, d, x[0], S41, 0xf4292244);
    d := II(d, a, b, c, x[7], S42, 0x432aff97);
    c := II(c, d, a, b, x[14], S43, 0xab9423a7);
    b := II(b, c, d, a, x[5], S44, 0xfc93a039);
    FourSteps(48, r0, x, at, Regs(a, b, c, d));
    at := Regs(a, b, c, d);
    a := II(a, b, c, d, x[12], S41, 0x655b59c3);
    d := II(d, a, b, c, x[3], S42, 0x8f0ccc92);
    c := II(c, d, a, b, x[10], S43, 0xffeff47d);
    b := II(b, c, d, a, x[1], S44, 0x85845dd1);
    FourSteps(52, r0, x, at, Regs(a, b, c, d));
    at := Regs(a, b, c, d);
    a := II(a, b, c, d, x[8], S41, 0x6fa87e4f);
    d := II(d, a, b, c, x[15], S42, 0xfe2ce6e0);
    c := II(c, d, a, b, x[6], S43, 0xa3014314);
    b := II(b, c, d, a, x[13], S44, 0x4e0811a1);
    FourSteps(56, r0, x, at, Regs(a, b, c, d));
    at := Regs(a, b, c, d);
    a := II(a, b, c, d, x[4], S41, 0xf7537e82);
    d := II(d, a, b, c, x[11], S42, 0xbd3af235);
    c := II(c, d, a, b, x[2], S43, 0x2ad7d2bb);
    b := II(b, c, d, a, x[9], S44, 0xeb86d391);
    FourSteps(60, r0, x, at, Regs(a, b, c, d));
    out := Regs(a, b, c, d);
  }

  // ---- the bit counter ----

  /** Conversion to uint32. */
  function Uint32(n: nat): (r: nat)
    ensures r < U32
  {
    n % U32
  }

  lemma Quotient(a: nat, q: nat, r: nat)
    requires a == U32 * q + r && r < U32
    ensures a / U32 == q && a % U32 == r
  {
  }

  lemma Sums(a: nat, b: nat, c: nat)
    ensures ((a % U32 + b) % U32 + c) % U32 == (a + c + b) % U32
  {
  }

  /** Adding a length to the two counter words, with the carries as the source makes them. */
  lemma CounterAdds(n: nat, len: nat)
    requires len < U32
    ensures Uint32(len) == len
    ensures var bits := Uint32(len * 8);
      var low := Uint32(Low(n) + bits);
      var high := if low < bits then Uint32(High(n) + 1) else High(n);
      low == Low(n + len) && Uint32(high + len / 0x2000_0000) == High(n + len)
  {
    var lo, hi := 8 * n % U32, 8 * n / U32;
    var bits, top := len * 8 % U32, len / 0x2000_0000;
    assert 8 * len == U32 * top + bits;
    assert 8 * n == U32 * hi + lo;
    var carry := if lo + bits >= U32 then 1 else 0;
    assert 8 * (n + len) == U32 * (hi + top + carry) + (lo + bits - U32 * carry);
    Quotient(8 * (n + len), hi + top + carry, lo + bits - U32 * carry);
    Sums(hi, carry, top);
  }

  /** The number of buffered bytes, read off the low counter word. */
  lemma CounterIndex(n: nat)
    ensures Low(n) / 8 % 64 == n % 64
  {
  }

  // ---- the loop of update, whose variable has 32 bits ----

  /** Whether the guard i + 63 < length holds in round k, both sides on 32 bits. */
  predicate LoopGoesOn(index: nat, length: nat, k: nat)
    requires index < 64
  {
    var i := Uint32(64 - index + 64 * k);
    Uint32(i + 63) < length
  }

  lemma LoopStops(index: nat, length: nat, k: nat)
    requires index < 64 && 64 - index <= length && index + length < U32 && k == (index + length) / 64 - 1
    ensures !LoopGoesOn(index, length, k)
  {
    var i := 64 - index + 64 * k;
    assert i <= length < i + 64;
    assert i % U32 == i;
  }

  lemma LoopStays(index: nat, length: nat, k: nat)
    requires index < 64 && index + length >= U32
    ensures LoopGoesOn(index, length, k)
  {
    var i := (64 - index + 64 * k) % U32;
    var q := (64 - index + 64 * k) / U32;
    assert i + index == 64 * (1 + k - 0x400_0000 * q);
    if i + 63 >= U32 {
      assert (i + 63) % U32 == i + 63 - U32;
    }
  }

  /** The loop of update ends exactly when the buffered bytes and the input are below 2^32. */
  lemma LoopEndsIff(index: nat, length: nat)
    requires index < 64 && 64 - index <= length
    ensures (exists k: nat :: !LoopGoesOn(index, length, k)) <==> index + length < U32
  {
    if index + length < U32 {
      LoopStops(index, length, (index + length) / 64 - 1);
    } else {
      forall k: nat ensures LoopGoesOn(index, length, k) { LoopStays(index, length, k); }
    }
  }

  // ---- streaming ----

  lemma FoldStep(m: seq<Byte>, p: nat)
    requires p % 64 == 0 && p + 64 <= |m|
    ensures Fold(m[..p + 64]) == Compress(Fold(m[..p]), m[p..p + 64])
  {
    hide Compress;
    var n := m[..p + 64];
    assert n[..|n| - 64] == m[..p] && n[|n| - 64..] == m[p..p + 64];
  }

  /** How much of a message has gone through the compression function. */
  function Whole(m: seq<Byte>): (n: nat)
    ensures n <= |m| && n % 64 == 0 && |m| - n == |m| % 64
  {
    |m| - |m| % 64
  }

  /**
   The message that the object stands for once digest has run: final restores the registers
   and the counter, but not the buffer.
   */
  function AfterDigest(m: seq<Byte>): (r: seq<Byte>)
    ensures |r| == |m|
  {
    var n := |m| % 64;
    if n < 56 then m else m[..Whole(m)] + (Zeros(56) + LengthBytes(|m|))[..n]
  }

  /** Whether the object still stands for the same message. */
  predicate KeptByDigest(m: seq<Byte>) {
    |m| % 64 < 56 || m[Whole(m)..] == (Zeros(56) + LengthBytes(|m|))[..|m| % 64]
  }

  lemma DigestKeepsIff(m: seq<Byte>)
    ensures AfterDigest(m) == m <==> KeptByDigest(m)
  {
    hide LengthBytes;
    if |m| % 64 >= 56 {
      assert m == m[..Whole(m)] + m[Whole(m)..];
      assert AfterDigest(m)[Whole(m)..] == (Zeros(56) + LengthBytes(|m|))[..|m| % 64];
    }
  }

  lemma AfterDigestParts(m: seq<Byte>)
    ensures var r := AfterDigest(m);
      && Whole(r) == Whole(m) && r[..Whole(m)] == m[..Whole(m)]
      && r[Whole(m)..] == if |m| % 64 < 56 then m[Whole(m)..] else (Zeros(56) + LengthBytes(|m|))[..|m| % 64]
  {
    hide LengthBytes;
  }

  /** What the first digest has changed, further ones leave alone. */
  lemma DigestSettles(m: seq<Byte>)
    ensures AfterDigest(AfterDigest(m)) == AfterDigest(m)
  {
    hide LengthBytes;
    if |m| % 64 >= 56 { assert AfterDigest(m)[..Whole(m)] == m[..Whole(m)]; }
  }

  /** Fifty-six bytes are enough to lose the message. */
  lemma DigestLosesBuffer()
    ensures var m := seq(56, _ => 0x61 as Byte); AfterDigest(m) != m
  {
    var m := seq(56, _ => 0x61 as Byte);
    assert m[0] == 0x61 && AfterDigest(m)[0] == 0;
  }

  /** What update leaves in the buffer, of which the first index bytes were in use. */
  function BufferAfter(buffer: seq<Byte>, index: nat, input: seq<Byte>): (r: seq<Byte>)
    requires |buffer| == 64 && index < 64
    ensures |r| == 64
  {
    var n := index + |input|;
    if n < 64 then buffer[..index] + input + buffer[n..]
    else input[|input| - n % 64..] + (buffer[..index] + input[..64 - index])[n % 64..]
  }

  /** The block made of the buffered bytes and the front of the input. */
  lemma FirstBlock(before: seq<Byte>, buffer: seq<Byte>, input: seq<Byte>)
    requires |buffer| == 64 && 64 - |before| % 64 <= |input|
    requires buffer[..|before| % 64] == before[Whole(before)..]
    ensures var n, m := |before| % 64, before + input;
      && (|before| + 64 - n) % 64 == 0
      && Fold(m[..|before| + 64 - n]) ==
         Compress(Fold(before[..Whole(before)]), buffer[..n] + input[..64 - n] + buffer[64..])
  {
    hide Fold, Compress;
    var n, m, w := |before| % 64, before + input, Whole(before);
    assert m[..w] == before[..w];
    assert m[w..w + 64] == buffer[..n] + input[..64 - n] + buffer[64..];
    FoldStep(m, w);
  }

  /** Where the processed part of the message ends. */
  lemma LastBlock(before: seq<Byte>, input: seq<Byte>, i: nat)
    requires i <= |input| < i + 64 && (|before| + i) % 64 == 0
    ensures |before| + i == Whole(before + input) && |input| - i == (|before| % 64 + |input|) % 64
  {
    assert |before + input| == |before| + i + (|input| - i);
  }

  lemma NoBlock(before: seq<Byte>, input: seq<Byte>)
    requires |before| % 64 + |input| < 64
    ensures (before + input)[..Whole(before + input)] == before[..Whole(before)]
  {
    assert Whole(before + input) == Whole(before);
  }

  /** The second copy of update, after the first one filled the buffer, or alone. */
  lemma TwoCopies(b0: seq<Byte>, b: seq<Byte>, index: nat, input: seq<Byte>, i: nat)
    requires |b0| == 64 && index < 64 && i <= |input|
    requires
      if 64 - index <= |input| then
        b == b0[..index] + input[..64 - index] + b0[64..] && |input| - i == (index + |input|) % 64
      else b == b0 && i == 0
    ensures var at := if 64 - index <= |input| then 0 else index;
      b[..at] + input[i..|input|] + b[at + |input| - i..] == BufferAfter(b0, index, input)
  {
  }

  /** The used part of the buffer is the unprocessed part of the message. */
  lemma BufferHolds(m: seq<Byte>, buffer: seq<Byte>, input: seq<Byte>)
    requires |buffer| == 64 && buffer[..|m| % 64] == m[Whole(m)..]
    ensures BufferAfter(buffer, |m| % 64, input)[..|m + input| % 64] == (m + input)[Whole(m + input)..]
  {
    var index := |m| % 64;
    var n := index + |input|;
    var all := m + input;
    if n < 64 {
      assert all[Whole(all)..] == m[Whole(m)..] + input;
    } else {
      assert |all| % 64 == n % 64;
      assert all[Whole(all)..] == input[|input| - n % 64..];
    }
  }

  lemma LastBits(buffer: seq<Byte>, bits: seq<Byte>)
    requires |buffer| == 64 && |bits| == 8
    ensures BufferAfter(buffer, 56, bits) == buffer[..56] + bits
  {
  }

  lemma PaddingWraps(buffer: seq<Byte>, index: nat, pad: seq<Byte>)
    requires |buffer| == 64 && 56 <= index < 64 && pad == Padding(64)[..120 - index]
    ensures BufferAfter(buffer, index, pad)[..56] == Zeros(56)
  {
    assert pad[64 - index..] == Zeros(56);
  }

  /** The buffer after the two updates of final. */
  lemma BufferAfterFinal(buffer: seq<Byte>, index: nat, padLen: nat, bits: seq<Byte>)
    requires |buffer| == 64 && index < 64 && |bits| == 8
    requires padLen == if index < 56 then 56 - index else 120 - index
    ensures var last := BufferAfter(BufferAfter(buffer, index, Padding(64)[..padLen]), 56, bits);
      last[..index] == if index < 56 then buffer[..index] else (Zeros(56) + bits)[..index]
  {
    var pad := Padding(64)[..padLen];
    var first := BufferAfter(buffer, index, pad);
    LastBits(first, bits);
    if index < 56 {
      assert first == buffer[..index] + pad + buffer[56..];
    } else {
      PaddingWraps(buffer, index, pad);
    }
  }

  lemma LowHighFit(n: nat)
    ensures Low(n) < U32 && High(n) < U32
  {
  }

  lemma WholeBlocks(m: seq<Byte>)
    requires |m| % 64 == 0
    ensures m[..Whole(m)] == m
  {
  }

  /** The two updates of final feed the padding and the length. */
  lemma PadParts(m: seq<Byte>, padLen: nat)
    requires padLen == if |m| % 64 < 56 then 56 - |m| % 64 else 120 - |m| % 64
    ensures Pad(m) == m + Padding(64)[..padLen] + LengthBytes(|m|)
    ensures (|m| + padLen) % 64 == 56
  {
    hide LengthBytes;
    assert Padding(64)[..padLen] == Padding(padLen);
  }

  method MemCopy(dst: array<Byte>, at: nat, src: seq<Byte>)
    requires at + |src| <= dst.Length
    modifies dst
    ensures dst[..] == old(dst[..])[..at] + src + old(dst[..])[at + |src|..]
  {
    for i := 0 to |src|
      invariant dst[..] == old(dst[..at]) + src[..i] + old(dst[at + i..])
    {
      dst[at + i] := src[i];
    }
  }

  class MD5 {
    var state: Regs
    var count0: nat
    var count1: nat
    const buffer: array<Byte>
    var digest: seq<Byte>
    var finished: bool
    /** The message so far. */
    ghost var fed: seq<Byte>

    /** The registers and the counter. */
    ghost predicate Counted()
      reads this
    {
      && count0 == Low(|fed|) && count1 == High(|fed|)
      && state == Fold(fed[..Whole(fed)])
    }

    /** The fields stand for the message. */
    ghost predicate Streams()
      reads this, buffer
    {
      && buffer.Length == 64 && Counted()
      && buffer[..|fed| % 64] == fed[Whole(fed)..]
    }

    ghost predicate Valid()
      reads this, buffer
    {
      Streams() && !finished
    }

    constructor ()
      ensures Valid() && fresh(buffer) && fed == []
    {
      buffer := new Byte[64];
      state := INIT;
      count0, count1 := 0, 0;
      digest := Zeros(16);
      finished := false;
      fed := [];
    }

    method Reset()
      requires buffer.Length == 64
      modifies this
      ensures Valid() && fed == []
    {
      finished := false;
      count0, count1 := 0, 0;
      state := INIT;
      fed := [];
    }

    method Transform(block: seq<Byte>)
      requires |block| == 64
      modifies `state
      ensures state == Compress(old(state), block)
    {
      hide Steps, Words, Sum;
      var x := Decode(block, 64);
      NoSteps(state, x);
      var r := Round1(state, x, state);
      r := Round2(r, x, state);
      r := Round3(r, x, state);
      r := Round4(r, x, state);
      state := Sum(state, r);
    }

    /** The number of bits, modulo 2^64. */
    method CountBits(length: nat, ghost n: nat)
      requires length < U32 && count0 == Low(n) && count1 == High(n)
      modifies `count0, `count1
      ensures count0 == Low(n + length) && count1 == High(n + length)
    {
      hide Low, High, Uint32;
      CounterAdds(n, length);
      var bits := Uint32(Uint32(length) * 8);
      count0 := Uint32(count0 + bits);
      if count0 < bits { count1 := Uint32(count1 + 1); }
      count1 := Uint32(count1 + Uint32(length) / 0x2000_0000);
    }

    /** The whole blocks that the input holds from i on, before being the message so far. */
    method TransformBlocks(input: seq<Byte>, partLen: nat, ghost before: seq<Byte>) returns (i: nat)
      requires 1 <= partLen <= 64 && partLen <= |input| && (|before| + partLen) % 64 == 0
      requires 64 - partLen + |input| < U32
      requires state == Fold((before + input)[..|before| + partLen])
      modifies `state
      ensures i <= |input| < i + 64 && (|before| + i) % 64 == 0
      ensures state == Fold((before + input)[..|before| + i])
    {
      hide Compress, Fold;
      ghost var m := before + input;
      i := partLen;
      while Uint32(i + 63) < |input|
        invariant partLen <= i <= |input| && (|before| + i) % 64 == 0 && (i + 64 - partLen) % 64 == 0
        invariant state == Fold(m[..|before| + i])
        decreases |input| - i
      {
        assert input[i..i + 64] == m[|before| + i..|before| + i + 64];
        FoldStep(m, |before| + i);
        Transform(input[i..i + 64]);
        i := Uint32(i + 64);
      }
    }

    /** The part of update below the counter: before is the message so far. */
    method Absorb(input: seq<Byte>, index: nat, ghost before: seq<Byte>)
      requires buffer.Length == 64 && index == |before| % 64 && index + |input| < U32
      requires state == Fold(before[..Whole(before)]) && buffer[..index] == before[Whole(before)..]
      modifies `state, buffer
      ensures state == Fold((before + input)[..Whole(before + input)])
      ensures buffer[..] == BufferAfter(old(buffer[..]), index, input)
    {
      hide Compress, Fold, BufferAfter, Whole;
      var length, partLen, at, i := |input|, 64 - index, index, 0;
      ghost var b0, m := buffer[..], before + input;
      if length >= partLen {
        FirstBlock(before, b0, input);
        MemCopy(buffer, index, input[..partLen]);
        Transform(buffer[..]);
        i := TransformBlocks(input, partLen, before);
        LastBlock(before, input, i);
        at := 0;
      } else {
        NoBlock(before, input);
      }
      TwoCopies(b0, buffer[..], index, input, i);
      MemCopy(buffer, at, input[i..length]);
    }

    /** update: the message grows by the input, however it was split before. */
    method Update(input: seq<Byte>)
      requires Streams() && |fed| % 64 + |input| < U32
      modifies this, buffer
      ensures Valid() && fed == old(fed) + input && digest == old(digest)
      ensures buffer[..] == BufferAfter(old(buffer[..]), |old(fed)| % 64, input)
    {
      hide Fold, Low, High, BufferAfter, Whole;
      finished := false;
      CounterIndex(|fed|);
      var index := count0 / 8 % 64;
      CountBits(|input|, |fed|);
      BufferHolds(fed, buffer[..], input);
      Absorb(input, index, fed);
      fed := fed + input;
      assert buffer[..|fed| % 64] == buffer[..][..|fed| % 64];
    }

    /** final: the digest is the one-shot digest of the message. */
    method Final()
      requires Streams()
      modifies this, buffer
      ensures Valid() && fed == AfterDigest(old(fed)) && digest == Md5Of(old(fed))
    {
      hide Fold, Bytes, BufferAfter, Whole, Low, High, ToWord, Pad, AfterDigest;
      ghost var m := fed;
      var oldState, oldCount0, oldCount1 := state, count0, count1;
      LowHighFit(|m|);
      var bits := Encode([ToWord(count0), ToWord(count1)], 8);
      assert bits == LengthBytes(|m|);
      CounterIndex(|m|);
      var index := count0 / 8 % 64;
      var padLen := if index < 56 then 56 - index else 120 - index;
      BufferAfterFinal(buffer[..], index, padLen, bits);
      PadParts(m, padLen);
      hide LengthBytes, Padding;
      Update(Padding(64)[..padLen]);
      Update(bits);
      WholeBlocks(fed);
      digest := Encode([state.a, state.b, state.c, state.d], 16);
      state, count0, count1 := oldState, oldCount0, oldCount1;
      fed := AfterDigest(m);
      AfterDigestParts(m);
      assert buffer[..index] == buffer[..][..index];
    }

    /** digest. */
    method Digest() returns (d: seq<Byte>)
      requires Valid()
      modifies this, buffer
      ensures Valid() && fed == AfterDigest(old(fed)) && d == Md5Of(old(fed))
    {
      if !finished {
        finished := true;
        Final();
      }
      d := digest;
    }
  }

  function Concat(parts: seq<seq<Byte>>): seq<Byte> {
    if parts == [] then [] else Concat(parts[..|parts| - 1]) + parts[|parts| - 1]
  }

  lemma NoParts(parts: seq<seq<Byte>>)
    ensures Concat(parts[..0]) == []
  {
  }

  lemma OnePart(parts: seq<seq<Byte>>, i: nat)
    requires i < |parts|
    ensures Concat(parts[..i + 1]) == Concat(parts[..i]) + parts[i] && parts[i] in parts
  {
    assert parts[..i + 1][..i] == parts[..i];
  }

  /** However a message is split into updates, the digest is that of the message. */
  method DigestOfParts(parts: seq<seq<Byte>>) returns (d: seq<Byte>)
    requires forall p :: p in parts ==> |p| <= U32 - 64
    ensures d == Md5Of(Concat(parts))
  {
    hide Md5Of, Fold, Whole, Low, High, BufferAfter, AfterDigest, Concat;
    NoParts(parts);
    var md5 := new MD5();
    for i := 0 to |parts|
      invariant fresh(md5) && fresh(md5.buffer) && md5.Valid() && md5.fed == Concat(parts[..i])
    {
      OnePart(parts, i);
      md5.Update(parts[i]);
    }
    assert parts[..|parts|] == parts;
    d := md5.Digest();
  }

  /** The macro rotates: for each amount used, what is lost on the left comes back on the right. */
  lemma RotatesBits(x: Word)
    ensures RotateLeft(x, 7) == x.RotateLeft(7) && RotateLeft(x, 12) == x.RotateLeft(12)
    ensures RotateLeft(x, 17) == x.RotateLeft(17) && RotateLeft(x, 22) == x.RotateLeft(22)
    ensures RotateLeft(x, 5) == x.RotateLeft(5) && RotateLeft(x, 9) == x.RotateLeft(9)
    ensures RotateLeft(x, 14) == x.RotateLeft(14) && RotateLeft(x, 20) == x.RotateLeft(20)
    ensures RotateLeft(x, 4) == x.RotateLeft(4) && RotateLeft(x, 11) == x.RotateLeft(11)
    ensures RotateLeft(x, 16) == x.RotateLeft(16) && RotateLeft(x, 23) == x.RotateLeft(23)
    ensures RotateLeft(x, 6) == x.RotateLeft(6) && RotateLeft(x, 10) == x.RotateLeft(10)
    ensures RotateLeft(x, 15) == x.RotateLeft(15) && RotateLeft(x, 21) == x.RotateLeft(21)
  {
  }
}
