/**
 Chunked transfer coding (section 3.6.1 of RFC 2616): the parser decodes every encoding
 of a list of chunks to their concatenation, and then reports the end of the message.
 */
module HttpChunked {
  import opened Common
  import opened HttpTypes
  import opened HttpSwitch
  import opened HttpRun
  import opened HttpTape
  import opened HttpExecute

  /** A chunk, its size as it is written, and its chunk-extension text. */
  datatype Piece = Piece(data: string, size: string, ext: string)

  function SizeLine(c: Piece): string { c.size + c.ext + CRLF }

  function EncodeChunk(c: Piece): string {
    SizeLine(c) + c.data + CRLF
  }

  function EncodeChunks(cs: seq<Piece>): string {
    if cs == [] then "" else EncodeChunk(cs[0]) + EncodeChunks(cs[1..])
  }

  /** The chunks, and the size line of the last one, which is empty. */
  function EncodeAll(cs: seq<Piece>, last: Piece): string { EncodeChunks(cs) + SizeLine(last) }

  /** The same with an empty trailer. */
  function EncodeBody(cs: seq<Piece>, last: Piece): string { EncodeAll(cs, last) + CRLF }

  function Payload(cs: seq<Piece>): string {
    if cs == [] then "" else cs[0].data + Payload(cs[1..])
  }

  /** An extension the parser skips: it starts with ';' or a space and holds no CR. */
  predicate GoodExt(ext: string) {
    (ext != "" ==> ext[0] == ';' || ext[0] == ' ') && forall i :: 0 <= i < |ext| ==> ext[i] != '\r'
  }

  /** The sizes the parser's overflow test admits. */
  predicate GoodSize(n: nat) { n / 16 <= (ULLONG_MAX - 16) / 16 }

  /** The size is written in hexadecimal, in either letter case, leading zeros or not. */
  predicate GoodLine(c: Piece) {
    SpellsHex(c.size, |c.data|) && GoodSize(|c.data|) && GoodExt(c.ext) && |SizeLine(c)| <= MAX_HEADER_SIZE
  }

  predicate Encodable(c: Piece) { c.data != "" && GoodLine(c) }

  predicate EncodableAll(cs: seq<Piece>, last: Piece) {
    (forall c :: c in cs ==> Encodable(c)) && last.data == "" && GoodLine(last)
  }

  // ---- single bytes ----

  /** Within a size line. */
  predicate InSizeLine(p: Parser) {
    p.flags.chunked && p.state.Chunk? &&
    (p.state.chunk.SizeStart? || p.state.chunk.Size? || p.state.chunk.Parameters? || p.state.chunk.SizeAlmostDone?)
  }

  /** One silent byte of a size line. */
  lemma SizeLineByte(s: Settings, p: Parser, ch: char)
    requires InSizeLine(p) && p.nread < MAX_HEADER_SIZE
    ensures var q := p.(nread := p.nread + 1);
      var t := ChunkCase(q, ch, 1);
      t.ctl.Advance? ==> StepByte(s, p, ch) == Outcome(t.p, [], Advance)
  {
    hide StepByte, TurnEvents, Unhex;
    OnePass(s, p, ch);
    var t := ChunkCase(p.(nread := p.nread + 1), ch, 1);
    if t.ctl.Advance? { SilentTurn(p.state, t, ch); }
  }

  /** A digit as the unhex table has it: its last 128 entries, which nobody set, are 0. */
  predicate PassesFor(c: char, d: nat)
    requires d < 16
  {
    IsHexFor(c, d) || (c as int >= 128 && d == 0)
  }

  /** The text is a number in such digits. */
  predicate PassesAs(text: string, n: nat) {
    if |text| == 0 then false
    else if |text| == 1 then n < 16 && PassesFor(text[0], n)
    else PassesAs(text[..|text| - 1], n / 16) && PassesFor(text[|text| - 1], n % 16)
  }

  lemma {:induction false} SpelledPasses(text: string, n: nat)
    requires SpellsHex(text, n)
    ensures PassesAs(text, n)
  {
    hide IsHexFor;
    if |text| > 1 { SpelledPasses(text[..|text| - 1], n / 16); }
  }

  lemma UnhexDigit(c: char, d: nat)
    requires d < 16 && PassesFor(c, d)
    ensures Unhex(c) == d && c != '\r'
  {
  }

  lemma FirstHexDigit(s: Settings, p: Parser, c: char, n: nat)
    requires p.state == Chunk(SizeStart) && p.flags.chunked && p.nread == 0 && n < 16 && PassesFor(c, n)
    ensures StepByte(s, p, c) == Outcome(p.(state := Chunk(Size), contentLength := n, nread := 1), [], Advance)
  {
    hide StepByte, PassesFor, Unhex;
    UnhexDigit(c, n);
    SizeLineByte(s, p, c);
  }

  lemma NextHexDigit(s: Settings, p: Parser, c: char, n: nat)
    requires p.state == Chunk(Size) && p.flags.chunked && p.nread < MAX_HEADER_SIZE && GoodSize(n)
    requires p.contentLength == n / 16 && PassesFor(c, n % 16)
    ensures n < U64 - 16
    ensures StepByte(s, p, c) == Outcome(p.(contentLength := n, nread := p.nread + 1), [], Advance)
  {
    hide StepByte, PassesFor, Unhex;
    UnhexDigit(c, n % 16);
    SizeLineByte(s, p, c);
  }

  /** A size is read to its value, however it is written. */
  lemma {:induction false} FeedHex(s: Settings, r: Run, text: string, n: nat)
    requires r.ctl.Advance? && r.p.state == Chunk(SizeStart) && r.p.flags.chunked && r.p.nread == 0
    requires PassesAs(text, n) && GoodSize(n) && |text| < MAX_HEADER_SIZE
    ensures n < U64 - 16
    ensures Feed(s, r, text) ==
            Run(r.p.(state := Chunk(Size), contentLength := n, nread := |text|), r.consumed + |text|, r.evs, Advance)
  {
    hide StepByte, PassesFor, Unhex;
    var front, c := text[..|text| - 1], text[|text| - 1];
    if |text| == 1 {
      FirstHexDigit(s, r.p, c, n);
      assert front == "";
    } else {
      FeedHex(s, r, front, n / 16);
      NextHexDigit(s, Feed(s, r, front).p, c, n);
    }
  }

  lemma OverflowByte(s: Settings, p: Parser, ch: char)
    requires p.state == Chunk(Size) && p.flags.chunked && p.nread < MAX_HEADER_SIZE
    requires (ULLONG_MAX - 16) / 16 < p.contentLength && Unhex(ch) >= 0 && ch != '\r'
    ensures StepByte(s, p, ch).ctl.Fail? && StepByte(s, p, ch).p.errno == InvalidContentLength
  {
    hide Unhex;
  }

  /** A larger size is refused: the test in front of the multiplication is exact. */
  lemma {:induction false} OversizeIsRefused(s: Settings, r: Run, text: string, n: nat)
    requires r.ctl.Advance? && r.p.state == Chunk(SizeStart) && r.p.flags.chunked && r.p.nread == 0
    requires PassesAs(text, n) && !GoodSize(n) && |text| <= MAX_HEADER_SIZE
    ensures var f := Feed(s, r, text); f.ctl.Fail? && f.p.errno == InvalidContentLength
  {
    hide StepByte, PassesFor;
    var front, c := text[..|text| - 1], text[|text| - 1];
    UnhexDigit(c, n % 16);
    if GoodSize(n / 16) {
      FeedHex(s, r, front, n / 16);
      OverflowByte(s, Feed(s, r, front).p, c);
    } else {
      OversizeIsRefused(s, r, front, n / 16);
      StoppedFeed(s, Feed(s, r, front), [c]);
    }
  }

  lemma {:induction false} FeedExt(s: Settings, r: Run, ext: string)
    requires r.ctl.Advance? && r.p.state == Chunk(Size) && r.p.flags.chunked
    requires GoodExt(ext) && r.p.nread + |ext| <= MAX_HEADER_SIZE
    ensures Feed(s, r, ext) ==
            Run(r.p.(state := Chunk(if ext == "" then Size else Parameters), nread := r.p.nread + |ext|),
                r.consumed + |ext|, r.evs, Advance)
  {
    hide StepByte;
    if ext != "" {
      var n := |ext| - 1;
      FeedExt(s, r, ext[..n]);
      SizeLineByte(s, Feed(s, r, ext[..n]).p, ext[n]);
    }
  }

  /** The record after the CR LF of a size line. */
  function AfterLine(p: Parser): Parser {
    var q := p.(nread := 0);
    if q.contentLength == 0 then q.(flags := q.flags.(trailing := true), state := HeaderFieldStart)
    else q.(state := Chunk(Data))
  }

  lemma FeedLineEnd(s: Settings, r: Run)
    requires r.ctl.Advance? && (r.p.state == Chunk(Size) || r.p.state == Chunk(Parameters)) && r.p.flags.chunked
    requires r.p.nread + 2 <= MAX_HEADER_SIZE
    ensures Feed(s, r, CRLF) == Run(AfterLine(r.p), r.consumed + 2, r.evs, Advance)
  {
    hide StepByte, Unhex;
    FeedTwo(s, r, '\r', '\n');
    SizeLineByte(s, r.p, '\r');
    SizeLineByte(s, Take(s, r, '\r').p, '\n');
  }

  /** A whole size line. */
  lemma FeedSizeLine(s: Settings, r: Run, c: Piece)
    requires r.ctl.Advance? && r.p.state == Chunk(SizeStart) && r.p.flags.chunked && r.p.nread == 0
    requires GoodLine(c)
    ensures |c.data| < U64 - 16
    ensures Feed(s, r, SizeLine(c)) ==
            Run(AfterLine(r.p.(contentLength := |c.data|)), r.consumed + |SizeLine(c)|, r.evs, Advance)
  {
    hide Feed, SpellsHex, PassesAs;
    SpelledPasses(c.size, |c.data|);
    FeedHex(s, r, c.size, |c.data|);
    var r1 := Feed(s, r, c.size);
    FeedExt(s, r1, c.ext);
    var r2 := Feed(s, r1, c.ext);
    FeedLineEnd(s, r2);
    FeedConcat(s, r, c.size, c.ext);
    FeedConcat(s, r, c.size + c.ext, CRLF);
  }

  lemma DataSnoc(data: string)
    requires data != ""
    ensures AsData(BodyData, data) ==
            AsData(BodyData, data[..|data| - 1]) + [Byte(BodyData, data[|data| - 1])]
  {
  }

  lemma LastChunkByte(s: Settings, p: Parser, ch: char)
    requires p.state == Chunk(Data) && p.flags.chunked && p.contentLength == 1
    ensures StepByte(s, p, ch) ==
            Outcome(p.(state := Chunk(DataAlmostDone), contentLength := 0), [Byte(BodyData, ch)], Advance)
  {
    OneByteData(BodyData, ch);
    NoticesOne(Mark(BodyData));
    hide AsData, Notices;
  }

  /** The data of a chunk: all of it is body data. */
  lemma FeedChunkData(s: Settings, r: Run, data: string)
    requires r.ctl.Advance? && r.p.state == Chunk(Data) && r.p.flags.chunked
    requires data != "" && r.p.contentLength == |data| && |data| < ULLONG_MAX
    ensures Feed(s, r, data) ==
            Run(r.p.(state := Chunk(DataAlmostDone), contentLength := 0),
                r.consumed + |data|, r.evs + AsData(BodyData, data), Advance)
  {
    hide StepByte, AsData;
    var n := |data| - 1;
    FeedBody(s, r, data[..n]);
    LastChunkByte(s, AfterBody(r.p, n), data[n]);
    assert AsData(BodyData, data[..n]) + [Byte(BodyData, data[n])] == AsData(BodyData, data) by {
      DataSnoc(data);
    }
  }

  lemma ChunkEndCR(s: Settings, p: Parser)
    requires p.state == Chunk(DataAlmostDone) && p.flags.chunked && p.contentLength == 0
    ensures StepByte(s, p, '\r') == Outcome(p.(state := Chunk(DataDone)), [], Advance)
  {
    NoticesOne(Flush(BodyData));
    hide Notices;
  }

  lemma ChunkEndLF(s: Settings, p: Parser)
    requires p.state == Chunk(DataDone) && p.flags.chunked
    ensures StepByte(s, p, '\n') == Outcome(p.(state := Chunk(SizeStart), nread := 0), [], Advance)
  {
  }

  lemma FeedChunkEnd(s: Settings, r: Run)
    requires r.ctl.Advance? && r.p.state == Chunk(DataAlmostDone) && r.p.flags.chunked && r.p.contentLength == 0
    ensures Feed(s, r, CRLF) ==
            Run(r.p.(state := Chunk(SizeStart), nread := 0), r.consumed + 2, r.evs, Advance)
  {
    FeedTwo(s, r, '\r', '\n');
    ChunkEndCR(s, r.p);
    ChunkEndLF(s, r.p.(state := Chunk(DataDone)));
    hide StepByte;
  }

  /** The record between two chunks; only content_length remembers the past. */
  predicate BetweenChunks(p: Parser) {
    p.state == Chunk(SizeStart) && p.flags.chunked && p.nread == 0
  }

  lemma FeedChunk(s: Settings, r: Run, c: Piece)
    requires r.ctl.Advance? && BetweenChunks(r.p) && Encodable(c)
    ensures Feed(s, r, EncodeChunk(c)) ==
            Run(r.p.(contentLength := 0), r.consumed + |EncodeChunk(c)|,
                r.evs + AsData(BodyData, c.data), Advance)
  {
    hide Feed, SizeLine, AsData, GoodLine;
    var line := SizeLine(c);
    FeedSizeLine(s, r, c);
    var r1 := Feed(s, r, line);
    FeedChunkData(s, r1, c.data);
    var r2 := Feed(s, r1, c.data);
    FeedChunkEnd(s, r2);
    FeedConcat(s, r, line, c.data);
    FeedConcat(s, r, line + c.data, CRLF);
  }

  lemma {:induction false} FeedChunks(s: Settings, r: Run, cs: seq<Piece>)
    requires r.ctl.Advance? && BetweenChunks(r.p) && (forall c :: c in cs ==> Encodable(c))
    ensures Feed(s, r, EncodeChunks(cs)) ==
            Run(if cs == [] then r.p else r.p.(contentLength := 0), r.consumed + |EncodeChunks(cs)|,
                r.evs + AsData(BodyData, Payload(cs)), Advance)
    decreases |cs|
  {
    hide EncodeChunk, AsData, Take, Encodable;
    if cs == [] {
      EmptyData(BodyData);
    } else {
      hide Feed;
      FeedChunk(s, r, cs[0]);
      var r1 := Feed(s, r, EncodeChunk(cs[0]));
      FeedChunks(s, r1, cs[1..]);
      FeedConcat(s, r, EncodeChunk(cs[0]), EncodeChunks(cs[1..]));
      AsDataConcat(BodyData, cs[0].data, Payload(cs[1..]));
    }
  }

  /** All chunks, and the last size line, behind which the trailer begins. */
  lemma FeedAllChunks(s: Settings, r: Run, cs: seq<Piece>, last: Piece)
    requires r.ctl.Advance? && BetweenChunks(r.p) && EncodableAll(cs, last)
    ensures Feed(s, r, EncodeAll(cs, last)) ==
            Run(AfterLine(r.p.(contentLength := 0)), r.consumed + |EncodeAll(cs, last)|,
                r.evs + AsData(BodyData, Payload(cs)), Advance)
  {
    hide Feed, EncodeChunks, Payload, AsData, SizeLine, GoodLine;
    FeedChunks(s, r, cs);
    FeedSizeLine(s, Feed(s, r, EncodeChunks(cs)), last);
    FeedConcat(s, r, EncodeChunks(cs), SizeLine(last));
  }

  /** The record once the empty trailer has ended the message. */
  function AfterBodyEnd(p: Parser): Parser {
    var q := p.(contentLength := 0, nread := 2, flags := p.flags.(trailing := true), state := HeadersAlmostDone);
    q.(state := NewMessage(q))
  }

  lemma TrailerCR(s: Settings, p: Parser)
    requires p.state == HeaderFieldStart && p.nread < MAX_HEADER_SIZE
    ensures StepByte(s, p, '\r') == Outcome(p.(nread := p.nread + 1, state := HeadersAlmostDone), [], Advance)
  {
  }

  lemma TrailerLF(s: Settings, p: Parser)
    requires p.state == HeadersAlmostDone && p.flags.trailing && p.nread < MAX_HEADER_SIZE
    ensures var q := p.(nread := p.nread + 1); var done := q.(state := NewMessage(q));
      StepByte(s, p, '\n') == Outcome(done, [Notify(Complete(done))], Advance)
  {
    var q := p.(nread := p.nread + 1);
    NoticesOne(Call(Complete(q.(state := NewMessage(q)))));
    hide ShouldKeepAlive, Notices;
  }

  lemma FeedTrailer(s: Settings, r: Run)
    requires r.ctl.Advance? && r.p.state == HeaderFieldStart && r.p.flags.trailing && r.p.nread == 0
    ensures var q := r.p.(nread := 2, state := HeadersAlmostDone);
      var done := q.(state := NewMessage(q));
      Feed(s, r, CRLF) == Run(done, r.consumed + 2, r.evs + [Notify(Complete(done))], Advance)
  {
    hide StepByte, NewMessage, Feed;
    FeedTwo(s, r, '\r', '\n');
    TrailerCR(s, r.p);
    TrailerLF(s, r.p.(nread := 1, state := HeadersAlmostDone));
    assert CRLF == ['\r', '\n'];
  }

  /**
   Decoding inverts encoding: the body of a message whose headers announced chunked
   coding, encoded from any nonempty chunks, is delivered as exactly their concatenation,
   followed by exactly one message_complete, and all of the encoding is consumed.
   */
  lemma DecodeInvertsEncode(s: Settings, p: Parser, cs: seq<Piece>, last: Piece)
    requires BetweenChunks(p) && EncodableAll(cs, last)
    ensures var body := EncodeBody(cs, last);
      Feed(s, Start(p), body) ==
      Run(AfterBodyEnd(p), |body|, AsData(BodyData, Payload(cs)) + [Notify(Complete(AfterBodyEnd(p)))], Advance)
  {
    hide Feed, EncodeAll, Payload, AsData, NewMessage;
    FeedAllChunks(s, Start(p), cs, last);
    FeedTrailer(s, Feed(s, Start(p), EncodeAll(cs, last)));
    FeedConcat(s, Start(p), EncodeAll(cs, last), CRLF);
  }
}
