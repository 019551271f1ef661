/**
 The parser against the grammar of JSON: it takes exactly the texts of a grammar, white space
 where RFC 7159 allows it, and returns what they denote.  The grammar comes with two rules:
 strict is that of RFC 7159, and lenient, with more letters and an early end, is the parser's.
 */
module JsonGrammar {
  import opened JsonLexer
  import opened JsonMeaning
  import opened JsonString
  import opened JsonValue
  import opened JsonParser
  import JsonNumber
  import JsonRoundTrip

  // ---- the grammar ----

  /** A text as the grammar reads it: numbers as they are written, strings as their units. */
  datatype Doc =
    | NullDoc
    | BoolDoc(b: bool)
    | NumDoc(text: string)
    | StrDoc(us: seq<Unit>)
    | ArrDoc(es: seq<Doc>)
    | ObjDoc(ps: seq<Pair>)

  datatype Pair = Pair(key: seq<Unit>, value: Doc)

  /**
   Lenient: a NUL byte ends the text, whatever stands behind it, and the bytes 0x10 to 0x1f may
   stand in strings as they are.
   */
  datatype Rules = Strict | Lenient

  predicate IsString(g: Rules, t: string, i: nat, j: nat): (r: bool)
    ensures r ==> StringText(t, i, j)
  {
    match g
    case Strict => StrictText(t, i, j)
    case Lenient => StringText(t, i, j)
  }

  predicate Ws(t: string, i: nat, j: nat) { i <= j <= |t| && forall k :: i <= k < j ==> IsSpace(t[k]) }

  /** The key is t[k..l], its colon at m, its value t[a..b], and white space reaches from b to c. */
  datatype Cut = Cut(k: nat, l: nat, m: nat, a: nat, b: nat, c: nat)

  /** t[i..j] is a text of the document, without white space around it. */
  ghost predicate IsText(g: Rules, t: string, i: nat, j: nat, d: Doc)
    requires i <= j <= |t|
    decreases j - i, 0
  {
    match d
    case NullDoc => t[i..j] == "null"
    case BoolDoc(b) => t[i..j] == if b then "true" else "false"
    case NumDoc(text) => JsonNumber.IsNumber(t, i, j) && t[i..j] == text
    case StrDoc(us) => IsString(g, t, i, j) && Units(t, i + 1, j - 1) == us
    case ArrDoc(es) => i + 2 <= j && t[i] == '[' && t[j - 1] == ']' && IsElems(g, t, i + 1, j - 1, es)
    case ObjDoc(ps) => i + 2 <= j && t[i] == '{' && t[j - 1] == '}' && IsMembers(g, t, i + 1, j - 1, ps)
  }

  /** Values with commas between them, white space around each. */
  ghost predicate IsElems(g: Rules, t: string, i: nat, j: nat, es: seq<Doc>)
    requires i <= j <= |t|
    decreases j - i, 2
  {
    if es == [] then Ws(t, i, j) else exists a: nat, b: nat, c: nat :: ElemsCut(g, t, i, j, es, a, b, c)
  }

  /** The first value is t[a..b], and white space reaches from b to c. */
  ghost predicate ElemsCut(g: Rules, t: string, i: nat, j: nat, es: seq<Doc>, a: nat, b: nat, c: nat)
    requires i <= j <= |t| && es != []
    decreases j - i, 1
  {
    a <= b <= c <= j && Ws(t, i, a) && IsText(g, t, a, b, es[0]) && Ws(t, b, c) &&
    if |es| == 1 then c == j else c < j && t[c] == ',' && IsElems(g, t, c + 1, j, es[1..])
  }

  ghost predicate IsMembers(g: Rules, t: string, i: nat, j: nat, ps: seq<Pair>)
    requires i <= j <= |t|
    decreases j - i, 2
  {
    if ps == [] then Ws(t, i, j) else exists cut :: MembersCut(g, t, i, j, ps, cut)
  }

  ghost predicate MembersCut(g: Rules, t: string, i: nat, j: nat, ps: seq<Pair>, cut: Cut)
    requires i <= j <= |t| && ps != []
    decreases j - i, 1
  {
    var Cut(k, l, m, a, b, c) := cut;
    k <= l <= m < a <= b <= c <= j &&
    Ws(t, i, k) && IsString(g, t, k, l) && Units(t, k + 1, l - 1) == ps[0].key &&
    Ws(t, l, m) && t[m] == ':' && Ws(t, m + 1, a) && IsText(g, t, a, b, ps[0].value) && Ws(t, b, c) &&
    if |ps| == 1 then c == j else c < j && t[c] == ',' && IsMembers(g, t, c + 1, j, ps[1..])
  }

  /** The value is t[a..b], and the text ends at c. */
  ghost predicate TextCut(g: Rules, t: string, d: Doc, a: nat, b: nat, c: nat) {
    a <= b <= c <= |t| && Ws(t, 0, a) && IsText(g, t, a, b, d) && Ws(t, b, c) &&
    match g
    case Strict => c == |t|
    case Lenient => At(t, c) == '\0'
  }

  /** A whole text. */
  ghost predicate IsJson(g: Rules, t: string, d: Doc) {
    exists a: nat, b: nat, c: nat :: TextCut(g, t, d, a, b, c)
  }

  // ---- what a document denotes ----

  function NumberOf(text: string): Outcome {
    if IsIntegerText(text) && -I64 <= IntegerValue(text) < I64 then Value(Int(IntegerValue(text))) else HasFloat
  }

  /**
   A string without a meaning has none to give to the document, and numbers that are no
   64-bit integers are outside the model; what stands further to the left decides.
   */
  function Denotes(d: Doc): Outcome
    decreases d
  {
    match d
    case NullDoc => Value(Null)
    case BoolDoc(b) => Value(Bool(b))
    case NumDoc(text) => NumberOf(text)
    case StrDoc(us) => if LoneHigh(us) then Rejected else Value(Str(Meaning(us)))
    case ArrDoc(es) => DenoteElems(es, [])
    case ObjDoc(ps) => DenoteMembers(ps, [])
  }

  function DenoteElems(es: seq<Doc>, done: seq<Json>): Outcome
    decreases es
  {
    if es == [] then Value(Arr(done))
    else match Denotes(es[0])
      case Value(v) => DenoteElems(es[1..], done + [v])
      case o => o
  }

  /** Members in the order of the text: a later one replaces an earlier one of the same key. */
  function DenoteMembers(ps: seq<Pair>, done: seq<Member>): Outcome
    decreases ps
  {
    if ps == [] then Value(Obj(done))
    else if LoneHigh(ps[0].key) then Rejected
    else match Denotes(ps[0].value)
      case Value(v) => DenoteMembers(ps[1..], Put(done, Meaning(ps[0].key), v))
      case o => o
  }

  /** Some string or key holds a high surrogate that stands alone. */
  predicate LoneIn(d: Doc) {
    match d
    case StrDoc(us) => LoneHigh(us)
    case ArrDoc(es) => exists i :: 0 <= i < |es| && LoneIn(es[i])
    case ObjDoc(ps) => exists i :: 0 <= i < |ps| && (LoneHigh(ps[i].key) || LoneIn(ps[i].value))
    case _ => false
  }

  /** Some number is no 64-bit integer. */
  predicate FloatIn(d: Doc) {
    match d
    case NumDoc(text) => NumberOf(text).HasFloat?
    case ArrDoc(es) => exists i :: 0 <= i < |es| && FloatIn(es[i])
    case ObjDoc(ps) => exists i :: 0 <= i < |ps| && FloatIn(ps[i].value)
    case _ => false
  }

  /** Whether an outcome is what lone surrogates and other numbers admit. */
  predicate Admits(o: Outcome, lone: bool, float: bool) {
    && (o.Value? <==> !lone && !float)
    && (!float ==> (o.Rejected? <==> lone))
    && (!lone ==> (o.HasFloat? <==> float))
  }

  lemma NumberIsNotRejected(text: string)
    ensures !NumberOf(text).Rejected?
  {
  }

  /** A document has a value exactly when none of its strings lacks one and its numbers are 64-bit integers. */
  lemma {:induction false} DenotesExactly(d: Doc)
    ensures Admits(Denotes(d), LoneIn(d), FloatIn(d))
    decreases d
  {
    hide LoneHigh, Meaning, NumberOf;
    match d
    case NumDoc(text) => NumberIsNotRejected(text);
    case ArrDoc(es) => ElemsDenoteExactly(es, []);
    case ObjDoc(ps) => MembersDenoteExactly(ps, []);
    case _ =>
  }

  lemma {:induction false} ElemsDenoteExactly(es: seq<Doc>, done: seq<Json>)
    ensures Admits(DenoteElems(es, done), exists i :: 0 <= i < |es| && LoneIn(es[i]),
                   exists i :: 0 <= i < |es| && FloatIn(es[i]))
    decreases es
  {
    hide Denotes, LoneIn, FloatIn;
    if es != [] {
      DenotesExactly(es[0]);
      ElemsDenoteExactly(es[1..], if Denotes(es[0]).Value? then done + [Denotes(es[0]).v] else done);
      assert forall i :: 0 <= i < |es| - 1 ==> es[1..][i] == es[i + 1];
      assert forall i :: 1 <= i < |es| ==> es[i] == es[1..][i - 1];
    }
  }

  lemma {:induction false} MembersDenoteExactly(ps: seq<Pair>, done: seq<Member>)
    ensures Admits(DenoteMembers(ps, done),
                   exists i :: 0 <= i < |ps| && (LoneHigh(ps[i].key) || LoneIn(ps[i].value)),
                   exists i :: 0 <= i < |ps| && FloatIn(ps[i].value))
    decreases ps
  {
    hide Denotes, LoneIn, FloatIn, LoneHigh, Put, Meaning;
    if ps != [] {
      var o := Denotes(ps[0].value);
      DenotesExactly(ps[0].value);
      MembersDenoteExactly(ps[1..], if o.Value? then Put(done, Meaning(ps[0].key), o.v) else done);
      assert forall i :: 0 <= i < |ps| - 1 ==> ps[1..][i] == ps[i + 1];
      assert forall i :: 1 <= i < |ps| ==> ps[i] == ps[1..][i - 1];
    }
  }

  // ---- what a token stands for ----

  predicate One(t: string, x: Lexeme, c: char) { x.start < |t| && t[x.start] == c && x.cursor == x.start + 1 }

  predicate Word(t: string, x: Lexeme, word: string) { TextAt(t, x.start, word) && x.cursor == x.start + |word| }

  ghost predicate TokenIs(t: string, x: Lexeme) {
    match x.tok
    case BeginArray => One(t, x, '[')
    case EndArray => One(t, x, ']')
    case BeginObject => One(t, x, '{')
    case EndObject => One(t, x, '}')
    case NameSeparator => One(t, x, ':')
    case ValueSeparator => One(t, x, ',')
    case LiteralNull => Word(t, x, "null")
    case LiteralTrue => Word(t, x, "true")
    case LiteralFalse => Word(t, x, "false")
    case ValueString => StringText(t, x.start, x.cursor)
    case ValueNumber => JsonNumber.IsNumber(t, x.start, x.cursor)
    case EndOfInput => x.start <= |t| && At(t, x.start) == '\0'
    case ParseError => true
  }

  lemma LiteralStep(rest: string, tok: Token, c: char)
    ensures JsonLexer.Step(Literal(rest, tok), c) ==
      if rest == "" then Accept(tok) else if c == rest[0] then Goto(Literal(rest[1..], tok)) else Backtrack
  {
  }

  lemma JoinText(t: string, p: nat, rest: string)
    requires rest != "" && p < |t| && t[p] == rest[0] && TextAt(t, p + 1, rest[1..])
    ensures TextAt(t, p, rest)
  {
    assert t[p..p + |rest|] == [t[p]] + t[p + 1..p + |rest|];
  }

  lemma {:induction false} LiteralRun(t: string, s: nat, rest: string, tok: Token, p: nat, m: Marker)
    requires p <= |t| && m.pos <= p && !m.number && '\0' !in rest && tok != ParseError
    ensures var x := Run(t, s, Literal(rest, tok), p, m);
      x.start == s && (x.tok == ParseError || (x.tok == tok && TextAt(t, p, rest) && x.cursor == p + |rest|))
    decreases |rest|
  {
    hide Run, JsonLexer.Step;
    RunOnce(t, s, Literal(rest, tok), p, m);
    LiteralStep(rest, tok, At(t, p));
    if rest != "" && At(t, p) == rest[0] {
      LiteralRun(t, s, rest[1..], tok, p + 1, m);
      if TextAt(t, p + 1, rest[1..]) { JoinText(t, p, rest); }
    }
  }

  lemma {:induction false} HexRun(t: string, s: nat, left: nat, p: nat, m: Marker)
    requires p <= |t| && m.pos <= p && !m.number && 1 <= left <= 4
    ensures var x := Run(t, s, HexDigits(left), p, m);
      (x.start == s && x.tok == ParseError) ||
      (p + left <= |t| && (forall k :: p <= k < p + left ==> IsHexDigit(t[k])) && x == Run(t, s, InString, p + left, m))
    decreases left
  {
    hide Run;
    RunOnce(t, s, HexDigits(left), p, m);
    if IsHexDigit(At(t, p)) && left > 1 { HexRun(t, s, left - 1, p + 1, m); }
  }

  /** What the machine takes as a string is one. */
  lemma {:induction false} StringRun(t: string, s: nat, p: nat, m: Marker)
    requires p <= |t| && m.pos <= p && !m.number
    ensures var x := Run(t, s, InString, p, m);
      x.start == s &&
      (x.tok == ParseError ||
       (x.tok == ValueString && p < x.cursor <= |t| && t[x.cursor - 1] == '"' && Body(t, p, x.cursor - 1)))
    decreases |t| - p
  {
    hide Run;
    RunOnce(t, s, InString, p, m);
    var c := At(t, p);
    if IsPlain(c) {
      StringRun(t, s, p + 1, m);
    } else if c == '\\' {
      RunOnce(t, s, Escaped, p + 1, m);
      var d := At(t, p + 1);
      if IsEscapeLetter(d) {
        StringRun(t, s, p + 2, m);
      } else if d == 'u' {
        HexRun(t, s, 4, p + 2, m);
        if p + 6 <= |t| { StringRun(t, s, p + 6, m); }
      }
    }
  }

  lemma WordAt(t: string, s: nat, c: char, rest: string, tok: Token)
    requires s < |t| && t[s] == c && First(c) == GotoMarked(Literal(rest, tok)) && '\0' !in rest && tok != ParseError
    ensures var x := Scan(t, s); x.start == s && (x.tok == ParseError || (x.tok == tok && Word(t, x, [c] + rest)))
  {
    hide Run;
    RunOnce(t, s, Begin, s, Marker(s, false));
    LiteralRun(t, s, rest, tok, s + 1, Marker(s + 1, false));
    if TextAt(t, s + 1, rest) {
      assert ([c] + rest)[1..] == rest;
      JoinText(t, s, [c] + rest);
    }
  }

  lemma MinusAlone(t: string, s: nat)
    requires s < |t| && t[s] == '-' && !IsDigit(At(t, s + 1))
    ensures Scan(t, s).start == s && Scan(t, s).tok == ParseError
  {
    hide Run;
    RunOnce(t, s, Begin, s, Marker(s, false));
    RunOnce(t, s, Minus, s + 1, Marker(s, false));
  }

  lemma NumberAt(t: string, s: nat)
    requires s < |t| && (t[s] == '-' || IsDigit(t[s]))
    ensures var x := Scan(t, s); x.start == s && TokenIs(t, x)
  {
    if IsDigit(At(t, JsonNumber.SignEnd(t, s))) {
      JsonNumber.ScanNumber(t, s);
      JsonNumber.GreedyMatches(t, s);
    } else {
      MinusAlone(t, s);
    }
  }

  /** The token at a byte that is no white space. */
  lemma TokenAt(t: string, s: nat)
    requires s <= |t| && !IsSpace(At(t, s))
    ensures var x := Scan(t, s); x.start == s && TokenIs(t, x)
  {
    hide Run;
    RunOnce(t, s, Begin, s, Marker(s, false));
    var c := At(t, s);
    match c
    case '"' => StringRun(t, s, s + 1, Marker(s + 1, false));
    case 'n' => WordAt(t, s, 'n', "ull", LiteralNull);
    case 't' => WordAt(t, s, 't', "rue", LiteralTrue);
    case 'f' => WordAt(t, s, 'f', "alse", LiteralFalse);
    case _ => if c == '-' || IsDigit(c) { NumberAt(t, s); }
  }

  /** Every token: white space in front of it, and the text that it stands for. */
  lemma TokenShape(t: string, at: nat)
    requires at <= |t|
    ensures var x := Scan(t, at); Fits(t, x) && at <= x.start && Ws(t, at, x.start) && TokenIs(t, x)
  {
    hide Run, TokenIs;
    ScanInText(t, at);
    JsonNumber.ScanFromStart(t, at);
    TokenAt(t, JsonNumber.TokenStart(t, at));
  }

  // ---- soundness ----

  /** The parser, its first token being scanned at a position. */
  function ParseAt(t: string, at: nat): Parsed
    requires at <= |t|
  {
    ScanInText(t, at);
    ParseValue(t, Scan(t, at))
  }

  function ElemsAt(t: string, at: nat, done: seq<Json>): Parsed
    requires at <= |t|
  {
    ScanInText(t, at);
    ParseElems(t, Scan(t, at), done)
  }

  function MembersAt(t: string, at: nat, done: seq<Member>): Parsed
    requires at <= |t|
  {
    ScanInText(t, at);
    ParseMembers(t, Scan(t, at), done)
  }

  lemma NumberSound(t: string, x: Lexeme) returns (d: Doc)
    requires Fits(t, x) && x.tok.ValueNumber? && TokenIs(t, x) && NumberValue(t, x).Parsed?
    ensures x.cursor <= |t| && IsText(Lenient, t, x.start, x.cursor, d) && Denotes(d) == Value(NumberValue(t, x).value)
    ensures NumberValue(t, x).next == Scan(t, x.cursor)
  {
    hide JsonNumber.NumberParts, IsIntegerText, IntegerValue, Scan;
    d := NumDoc(t[x.start..x.cursor]);
  }

  lemma StringSound(t: string, x: Lexeme) returns (d: Doc)
    requires Fits(t, x) && x.tok.ValueString? && TokenIs(t, x) && StringValue(t, x).Ok?
    ensures x.cursor <= |t| && IsText(Lenient, t, x.start, x.cursor, d)
    ensures Denotes(d) == Value(Str(StringValue(t, x).value))
  {
    hide StringValue, Units, LoneHigh, Meaning, Body;
    StringValueMeans(t, x);
    d := StrDoc(Units(t, x.start + 1, x.cursor - 1));
  }

  /** A comma is followed by a value, not by another comma. */
  lemma CommaThenValue(t: string, z: Lexeme, done: seq<Json>)
    requires Fits(t, z) && z.tok.ValueSeparator? && ParseElems(t, z, done).Parsed?
    ensures !Next(t, z).tok.ValueSeparator?
  {
    hide Next;
  }

  /** A key and its colon, in front of a value. */
  lemma KeySound(t: string, x: Lexeme, done: seq<Member>)
    requires Fits(t, x) && !x.tok.ValueSeparator? && ParseMembers(t, x, done).Parsed?
    ensures x.tok.ValueString? && StringValue(t, x).Ok? && Next(t, x).tok.NameSeparator?
    ensures var r := ParseValue(t, Next(t, Next(t, x)));
      && r.Parsed? && (r.next.tok.ValueSeparator? || r.next.tok.EndObject?)
      && ParseMembers(t, x, done) ==
         (if r.next.tok.ValueSeparator? then ParseMembers(t, r.next, Put(done, StringValue(t, x).value, r.value))
          else Parsed(Obj(Put(done, StringValue(t, x).value, r.value)), Next(t, r.next)))
  {
    hide Next, StringValue, ParseValue, Put;
  }

  /** The units of a key that has a value. */
  lemma KeyUnits(t: string, x: Lexeme) returns (us: seq<Unit>)
    requires Fits(t, x) && x.tok.ValueString? && TokenIs(t, x) && StringValue(t, x).Ok?
    ensures StringText(t, x.start, x.cursor) && us == Units(t, x.start + 1, x.cursor - 1)
    ensures !LoneHigh(us) && Meaning(us) == StringValue(t, x).value
  {
    hide StringValue, Units, LoneHigh, Meaning, Body;
    StringValueMeans(t, x);
    us := Units(t, x.start + 1, x.cursor - 1);
  }

  lemma CommaThenKey(t: string, z: Lexeme, done: seq<Member>)
    requires Fits(t, z) && z.tok.ValueSeparator? && ParseMembers(t, z, done).Parsed?
    ensures !Next(t, z).tok.ValueSeparator?
  {
    hide Next;
  }

  /** What is parsed is a text of the grammar, and the next token is the one behind it. */
  lemma {:induction false} ValueSound(t: string, at: nat) returns (d: Doc, b: nat)
    requires at <= |t| && ParseAt(t, at).Parsed?
    ensures Scan(t, at).start < b <= |t|
    ensures IsText(Lenient, t, Scan(t, at).start, b, d) && Denotes(d) == Value(ParseAt(t, at).value)
    ensures ParseAt(t, at).next == Scan(t, b)
    decreases |t| - at, 0
  {
    hide Scan, IsElems, IsMembers, DenoteElems, DenoteMembers, StringText, NumberOf;
    TokenShape(t, at);
    var x := Scan(t, at);
    b := x.cursor;
    match x.tok
    case LiteralNull => d := NullDoc;
    case LiteralTrue => d := BoolDoc(true);
    case LiteralFalse => d := BoolDoc(false);
    case BeginArray => d, b := ArraySound(t, at);
    case BeginObject => d, b := ObjectSound(t, at);
    case ValueNumber => d := NumberSound(t, x);
    case ValueString => d := StringSound(t, x);
    case _ =>
  }

  lemma {:induction false} ArraySound(t: string, at: nat) returns (d: Doc, b: nat)
    requires at <= |t| && Scan(t, at).tok.BeginArray? && ParseAt(t, at).Parsed?
    ensures Scan(t, at).start < b <= |t|
    ensures IsText(Lenient, t, Scan(t, at).start, b, d) && Denotes(d) == Value(ParseAt(t, at).value)
    ensures ParseAt(t, at).next == Scan(t, b)
    decreases |t| - at, 0, 0
  {
    hide Scan, ParseElems;
    TokenShape(t, at);
    var x := Scan(t, at);
    TokenShape(t, x.cursor);
    var y := Scan(t, x.cursor);
    if y.tok.EndArray? {
      d, b := ArrDoc([]), y.cursor;
      assert IsElems(Lenient, t, x.cursor, y.start, []);
    } else {
      hide IsElems, DenoteElems;
      var es, j := ElemsSound(t, x.cursor, []);
      d, b := ArrDoc(es), j + 1;
    }
  }

  /** The loop over the elements. */
  lemma {:induction false} ElemsSound(t: string, i: nat, done: seq<Json>) returns (es: seq<Doc>, j: nat)
    requires i <= |t| && ElemsAt(t, i, done).Parsed? && !Scan(t, i).tok.ValueSeparator?
    ensures es != [] && i <= j < |t| && t[j] == ']' && IsElems(Lenient, t, i, j, es)
    ensures DenoteElems(es, done) == Value(ElemsAt(t, i, done).value) && ElemsAt(t, i, done).next == Scan(t, j + 1)
    decreases |t| - i, 1
  {
    hide Scan, ParseValue, IsText, Denotes;
    TokenShape(t, i);
    var x := Scan(t, i);
    var d, b := ValueSound(t, i);
    var v := ParseAt(t, i).value;
    TokenShape(t, b);
    var z := Scan(t, b);
    if z.tok.ValueSeparator? {
      TokenShape(t, z.cursor);
      CommaThenValue(t, z, done + [v]);
      JsonRoundTrip.AfterComma(t, z, done + [v]);
      var rest;
      rest, j := ElemsSound(t, z.cursor, done + [v]);
      es := [d] + rest;
      assert es[1..] == rest;
    } else {
      es, j := [d], z.start;
      assert DenoteElems(es[1..], done + [v]) == Value(Arr(done + [v]));
    }
    assert ElemsCut(Lenient, t, i, j, es, x.start, b, z.start);
  }

  lemma {:induction false} ObjectSound(t: string, at: nat) returns (d: Doc, b: nat)
    requires at <= |t| && Scan(t, at).tok.BeginObject? && ParseAt(t, at).Parsed?
    ensures Scan(t, at).start < b <= |t|
    ensures IsText(Lenient, t, Scan(t, at).start, b, d) && Denotes(d) == Value(ParseAt(t, at).value)
    ensures ParseAt(t, at).next == Scan(t, b)
    decreases |t| - at, 0, 0
  {
    hide Scan, ParseMembers, MembersCut, StringText;
    TokenShape(t, at);
    var x := Scan(t, at);
    TokenShape(t, x.cursor);
    var y := Scan(t, x.cursor);
    if y.tok.EndObject? {
      d, b := ObjDoc([]), y.cursor;
      assert IsMembers(Lenient, t, x.cursor, y.start, []);
    } else {
      hide IsMembers, DenoteMembers;
      var ps, j := MembersSound(t, x.cursor, []);
      d, b := ObjDoc(ps), j + 1;
      assert IsMembers(Lenient, t, x.cursor, j, ps);
    }
  }

  /** The loop over the members. */
  lemma {:induction false} MembersSound(t: string, i: nat, done: seq<Member>) returns (ps: seq<Pair>, j: nat)
    requires i <= |t| && MembersAt(t, i, done).Parsed? && !Scan(t, i).tok.ValueSeparator?
    ensures ps != [] && i <= j < |t| && t[j] == '}' && IsMembers(Lenient, t, i, j, ps)
    ensures DenoteMembers(ps, done) == Value(MembersAt(t, i, done).value)
    ensures MembersAt(t, i, done).next == Scan(t, j + 1)
    decreases |t| - i, 1
  {
    hide Scan, ParseValue, IsText, StringText, ParseMembers, Put, Ws, JsonNumber.IsNumber, StringValue, Denotes,
      Units, LoneHigh, Meaning;
    TokenShape(t, i);
    var x := Scan(t, i);
    KeySound(t, x, done);
    TokenShape(t, x.cursor);
    var y := Scan(t, x.cursor);
    TokenShape(t, y.cursor);
    var key := KeyUnits(t, x);
    var d, b := ValueSound(t, y.cursor);
    var p := Pair(key, d);
    var more := Put(done, StringValue(t, x).value, ParseAt(t, y.cursor).value);
    TokenShape(t, b);
    var z := Scan(t, b);
    if z.tok.ValueSeparator? {
      TokenShape(t, z.cursor);
      CommaThenKey(t, z, more);
      JsonRoundTrip.AfterMemberComma(t, z, more);
      var rest;
      rest, j := MembersSound(t, z.cursor, more);
      ps := [p] + rest;
      assert ps[1..] == rest;
    } else {
      ps, j := [p], z.start;
      assert DenoteMembers(ps[1..], more) == Value(Obj(more));
    }
    assert MembersCut(Lenient, t, i, j, ps, Cut(x.start, x.cursor, y.start, Scan(t, y.cursor).start, b, z.start));
  }

  // ---- completeness ----

  /** The bytes that can follow a value. */
  predicate Stops(c: char) { IsSpace(c) || c == ',' || c == ']' || c == '}' || c == '\0' }

  lemma SkipWs(t: string, i: nat, j: nat)
    requires Ws(t, i, j)
    ensures Scan(t, i) == Scan(t, j)
  {
    hide Scan;
    JsonRoundTrip.SkipTo(t, i, j);
    JsonNumber.ScanFromStart(t, i);
    JsonNumber.ScanFromStart(t, j);
  }

  lemma OneScans(t: string, p: nat, c: char)
    requires p < |t| && t[p] == c && First(c).AcceptNext?
    ensures Scan(t, p) == Lexeme(p, p + 1, First(c).tok) && Fits(t, Scan(t, p))
  {
    assert t[p..p + 1] == [c];
    JsonRoundTrip.Punctuation(t, p, c);
  }

  lemma {:induction false} HexScans(t: string, s: nat, left: nat, p: nat, m: Marker)
    requires p + left <= |t| && (forall k :: p <= k < p + left ==> IsHexDigit(t[k])) && m.pos <= p && 1 <= left <= 4
    ensures Run(t, s, HexDigits(left), p, m) == Run(t, s, InString, p + left, m)
    decreases left
  {
    hide Run;
    RunOnce(t, s, HexDigits(left), p, m);
    if left > 1 { HexScans(t, s, left - 1, p + 1, m); }
  }

  lemma {:induction false} BodyScans(t: string, s: nat, p: nat, q: nat, m: Marker)
    requires Body(t, p, q) && q < |t| && t[q] == '"' && m.pos <= p
    ensures Run(t, s, InString, p, m) == Lexeme(s, q + 1, ValueString)
    decreases q - p
  {
    hide Run;
    RunOnce(t, s, InString, p, m);
    if p < q {
      if t[p] != '\\' {
        BodyScans(t, s, p + 1, q, m);
      } else {
        RunOnce(t, s, Escaped, p + 1, m);
        if t[p + 1] != 'u' {
          BodyScans(t, s, p + 2, q, m);
        } else {
          HexScans(t, s, 4, p + 2, m);
          BodyScans(t, s, p + 6, q, m);
        }
      }
    }
  }

  lemma StringScans(t: string, i: nat, j: nat)
    requires StringText(t, i, j)
    ensures Scan(t, i) == Lexeme(i, j, ValueString)
  {
    hide Run;
    RunOnce(t, i, Begin, i, Marker(i, false));
    BodyScans(t, i, i + 1, j - 1, Marker(i + 1, false));
  }

  predicate NumberByte(c: char) { IsDigit(c) || c == '-' || c == '+' || c == '.' || IsExp(c) }

  lemma PartBytes(s: string, k: nat)
    requires k < |s| && (JsonNumber.IntPart(s) || JsonNumber.FracPart(s) || JsonNumber.ExpPart(s))
    ensures NumberByte(s[k])
  {
    if k >= 1 { assert s[k] == s[1..][k - 1]; }
    if k >= 2 { assert s[k] == s[2..][k - 2]; }
  }

  /** Every byte of a number. */
  lemma NumberBytes(t: string, i: nat, j: nat, k: nat)
    requires JsonNumber.IsNumber(t, i, j) && i <= k < j
    ensures NumberByte(t[k])
  {
    hide JsonNumber.IntPart, JsonNumber.FracPart, JsonNumber.ExpPart;
    var m: nat, e: nat, f: nat :| JsonNumber.NumberParts(t, i, m, e, f, j);
    if k >= f {
      PartBytes(t[f..j], k - f);
    } else if k >= e {
      PartBytes(t[e..f], k - e);
    } else if k >= m {
      PartBytes(t[m..e], k - m);
    }
  }

  lemma NumberInText(t: string, i: nat, j: nat)
    requires JsonNumber.IsNumber(t, i, j)
    ensures i <= j <= |t|
  {
  }

  lemma NumberScans(t: string, i: nat, j: nat)
    requires JsonNumber.IsNumber(t, i, j) && j <= |t| && Stops(At(t, j))
    ensures Scan(t, i) == Lexeme(i, j, ValueNumber)
  {
    hide Scan, JsonNumber.IsNumber;
    NumberInText(t, i, j);
    JsonNumber.NumberIsLongestMatch(t, i);
    var x := Scan(t, i);
    ScanInText(t, i);
    if j < x.cursor { NumberBytes(t, i, x.cursor, j); }
  }

  /** What parsing yields when it comes to an outcome, the next token being given. */
  predicate Yields(r: Parsed, o: Outcome, next: Lexeme) {
    match o
    case Value(v) => r == Parsed(v, next)
    case Rejected => r.Failed?
    case HasFloat => r.FloatMet?
  }

  /** The parser at i comes to the outcome, and the next token, if there is a value, is the one at j. */
  ghost predicate ParsesTo(t: string, i: nat, j: nat, o: Outcome)
    requires i <= |t| && j <= |t|
  {
    var x := Scan(t, i);
    Yields(ParseAt(t, i), o, Scan(t, j)) && !x.tok.ValueSeparator? && !x.tok.EndArray? && !x.tok.EndObject?
  }

  lemma NullComplete(t: string, i: nat, j: nat)
    requires i <= j <= |t| && t[i..j] == "null"
    ensures ParsesTo(t, i, j, Value(Null))
  {
    assert j == i + 4;
    JsonRoundTrip.NullParses(t, i);
  }

  lemma BoolComplete(t: string, i: nat, j: nat, b: bool)
    requires i <= j <= |t| && t[i..j] == if b then "true" else "false"
    ensures ParsesTo(t, i, j, Value(Bool(b)))
  {
    assert j == i + if b then 4 else 5;
    JsonRoundTrip.BoolParses(t, i, b);
  }

  lemma NumberComplete(t: string, i: nat, j: nat, text: string)
    requires i <= j <= |t| && IsText(Lenient, t, i, j, NumDoc(text)) && Stops(At(t, j))
    ensures ParsesTo(t, i, j, NumberOf(text))
  {
    hide Scan, IntegerValue, IsIntegerText, JsonNumber.IsNumber;
    NumberScans(t, i, j);
    ScanInText(t, i);
  }

  lemma StringComplete(t: string, i: nat, j: nat, us: seq<Unit>)
    requires i <= j <= |t| && IsText(Lenient, t, i, j, StrDoc(us))
    ensures ParsesTo(t, i, j, Denotes(StrDoc(us)))
  {
    hide Scan, StringValue, Body, Units, LoneHigh, Meaning;
    StringScans(t, i, j);
    ScanInText(t, i);
    StringValueMeans(t, Scan(t, i));
  }

  /** One round of the loop over the members, its key and colon being there. */
  lemma MemberOutcome(t: string, x: Lexeme, done: seq<Member>)
    requires Fits(t, x) && x.tok.ValueString? && Next(t, x).tok.NameSeparator?
    ensures var w := Next(t, Next(t, x)); var r := ParseValue(t, w);
      ParseMembers(t, x, done) ==
      if StringValue(t, x).Thrown? then Failed
      else if !r.Parsed? then r
      else if r.next.tok.ValueSeparator? then ParseMembers(t, r.next, Put(done, StringValue(t, x).value, r.value))
      else if r.next.tok.EndObject? then Parsed(Obj(Put(done, StringValue(t, x).value, r.value)), Next(t, r.next))
      else Failed
  {
    hide Next, StringValue, ParseValue, Put;
  }

  /** A text of the grammar is parsed to what it denotes. */
  lemma {:induction false} ValueComplete(t: string, i: nat, j: nat, d: Doc)
    requires i <= j <= |t| && IsText(Lenient, t, i, j, d) && Stops(At(t, j))
    ensures ParsesTo(t, i, j, Denotes(d))
    decreases j - i, 0
  {
    hide Scan, IsElems, IsMembers, StringText, DenoteElems, DenoteMembers, Stops, ParsesTo, NumberOf, LoneHigh, Meaning;
    match d
    case NullDoc => NullComplete(t, i, j);
    case BoolDoc(b) => BoolComplete(t, i, j, b);
    case NumDoc(text) => NumberComplete(t, i, j, text);
    case StrDoc(us) => StringComplete(t, i, j, us);
    case ArrDoc(es) => ArrayComplete(t, i, j, es);
    case ObjDoc(ps) => ObjectComplete(t, i, j, ps);
  }

  lemma {:induction false} ArrayComplete(t: string, i: nat, j: nat, es: seq<Doc>)
    requires i + 2 <= j <= |t| && t[i] == '[' && t[j - 1] == ']' && IsElems(Lenient, t, i + 1, j - 1, es)
    ensures ParsesTo(t, i, j, DenoteElems(es, []))
    decreases j - i, 0, 0
  {
    hide Scan, ParseElems;
    OneScans(t, i, '[');
    if es == [] {
      SkipWs(t, i + 1, j - 1);
      OneScans(t, j - 1, ']');
    } else {
      hide IsElems, DenoteElems;
      ElemsComplete(t, i + 1, j - 1, es, []);
      JsonRoundTrip.ArrayStep(t, Scan(t, i));
    }
  }

  lemma {:induction false} ElemsComplete(t: string, i: nat, j: nat, es: seq<Doc>, done: seq<Json>)
    requires es != [] && i <= j < |t| && t[j] == ']' && IsElems(Lenient, t, i, j, es)
    ensures Yields(ElemsAt(t, i, done), DenoteElems(es, done), Scan(t, j + 1))
    ensures !Scan(t, i).tok.ValueSeparator? && !Scan(t, i).tok.EndArray?
    decreases j - i, 1
  {
    hide Scan, ParseValue, IsText, Denotes;
    var a: nat, b: nat, c: nat :| ElemsCut(Lenient, t, i, j, es, a, b, c);
    SkipWs(t, i, a);
    SkipWs(t, b, c);
    assert t[c] == if |es| == 1 then ']' else ',';
    OneScans(t, c, t[c]);
    ValueComplete(t, a, b, es[0]);
    var o := Denotes(es[0]);
    if o.Value? {
      if |es| == 1 {
        assert DenoteElems(es[1..], done + [o.v]) == Value(Arr(done + [o.v]));
      } else {
        ElemsComplete(t, c + 1, j, es[1..], done + [o.v]);
        JsonRoundTrip.AfterComma(t, Scan(t, c), done + [o.v]);
      }
    }
  }

  lemma {:induction false} ObjectComplete(t: string, i: nat, j: nat, ps: seq<Pair>)
    requires i + 2 <= j <= |t| && t[i] == '{' && t[j - 1] == '}' && IsMembers(Lenient, t, i + 1, j - 1, ps)
    ensures ParsesTo(t, i, j, DenoteMembers(ps, []))
    decreases j - i, 0, 0
  {
    hide Scan, ParseMembers;
    OneScans(t, i, '{');
    if ps == [] {
      SkipWs(t, i + 1, j - 1);
      OneScans(t, j - 1, '}');
    } else {
      hide IsMembers, DenoteMembers;
      MembersComplete(t, i + 1, j - 1, ps, []);
      JsonRoundTrip.ObjectStep(t, Scan(t, i));
    }
  }

  lemma {:induction false} MembersComplete(t: string, i: nat, j: nat, ps: seq<Pair>, done: seq<Member>)
    requires ps != [] && i <= j < |t| && t[j] == '}' && IsMembers(Lenient, t, i, j, ps)
    ensures Yields(MembersAt(t, i, done), DenoteMembers(ps, done), Scan(t, j + 1))
    ensures !Scan(t, i).tok.ValueSeparator? && !Scan(t, i).tok.EndObject?
    decreases j - i, 1
  {
    hide Scan, ParseValue, IsText, StringText, StringValue, Put, ParseMembers, Denotes, Units, LoneHigh, Meaning;
    var cut :| MembersCut(Lenient, t, i, j, ps, cut);
    var Cut(k, l, m, a, b, c) := cut;
    SkipWs(t, i, k);
    StringScans(t, k, l);
    SkipWs(t, l, m);
    OneScans(t, m, ':');
    SkipWs(t, m + 1, a);
    SkipWs(t, b, c);
    assert t[c] == if |ps| == 1 then '}' else ',';
    OneScans(t, c, t[c]);
    ValueComplete(t, a, b, ps[0].value);
    ScanInText(t, k);
    StringValueMeans(t, Scan(t, k));
    MemberOutcome(t, Scan(t, k), done);
    var o := Denotes(ps[0].value);
    if !LoneHigh(ps[0].key) && o.Value? {
      var more := Put(done, Meaning(ps[0].key), o.v);
      if |ps| == 1 {
        assert DenoteMembers(ps[1..], more) == Value(Obj(more));
      } else {
        MembersComplete(t, c + 1, j, ps[1..], more);
        JsonRoundTrip.AfterMemberComma(t, Scan(t, c), more);
      }
    }
  }

  // ---- both directions ----

  lemma EndScans(t: string, c: nat)
    requires c <= |t| && At(t, c) == '\0'
    ensures Scan(t, c).tok.EndOfInput?
  {
  }

  /** A text of the lenient grammar is parsed to what it denotes, or rejected if it denotes nothing. */
  lemma TextsAreParsed(t: string, d: Doc)
    requires IsJson(Lenient, t, d)
    ensures Parse(t) == Denotes(d)
  {
    hide Scan, ParseValue, IsText, Denotes;
    ScanInText(t, 0);
    var a: nat, b: nat, c: nat :| TextCut(Lenient, t, d, a, b, c);
    SkipWs(t, 0, a);
    ValueComplete(t, a, b, d);
    SkipWs(t, b, c);
    TokenAt(t, c);
    EndScans(t, c);
  }

  /** Whatever is accepted is a text of the lenient grammar, with the value it denotes. */
  lemma AcceptedIsText(t: string) returns (d: Doc)
    requires Parse(t).Value?
    ensures IsJson(Lenient, t, d) && Denotes(d) == Parse(t)
  {
    hide Scan, ParseValue, IsText, Denotes;
    ScanInText(t, 0);
    TokenShape(t, 0);
    var b;
    d, b := ValueSound(t, 0);
    TokenShape(t, b);
    assert TextCut(Lenient, t, d, Scan(t, 0).start, b, Scan(t, b).start);
  }

  /** The parser accepts exactly the texts of the lenient grammar that denote a value, with that value. */
  lemma ParserIsExact(t: string, v: Json)
    ensures Parse(t) == Value(v) <==> exists d :: IsJson(Lenient, t, d) && Denotes(d) == Value(v)
  {
    hide IsJson, Parse, Denotes;
    if Parse(t) == Value(v) { var d := AcceptedIsText(t); }
    if d :| IsJson(Lenient, t, d) && Denotes(d) == Value(v) { TextsAreParsed(t, d); }
  }

  /**
   Which texts of the lenient grammar are rejected: those with a high surrogate that stands alone,
   and no others, unless a number stands in front that the model leaves out.
   */
  lemma RejectedExactly(t: string, d: Doc)
    requires IsJson(Lenient, t, d)
    ensures Admits(Parse(t), LoneIn(d), FloatIn(d))
  {
    hide IsJson, Parse, Denotes, LoneIn, FloatIn;
    TextsAreParsed(t, d);
    DenotesExactly(d);
  }

  /** However a text is read by the lenient grammar, it denotes the same. */
  lemma GrammarIsUnambiguous(t: string, d: Doc, e: Doc)
    requires IsJson(Lenient, t, d) && IsJson(Lenient, t, e)
    ensures Denotes(d) == Denotes(e)
  {
    hide IsJson, Parse, Denotes;
    TextsAreParsed(t, d);
    TextsAreParsed(t, e);
  }
}
