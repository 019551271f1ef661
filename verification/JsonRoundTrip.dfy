/**
 The printer and the parser undo each other: parsing the text of a value, compact or with
 any indent, returns the value.
 */
module JsonRoundTrip {
  import opened JsonLexer
  import opened JsonMeaning
  import opened JsonString
  import opened JsonValue
  import opened JsonParser
  import JsonNumber

  /** The bytes that can follow a value: none of them prolongs a number. */
  predicate Ends(c: char) { c == '\0' || c == ',' || c == '\n' || c == ' ' || c == ']' || c == '}' }

  predicate Blank(s: string) { forall i :: 0 <= i < |s| ==> s[i] == ' ' || s[i] == '\n' }

  // ---- tokens ----

  lemma {:induction false} SkipTo(t: string, p: nat, q: nat)
    requires p <= q <= |t| && forall i :: p <= i < q ==> IsSpace(t[i])
    ensures JsonNumber.TokenStart(t, p) == JsonNumber.TokenStart(t, q)
    decreases q - p
  {
    if p < q { SkipTo(t, p + 1, q); }
  }

  /** Blank text in front of a token does not matter. */
  lemma SkipBlank(t: string, p: nat, blank: string)
    requires TextAt(t, p, blank) && Blank(blank)
    ensures Scan(t, p) == Scan(t, p + |blank|)
  {
    TextChars(t, p, blank);
    forall i | p <= i < p + |blank| ensures IsSpace(t[i]) { assert At(t, p + (i - p)) == blank[i - p]; }
    SkipTo(t, p, p + |blank|);
    JsonNumber.ScanFromStart(t, p);
    JsonNumber.ScanFromStart(t, p + |blank|);
  }

  /** A one-byte token. */
  lemma Punctuation(t: string, p: nat, c: char)
    requires TextAt(t, p, [c]) && First(c).AcceptNext?
    ensures Scan(t, p) == Lexeme(p, p + 1, First(c).tok)
  {
    assert t[p..p + 1][0] == t[p];
  }

  /** The rest of a literal. */
  lemma {:induction false} RunLiteral(t: string, s: nat, rest: string, tok: Token, p: nat, m: Marker)
    requires TextAt(t, p, rest) && '\0' !in rest && m.pos <= p
    ensures Run(t, s, Literal(rest, tok), p, m) == Lexeme(s, p + |rest|, tok)
    decreases |rest|
  {
    if rest != "" {
      assert t[p..p + |rest|][0] == t[p];
      assert t[p + 1..p + |rest|] == t[p..p + |rest|][1..];
      RunLiteral(t, s, rest[1..], tok, p + 1, m);
    }
  }

  lemma LiteralScans(t: string, p: nat, c: char, rest: string, tok: Token)
    requires TextAt(t, p, [c] + rest) && '\0' !in rest && First(c) == GotoMarked(Literal(rest, tok))
    ensures Scan(t, p) == Lexeme(p, p + 1 + |rest|, tok)
  {
    SplitText(t, p, [c], rest);
    assert t[p..p + 1][0] == t[p];
    RunLiteral(t, p, rest, tok, p + 1, Marker(p + 1, false));
  }

  // ---- integers ----

  lemma {:induction false} DigitsAreDigits(n: nat)
    ensures forall i :: 0 <= i < |Digits(n)| ==> JsonLexer.IsDigit(Digits(n)[i])
    ensures Digits(n) != "" && (Digits(n)[0] == '0' <==> n == 0) && (n == 0 ==> Digits(n) == "0")
    ensures Natural(Digits(n)) == n
  {
    if n >= 10 {
      DigitsAreDigits(n / 10);
      assert Digits(n)[..|Digits(n)| - 1] == Digits(n / 10);
    }
  }

  lemma {:induction false} DigitsStopAt(t: string, p: nat, q: nat)
    requires p <= q <= |t| && (forall i :: p <= i < q ==> JsonLexer.IsDigit(t[i])) && !JsonLexer.IsDigit(At(t, q))
    ensures JsonNumber.DigitsEnd(t, p) == q
    decreases q - p
  {
    if p < q { DigitsStopAt(t, p + 1, q); }
  }

  /** A printed natural number is scanned to its end. */
  lemma DigitsScan(t: string, m: nat, n: nat)
    requires TextAt(t, m, Digits(n)) && Ends(Peek(t, m + |Digits(n)|))
    ensures var q := m + |Digits(n)|;
      JsonNumber.IntEnd(t, m) == q && JsonNumber.FracEnd(t, q) == q && JsonNumber.ExpEnd(t, q) == q
    ensures JsonLexer.IsDigit(At(t, m))
  {
    hide Digits;
    DigitsAreDigits(n);
    TextChars(t, m, Digits(n));
    var q := m + |Digits(n)|;
    forall i | m <= i < q ensures JsonLexer.IsDigit(t[i]) { assert At(t, m + (i - m)) == Digits(n)[i - m]; }
    assert At(t, m + 0) == Digits(n)[0];
    if n != 0 { DigitsStopAt(t, m, q); }
  }

  lemma IntegerScans(t: string, p: nat, n: int)
    requires TextAt(t, p, Decimal(n)) && Ends(Peek(t, p + |Decimal(n)|))
    ensures Scan(t, p) == Lexeme(p, p + |Decimal(n)|, ValueNumber)
  {
    hide Digits, JsonNumber.IntEnd, JsonNumber.FracEnd, JsonNumber.ExpEnd, Ends, Scan;
    if n < 0 {
      SplitText(t, p, "-", Digits(-n));
      assert t[p..p + 1][0] == t[p];
      DigitsScan(t, p + 1, -n);
    } else {
      DigitsScan(t, p, n);
      DigitsAreDigits(n);
      TextChars(t, p, Digits(n));
      assert At(t, p + 0) == Digits(n)[0];
    }
    JsonNumber.ScanNumber(t, p);
  }

  lemma DecimalValue(n: int)
    ensures IntegerValue(Decimal(n)) == n && IsIntegerText(Decimal(n))
  {
    hide Digits, Natural;
    if n < 0 {
      DigitsAreDigits(-n);
      assert Decimal(n)[1..] == Digits(-n);
    } else {
      DigitsAreDigits(n);
    }
  }

  lemma IntegerParses(t: string, p: nat, n: int)
    requires TextAt(t, p, Decimal(n)) && Ends(Peek(t, p + |Decimal(n)|)) && -I64 <= n < I64
    ensures var x := Scan(t, p);
      Fits(t, x) && x.tok.ValueNumber? && ParseValue(t, x) == Parsed(Int(n), Scan(t, p + |Decimal(n)|))
  {
    hide Decimal, IntegerValue, IsIntegerText;
    IntegerScans(t, p, n);
    ScanInText(t, p);
    DecimalValue(n);
  }

  // ---- values ----

  /** The text stands in t at p, and is followed by a byte that ends it. */
  predicate Stands(t: string, p: nat, s: string) {
    TextAt(t, p, s) && Ends(Peek(t, p + |s|))
  }

  /** What parsing the text of v at p has to give. */
  predicate Parses(t: string, p: nat, v: Json, n: nat)
    requires p + n <= |t|
  {
    var x := Scan(t, p);
    Fits(t, x) && ParseValue(t, x) == Parsed(v, Scan(t, p + n)) &&
    !x.tok.ValueSeparator? && !x.tok.EndArray? && !x.tok.EndObject?
  }

  lemma NullParses(t: string, p: nat)
    requires TextAt(t, p, "null")
    ensures Parses(t, p, Null, 4)
  {
    assert "null" == ['n'] + "ull";
    LiteralScans(t, p, 'n', "ull", LiteralNull);
  }

  lemma BoolParses(t: string, p: nat, b: bool)
    requires TextAt(t, p, if b then "true" else "false")
    ensures Parses(t, p, Bool(b), if b then 4 else 5)
  {
    if b {
      assert "true" == ['t'] + "rue";
      LiteralScans(t, p, 't', "rue", LiteralTrue);
    } else {
      assert "false" == ['f'] + "alse";
      LiteralScans(t, p, 'f', "alse", LiteralFalse);
    }
  }

  lemma StringParses(t: string, p: nat, s: string)
    requires TextAt(t, p, Quoted(s))
    ensures Parses(t, p, Str(s), |Quoted(s)|)
  {
    hide Quoted, StringValue;
    StringRoundTrip(t, p, s);
    ScanInText(t, p);
  }

  // ---- arrays ----

  lemma BlankBreak(st: Style, indent: u32)
    ensures Blank(Break(st)) && Blank(Spaces(indent)) && Blank(Break(st) + Spaces(indent))
  {
  }

  /** The comma between two elements or members, and the token after it. */
  lemma CommaScans(t: string, p: nat, st: Style)
    requires TextAt(t, p, Comma(st))
    ensures Ends(Peek(t, p)) && Scan(t, p) == Lexeme(p, p + 1, ValueSeparator)
    ensures Fits(t, Scan(t, p)) && Next(t, Scan(t, p)) == Scan(t, p + |Comma(st)|)
  {
    assert Comma(st) == "," + Break(st);
    SplitText(t, p, ",", Break(st));
    Punctuation(t, p, ',');
    assert t[p..p + 1][0] == t[p];
    BlankBreak(st, 0);
    SkipBlank(t, p + 1, Break(st));
  }

  /** The closing bracket of an array or object, blanks in front of it. */
  lemma CloseScans(t: string, q: nat, st: Style, indent: u32, c: char)
    requires TextAt(t, q, Break(st) + Spaces(indent) + [c]) && First(c).AcceptNext? && Ends(c)
    requires First(c).tok.EndArray? || First(c).tok.EndObject?
    ensures var r := q + |Break(st) + Spaces(indent)|;
      Ends(Peek(t, q)) && Scan(t, q) == Lexeme(r, r + 1, First(c).tok) && Fits(t, Scan(t, q))
  {
    var blank := Break(st) + Spaces(indent);
    SplitText(t, q, blank, [c]);
    BlankBreak(st, indent);
    SkipBlank(t, q, blank);
    Punctuation(t, q + |blank|, c);
    assert t[q..q + |blank + [c]|][0] == t[q];
  }

  /** What is needed of the text of an element, or of a member, in front of the others. */
  lemma SplitList(t: string, p: nat, first: string, st: Style, rest: string, single: bool)
    requires Stands(t, p, first + (if single then "" else Comma(st) + rest))
    ensures Stands(t, p, first)
    ensures !single ==> TextAt(t, p + |first|, Comma(st)) && Stands(t, p + |first| + |Comma(st)|, rest)
  {
    if single {
      assert first + "" == first;
    } else {
      SplitText(t, p, first, Comma(st) + rest);
      SplitText(t, p + |first|, Comma(st), rest);
      CommaScans(t, p + |first|, st);
    }
  }

  lemma {:induction false} ElemsParse(t: string, p: nat, es: seq<Json>, done: seq<Json>, st: Style, indent: u32)
    requires es != [] && (forall e :: e in es ==> Typed(e)) && Stands(t, p, Elems(es, st, indent))
    requires var z := Scan(t, p + |Elems(es, st, indent)|); Fits(t, z) && z.tok.EndArray?
    ensures var x := Scan(t, p);
      var z := Scan(t, p + |Elems(es, st, indent)|);
      Fits(t, x) && !x.tok.ValueSeparator? && !x.tok.EndArray? &&
      ParseElems(t, x, done) == Parsed(Arr(done + es), Next(t, z))
    decreases es, 0
  {
    hide Text, Spaces, ParseValue, Next, Comma, Stands, TextAt;
    var e := es[0];
    var head := Spaces(indent) + Text(e, st, indent);
    var p1 := p + |head|;
    if |es| == 1 {
      assert Elems(es, st, indent) == head + "";
      assert es == [e];
      SplitList(t, p, head, st, "", true);
      ElemParses(t, p, e, st, indent);
    } else {
      var rest := Elems(es[1..], st, indent);
      SplitList(t, p, head, st, rest, false);
      ElemParses(t, p, e, st, indent);
      CommaScans(t, p1, st);
      var p2 := p1 + |Comma(st)|;
      assert p2 + |rest| == p + |Elems(es, st, indent)|;
      ElemsParse(t, p2, es[1..], done + [e], st, indent);
      AfterComma(t, Scan(t, p1), done + [e]);
      assert done + [e] + es[1..] == done + es;
    }
  }

  /** A leading comma is consumed by the loop itself. */
  lemma AfterComma(t: string, x: Lexeme, done: seq<Json>)
    requires Fits(t, x) && x.tok.ValueSeparator? && !Next(t, x).tok.ValueSeparator?
    ensures ParseElems(t, x, done) == ParseElems(t, Next(t, x), done)
  {
    hide Next, ParseValue;
  }

  lemma {:induction false} ElemParses(t: string, p: nat, e: Json, st: Style, indent: u32)
    requires Typed(e) && Stands(t, p, Spaces(indent) + Text(e, st, indent))
    ensures Parses(t, p, e, |Spaces(indent) + Text(e, st, indent)|)
    decreases e, 2
  {
    hide Text, ParseValue, Next;
    var text := Text(e, st, indent);
    SplitText(t, p, Spaces(indent), text);
    BlankBreak(st, indent);
    SkipBlank(t, p, Spaces(indent));
    ValueParses(t, p + indent, e, st, indent);
  }

  lemma {:induction false} ArrayParses(t: string, p: nat, es: seq<Json>, st: Style, indent: u32)
    requires es != [] && (forall e :: e in es ==> Typed(e)) && Stands(t, p, Text(Arr(es), st, indent))
    ensures Parses(t, p, Arr(es), |Text(Arr(es), st, indent)|)
    decreases es, 1
  {
    hide Elems, Spaces, Deeper, ParseElems, ParseValue, Next, TextAt, Run, JsonLexer.Step;
    var inner := Elems(es, st, Deeper(st, indent));
    ListText(t, p, "[", Text(Arr(es), st, indent), st, inner, indent, "]");
    hide Stands, Break;
    var p1 := p + |"[" + Break(st)|;
    var q := p1 + |inner|;
    CloseScans(t, q, st, indent, ']');
    ElemsParse(t, p1, es, [], st, Deeper(st, indent));
    assert [] + es == es;
    OpenScans(t, p, '[', st);
    ArrayStep(t, Scan(t, p));
    NextIs(t, Scan(t, q));
  }

  /** An array whose first token is neither a bracket nor a comma. */
  lemma ArrayStep(t: string, x: Lexeme)
    requires Fits(t, x) && x.tok.BeginArray? && !Next(t, x).tok.EndArray? && !Next(t, x).tok.ValueSeparator?
    ensures ParseValue(t, x) == ParseElems(t, Next(t, x), [])
  {
    hide Next, ParseElems;
  }

  lemma ObjectStep(t: string, x: Lexeme)
    requires Fits(t, x) && x.tok.BeginObject? && !Next(t, x).tok.EndObject? && !Next(t, x).tok.ValueSeparator?
    ensures ParseValue(t, x) == ParseMembers(t, Next(t, x), [])
  {
    hide Next, ParseMembers;
  }

  /** The bracket that opens an array or object, and the first token after it. */
  lemma OpenScans(t: string, p: nat, c: char, st: Style)
    requires TextAt(t, p, [c] + Break(st)) && First(c).AcceptNext?
    requires First(c).tok.BeginArray? || First(c).tok.BeginObject?
    ensures Scan(t, p) == Lexeme(p, p + 1, First(c).tok) && Fits(t, Scan(t, p))
    ensures Next(t, Scan(t, p)) == Scan(t, p + |[c] + Break(st)|)
  {
    SplitText(t, p, [c], Break(st));
    Punctuation(t, p, c);
    BlankBreak(st, 0);
    SkipBlank(t, p + 1, Break(st));
  }

  /** The pieces of the text of a nonempty array or object. */
  lemma ListText(t: string, p: nat, open: string, whole: string, st: Style, inner: string, indent: u32, close: string)
    requires |open| == |close| == 1 && First(close[0]).AcceptNext? && Ends(close[0])
    requires First(close[0]).tok.EndArray? || First(close[0]).tok.EndObject?
    requires whole == open + Break(st) + inner + Break(st) + Spaces(indent) + close && Stands(t, p, whole)
    ensures TextAt(t, p, open + Break(st)) && Stands(t, p + |open + Break(st)|, inner)
    ensures TextAt(t, p + |open + Break(st)| + |inner|, Break(st) + Spaces(indent) + close)
    ensures |whole| == |open + Break(st)| + |inner| + |Break(st) + Spaces(indent)| + 1
  {
    hide Break, Spaces, Ends;
    var front := open + Break(st);
    var back := Break(st) + Spaces(indent) + close;
    assert whole == front + (inner + back);
    SplitText(t, p, front, inner + back);
    SplitText(t, p + |front|, inner, back);
    assert close == [close[0]];
    CloseScans(t, p + |front| + |inner|, st, indent, close[0]);
  }

  // ---- objects ----

  lemma {:induction false} MembersParse(t: string, p: nat, ms: seq<Member>, done: seq<Member>, st: Style, indent: u32)
    requires ms != [] && Ordered(done + ms) && (forall m :: m in ms ==> Typed(m.value))
    requires Stands(t, p, Members(ms, st, indent))
    requires var z := Scan(t, p + |Members(ms, st, indent)|); Fits(t, z) && z.tok.EndObject?
    ensures var x := Scan(t, p);
      var z := Scan(t, p + |Members(ms, st, indent)|);
      Fits(t, x) && !x.tok.ValueSeparator? && !x.tok.EndObject? &&
      ParseMembers(t, x, done) == Parsed(Obj(done + ms), Next(t, z))
    decreases ms, 0
  {
    hide MemberText, ParseValue, Next, Comma, Stands, TextAt, Ordered, Put, StringValue, ParseMembers;
    var m := ms[0];
    var head := MemberText(m, st, indent);
    var p1 := p + |head|;
    NextKey(done, ms);
    if |ms| == 1 {
      assert Members(ms, st, indent) == head + "";
      assert ms == [m];
      SplitList(t, p, head, st, "", true);
      MemberParses(t, p, m, done, st, indent);
    } else {
      var rest := Members(ms[1..], st, indent);
      SplitList(t, p, head, st, rest, false);
      MemberParses(t, p, m, done, st, indent);
      CommaScans(t, p1, st);
      var p2 := p1 + |Comma(st)|;
      assert p2 + |rest| == p + |Members(ms, st, indent)|;
      assert done + [m] + ms[1..] == done + ms;
      MembersParse(t, p2, ms[1..], done + [m], st, indent);
      AfterMemberComma(t, Scan(t, p1), done + [m]);
    }
  }

  lemma NextKey(done: seq<Member>, ms: seq<Member>)
    requires ms != [] && Ordered(done + ms)
    ensures Put(done, ms[0].key, ms[0].value) == done + [ms[0]]
  {
    var all := done + ms;
    forall m | m in done ensures Less(m.key, ms[0].key) {
      var i :| 0 <= i < |done| && done[i] == m;
      assert all[i] == m && all[|done|] == ms[0];
    }
    PutAtEnd(done, ms[0].key, ms[0].value);
    assert Member(ms[0].key, ms[0].value) == ms[0];
  }

  lemma AfterMemberComma(t: string, x: Lexeme, done: seq<Member>)
    requires Fits(t, x) && x.tok.ValueSeparator? && !Next(t, x).tok.ValueSeparator?
    ensures ParseMembers(t, x, done) == ParseMembers(t, Next(t, x), done)
  {
    hide Next, ParseValue, StringValue;
  }

  /** One round of the member loop. */
  lemma {:induction false} MemberParses(t: string, p: nat, m: Member, done: seq<Member>, st: Style, indent: u32)
    requires Typed(m.value) && Stands(t, p, MemberText(m, st, indent))
    ensures var x := Scan(t, p);
      var u := Scan(t, p + |MemberText(m, st, indent)|);
      && Fits(t, x) && x.tok.ValueString? && Fits(t, u)
      && ParseMembers(t, x, done) ==
         (if u.tok.ValueSeparator? then ParseMembers(t, u, Put(done, m.key, m.value))
          else if u.tok.EndObject? then Parsed(Obj(Put(done, m.key, m.value)), Next(t, u))
          else Failed)
    decreases m, 2
  {
    hide Text, ParseValue, ParseMembers, Next, Put, StringValue, Quoted, Ends, TextAt, Run, First, Scan, Colon, Spaces;
    var value := Text(m.value, st, indent);
    var k := p + indent;
    var c := k + |Quoted(m.key)|;
    MemberPieces(t, p, m, st, indent);
    SkipBlank(t, p, Spaces(indent));
    StringRoundTrip(t, k, m.key);
    ScanInText(t, p);
    ColonScans(t, c, st);
    ValueParses(t, c + |Colon(st)|, m.value, st, indent);
    NextIs(t, Scan(t, p));
    MemberStep(t, Scan(t, p), done, m.key);
  }

  /** Where the pieces of a member stand. */
  lemma MemberPieces(t: string, p: nat, m: Member, st: Style, indent: u32)
    requires Stands(t, p, MemberText(m, st, indent))
    ensures var k := p + indent;
      var c := k + |Quoted(m.key)|;
      var v := c + |Colon(st)|;
      && p + |MemberText(m, st, indent)| <= |t|
      && TextAt(t, p, Spaces(indent)) && Blank(Spaces(indent)) && TextAt(t, k, Quoted(m.key))
      && TextAt(t, c, Colon(st)) && Stands(t, v, Text(m.value, st, indent))
      && v + |Text(m.value, st, indent)| == p + |MemberText(m, st, indent)|
  {
    hide Text, Quoted, Ends, Colon;
    var value := Text(m.value, st, indent);
    assert MemberText(m, st, indent) == Spaces(indent) + (Quoted(m.key) + (Colon(st) + value));
    SplitText(t, p, Spaces(indent), Quoted(m.key) + (Colon(st) + value));
    SplitText(t, p + indent, Quoted(m.key), Colon(st) + value);
    SplitText(t, p + indent + |Quoted(m.key)|, Colon(st), value);
    BlankBreak(st, indent);
  }

  /** One round of the member loop on a key, a colon and a value. */
  lemma MemberStep(t: string, x: Lexeme, done: seq<Member>, key: string)
    requires Fits(t, x) && x.tok.ValueString? && StringValue(t, x) == Ok(key) && Next(t, x).tok.NameSeparator?
    requires ParseValue(t, Next(t, Next(t, x))).Parsed?
    ensures var r := ParseValue(t, Next(t, Next(t, x)));
      ParseMembers(t, x, done) ==
      (if r.next.tok.ValueSeparator? then ParseMembers(t, r.next, Put(done, key, r.value))
       else if r.next.tok.EndObject? then Parsed(Obj(Put(done, key, r.value)), Next(t, r.next))
       else Failed)
  {
    hide Next, ParseValue, StringValue, Put;
  }

  lemma NextIs(t: string, x: Lexeme)
    requires Fits(t, x) && !x.tok.EndOfInput?
    ensures Next(t, x) == Scan(t, x.cursor)
  {
  }

  lemma ColonScans(t: string, p: nat, st: Style)
    requires TextAt(t, p, Colon(st))
    ensures Scan(t, p) == Lexeme(p, p + 1, NameSeparator) && Fits(t, Scan(t, p))
    ensures Next(t, Scan(t, p)) == Scan(t, p + |Colon(st)|)
  {
    var blank := if st.pretty then " " else "";
    assert Colon(st) == ":" + blank;
    SplitText(t, p, ":", blank);
    Punctuation(t, p, ':');
    SkipBlank(t, p + 1, blank);
  }

  lemma {:induction false} ObjectParses(t: string, p: nat, ms: seq<Member>, st: Style, indent: u32)
    requires ms != [] && Ordered(ms) && (forall m :: m in ms ==> Typed(m.value))
    requires Stands(t, p, Text(Obj(ms), st, indent))
    ensures Parses(t, p, Obj(ms), |Text(Obj(ms), st, indent)|)
    decreases ms, 1
  {
    hide Members, Spaces, Deeper, ParseMembers, ParseValue, Next, TextAt, Run, JsonLexer.Step, Ordered;
    var inner := Members(ms, st, Deeper(st, indent));
    ListText(t, p, "{", Text(Obj(ms), st, indent), st, inner, indent, "}");
    hide Stands, Break;
    var p1 := p + |"{" + Break(st)|;
    var q := p1 + |inner|;
    CloseScans(t, q, st, indent, '}');
    assert [] + ms == ms;
    MembersParse(t, p1, ms, [], st, Deeper(st, indent));
    OpenScans(t, p, '{', st);
    ObjectStep(t, Scan(t, p));
    NextIs(t, Scan(t, q));
  }

  // ---- all values ----

  lemma {:induction false} ValueParses(t: string, p: nat, v: Json, st: Style, indent: u32)
    requires Typed(v) && Stands(t, p, Text(v, st, indent))
    ensures Parses(t, p, v, |Text(v, st, indent)|)
    decreases v, 1
  {
    hide Elems, Members, Decimal, Quoted, ParseValue, Parses, Ends;
    match v
    case Null => NullParses(t, p);
    case Bool(b) => BoolParses(t, p, b);
    case Int(n) => NumberParses(t, p, n);
    case Str(s) => StringParses(t, p, s);
    case Arr(es) => if es == [] { EmptyParses(t, p, '[', ']'); } else { ArrayParses(t, p, es, st, indent); }
    case Obj(ms) => if ms == [] { EmptyParses(t, p, '{', '}'); } else { ObjectParses(t, p, ms, st, indent); }
  }

  lemma NumberParses(t: string, p: nat, n: int)
    requires Stands(t, p, Decimal(n)) && -I64 <= n < I64
    ensures Parses(t, p, Int(n), |Decimal(n)|)
  {
    hide Decimal, ParseValue;
    IntegerParses(t, p, n);
  }

  lemma EmptyParses(t: string, p: nat, open: char, close: char)
    requires TextAt(t, p, [open, close]) && ((open == '[' && close == ']') || (open == '{' && close == '}'))
    ensures Parses(t, p, if open == '[' then Arr([]) else Obj([]), 2)
  {
    assert [open, close] == [open] + [close];
    SplitText(t, p, [open], [close]);
    Punctuation(t, p, open);
    Punctuation(t, p + 1, close);
  }

  /**
   The round trip: for every value the types can hold, and for compact text as well as for
   every indent, parsing the dumped text returns the value.
   */
  lemma DumpThenParse(v: Json, indent: int)
    requires Typed(v) && indent < 0x8000_0000
    ensures Parse(DumpText(v, indent)) == Value(v)
  {
    hide Text, Typed;
    var t := DumpText(v, indent);
    var st := if indent >= 0 then Style(true, indent) else Style(false, 0);
    assert t[0..0 + |t|] == t;
    ValueParses(t, 0, v, st, 0);
    assert Scan(t, |t|) == Lexeme(|t|, |t| + 1, EndOfInput);
  }

  /** Whatever was parsed is parsed again, to the same value, from any dump of it. */
  lemma ParseThenDumpThenParse(t: string, indent: int)
    requires Parse(t).Value? && indent < 0x8000_0000
    ensures Parse(DumpText(Parse(t).v, indent)) == Parse(t)
  {
    hide DumpText, ParseValue;
    ScanInText(t, 0);
    ParsedIsTyped(t, Scan(t, 0));
    DumpThenParse(Parse(t).v, indent);
  }
}
