/**
 The parser against RFC 7159: which accepted texts are texts of the standard, what a NUL byte
 hides, which texts of the standard are rejected, and that what is printed is one of them.
 */
module JsonStandard {
  import opened Common
  import opened JsonEscape
  import opened JsonLexer
  import opened JsonMeaning
  import opened JsonString
  import opened JsonValue
  import opened JsonParser
  import opened JsonGrammar
  import JsonNumber
  import JsonRoundTrip

  // ---- the two rules ----

  /** A byte that only the lenient rules admit, wherever it stands. */
  predicate Foreign(c: char) { c == '\0' || '\U{10}' <= c <= '\U{1F}' }

  predicate Clean(t: string, i: nat, j: nat)
    requires i <= j <= |t|
  {
    forall k :: i <= k < j ==> !Foreign(t[k])
  }

  lemma {:induction false} StrictIsClean(t: string, a: nat, b: nat)
    requires StrictBody(t, a, b)
    ensures Clean(t, a, b)
    decreases b - a
  {
    if a < b {
      if IsUnescaped(t[a]) && StrictBody(t, a + 1, b) { StrictIsClean(t, a + 1, b); }
      else if a + 2 <= b && IsEscapeLetter(t[a + 1]) && StrictBody(t, a + 2, b) { StrictIsClean(t, a + 2, b); }
      else { StrictIsClean(t, a + 6, b); }
    }
  }

  lemma {:induction false} CleanIsStrict(t: string, a: nat, b: nat)
    requires Body(t, a, b) && Clean(t, a, b)
    ensures StrictBody(t, a, b)
    decreases b - a
  {
    if a < b {
      if t[a] != '\\' { CleanIsStrict(t, a + 1, b); }
      else if t[a + 1] != 'u' { CleanIsStrict(t, a + 2, b); }
      else { CleanIsStrict(t, a + 6, b); }
    }
  }

  lemma StringRules(t: string, i: nat, j: nat)
    requires i <= j <= |t|
    ensures IsString(Strict, t, i, j) <==> IsString(Lenient, t, i, j) && Clean(t, i, j)
  {
    hide Body, StrictBody;
    if IsString(Strict, t, i, j) { StrictIsClean(t, i + 1, j - 1); }
    if IsString(Lenient, t, i, j) && Clean(t, i, j) { CleanIsStrict(t, i + 1, j - 1); }
  }

  lemma WsIsClean(t: string, i: nat, j: nat)
    requires Ws(t, i, j)
    ensures Clean(t, i, j)
  {
  }

  lemma NumberIsClean(t: string, i: nat, j: nat)
    requires i <= j <= |t| && JsonNumber.IsNumber(t, i, j)
    ensures Clean(t, i, j)
  {
    forall k | i <= k < j ensures !Foreign(t[k]) { NumberBytes(t, i, j, k); }
  }

  lemma WordIsClean(t: string, i: nat, j: nat, word: string)
    requires i <= j <= |t| && t[i..j] == word && (word == "null" || word == "true" || word == "false")
    ensures Clean(t, i, j)
  {
    forall k | i <= k < j ensures !Foreign(t[k]) { assert t[k] == word[k - i]; }
  }

  lemma Brackets(t: string, i: nat, j: nat)
    requires i + 2 <= j <= |t| && !Foreign(t[i]) && !Foreign(t[j - 1])
    ensures Clean(t, i, j) <==> Clean(t, i + 1, j - 1)
  {
  }

  lemma Parts(t: string, i: nat, k: nat, j: nat)
    requires i <= k <= j <= |t|
    ensures Clean(t, i, j) <==> Clean(t, i, k) && Clean(t, k, j)
  {
  }

  lemma WsInText(t: string, i: nat, j: nat)
    requires Ws(t, i, j)
    ensures i <= j <= |t|
  {
  }

  lemma NoneLeft(t: string, c: nat)
    requires c <= |t|
    ensures Clean(t, c, c)
  {
  }

  lemma Separator(t: string, c: nat, j: nat)
    requires c < j <= |t| && !Foreign(t[c])
    ensures Clean(t, c, j) <==> Clean(t, c + 1, j)
  {
  }

  /** Where a text is clean, the two rules agree, and every text of the standard is. */
  lemma {:induction false} TextRules(t: string, i: nat, j: nat, d: Doc)
    requires i <= j <= |t|
    ensures IsText(Strict, t, i, j, d) <==> IsText(Lenient, t, i, j, d) && Clean(t, i, j)
    decreases j - i, 0
  {
    hide Clean, IsElems, IsMembers, IsString, JsonNumber.IsNumber, Units;
    match d
    case NullDoc => if t[i..j] == "null" { WordIsClean(t, i, j, "null"); }
    case BoolDoc(b) => if t[i..j] == (if b then "true" else "false") { WordIsClean(t, i, j, t[i..j]); }
    case NumDoc(_) => if JsonNumber.IsNumber(t, i, j) { NumberIsClean(t, i, j); }
    case StrDoc(_) => StringRules(t, i, j);
    case ArrDoc(es) =>
      if i + 2 <= j && t[i] == '[' && t[j - 1] == ']' {
        ElemsRules(t, i + 1, j - 1, es);
        Brackets(t, i, j);
      }
    case ObjDoc(ps) =>
      if i + 2 <= j && t[i] == '{' && t[j - 1] == '}' {
        MembersRules(t, i + 1, j - 1, ps);
        Brackets(t, i, j);
      }
  }

  lemma {:induction false} ElemsRules(t: string, i: nat, j: nat, es: seq<Doc>)
    requires i <= j <= |t|
    ensures IsElems(Strict, t, i, j, es) <==> IsElems(Lenient, t, i, j, es) && Clean(t, i, j)
    decreases j - i, 2
  {
    hide Clean, ElemsCut;
    if es == [] {
      if Ws(t, i, j) { WsIsClean(t, i, j); }
    } else {
      forall a: nat, b: nat, c: nat
        ensures ElemsCut(Strict, t, i, j, es, a, b, c) <==> ElemsCut(Lenient, t, i, j, es, a, b, c) && Clean(t, i, j)
      {
        ElemsCutRules(t, i, j, es, a, b, c);
      }
    }
  }

  lemma {:induction false} ElemsCutRules(t: string, i: nat, j: nat, es: seq<Doc>, a: nat, b: nat, c: nat)
    requires i <= j <= |t| && es != []
    ensures ElemsCut(Strict, t, i, j, es, a, b, c) <==> ElemsCut(Lenient, t, i, j, es, a, b, c) && Clean(t, i, j)
    decreases j - i, 1
  {
    hide Clean, IsElems, IsText, Ws;
    if a <= b <= c <= j && Ws(t, i, a) && Ws(t, b, c) {
      WsInText(t, i, a);
      WsIsClean(t, i, a);
      WsIsClean(t, b, c);
      TextRules(t, a, b, es[0]);
      Parts(t, i, a, j);
      Parts(t, a, b, j);
      Parts(t, b, c, j);
      if c < j && t[c] == ',' {
        ElemsRules(t, c + 1, j, es[1..]);
        Separator(t, c, j);
      }
      NoneLeft(t, c);
    }
  }

  lemma {:induction false} MembersRules(t: string, i: nat, j: nat, ps: seq<Pair>)
    requires i <= j <= |t|
    ensures IsMembers(Strict, t, i, j, ps) <==> IsMembers(Lenient, t, i, j, ps) && Clean(t, i, j)
    decreases j - i, 2
  {
    hide Clean, MembersCut;
    if ps == [] {
      if Ws(t, i, j) { WsIsClean(t, i, j); }
    } else {
      forall cut
        ensures MembersCut(Strict, t, i, j, ps, cut) <==> MembersCut(Lenient, t, i, j, ps, cut) && Clean(t, i, j)
      {
        MembersCutRules(t, i, j, ps, cut);
      }
    }
  }

  lemma {:induction false} MembersCutRules(t: string, i: nat, j: nat, ps: seq<Pair>, cut: Cut)
    requires i <= j <= |t| && ps != []
    ensures MembersCut(Strict, t, i, j, ps, cut) <==> MembersCut(Lenient, t, i, j, ps, cut) && Clean(t, i, j)
    decreases j - i, 1
  {
    hide Clean, IsMembers, IsText, IsString, Ws, Units;
    var Cut(k, l, m, a, b, c) := cut;
    if k <= l <= m < a <= b <= c <= j && Ws(t, i, k) && Ws(t, l, m) && t[m] == ':' && Ws(t, m + 1, a) && Ws(t, b, c) {
      WsInText(t, i, k);
      WsIsClean(t, i, k);
      WsIsClean(t, l, m);
      WsIsClean(t, m + 1, a);
      WsIsClean(t, b, c);
      StringRules(t, k, l);
      TextRules(t, a, b, ps[0].value);
      Parts(t, i, k, j);
      Parts(t, k, l, j);
      Parts(t, l, m, j);
      Separator(t, m, j);
      Parts(t, m + 1, a, j);
      Parts(t, a, b, j);
      Parts(t, b, c, j);
      if c < j && t[c] == ',' {
        MembersRules(t, c + 1, j, ps[1..]);
        Separator(t, c, j);
      }
      NoneLeft(t, c);
    }
  }

  lemma CutRules(t: string, d: Doc, a: nat, b: nat, c: nat)
    ensures TextCut(Strict, t, d, a, b, c) <==> TextCut(Lenient, t, d, a, b, c) && Clean(t, 0, |t|)
  {
    hide IsText;
    if a <= b <= c <= |t| && Ws(t, 0, a) && Ws(t, b, c) {
      WsIsClean(t, 0, a);
      WsIsClean(t, b, c);
      TextRules(t, a, b, d);
      Parts(t, 0, a, |t|);
      Parts(t, a, b, |t|);
      Parts(t, b, c, |t|);
    }
  }

  /** A text is one of the standard exactly when it is a lenient one without foreign bytes. */
  lemma StrictExactly(t: string, d: Doc)
    ensures IsJson(Strict, t, d) <==> IsJson(Lenient, t, d) && Clean(t, 0, |t|)
  {
    hide IsText;
    if a: nat, b: nat, c: nat :| TextCut(Strict, t, d, a, b, c) {
      CutRules(t, d, a, b, c);
    }
    if a: nat, b: nat, c: nat :| TextCut(Lenient, t, d, a, b, c) {
      CutRules(t, d, a, b, c);
    }
  }

  // ---- the parser and the standard ----

  /** An accepted text is a text of RFC 7159 exactly when it holds no foreign byte. */
  lemma AcceptedIsStandard(t: string)
    requires Parse(t).Value?
    ensures (exists d :: IsJson(Strict, t, d)) <==> Clean(t, 0, |t|)
  {
    hide IsJson, Parse, Denotes;
    var d := AcceptedIsText(t);
    StrictExactly(t, d);
    forall e | IsJson(Strict, t, e) ensures Clean(t, 0, |t|) { StrictExactly(t, e); }
  }

  /** Without foreign bytes, the parser accepts exactly the texts of RFC 7159 that denote a value. */
  lemma StandardIsExact(t: string, v: Json)
    ensures Parse(t) == Value(v) && Clean(t, 0, |t|) <==> exists d :: IsJson(Strict, t, d) && Denotes(d) == Value(v)
  {
    hide IsJson, Parse, Denotes;
    if Parse(t) == Value(v) && Clean(t, 0, |t|) {
      var d := AcceptedIsText(t);
      StrictExactly(t, d);
    }
    if d :| IsJson(Strict, t, d) && Denotes(d) == Value(v) {
      StrictExactly(t, d);
      TextsAreParsed(t, d);
    }
  }

  /**
   Which texts of RFC 7159 are rejected: those with a high surrogate that stands alone, and
   no others, unless a number stands in front that the model leaves out.
   */
  lemma StandardRejects(t: string, d: Doc)
    requires IsJson(Strict, t, d)
    ensures Parse(t) == Denotes(d) && Admits(Parse(t), LoneIn(d), FloatIn(d))
  {
    hide IsJson, Parse, Denotes, LoneIn, FloatIn;
    StrictExactly(t, d);
    TextsAreParsed(t, d);
    RejectedExactly(t, d);
  }

  // ---- what a NUL byte hides ----

  /** u is the text in front of a NUL byte of t. */
  predicate EndsAt(t: string, u: string) {
    u <= t && |u| < |t| && t[|u|] == '\0'
  }

  /** The machine does not look behind a NUL byte. */
  lemma {:induction false} SameRun(t: string, u: string, start: nat, l: Label, cur: nat, m: Marker)
    requires EndsAt(t, u) && cur <= |u| && m.pos <= cur && Sound(l)
    ensures Run(t, start, l, cur, m) == Run(u, start, l, cur, m)
    decreases |u| - cur, if l.Begin? then 0 else 2
  {
    hide JsonLexer.Step, Run, Sound;
    RunOnce(t, start, l, cur, m);
    RunOnce(u, start, l, cur, m);
    assert At(t, cur) == At(u, cur);
    match JsonLexer.Step(l, At(t, cur))
    case Goto(next) => SameRun(t, u, start, next, cur + 1, m);
    case GotoMarked(next) => SameRun(t, u, start, next, cur + 1, Marker(cur + 1, MarksNumber(next)));
    case Rescan => SameScan(t, u, cur);
    case _ =>
  }

  lemma {:induction false} SameScan(t: string, u: string, at: nat)
    requires EndsAt(t, u) && at <= |u|
    ensures Scan(t, at) == Scan(u, at)
    decreases |u| - at, 1
  {
    hide Run;
    SameRun(t, u, at, Begin, at, Marker(at, false));
  }

  lemma {:induction false} SameUnits(t: string, u: string, a: nat, b: nat)
    requires EndsAt(t, u) && Body(u, a, b)
    ensures Body(t, a, b) && Units(t, a, b) == Units(u, a, b)
    decreases b - a
  {
    if a < b {
      if u[a] != '\\' {
        SameUnits(t, u, a + 1, b);
      } else if u[a + 1] != 'u' {
        SameUnits(t, u, a + 2, b);
      } else {
        SameUnits(t, u, a + 6, b);
        assert t[a + 2..a + 6] == u[a + 2..a + 6];
      }
    }
  }

  /** A token in front of the NUL byte has the same value. */
  lemma SameString(t: string, u: string, x: Lexeme)
    requires EndsAt(t, u) && StringText(u, x.start, x.cursor)
    ensures StringText(t, x.start, x.cursor) && StringValue(t, x) == StringValue(u, x)
  {
    hide StringValue, Body, Units, LoneHigh, Meaning;
    SameUnits(t, u, x.start + 1, x.cursor - 1);
    StringValueMeans(t, x);
    StringValueMeans(u, x);
  }

  lemma SameNumber(t: string, u: string, x: Lexeme)
    requires EndsAt(t, u) && Fits(u, x) && x.tok.ValueNumber?
    ensures Fits(t, x) && NumberValue(t, x) == NumberValue(u, x)
  {
    hide IsIntegerText, IntegerValue, Scan;
    assert t[x.start..x.cursor] == u[x.start..x.cursor];
    SameScan(t, u, x.cursor);
  }

  /** A token, and the one behind it. */
  lemma NextAfter(t: string, u: string, at: nat)
    requires EndsAt(t, u) && at <= |u|
    ensures var y := Scan(u, at);
      && Scan(t, at) == y && Fits(u, y) && at <= y.start
      && (!y.tok.EndOfInput? ==> y.cursor <= |u| && Scan(t, y.cursor) == Scan(u, y.cursor))
  {
    hide Scan;
    SameScan(t, u, at);
    ScanInText(u, at);
    if !Scan(u, at).tok.EndOfInput? { SameScan(t, u, Scan(u, at).cursor); }
  }

  /** What stands behind a NUL byte does not matter to any part of the parser. */
  lemma {:induction false} SameValue(t: string, u: string, at: nat)
    requires EndsAt(t, u) && at <= |u|
    ensures ParseAt(t, at) == ParseAt(u, at)
    decreases |u| - at, 0
  {
    hide Scan, ParseElems, ParseMembers, StringText, StringValue, NumberValue;
    NextAfter(t, u, at);
    TokenShape(u, at);
    var x := Scan(u, at);
    match x.tok
    case BeginArray =>
      SameElems(t, u, x.cursor, []);
      NextAfter(t, u, x.cursor);
    case BeginObject =>
      SameMembers(t, u, x.cursor, []);
      NextAfter(t, u, x.cursor);
    case ValueString => SameString(t, u, x);
    case ValueNumber => SameNumber(t, u, x);
    case _ =>
  }

  lemma {:induction false} SameElems(t: string, u: string, at: nat, done: seq<Json>)
    requires EndsAt(t, u) && at <= |u|
    ensures ElemsAt(t, at, done) == ElemsAt(u, at, done)
    decreases |u| - at, 1
  {
    hide Scan, ParseValue;
    NextAfter(t, u, at);
    var x := Scan(u, at);
    var from := if x.tok.ValueSeparator? then x.cursor else at;
    NextAfter(t, u, from);
    SameValue(t, u, from);
    var r := ParseAt(u, from);
    if r.Parsed? {
      var d, b := ValueSound(u, from);
      NextAfter(t, u, b);
      if r.next.tok.ValueSeparator? { SameElems(t, u, b, done + [r.value]); }
    }
  }

  lemma {:induction false} SameMembers(t: string, u: string, at: nat, done: seq<Member>)
    requires EndsAt(t, u) && at <= |u|
    ensures MembersAt(t, at, done) == MembersAt(u, at, done)
    decreases |u| - at, 1
  {
    hide Scan, ParseValue, Put, StringText, StringValue;
    NextAfter(t, u, at);
    var x := Scan(u, at);
    var from := if x.tok.ValueSeparator? then x.cursor else at;
    NextAfter(t, u, from);
    TokenShape(u, from);
    var y := Scan(u, from);
    if y.tok.ValueString? {
      SameString(t, u, y);
      NextAfter(t, u, y.cursor);
      var z := Scan(u, y.cursor);
      if StringValue(u, y).Ok? && z.tok.NameSeparator? {
        NextAfter(t, u, z.cursor);
        SameValue(t, u, z.cursor);
        var r := ParseAt(u, z.cursor);
        if r.Parsed? {
          var d, b := ValueSound(u, z.cursor);
          NextAfter(t, u, b);
          if r.next.tok.ValueSeparator? { SameMembers(t, u, b, Put(done, StringValue(u, y).value, r.value)); }
        }
      }
    }
  }

  /** Parsing a text is parsing what stands in front of a NUL byte in it. */
  lemma NulEndsText(t: string, k: nat)
    requires k < |t| && t[k] == '\0'
    ensures Parse(t) == Parse(t[..k])
  {
    hide Scan, ParseValue;
    SameValue(t, t[..k], 0);
  }

  // ---- inputs ----

  /** A text that is one string. */
  lemma OneString(t: string)
    requires StringText(t, 0, |t|)
    ensures IsJson(Lenient, t, StrDoc(Units(t, 1, |t| - 1)))
  {
    hide Units, Body;
    assert TextCut(Lenient, t, StrDoc(Units(t, 1, |t| - 1)), 0, |t|, |t|);
  }

  /** A control byte from 0x10 on is accepted in a string, though this is no text of the standard. */
  lemma ControlByteAccepted(c: char)
    requires '\U{10}' <= c <= '\U{1F}'
    ensures var t := ['"', c, '"']; Parse(t) == Value(Str([c])) && forall d :: !IsJson(Strict, t, d)
  {
    var t := ['"', c, '"'];
    assert Body(t, 2, 2) && Body(t, 1, 2) && Units(t, 2, 2) == [];
    var us := Units(t, 1, 2);
    assert us == [Plain(c)] && us[1..] == [];
    assert Meaning(us) == [c] + "" == [c];
    OneString(t);
    TextsAreParsed(t, StrDoc(us));
    hide IsJson;
    assert Foreign(t[1]);
    forall d ensures !IsJson(Strict, t, d) { StrictExactly(t, d); }
  }

  /** Whatever stands behind a NUL byte is accepted unread, though this is no text of the standard. */
  lemma NulHidesRest(rest: string)
    ensures var t := "null" + ['\0'] + rest; Parse(t) == Value(Null) && forall d :: !IsJson(Strict, t, d)
  {
    var t := "null" + ['\0'] + rest;
    assert t[..4] == "null";
    NulEndsText(t, 4);
    assert TextCut(Lenient, "null", NullDoc, 0, 4, 4) by { assert "null"[0..4] == "null"; }
    TextsAreParsed("null", NullDoc);
    hide IsJson;
    assert Foreign(t[4]);
    forall d ensures !IsJson(Strict, t, d) { StrictExactly(t, d); }
  }

  /** The string text of one escape with four digits. */
  lemma OneEscape(t: string)
    requires |t| == 8 && t[0] == '"' && t[7] == '"' && EscapeAt(t, 1, 7)
    ensures StringText(t, 0, 8) && IsJson(Lenient, t, StrDoc([Code(CodeAt(t, 1))]))
  {
    assert Body(t, 7, 7) && Body(t, 1, 7) && Units(t, 7, 7) == [];
    assert Units(t, 1, 7) == [Code(CodeAt(t, 1))];
    hide Units, Body;
    OneString(t);
  }

  lemma SurrogateDigits(t: string, c: char)
    requires t == ['"', '\\', 'u', 'D', c, '0', '0', '"'] && (c == '8' || c == 'C')
    ensures EscapeAt(t, 1, 7) && CodeAt(t, 1) == (if c == '8' then 0xD800 else 0xDC00) && Clean(t, 0, 8)
  {
    assert t[3..7] == ['D', c, '0', '0'];
    FourDigits(t[3..7]);
  }

  /** A text of the standard with a high surrogate that stands alone is rejected. */
  lemma LoneHighRejected()
    ensures var t := "\"\\uD800\""; IsJson(Strict, t, StrDoc([Code(0xD800)])) && Parse(t) == Rejected
  {
    var t := "\"\\uD800\"";
    var us := [Code(0xD800)];
    SurrogateDigits(t, '8');
    OneEscape(t);
    TextsAreParsed(t, StrDoc(us));
    StrictExactly(t, StrDoc(us));
    assert IsHigh(us[0]);
  }

  /** A low surrogate that stands alone is accepted, and its value is no well-formed UTF-8. */
  lemma LoneLowAccepted()
    ensures var t := "\"\\uDC00\"";
      && IsJson(Strict, t, StrDoc([Code(0xDC00)]))
      && Parse(t) == Value(Str(Encode(0xDC00))) && !WellFormed(Encode(0xDC00))
  {
    var t := "\"\\uDC00\"";
    var us := [Code(0xDC00)];
    assert !WellFormed(Encode(0xDC00)) by {
      assert Encode(0xDC00) + "" == Encode(0xDC00);
      FrontSurrogate(0xDC00, "");
    }
    hide WellFormed, Encode;
    SurrogateDigits(t, 'C');
    OneEscape(t);
    TextsAreParsed(t, StrDoc(us));
    StrictExactly(t, StrDoc(us));
    assert us[1..] == [] && Meaning(us) == Encode(0xDC00) + "" == Encode(0xDC00);
  }

  // ---- what is printed ----

  /** Text without foreign bytes. */
  predicate Pure(s: string) { forall i :: 0 <= i < |s| ==> !Foreign(s[i]) }

  lemma PureConcat(a: string, b: string)
    requires Pure(a) && Pure(b)
    ensures Pure(a + b)
  {
  }

  lemma EscapeIsPure(c: char)
    ensures Pure(EscapeChar(c))
  {
  }

  lemma EmptyIsPure()
    ensures Pure("") && Escape("") == ""
  {
  }

  lemma {:induction false} EscapedIsPure(s: string)
    ensures Pure(Escape(s))
  {
    hide Pure, EscapeChar;
    if s == "" {
      EmptyIsPure();
    } else {
      EscapedIsPure(s[..|s| - 1]);
      EscapeIsPure(s[|s| - 1]);
      PureConcat(Escape(s[..|s| - 1]), EscapeChar(s[|s| - 1]));
    }
  }

  lemma {:induction false} DigitsArePure(n: nat)
    ensures Pure(Digits(n))
  {
    if n >= 10 { DigitsArePure(n / 10); }
  }

  lemma QuotedIsPure(s: string)
    ensures Pure(Quoted(s))
  {
    hide Escape;
    EscapedIsPure(s);
  }

  lemma PunctuationIsPure(st: Style, indent: u32)
    ensures Pure(Break(st)) && Pure(Comma(st)) && Pure(Colon(st)) && Pure(Spaces(indent))
  {
  }

  lemma {:induction false} PrintedIsPure(v: Json, st: Style, indent: u32)
    ensures Pure(Text(v, st, indent))
    decreases v, 1
  {
    hide Elems, Members, Quoted, Spaces, Break, Digits, Deeper;
    PunctuationIsPure(st, indent);
    match v
    case Null =>
    case Bool(_) =>
    case Int(n) => DigitsArePure(if n < 0 then -n else n);
    case Str(s) => QuotedIsPure(s);
    case Arr(es) => if es != [] { ElemsArePure(es, st, Deeper(st, indent)); }
    case Obj(ms) => if ms != [] { MembersArePure(ms, st, Deeper(st, indent)); }
  }

  lemma {:induction false} ElemsArePure(es: seq<Json>, st: Style, indent: u32)
    requires es != []
    ensures Pure(Elems(es, st, indent))
    decreases es, 0
  {
    hide Text, Spaces, Comma;
    PunctuationIsPure(st, indent);
    PrintedIsPure(es[0], st, indent);
    if |es| > 1 { ElemsArePure(es[1..], st, indent); }
  }

  lemma {:induction false} MembersArePure(ms: seq<Member>, st: Style, indent: u32)
    requires ms != []
    ensures Pure(Members(ms, st, indent))
    decreases ms, 0
  {
    hide Text, Spaces, Comma, Colon, Quoted;
    PunctuationIsPure(st, indent);
    QuotedIsPure(ms[0].key);
    PrintedIsPure(ms[0].value, st, indent);
    if |ms| > 1 { MembersArePure(ms[1..], st, indent); }
  }

  /** What is printed is a text of RFC 7159, and denotes what was printed. */
  lemma DumpIsStandard(v: Json, indent: int)
    requires Typed(v) && indent < 0x8000_0000
    ensures exists d :: IsJson(Strict, DumpText(v, indent), d) && Denotes(d) == Value(v)
  {
    hide IsJson, Parse, Denotes, Text;
    var t := DumpText(v, indent);
    PrintedIsPure(v, if indent >= 0 then Style(true, indent) else Style(false, 0), 0);
    JsonRoundTrip.DumpThenParse(v, indent);
    StandardIsExact(t, v);
  }

  // ---- single escapes ----

  /** The letters that all rules are made of. */
  lemma LettersAreStandard(c: char)
    ensures IsSpace(c) <==> c in " \t\n\r"
    ensures IsDigit(c) <==> c in "0123456789"
    ensures IsHexDigit(c) <==> c in "0123456789abcdefABCDEF"
    ensures IsExp(c) <==> c in "eE"
    ensures IsEscapeLetter(c) <==> c in "\"\\/bfnrt"
  {
  }

  /** The text of one escape with four digits. */
  lemma SpelledEscape(ds: string, u: nat) returns (t: string)
    requires |ds| == 4 && SpellsHex(ds, u)
    ensures t == "\"\\u" + ds + "\"" && u <= 0xFFFF && StringText(t, 0, |t|) && Units(t, 1, |t| - 1) == [Code(u)]
  {
    hide SpellsHex;
    t := "\"\\u" + ds + "\"";
    assert t[3..7] == ds;
    CodeIsSpelled(t, 1, u);
    OneEscape(t);
    assert Body(t, 7, 7) && Body(t, 1, 7) && Units(t, 7, 7) == [];
    assert Units(t, 1, 7) == [Code(CodeAt(t, 1))];
  }

  /**
   An escape is parsed to the UTF-8 of the code unit that its digits spell, in either letter
   case, unless that is a high surrogate.
   */
  lemma EscapeIsParsed(ds: string, u: CodeUnit)
    requires |ds| == 4 && SpellsHex(ds, u)
    ensures var t := "\"\\u" + ds + "\"";
      && StringText(t, 0, |t|) && StringMeaning(t, 0, |t|) == (if IsHighSurrogate(u) then Thrown else Ok(Encode(u)))
      && Parse(t) == if IsHighSurrogate(u) then Rejected else Value(Str(Encode(u)))
  {
    hide SpellsHex, Encode, Body, Units, IsJson, Parse, Denotes;
    var t := SpelledEscape(ds, u);
    OneString(t);
    var us: seq<Unit> := [Code(u)];
    OneUnit(u);
    TextsAreParsed(t, StrDoc(us));
    DenotesString(us);
  }

  lemma OneUnit(u: CodeUnit)
    ensures LoneHigh([Code(u)]) <==> IsHighSurrogate(u)
    ensures Meaning([Code(u)]) == Encode(u)
  {
    hide Encode;
    var us: seq<Unit> := [Code(u)];
    assert us[1..] == [] && Encode(u) + "" == Encode(u);
    if IsHighSurrogate(u) { assert IsHigh(us[0]); }
  }

  lemma DenotesString(us: seq<Unit>)
    ensures Denotes(StrDoc(us)) == if LoneHigh(us) then Rejected else Value(Str(Meaning(us)))
  {
  }

  /** Two escapes that are a surrogate pair are parsed to the UTF-8 of their code point. */
  lemma PairIsParsed(ds: string, es: string, u: nat, v: nat)
    requires |ds| == 4 && SpellsHex(ds, u) && |es| == 4 && SpellsHex(es, v)
    requires 0xD800 <= u < 0xDC00 <= v < 0xE000
    ensures Parse("\"\\u" + ds + "\\u" + es + "\"") == Value(Str(Encode(0x10000 + (u - 0xD800) * 0x400 + (v - 0xDC00))))
  {
    hide SpellsHex, Encode, IsJson, Parse, Denotes;
    var t := "\"\\u" + ds + "\\u" + es + "\"";
    assert t[3..7] == ds && t[9..13] == es;
    CodeIsSpelled(t, 1, u);
    CodeIsSpelled(t, 7, v);
    assert Body(t, 13, 13) && Body(t, 7, 13) && Body(t, 1, 13) && Units(t, 13, 13) == [];
    assert Units(t, 7, 13) == [Code(v)];
    var us := Units(t, 1, 13);
    assert us == [Code(u), Code(v)];
    hide Body, Units;
    OneString(t);
    TwoUnits(u, v);
    TextsAreParsed(t, StrDoc(us));
    DenotesString(us);
  }

  lemma TwoUnits(u: CodeUnit, v: CodeUnit)
    requires IsHighSurrogate(u) && IsLowSurrogate(v)
    ensures !LoneHigh([Code(u), Code(v)]) && Meaning([Code(u), Code(v)]) == Encode(PairValue(u, v))
  {
    hide Encode;
    var us: seq<Unit> := [Code(u), Code(v)];
    assert us[2..] == [] && Encode(PairValue(u, v)) + "" == Encode(PairValue(u, v));
    assert IsHigh(us[0]) && IsLow(us[1]);
  }

  lemma LetterTable(k: nat)
    requires k < 8
    ensures var c, m := "\"\\/bfnrt"[k], "\"\\/\U{08}\U{0C}\n\r\t"[k];
      && Letter(c) == m && IsEscapeLetter(c) && EscapeChar(m) == if m == '/' then "/" else ['\\', c]
  {
  }

  /** The eight letters behind a backslash, and what they stand for (section 7 of RFC 7159). */
  lemma LetterIsParsed(k: nat)
    requires k < 8
    ensures var c, m := "\"\\/bfnrt"[k], "\"\\/\U{08}\U{0C}\n\r\t"[k];
      && Parse(['"', '\\', c, '"']) == Value(Str([m]))
      && EscapeChar(m) == if m == '/' then "/" else ['\\', c]
  {
    hide Parse, IsJson, TextCut, EscapeChar;
    var c, m := "\"\\/bfnrt"[k], "\"\\/\U{08}\U{0C}\n\r\t"[k];
    assert Letter(c) == m && EscapeChar(m) == (if m == '/' then "/" else ['\\', c]) by { LetterTable(k); }
    var t := ['"', '\\', c, '"'];
    assert Body(t, 3, 3) && Body(t, 1, 3) && Units(t, 3, 3) == [];
    var us := Units(t, 1, 3);
    assert us == [Plain(Letter(c))] && us[1..] == [];
    assert Meaning(us) == [Letter(c)] + "" == [Letter(c)];
    OneString(t);
    TextsAreParsed(t, StrDoc(us));
    hide Units, Body;
    DenotesString(us);
  }

  // ---- numbers ----

  lemma DigitIsSpelled(c: char)
    ensures forall d: nat | d < 10 :: IsDigit(c) && c as int - '0' as int == d <==> IsDecimalFor(c, d)
  {
  }

  /** Digits have the number that they spell, and no other text spells one. */
  lemma {:induction false} NaturalIsSpelled(text: string, n: nat)
    ensures SpellsDecimal(text, n) <==>
            text != "" && (forall i :: 0 <= i < |text| ==> IsDigit(text[i])) && Natural(text) == n
  {
    if text != "" {
      var front, c := text[..|text| - 1], text[|text| - 1];
      DigitIsSpelled(c);
      hide IsDecimalFor;
      if front == "" {
        assert Natural(front) == 0;
      } else {
        NaturalIsSpelled(front, n / 10);
        NaturalIsSpelled(front, Natural(front));
      }
    }
  }

  /** A number is printed as the digits that spell it, without a leading zero, behind its sign. */
  lemma {:induction false} DigitsAreSpelled(n: nat)
    ensures SpellsDecimal(Digits(n), n) && (n > 0 ==> Digits(n)[0] != '0')
  {
    assert IsDecimalFor((n % 10 + '0' as int) as char, n % 10);
    hide IsDecimalFor;
    if n >= 10 {
      DigitsAreSpelled(n / 10);
      assert Digits(n)[..|Digits(n)| - 1] == Digits(n / 10);
    }
  }

  /** A minus sign, or none, and digits. */
  predicate SpellsInteger(text: string, n: int) {
    if text != "" && text[0] == '-' then n <= 0 && SpellsDecimal(text[1..], -n) else n >= 0 && SpellsDecimal(text, n)
  }

  /** Integers are printed and read as what their text spells. */
  lemma IntegerIsSpelled(text: string, n: int)
    ensures SpellsInteger(Decimal(n), n)
    ensures SpellsInteger(text, n) ==> IntegerValue(text) == n
  {
    hide SpellsDecimal, Natural, Digits;
    DigitsAreSpelled(if n < 0 then -n else n);
    DigitsAreNoSign(if n < 0 then -n else n);
    assert ("-" + Digits(if n < 0 then -n else n))[1..] == Digits(if n < 0 then -n else n);
    NaturalIsSpelled(text, if n < 0 then -n else n);
    if text != "" { NaturalIsSpelled(text[1..], if n < 0 then -n else n); }
  }

  lemma {:induction false} DigitsAreNoSign(n: nat)
    ensures Digits(n) != "" && Digits(n)[0] != '-'
  {
    if n >= 10 { DigitsAreNoSign(n / 10); }
  }

  lemma WholeIsDigits(t: string)
    requires JsonNumber.IsNumber(t, 0, |t|) && IsIntegerText(t)
    ensures t != "" && (t[0] == '-' ==> |t| > 1)
    ensures forall k :: 0 <= k < |t| ==> IsDigit(t[k]) || (k == 0 && t[0] == '-')
  {
    var m: nat, i: nat, f: nat :| JsonNumber.NumberParts(t, 0, m, i, f, |t|);
    var whole := t[m..i];
    assert forall k :: m <= k < i ==> t[k] == whole[k - m];
  }

  lemma SpelledIsWhole(t: string, n: int)
    requires SpellsInteger(t, n)
    ensures IsIntegerText(t)
  {
    hide Natural;
    NaturalIsSpelled(t, if n < 0 then -n else n);
    if t != "" && t[0] == '-' {
      NaturalIsSpelled(t[1..], -n);
      assert forall k :: 1 <= k < |t| ==> t[k] == t[1..][k - 1];
    }
  }

  lemma WholeIsSpelled(t: string)
    requires JsonNumber.IsNumber(t, 0, |t|) && IsIntegerText(t)
    ensures SpellsInteger(t, IntegerValue(t))
  {
    hide Natural, SpellsDecimal, IsIntegerText, IsDigit;
    WholeIsDigits(t);
    if t[0] == '-' {
      assert forall k :: 0 <= k < |t[1..]| ==> IsDigit(t[1..][k]);
      NaturalIsSpelled(t[1..], Natural(t[1..]));
    } else {
      NaturalIsSpelled(t, Natural(t));
    }
  }

  /**
   A number denotes the integer of 64 bits that it spells; if it has a fraction or an exponent,
   or spells a larger one, it is none.
   */
  lemma NumberIsExact(t: string, n: int)
    requires JsonNumber.IsNumber(t, 0, |t|)
    ensures Denotes(NumDoc(t)) == Value(Int(n)) <==> SpellsInteger(t, n) && -I64 <= n < I64
    ensures Denotes(NumDoc(t)).Value? ==> exists k :: Denotes(NumDoc(t)) == Value(Int(k))
    ensures Denotes(NumDoc(t)) != Rejected
  {
    hide JsonNumber.IsNumber, IsIntegerText, IntegerValue, SpellsInteger;
    IntegerIsSpelled(t, n);
    if SpellsInteger(t, n) { SpelledIsWhole(t, n); }
    if IsIntegerText(t) { WholeIsSpelled(t); }
  }
}
