/**
 The recursive parser of base/json.hpp without a callback: parse and parse_internal, with
 the one token of lookahead kept in last_token.
 */
module JsonParser {
  import opened JsonLexer
  import opened JsonString
  import opened JsonValue

  /**
   A value and the lexeme after it; the exception the source throws; or a number whose
   conversion to floating point is outside the model.
   */
  datatype Parsed = Parsed(value: Json, next: Lexeme) | Failed | FloatMet

  /** A lexeme of the text; only the end of input may lie beyond it. */
  predicate Fits(t: string, x: Lexeme) {
    x.start < x.cursor <= |t| + 1 && (!x.tok.EndOfInput? ==> x.cursor <= |t|)
  }

  /** get_token. */
  function Next(t: string, x: Lexeme): (y: Lexeme)
    requires Fits(t, x) && !x.tok.EndOfInput?
    ensures Fits(t, y) && y.cursor > x.cursor
  {
    ScanInText(t, x.cursor);
    Scan(t, x.cursor)
  }

  // ---- numbers ----

  /** The token has neither a fraction nor an exponent. */
  predicate IsIntegerText(s: string) {
    forall i :: 0 <= i < |s| ==> s[i] != '.' && !IsExp(s[i])
  }

  function Natural(s: string): nat {
    if s == "" then 0
    else Natural(s[..|s| - 1]) * 10 + (if JsonLexer.IsDigit(s[|s| - 1]) then s[|s| - 1] as int - '0' as int else 0)
  }

  function IntegerValue(s: string): int {
    if s != "" && s[0] == '-' then 0 - Natural(s[1..]) else Natural(s)
  }

  /**
   Whether strtold stops at the end of the token.  It goes on after "0" followed by more
   digits, by a point or by an x; the source then throws, as it would on the next token.
   */
  predicate ConvertsFully(t: string, cursor: nat) {
    var c := Peek(t, cursor);
    !JsonLexer.IsDigit(c) && c != '.' && c != 'x' && c != 'X'
  }

  function NumberValue(t: string, x: Lexeme): Parsed
    requires Fits(t, x) && x.tok.ValueNumber?
  {
    var s := t[x.start..x.cursor];
    if !ConvertsFully(t, x.cursor) then Failed
    else if IsIntegerText(s) && -I64 <= IntegerValue(s) < I64 then Parsed(Int(IntegerValue(s)), Next(t, x))
    else FloatMet
  }

  // ---- values ----

  /** parse_internal, x being the last token. */
  function ParseValue(t: string, x: Lexeme): (r: Parsed)
    requires Fits(t, x)
    ensures r.Parsed? ==> Fits(t, r.next) && r.next.cursor > x.cursor
    decreases |t| + 1 - x.cursor, 0
  {
    match x.tok
    case BeginObject =>
      var y := Next(t, x);
      if y.tok.EndObject? then Parsed(Obj([]), Next(t, y))
      else if y.tok.ValueSeparator? then Failed
      else ParseMembers(t, y, [])
    case BeginArray =>
      var y := Next(t, x);
      if y.tok.EndArray? then Parsed(Arr([]), Next(t, y))
      else if y.tok.ValueSeparator? then Failed
      else ParseElems(t, y, [])
    case LiteralNull => Parsed(Null, Next(t, x))
    case LiteralTrue => Parsed(Bool(true), Next(t, x))
    case LiteralFalse => Parsed(Bool(false), Next(t, x))
    case ValueString =>
      match StringValue(t, x) {
        case Ok(s) => Parsed(Str(s), Next(t, x))
        case Thrown => Failed
      }
    case ValueNumber => NumberValue(t, x)
    case _ => Failed
  }

  /** The loop over the values of an array, after those in done. */
  function ParseElems(t: string, x: Lexeme, done: seq<Json>): (r: Parsed)
    requires Fits(t, x)
    ensures r.Parsed? ==> Fits(t, r.next) && r.next.cursor > x.cursor
    decreases |t| + 1 - x.cursor, 1
  {
    var y := if x.tok.ValueSeparator? then Next(t, x) else x;
    match ParseValue(t, y)
    case Parsed(v, z) =>
      if z.tok.ValueSeparator? then ParseElems(t, z, done + [v])
      else if z.tok.EndArray? then Parsed(Arr(done + [v]), Next(t, z))
      else Failed
    case r => r
  }

  /** The loop over the members of an object, after those in done. */
  function ParseMembers(t: string, x: Lexeme, done: seq<Member>): (r: Parsed)
    requires Fits(t, x)
    ensures r.Parsed? ==> Fits(t, r.next) && r.next.cursor > x.cursor
    decreases |t| + 1 - x.cursor, 1
  {
    var y := if x.tok.ValueSeparator? then Next(t, x) else x;
    if !y.tok.ValueString? then Failed
    else match StringValue(t, y)
      case Thrown => Failed
      case Ok(key) =>
        var z := Next(t, y);
        if !z.tok.NameSeparator? then Failed
        else match ParseValue(t, Next(t, z))
          case Parsed(v, u) =>
            var more := Put(done, key, v);
            if u.tok.ValueSeparator? then ParseMembers(t, u, more)
            else if u.tok.EndObject? then Parsed(Obj(more), Next(t, u))
            else Failed
          case r => r
  }

  /** The outcome of parsing a whole text. */
  datatype Outcome = Value(v: Json) | Rejected | HasFloat

  /** parse. */
  function Parse(t: string): Outcome {
    ScanInText(t, 0);
    match ParseValue(t, Scan(t, 0))
    case Parsed(v, z) => if z.tok.EndOfInput? then Value(v) else Rejected
    case Failed => Rejected
    case FloatMet => HasFloat
  }

  lemma NumberIsTyped(t: string, x: Lexeme)
    requires Fits(t, x) && x.tok.ValueNumber?
    ensures NumberValue(t, x).Parsed? ==> Typed(NumberValue(t, x).value)
  {
  }

  /** Whatever is parsed is a value the C++ types can hold: objects come out in key order. */
  lemma {:induction false} ParsedIsTyped(t: string, x: Lexeme)
    requires Fits(t, x)
    ensures var r := ParseValue(t, x); r.Parsed? ==> Typed(r.value)
    decreases |t| + 1 - x.cursor, 0
  {
    hide StringValue, Next, NumberValue;
    match x.tok
    case BeginObject => MembersAreTyped(t, Next(t, x), []);
    case BeginArray => ElemsAreTyped(t, Next(t, x), []);
    case ValueNumber => NumberIsTyped(t, x);
    case _ =>
  }

  lemma {:induction false} ElemsAreTyped(t: string, x: Lexeme, done: seq<Json>)
    requires Fits(t, x) && forall e :: e in done ==> Typed(e)
    ensures var r := ParseElems(t, x, done); r.Parsed? ==> Typed(r.value)
    decreases |t| + 1 - x.cursor, 1
  {
    hide Next;
    var y := if x.tok.ValueSeparator? then Next(t, x) else x;
    ParsedIsTyped(t, y);
    var r := ParseValue(t, y);
    if r.Parsed? && r.next.tok.ValueSeparator? { ElemsAreTyped(t, r.next, done + [r.value]); }
  }

  lemma {:induction false} MembersAreTyped(t: string, x: Lexeme, done: seq<Member>)
    requires Fits(t, x) && Ordered(done) && forall m :: m in done ==> Typed(m.value)
    ensures var r := ParseMembers(t, x, done); r.Parsed? ==> Typed(r.value)
    decreases |t| + 1 - x.cursor, 1
  {
    hide Next, StringValue, Put, Ordered;
    var y := if x.tok.ValueSeparator? then Next(t, x) else x;
    if y.tok.ValueString? && StringValue(t, y).Ok? && Next(t, y).tok.NameSeparator? {
      var w := Next(t, Next(t, y));
      ParsedIsTyped(t, w);
      var r := ParseValue(t, w);
      if r.Parsed? {
        var key := StringValue(t, y).value;
        PutKeepsOrder(done, key, r.value);
        if r.next.tok.ValueSeparator? { MembersAreTyped(t, r.next, Put(done, key, r.value)); }
      }
    }
  }

  // ---- the parser object ----

  /** What parse_internal returns or throws. */
  datatype Reply = Reply(value: Json) | Exception | Float

  class Parser {
    const lexer: Lexer
    var lastToken: Token

    constructor (s: string)
      ensures fresh(lexer) && lexer.content == s && Current() == Scan(s, 0)
    {
      lexer := new Lexer(s);
      lastToken := ParseError;
      new;
      lastToken := lexer.ScanToken();
    }

    function Current(): Lexeme
      reads this, lexer
    {
      Lexeme(lexer.start, lexer.cursor, lastToken)
    }

    method GetToken()
      requires Fits(lexer.content, Current()) && !lastToken.EndOfInput?
      modifies this, lexer
      ensures Current() == Next(lexer.content, old(Current()))
    {
      lastToken := lexer.ScanToken();
    }

    /** Whether a reply and the token after it are what the specification says. */
    predicate Matches(r: Parsed, reply: Reply)
      reads this, lexer
    {
      match r
      case Parsed(v, z) => reply == Reply(v) && Current() == z
      case Failed => reply == Exception
      case FloatMet => reply == Float
    }

    method ParseInternal() returns (reply: Reply)
      requires Fits(lexer.content, Current())
      modifies this, lexer
      ensures Matches(ParseValue(lexer.content, old(Current())), reply)
      decreases |lexer.content| + 1 - lexer.cursor, 0
    {
      hide Next, StringValue;
      match lastToken {
        case BeginObject =>
          GetToken();
          if lastToken == EndObject {
            GetToken();
            return Reply(Obj([]));
          }
          if lastToken == ValueSeparator {
            return Exception;
          }
          reply := ParseMemberLoop();
        case BeginArray =>
          GetToken();
          if lastToken == EndArray {
            GetToken();
            return Reply(Arr([]));
          }
          if lastToken == ValueSeparator {
            return Exception;
          }
          reply := ParseElemLoop();
        case LiteralNull =>
          GetToken();
          reply := Reply(Null);
        case LiteralTrue =>
          GetToken();
          reply := Reply(Bool(true));
        case LiteralFalse =>
          GetToken();
          reply := Reply(Bool(false));
        case ValueString =>
          var s := GetString(lexer.content, Current());
          if s.Thrown? {
            return Exception;
          }
          GetToken();
          reply := Reply(Str(s.value));
        case ValueNumber =>
          var r := NumberValue(lexer.content, Current());
          if r.Parsed? { GetToken(); }
          reply := match r case Parsed(v, _) => Reply(v) case Failed => Exception case FloatMet => Float;
        case _ =>
          reply := Exception;
      }
    }

    method ParseElemLoop() returns (reply: Reply)
      requires Fits(lexer.content, Current())
      modifies this, lexer
      ensures Matches(ParseElems(lexer.content, old(Current()), []), reply)
      decreases |lexer.content| + 1 - lexer.cursor, 1
    {
      hide Next, ParseValue;
      var result := [];
      ghost var first := Current();
      while true
        invariant Fits(lexer.content, Current()) && first.cursor <= lexer.cursor
        invariant ParseElems(lexer.content, first, []) == ParseElems(lexer.content, Current(), result)
        decreases |lexer.content| + 1 - lexer.cursor
      {
        if lastToken == ValueSeparator { GetToken(); }
        var r := ParseInternal();
        if !r.Reply? {
          return r;
        }
        result := result + [r.value];
        if lastToken != ValueSeparator { break; }
      }
      if lastToken != EndArray {
        return Exception;
      }
      GetToken();
      return Reply(Arr(result));
    }

    method ParseMemberLoop() returns (reply: Reply)
      requires Fits(lexer.content, Current())
      modifies this, lexer
      ensures Matches(ParseMembers(lexer.content, old(Current()), []), reply)
      decreases |lexer.content| + 1 - lexer.cursor, 1
    {
      hide Next, ParseValue, StringValue, Put;
      var result := [];
      ghost var first := Current();
      while true
        invariant Fits(lexer.content, Current()) && first.cursor <= lexer.cursor
        invariant ParseMembers(lexer.content, first, []) == ParseMembers(lexer.content, Current(), result)
        decreases |lexer.content| + 1 - lexer.cursor
      {
        if lastToken == ValueSeparator { GetToken(); }
        if lastToken != ValueString {
          return Exception;
        }
        var key := GetString(lexer.content, Current());
        if key.Thrown? {
          return Exception;
        }
        GetToken();
        if lastToken != NameSeparator {
          return Exception;
        }
        GetToken();
        var r := ParseInternal();
        if !r.Reply? {
          return r;
        }
        result := Put(result, key.value, r.value);
        if lastToken != ValueSeparator { break; }
      }
      if lastToken != EndObject {
        return Exception;
      }
      GetToken();
      return Reply(Obj(result));
    }

    /** parse. */
    method ParseText() returns (outcome: Outcome)
      requires Current() == Scan(lexer.content, 0)
      modifies this, lexer
      ensures outcome == Parse(lexer.content)
    {
      hide ParseValue;
      ScanInText(lexer.content, 0);
      var reply := ParseInternal();
      match reply {
        case Reply(v) => outcome := if lastToken == EndOfInput then Value(v) else Rejected;
        case Exception => outcome := Rejected;
        case Float => outcome := HasFloat;
      }
    }
  }
}
