/**
 The scanner of base/json.hpp: its table of goto labels as a machine over the text, with
 the marker it backtracks to, and the loop that runs it.  The text is a C string: reading
 at its length yields the terminator, and nothing beyond that is ever read.
 */
module JsonLexer {
  datatype Token =
    | LiteralTrue | LiteralFalse | LiteralNull
    | ValueString | ValueNumber
    | BeginArray | BeginObject | EndArray | EndObject
    | NameSeparator | ValueSeparator
    | ParseError | EndOfInput

  /** m_start, m_cursor and the token found between them. */
  datatype Lexeme = Lexeme(start: nat, cursor: nat, tok: Token)

  function At(t: string, i: nat): char
    requires i <= |t|
  {
    if i < |t| then t[i] else '\0'
  }

  predicate IsSpace(c: char) { c == ' ' || c == '\t' || c == '\n' || c == '\r' }
  predicate IsDigit(c: char) { '0' <= c <= '9' }
  predicate IsHexDigit(c: char) { IsDigit(c) || 'a' <= c <= 'f' || 'A' <= c <= 'F' }
  predicate IsExp(c: char) { c == 'e' || c == 'E' }

  /** Bit 64 of yybm: bytes a string may hold as they are. */
  predicate IsPlain(c: char) { '\U{10}' <= c && c != '"' && c != '\\' }

  /** The letters after a backslash, 'u' aside. */
  predicate IsEscapeLetter(c: char) {
    c == '"' || c == '/' || c == '\\' || c == 'b' || c == 'f' || c == 'n' || c == 'r' || c == 't'
  }

  /** The labels of scan() that look at a further byte, basic_json_parser_N. */
  datatype Label =
    | Begin                            // the start of scan()
    | Space                            // 5
    | Minus                            // 22
    | Zero                             // 23, 49
    | IntDigits                        // 41
    | Dot                              // 42
    | Exp                              // 43
    | ExpSign                          // 44
    | ExpDigits                        // 45
    | FracDigits                       // 47
    | InString                         // 31
    | Escaped                          // 33
    | HexDigits(left: nat)             // 36 to 39
    | Literal(rest: string, tok: Token)  // 18 to 21 and 50 to 62

  /** What a label does with the byte at the cursor. */
  datatype Move =
    | Goto(next: Label)        // ++m_cursor, then next
    | GotoMarked(next: Label)  // m_marker = ++m_cursor, then next
    | Accept(tok: Token)       // at the cursor
    | AcceptNext(tok: Token)   // after the byte
    | Backtrack                // 32: back to the marker
    | Rescan                   // 3: return scan()

  /** What the first byte of a token leads to. */
  function First(c: char): Move {
    match c
    case '\0' => AcceptNext(EndOfInput)
    case '"' => GotoMarked(InString)
    case ',' => AcceptNext(ValueSeparator)
    case ':' => AcceptNext(NameSeparator)
    case '[' => AcceptNext(BeginArray)
    case ']' => AcceptNext(EndArray)
    case '{' => AcceptNext(BeginObject)
    case '}' => AcceptNext(EndObject)
    case '-' => Goto(Minus)
    case '0' => GotoMarked(Zero)
    case 'n' => GotoMarked(Literal("ull", LiteralNull))
    case 't' => GotoMarked(Literal("rue", LiteralTrue))
    case 'f' => GotoMarked(Literal("alse", LiteralFalse))
    case _ =>
      if IsSpace(c) then Goto(Space)
      else if '1' <= c <= '9' then GotoMarked(IntDigits)
      else AcceptNext(ParseError)
  }

  function Step(l: Label, c: char): Move {
    match l
    case Begin => First(c)
    case Space => if IsSpace(c) then Goto(Space) else Rescan
    case Minus =>
      if c == '0' then GotoMarked(Zero)
      else if '1' <= c <= '9' then GotoMarked(IntDigits)
      else Accept(ParseError)
    case Zero =>
      if c == '.' then Goto(Dot) else if IsExp(c) then Goto(Exp) else Accept(ValueNumber)
    case IntDigits =>
      if IsDigit(c) then GotoMarked(IntDigits)
      else if c == '.' then Goto(Dot) else if IsExp(c) then Goto(Exp) else Accept(ValueNumber)
    case Dot => if IsDigit(c) then GotoMarked(FracDigits) else Backtrack
    case Exp =>
      if c == '+' || c == '-' then Goto(ExpSign) else if IsDigit(c) then Goto(ExpDigits) else Backtrack
    case ExpSign => if IsDigit(c) then Goto(ExpDigits) else Backtrack
    case ExpDigits => if IsDigit(c) then Goto(ExpDigits) else Accept(ValueNumber)
    case FracDigits =>
      if IsDigit(c) then GotoMarked(FracDigits) else if IsExp(c) then Goto(Exp) else Accept(ValueNumber)
    case InString =>
      if IsPlain(c) then Goto(InString)
      else if c == '"' then AcceptNext(ValueString)
      else if c == '\\' then Goto(Escaped)
      else Backtrack
    case Escaped =>
      if IsEscapeLetter(c) then Goto(InString) else if c == 'u' then Goto(HexDigits(4)) else Backtrack
    case HexDigits(left) =>
      if !IsHexDigit(c) then Backtrack
      else if left <= 1 then Goto(InString) else Goto(HexDigits(left - 1))
    case Literal(rest, tok) =>
      if rest == "" then Accept(tok)
      else if c == rest[0] then Goto(Literal(rest[1..], tok)) else Backtrack
  }

  predicate Sound(l: Label) { l.Literal? ==> '\0' !in l.rest }

  lemma StaysSound(l: Label, c: char)
    requires Sound(l)
    ensures Step(l, c).Goto? || Step(l, c).GotoMarked? ==> Sound(Step(l, c).next) && !Step(l, c).next.Begin?
    ensures l.Begin? ==> !Step(l, c).Rescan?
  {
  }

  /** No label moves past the terminator, except that it is the end of input. */
  lemma StopsAtTerminator(l: Label)
    requires Sound(l)
    ensures !Step(l, '\0').Goto? && !Step(l, '\0').GotoMarked?
    ensures Step(l, '\0').AcceptNext? ==> Step(l, '\0').tok.EndOfInput?
  {
  }

  /** yyaccept: whether the marker is the end of a number. */
  predicate MarksNumber(l: Label) { l.Zero? || l.IntDigits? || l.FracDigits? }

  /** m_marker and yyaccept. */
  datatype Marker = Marker(pos: nat, number: bool)

  /** The machine from a label on, the byte at cur not yet looked at. */
  function Run(t: string, start: nat, l: Label, cur: nat, m: Marker): (r: Lexeme)
    requires cur <= |t| && m.pos <= cur && Sound(l)
    decreases |t| - cur, if l.Begin? then 0 else 2
  {
    var c := At(t, cur);
    StopsAtTerminator(l);
    StaysSound(l, c);
    match Step(l, c)
    case Goto(next) => Run(t, start, next, cur + 1, m)
    case GotoMarked(next) => Run(t, start, next, cur + 1, Marker(cur + 1, MarksNumber(next)))
    case Accept(tok) => Lexeme(start, cur, tok)
    case AcceptNext(tok) => Lexeme(start, cur + 1, tok)
    case Backtrack => Lexeme(start, m.pos, if m.number then ValueNumber else ParseError)
    case Rescan => Scan(t, cur)
  }

  /** scan() with m_cursor at a position of the text or at its terminator. */
  function Scan(t: string, at: nat): Lexeme
    requires at <= |t|
    decreases |t| - at, 1
  {
    Run(t, at, Begin, at, Marker(at, false))
  }

  // ---- where a token ends ----

  /** Every token but the end of input lies within the text, and every token is nonempty. */
  lemma {:induction false} TokenInText(t: string, start: nat, l: Label, cur: nat, m: Marker)
    requires cur <= |t| && m.pos <= cur && Sound(l)
    requires start <= cur && (start < m.pos || l.Begin? || l.Space? || l.Minus?) && (!l.Begin? ==> start < cur)
    ensures var x := Run(t, start, l, cur, m);
      start <= x.start < x.cursor <= |t| + 1 && (!x.tok.EndOfInput? ==> x.cursor <= |t|)
    decreases |t| - cur, if l.Begin? then 0 else 2
  {
    var c := At(t, cur);
    StopsAtTerminator(l);
    StaysSound(l, c);
    match Step(l, c)
    case Goto(next) => TokenInText(t, start, next, cur + 1, m);
    case GotoMarked(next) => TokenInText(t, start, next, cur + 1, Marker(cur + 1, MarksNumber(next)));
    case Rescan => TokenInText(t, cur, Begin, cur, Marker(cur, false));
    case _ =>
  }

  lemma ScanInText(t: string, at: nat)
    requires at <= |t|
    ensures var x := Scan(t, at);
      at <= x.start < x.cursor <= |t| + 1 && (!x.tok.EndOfInput? ==> x.cursor <= |t|)
  {
    TokenInText(t, at, Begin, at, Marker(at, false));
  }

  // ---- the loop that runs the machine ----

  /** One byte of the machine. */
  lemma RunOnce(t: string, start: nat, l: Label, cur: nat, m: Marker)
    requires cur <= |t| && m.pos <= cur && Sound(l)
    ensures var v, r := Step(l, At(t, cur)), Run(t, start, l, cur, m);
      match v
      case Goto(next) => cur < |t| && Sound(next) && !next.Begin? && r == Run(t, start, next, cur + 1, m)
      case GotoMarked(next) =>
        cur < |t| && Sound(next) && !next.Begin? &&
        r == Run(t, start, next, cur + 1, Marker(cur + 1, MarksNumber(next)))
      case Accept(tok) => r == Lexeme(start, cur, tok)
      case AcceptNext(tok) => r == Lexeme(start, cur + 1, tok)
      case Backtrack => r == Lexeme(start, m.pos, if m.number then ValueNumber else ParseError)
      case Rescan => !l.Begin? && r == Scan(t, cur)
  {
    hide Scan;
    StopsAtTerminator(l);
    StaysSound(l, At(t, cur));
  }

  class Lexer {
    const content: string
    var start: nat
    var marker: nat
    var cursor: nat

    constructor (s: string)
      ensures content == s && start == 0 && cursor == 0
    {
      content := s;
      start, marker, cursor := 0, 0, 0;
    }

    /** scan(): a jump per byte, and one recursive call after white space. */
    method ScanToken() returns (tok: Token)
      requires cursor <= |content|
      modifies this
      ensures Lexeme(start, cursor, tok) == Scan(content, old(cursor))
      decreases |content| - cursor
    {
      marker := cursor;  // the source leaves a null pointer here
      start := cursor;
      var accept := false;
      var l := Begin;
      assert Sound(l);
      hide Step, First, At, Run, Sound;
      while true
        invariant old(cursor) <= cursor <= |content| && marker <= cursor && Sound(l)
        invariant !l.Begin? ==> old(cursor) < cursor
        invariant Run(content, start, l, cursor, Marker(marker, accept)) == Scan(content, old(cursor))
        decreases |content| - cursor, if l.Begin? then 0 else 2
      {
        var c := At(content, cursor);
        RunOnce(content, start, l, cursor, Marker(marker, accept));
        match Step(l, c) {
          case Goto(next) =>
            cursor := cursor + 1;
            l := next;
          case GotoMarked(next) =>
            cursor := cursor + 1;
            marker, accept := cursor, MarksNumber(next);
            l := next;
          case Accept(found) =>
            return found;
          case AcceptNext(found) =>
            cursor := cursor + 1;
            return found;
          case Backtrack =>
            cursor := marker;
            return if accept then ValueNumber else ParseError;
          case Rescan =>
            tok := ScanToken();
            return tok;
        }
      }
    }
  }
}
