/**
 extra_space and escape_string of base/json.hpp: escaping a string into a buffer whose
 size has been computed beforehand.
 */
module JsonEscape {
  import opened Common

  predicate IsControl(c: char) { c as int <= 0x1f }

  /** The letter after the backslash of a two-byte escape. */
  function ShortEscape(c: char): string {
    match c
    case '"' => "\""
    case '\\' => "\\"
    case '\U{08}' => "b"
    case '\U{0C}' => "f"
    case '\n' => "n"
    case '\r' => "r"
    case '\t' => "t"
    case _ => ""
  }

  /** The text a character of a JSON string is printed as. */
  function EscapeChar(c: char): string {
    if ShortEscape(c) != "" then "\\" + ShortEscape(c)
    else if IsControl(c) then ['\\', 'u', '0', '0', HexDigit(c as int / 16), HexDigit(c as int % 16)]
    else [c]
  }

  function Escape(s: string): string {
    if s == "" then "" else Escape(s[..|s| - 1]) + EscapeChar(s[|s| - 1])
  }

  function ExtraOf(c: char): nat {
    if ShortEscape(c) != "" then 1 else if IsControl(c) then 5 else 0
  }

  function Extra(s: string): nat {
    if s == "" then 0 else Extra(s[..|s| - 1]) + ExtraOf(s[|s| - 1])
  }

  lemma ShortIsShort(c: char)
    ensures |ShortEscape(c)| <= 1
  {
  }

  /** The escaped string is longer by exactly the extra space. */
  lemma {:induction false} EscapedLength(s: string)
    ensures |Escape(s)| == |s| + Extra(s)
  {
    if s != "" {
      EscapedLength(s[..|s| - 1]);
      ShortIsShort(s[|s| - 1]);
    }
  }

  /** Without extra space nothing is escaped. */
  lemma {:induction false} NothingToEscape(s: string)
    requires Extra(s) == 0
    ensures Escape(s) == s
  {
    if s != "" { NothingToEscape(s[..|s| - 1]); }
  }

  lemma {:induction false} EscapePrefix(s: string, n: nat)
    requires n <= |s|
    ensures |Escape(s[..n])| <= |Escape(s)|
    decreases |s| - n
  {
    if n < |s| {
      assert s[..n + 1][..n] == s[..n];
      EscapePrefix(s, n + 1);
    } else {
      assert s[..n] == s;
    }
  }

  method ExtraSpace(s: string) returns (space: nat)
    ensures space == Extra(s)
  {
    space := 0;
    for i := 0 to |s|
      invariant space == Extra(s[..i])
    {
      assert s[..i + 1][..i] == s[..i];
      var c := s[i];
      match c {
        case '"' | '\\' | '\U{08}' | '\U{0C}' | '\n' | '\r' | '\t' => space := space + 1;
        case _ =>
          if c as int <= 0x1f { space := space + 5; }
      }
    }
    assert s[..|s|] == s;
  }

  /** sprintf("u%04x") of a control character, with its terminating NUL. */
  method PrintControl(a: array<char>, at: nat, c: char)
    requires at + 6 <= a.Length && IsControl(c)
    modifies a
    ensures a[at..at + 6] == ['u', '0', '0', HexDigit(c as int / 16), HexDigit(c as int % 16), '\0']
    ensures forall j :: 0 <= j < a.Length && !(at <= j < at + 6) ==> a[j] == old(a[j])
  {
    a[at], a[at + 1], a[at + 2] := 'u', '0', '0';
    a[at + 3], a[at + 4], a[at + 5] := HexDigit(c as int / 16), HexDigit(c as int % 16), '\0';
  }

  /** The buffer is filled up to pos and still holds backslashes up to n. */
  predicate Filled(a: array<char>, done: string, pos: nat, n: nat)
    reads a
  {
    pos <= n < a.Length && a[..pos] == done && forall j :: pos <= j < n ==> a[j] == '\\'
  }

  /** A backslash that is already there, and the letter after it. */
  method PutShort(a: array<char>, pos: nat, letter: char, ghost done: string, ghost n: nat) returns (next: nat)
    requires Filled(a, done, pos, n) && pos + 2 <= n
    modifies a
    ensures next == pos + 2 && Filled(a, done + ("\\" + [letter]), next, n)
  {
    a[pos + 1] := letter;
    next := pos + 2;
    assert a[..next] == a[..pos] + ("\\" + [letter]);
  }

  method PutControl(a: array<char>, pos: nat, c: char, ghost done: string, ghost n: nat) returns (next: nat)
    requires Filled(a, done, pos, n) && pos + 6 <= n && IsControl(c) && ShortEscape(c) == ""
    modifies a
    ensures next == pos + 6 && Filled(a, done + EscapeChar(c), next, n)
  {
    hide ShortEscape;
    PrintControl(a, pos + 1, c);
    next := pos + 6;
    a[next] := '\\';  // over the terminating NUL, which may be the string's own
    assert a[pos..next] == ['\\'] + a[pos + 1..pos + 6];
    assert a[..next] == a[..pos] + a[pos..next];
  }

  method PutPlain(a: array<char>, pos: nat, c: char, ghost done: string, ghost n: nat) returns (next: nat)
    requires Filled(a, done, pos, n) && pos + 1 <= n
    modifies a
    ensures next == pos + 1 && Filled(a, done + [c], next, n)
  {
    a[pos] := c;
    next := pos + 1;
    assert a[..next] == a[..pos] + [c];
  }

  /** One character of the loop of escape_string. */
  method PutEscaped(a: array<char>, pos: nat, c: char, ghost done: string, ghost n: nat) returns (next: nat)
    requires Filled(a, done, pos, n) && pos + |EscapeChar(c)| <= n
    modifies a
    ensures next == pos + |EscapeChar(c)| && Filled(a, done + EscapeChar(c), next, n)
  {
    hide Filled;
    match c {
      case '"' => next := PutShort(a, pos, '"', done, n);
      case '\\' => next := PutShort(a, pos, '\\', done, n);
      case '\U{08}' => next := PutShort(a, pos, 'b', done, n);
      case '\U{0C}' => next := PutShort(a, pos, 'f', done, n);
      case '\n' => next := PutShort(a, pos, 'n', done, n);
      case '\r' => next := PutShort(a, pos, 'r', done, n);
      case '\t' => next := PutShort(a, pos, 't', done, n);
      case _ =>
        if c as int <= 0x1f {
          next := PutControl(a, pos, c, done, n);
        } else {
          next := PutPlain(a, pos, c, done, n);
        }
    }
  }

  /**
   escape_string.  The buffer has one cell more than the string, for the terminator; the
   branch for control characters can write to it.
   */
  method EscapeString(s: string) returns (r: string)
    ensures r == Escape(s) && |r| == |s| + Extra(s)
  {
    EscapedLength(s);
    var space := ExtraSpace(s);
    if space == 0 {
      NothingToEscape(s);
      return s;
    }
    var n := |s| + space;
    var a := new char[n + 1](_ => '\\');
    var pos := 0;
    for i := 0 to |s|
      invariant Filled(a, Escape(s[..i]), pos, n) && pos == |Escape(s[..i])|
    {
      assert s[..i + 1][..i] == s[..i];
      EscapePrefix(s, i + 1);
      pos := PutEscaped(a, pos, s[i], Escape(s[..i]), n);
    }
    assert s[..|s|] == s;
    r := a[..n];
  }
}
