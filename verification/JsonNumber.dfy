/**
 Number tokens: the scanner, with its one level of backtracking, finds the longest prefix
 that matches the number grammar of section 6 of RFC 7159.
 */
module JsonNumber {
  import opened JsonLexer

  // ---- the grammar ----

  predicate Digits(s: string) { s != "" && forall i :: 0 <= i < |s| ==> IsDigit(s[i]) }

  predicate IntPart(s: string) { s == "0" || (Digits(s) && s[0] != '0') }

  predicate FracPart(s: string) { s != "" && s[0] == '.' && Digits(s[1..]) }

  predicate ExpPart(s: string) {
    s != "" && IsExp(s[0]) &&
    (Digits(s[1..]) || (|s| >= 2 && (s[1] == '+' || s[1] == '-') && Digits(s[2..])))
  }

  /** t[at..e] is [ minus ] int [ frac ] [ exp ], the parts ending at m, i, f and e. */
  predicate NumberParts(t: string, at: nat, m: nat, i: nat, f: nat, e: nat) {
    at <= m <= i <= f <= e <= |t| &&
    (m == at || (m == at + 1 && t[at] == '-')) && IntPart(t[m..i]) &&
    (f == i || FracPart(t[i..f])) && (e == f || ExpPart(t[f..e]))
  }

  ghost predicate IsNumber(t: string, at: nat, e: nat) {
    exists m: nat, i: nat, f: nat :: NumberParts(t, at, m, i, f, e)
  }

  // ---- greedy ends ----

  function DigitsEnd(t: string, i: nat): (e: nat)
    requires i <= |t|
    ensures i <= e <= |t| && (forall j :: i <= j < e ==> IsDigit(t[j])) && !IsDigit(At(t, e))
    decreases |t| - i
  {
    if i < |t| && IsDigit(t[i]) then DigitsEnd(t, i + 1) else i
  }

  /** The end of the integer part that begins at m, if one does. */
  function IntEnd(t: string, m: nat): (i: nat)
    requires m <= |t|
    ensures m <= i <= |t|
  {
    if At(t, m) == '0' then m + 1 else DigitsEnd(t, m)
  }

  function FracEnd(t: string, i: nat): (f: nat)
    requires i <= |t|
    ensures i <= f <= |t|
  {
    if At(t, i) == '.' && IsDigit(At(t, i + 1)) then DigitsEnd(t, i + 1) else i
  }

  function ExpEnd(t: string, f: nat): (e: nat)
    requires f <= |t|
    ensures f <= e <= |t|
  {
    if !IsExp(At(t, f)) then f
    else if IsDigit(At(t, f + 1)) then DigitsEnd(t, f + 1)
    else if (At(t, f + 1) == '+' || At(t, f + 1) == '-') && IsDigit(At(t, f + 2)) then DigitsEnd(t, f + 2)
    else f
  }

  // ---- what the machine computes ----

  lemma {:induction false} RunExpDigits(t: string, s: nat, cur: nat, m: Marker)
    requires cur <= |t| && m.pos <= cur
    ensures Run(t, s, ExpDigits, cur, m) == Lexeme(s, DigitsEnd(t, cur), ValueNumber)
    decreases |t| - cur
  {
    if cur < |t| && IsDigit(t[cur]) { RunExpDigits(t, s, cur + 1, m); }
  }

  lemma RunExp(t: string, s: nat, f: nat)
    requires f < |t| && IsExp(t[f])
    ensures Run(t, s, Exp, f + 1, Marker(f, true)) == Lexeme(s, ExpEnd(t, f), ValueNumber)
  {
    var m := Marker(f, true);
    var c := At(t, f + 1);
    if IsDigit(c) {
      RunExpDigits(t, s, f + 2, m);
    } else if c == '+' || c == '-' {
      assert Run(t, s, Exp, f + 1, m) == Run(t, s, ExpSign, f + 2, m);
      if IsDigit(At(t, f + 2)) { RunExpDigits(t, s, f + 3, m); }
    }
  }

  lemma {:induction false} RunFracDigits(t: string, s: nat, cur: nat)
    requires cur <= |t|
    ensures Run(t, s, FracDigits, cur, Marker(cur, true)) ==
            Lexeme(s, ExpEnd(t, DigitsEnd(t, cur)), ValueNumber)
    decreases |t| - cur
  {
    var c := At(t, cur);
    if IsDigit(c) { RunFracDigits(t, s, cur + 1); }
    else if IsExp(c) { RunExp(t, s, cur); }
  }

  /** Zero, or the end of a run of digits. */
  lemma RunIntEnd(t: string, s: nat, i: nat, l: Label)
    requires i <= |t| && (l.Zero? || (l.IntDigits? && !IsDigit(At(t, i))))
    ensures Run(t, s, l, i, Marker(i, true)) == Lexeme(s, ExpEnd(t, FracEnd(t, i)), ValueNumber)
  {
    var m := Marker(i, true);
    var c := At(t, i);
    if c == '.' {
      assert Run(t, s, l, i, m) == Run(t, s, Dot, i + 1, m);
      if IsDigit(At(t, i + 1)) { RunFracDigits(t, s, i + 2); }
    } else if IsExp(c) {
      RunExp(t, s, i);
    }
  }

  lemma {:induction false} RunIntDigits(t: string, s: nat, cur: nat)
    requires cur <= |t|
    ensures Run(t, s, IntDigits, cur, Marker(cur, true)) ==
            Lexeme(s, ExpEnd(t, FracEnd(t, DigitsEnd(t, cur))), ValueNumber)
    decreases |t| - cur
  {
    if IsDigit(At(t, cur)) { RunIntDigits(t, s, cur + 1); } else { RunIntEnd(t, s, cur, IntDigits); }
  }

  /** Where the integer part of a number token begins. */
  function SignEnd(t: string, at: nat): (m: nat)
    requires at <= |t|
    ensures m <= |t|
  {
    if At(t, at) == '-' then at + 1 else at
  }

  lemma ScanNumber(t: string, at: nat)
    requires at <= |t| && IsDigit(At(t, SignEnd(t, at)))
    ensures Scan(t, at) == Lexeme(at, ExpEnd(t, FracEnd(t, IntEnd(t, SignEnd(t, at)))), ValueNumber)
  {
    var m := SignEnd(t, at);
    if At(t, at) == '-' {
      assert Scan(t, at) == Run(t, at, Minus, m, Marker(at, false));
    }
    if At(t, m) == '0' { RunIntEnd(t, at, m + 1, Zero); } else { RunIntDigits(t, at, m + 1); }
  }

  // ---- longest match ----

  lemma DigitsSlice(t: string, i: nat, e: nat)
    requires i <= e <= |t|
    ensures Digits(t[i..e]) <==> i < e && forall j :: i <= j < e ==> IsDigit(t[j])
  {
    if i < e && forall j :: i <= j < e ==> IsDigit(t[j]) {
      forall k | 0 <= k < e - i ensures IsDigit(t[i..e][k]) { assert t[i..e][k] == t[i + k]; }
    }
    if Digits(t[i..e]) {
      forall j | i <= j < e ensures IsDigit(t[j]) { assert t[i..e][j - i] == t[j]; }
    }
  }

  lemma ExpMatches(t: string, f: nat)
    requires f <= |t| && f < ExpEnd(t, f)
    ensures ExpPart(t[f..ExpEnd(t, f)])
  {
    var e := ExpEnd(t, f);
    if IsDigit(At(t, f + 1)) {
      DigitsSlice(t, f + 1, e);
      assert t[f..e][1..] == t[f + 1..e];
    } else {
      DigitsSlice(t, f + 2, e);
      assert t[f..e][2..] == t[f + 2..e];
    }
  }

  /** The greedy ends are the ends of parts. */
  lemma GreedyMatches(t: string, at: nat)
    requires at <= |t| && IsDigit(At(t, SignEnd(t, at)))
    ensures var m := SignEnd(t, at);
      var i := IntEnd(t, m); var f := FracEnd(t, i); NumberParts(t, at, m, i, f, ExpEnd(t, f))
  {
    var m := SignEnd(t, at);
    var i := IntEnd(t, m);
    var f := FracEnd(t, i);
    var e := ExpEnd(t, f);
    assert IntPart(t[m..i]) by {
      if t[m] == '0' { assert t[m..i] == "0"; } else { DigitsSlice(t, m, i); }
    }
    assert f == i || FracPart(t[i..f]) by {
      if i < f { DigitsSlice(t, i + 1, f); assert t[i..f][1..] == t[i + 1..f]; }
    }
    assert e == f || ExpPart(t[f..e]) by { if f < e { ExpMatches(t, f); } }
  }

  lemma DigitsStop(t: string, i: nat, j: nat)
    requires i <= j <= |t| && forall k :: i <= k < j ==> IsDigit(t[k])
    ensures j <= DigitsEnd(t, i) && (j < DigitsEnd(t, i) ==> IsDigit(At(t, j)))
  {
    assert DigitsEnd(t, i) >= j || IsDigit(t[DigitsEnd(t, i)]);
  }

  lemma ExpIsGreedy(t: string, f: nat, e: nat)
    requires f < e <= |t| && ExpPart(t[f..e])
    ensures IsExp(At(t, f)) && e <= ExpEnd(t, f)
  {
    var s := t[f..e];
    assert t[f] == s[0];
    if Digits(s[1..]) {
      assert s[1..] == t[f + 1..e];
      DigitsSlice(t, f + 1, e);
      DigitsStop(t, f + 1, e);
    } else {
      assert s[2..] == t[f + 2..e];
      assert s[1] == t[f + 1];
      DigitsSlice(t, f + 2, e);
      DigitsStop(t, f + 2, e);
    }
  }

  lemma FracIsGreedy(t: string, i: nat, f: nat)
    requires i < f <= |t| && FracPart(t[i..f])
    ensures At(t, i) == '.' && f <= FracEnd(t, i) && (f < FracEnd(t, i) ==> IsDigit(At(t, f)))
  {
    assert t[i..f][1..] == t[i + 1..f];
    assert t[i..f][0] == t[i];
    DigitsSlice(t, i + 1, f);
    DigitsStop(t, i + 1, f);
  }

  lemma IntIsGreedy(t: string, m: nat, i: nat)
    requires m <= i <= |t| && IntPart(t[m..i])
    ensures m < i <= IntEnd(t, m) && IsDigit(t[m]) && (i < IntEnd(t, m) ==> IsDigit(At(t, i)))
  {
    var s := t[m..i];
    assert s[0] == t[m];
    if s != "0" {
      DigitsSlice(t, m, i);
      DigitsStop(t, m, i);
    }
  }

  lemma NoLongerNumber(t: string, at: nat, m: nat, i: nat, f: nat, e: nat)
    requires NumberParts(t, at, m, i, f, e)
    ensures m == SignEnd(t, at) && IsDigit(At(t, m))
    ensures e <= ExpEnd(t, FracEnd(t, IntEnd(t, m)))
  {
    IntIsGreedy(t, m, i);
    if i < f { FracIsGreedy(t, i, f); }
    if f < e { ExpIsGreedy(t, f, e); }
  }

  /** The first position that is not white space. */
  function TokenStart(t: string, at: nat): (s: nat)
    requires at <= |t|
    ensures at <= s <= |t| && !IsSpace(At(t, s)) && forall i :: at <= i < s ==> IsSpace(t[i])
    decreases |t| - at
  {
    if IsSpace(At(t, at)) then TokenStart(t, at + 1) else at
  }

  lemma {:induction false} RunSpace(t: string, s: nat, cur: nat, m: Marker)
    requires cur <= |t| && m.pos <= cur
    ensures Run(t, s, Space, cur, m) == Scan(t, TokenStart(t, cur))
    decreases |t| - cur
  {
    if IsSpace(At(t, cur)) { RunSpace(t, s, cur + 1, m); }
  }

  /** White space in front of a token is skipped. */
  lemma ScanFromStart(t: string, at: nat)
    requires at <= |t|
    ensures Scan(t, at) == Scan(t, TokenStart(t, at))
  {
    if IsSpace(At(t, at)) { RunSpace(t, at, at + 1, Marker(at, false)); }
  }

  lemma {:induction false} StringIsNoNumber(t: string, s: nat, l: Label, cur: nat, m: Marker)
    requires cur <= |t| && m.pos <= cur && Sound(l) && !m.number
    requires l.InString? || l.Escaped? || l.HexDigits? || (l.Literal? && l.tok != ValueNumber)
    ensures Run(t, s, l, cur, m).tok != ValueNumber
    decreases |t| - cur
  {
    var c := At(t, cur);
    StopsAtTerminator(l);
    StaysSound(l, c);
    if Step(l, c).Goto? { StringIsNoNumber(t, s, Step(l, c).next, cur + 1, m); }
  }

  /** A number token begins with a digit, or with a minus and a digit. */
  lemma NumberStarts(t: string, at: nat)
    requires at <= |t| && !IsSpace(At(t, at)) && Scan(t, at).tok == ValueNumber
    ensures IsDigit(At(t, SignEnd(t, at)))
  {
    var c := At(t, at);
    if c == '-' {
      assert Scan(t, at) == Run(t, at, Minus, at + 1, Marker(at, false));
    } else if c == '"' {
      StringIsNoNumber(t, at, InString, at + 1, Marker(at + 1, false));
    } else if c == 'n' || c == 't' || c == 'f' {
      var l := First(c).next;
      StringIsNoNumber(t, at, l, at + 1, Marker(at + 1, false));
    }
  }

  lemma NumberTokenIsNumber(t: string, at: nat)
    requires at <= |t| && Scan(t, at).tok == ValueNumber
    ensures IsNumber(t, Scan(t, at).start, Scan(t, at).cursor)
  {
    var s := TokenStart(t, at);
    ScanFromStart(t, at);
    NumberStarts(t, s);
    GreedyMatches(t, s);
    ScanNumber(t, s);
  }

  /**
   Longest match: when some prefix of the text at a position is a number, the scanner
   returns a number token that ends with the longest such prefix; and whatever it calls a
   number is one.
   */
  lemma NumberIsLongestMatch(t: string, at: nat)
    requires at <= |t|
    ensures var x := Scan(t, at);
      && ((exists e: nat :: IsNumber(t, at, e)) ==>
            x.tok == ValueNumber && x.start == at && IsNumber(t, at, x.cursor) &&
            forall e: nat :: IsNumber(t, at, e) ==> e <= x.cursor)
      && (x.tok == ValueNumber ==> IsNumber(t, x.start, x.cursor))
  {
    hide NumberParts, ExpEnd, FracEnd, IntEnd;
    forall e: nat | IsNumber(t, at, e)
      ensures var x := Scan(t, at);
        x.tok == ValueNumber && x.start == at && IsNumber(t, at, x.cursor) && e <= x.cursor
    {
      var m: nat, i: nat, f: nat :| NumberParts(t, at, m, i, f, e);
      NoLongerNumber(t, at, m, i, f, e);
      GreedyMatches(t, at);
      ScanNumber(t, at);
    }
    if Scan(t, at).tok == ValueNumber { NumberTokenIsNumber(t, at); }
  }
}
