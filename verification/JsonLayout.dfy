/**
 The layout of printed values: every line with its depth, written down apart from the printer;
 and the order of the keys.
 */
module JsonLayout {
  import opened JsonEscape
  import opened JsonString
  import opened JsonValue

  // ---- lines ----

  /** A line of a text, and how many brackets are open around it. */
  datatype Line = Line(depth: nat, content: string)

  function IsOpen(v: Json): bool { (v.Arr? && v.elems != []) || (v.Obj? && v.members != []) }

  /** A value that fits on one line. */
  function Flat(v: Json): string
    requires !IsOpen(v)
  {
    match v
    case Null => "null"
    case Bool(b) => if b then "true" else "false"
    case Int(n) => Decimal(n)
    case Str(s) => "\"" + Escape(s) + "\""
    case Arr(_) => "[]"
    case Obj(_) => "{}"
  }

  /** The lines of a value; lead stands in front of it in its first line, and tail behind it in its last. */
  function Lines(v: Json, pretty: bool, depth: nat, lead: string, tail: string): seq<Line>
    decreases v, 1
  {
    if !IsOpen(v) then [Line(depth, lead + Flat(v) + tail)]
    else if v.Arr? then
      [Line(depth, lead + "[")] + ElemLines(v.elems, pretty, depth + 1) + [Line(depth, "]" + tail)]
    else [Line(depth, lead + "{")] + MemberLines(v.members, pretty, depth + 1) + [Line(depth, "}" + tail)]
  }

  /** A comma ends every element but the last. */
  function ElemLines(es: seq<Json>, pretty: bool, depth: nat): seq<Line>
    requires es != []
    decreases es, 0
  {
    if |es| == 1 then Lines(es[0], pretty, depth, "", "")
    else Lines(es[0], pretty, depth, "", ",") + ElemLines(es[1..], pretty, depth)
  }

  function KeyText(key: string, pretty: bool): string { "\"" + Escape(key) + "\"" + if pretty then ": " else ":" }

  function MemberLines(ms: seq<Member>, pretty: bool, depth: nat): seq<Line>
    requires ms != []
    decreases ms, 0
  {
    var lead := KeyText(ms[0].key, pretty);
    if |ms| == 1 then Lines(ms[0].value, pretty, depth, lead, "")
    else Lines(ms[0].value, pretty, depth, lead, ",") + MemberLines(ms[1..], pretty, depth)
  }

  /** The indent of a depth, as unsigned int counts it. */
  function Indent(st: Style, depth: nat): u32 { if st.pretty then depth * st.step % U32 else 0 }

  function LineText(l: Line, st: Style): string { Spaces(Indent(st, l.depth)) + l.content }

  /** The lines one below the other, or one behind the other in compact text. */
  function Layout(ls: seq<Line>, st: Style): string {
    if ls == [] then ""
    else if |ls| == 1 then LineText(ls[0], st)
    else LineText(ls[0], st) + (if st.pretty then "\n" else "") + Layout(ls[1..], st)
  }

  lemma DeeperIsIndent(st: Style, depth: nat)
    ensures Deeper(st, Indent(st, depth)) == Indent(st, depth + 1)
  {
    assert (depth + 1) * st.step == depth * st.step + st.step;
    AddModulo(depth * st.step, st.step);
  }

  lemma AddModulo(a: nat, b: nat)
    ensures (a % U32 + b) % U32 == (a + b) % U32
  {
    assert a == a / U32 * U32 + a % U32;
    assert (a + b) == (a % U32 + b) + a / U32 * U32;
  }

  lemma Regroup(a: string, b: string, c: string, d: string)
    ensures a + b + (c + d) == a + b + c + d
  {
  }

  lemma {:induction false} LayoutConcat(a: seq<Line>, b: seq<Line>, st: Style)
    requires a != [] && b != []
    ensures Layout(a + b, st) == Layout(a, st) + Break(st) + Layout(b, st)
    decreases |a|
  {
    hide LineText;
    if |a| == 1 {
      assert (a + b)[1..] == b && (a + b)[0] == a[0];
    } else {
      assert (a + b)[1..] == a[1..] + b && (a + b)[0] == a[0];
      LayoutConcat(a[1..], b, st);
      Regroup(LineText(a[0], st), Break(st), Layout(a[1..], st) + Break(st), Layout(b, st));
      Regroup(LineText(a[0], st), Break(st), Layout(a[1..], st), Break(st));
    }
  }

  lemma OneLine(l: Line, st: Style)
    ensures Layout([l], st) == LineText(l, st)
  {
  }

  lemma {:induction false} LinesExist(v: Json, pretty: bool, depth: nat, lead: string, tail: string)
    ensures Lines(v, pretty, depth, lead, tail) != []
  {
  }

  lemma {:induction false} PartsExist(es: seq<Json>, ms: seq<Member>, pretty: bool, depth: nat)
    ensures es != [] ==> ElemLines(es, pretty, depth) != []
    ensures ms != [] ==> MemberLines(ms, pretty, depth) != []
  {
    if es != [] { LinesExist(es[0], pretty, depth, "", ""); LinesExist(es[0], pretty, depth, "", ","); }
    if ms != [] {
      LinesExist(ms[0].value, pretty, depth, KeyText(ms[0].key, pretty), "");
      LinesExist(ms[0].value, pretty, depth, KeyText(ms[0].key, pretty), ",");
    }
  }

  lemma FlatIsText(v: Json, st: Style, indent: u32)
    requires !IsOpen(v)
    ensures Text(v, st, indent) == Flat(v)
  {
    hide Escape, Decimal;
  }

  /** The first and last line of a bracketed value, and what is between them. */
  lemma Bracketed(lead: string, open: string, inner: string, close: string, tail: string, br: string, sp: string)
    ensures sp + (lead + open) + br + inner + br + (sp + (close + tail)) ==
            sp + lead + (open + br + inner + br + sp + close) + tail
  {
  }

  lemma AroundLines(first: Line, mid: seq<Line>, last: Line, st: Style)
    requires mid != []
    ensures Layout([first] + mid + [last], st) ==
            LineText(first, st) + Break(st) + Layout(mid, st) + Break(st) + LineText(last, st)
  {
    hide LineText, Layout;
    LayoutConcat([first] + mid, [last], st);
    LayoutConcat([first], mid, st);
    OneLine(first, st);
    OneLine(last, st);
  }

  /** A value is printed as its lines. */
  lemma {:induction false} TextIsLayout(v: Json, st: Style, depth: nat, lead: string, tail: string)
    ensures Spaces(Indent(st, depth)) + lead + Text(v, st, Indent(st, depth)) + tail ==
            Layout(Lines(v, st.pretty, depth, lead, tail), st)
    decreases v, 1
  {
    hide Layout, Elems, Members, ElemLines, MemberLines, Spaces, Indent, Flat, Deeper;
    var sp, br := Spaces(Indent(st, depth)), Break(st);
    if !IsOpen(v) {
      FlatIsText(v, st, Indent(st, depth));
      OneLine(Line(depth, lead + Flat(v) + tail), st);
      Regroup3(sp, lead, Flat(v), tail);
    } else {
      DeeperIsIndent(st, depth);
      if v.Arr? {
        ElemsAreLines(v.elems, st, depth + 1);
        PartsExist(v.elems, [], st.pretty, depth + 1);
        AroundLines(Line(depth, lead + "["), ElemLines(v.elems, st.pretty, depth + 1), Line(depth, "]" + tail), st);
        Bracketed(lead, "[", Elems(v.elems, st, Indent(st, depth + 1)), "]", tail, br, sp);
      } else {
        MembersAreLines(v.members, st, depth + 1);
        PartsExist([], v.members, st.pretty, depth + 1);
        AroundLines(Line(depth, lead + "{"), MemberLines(v.members, st.pretty, depth + 1), Line(depth, "}" + tail), st);
        Bracketed(lead, "{", Members(v.members, st, Indent(st, depth + 1)), "}", tail, br, sp);
      }
    }
  }

  lemma Regroup3(a: string, b: string, c: string, d: string)
    ensures a + (b + c + d) == a + b + c + d
  {
  }

  lemma CommaEnds(a: string, st: Style, b: string)
    ensures a + "," + Break(st) + b == a + (Comma(st) + b)
  {
  }

  lemma {:induction false} ElemsAreLines(es: seq<Json>, st: Style, depth: nat)
    requires es != []
    ensures Elems(es, st, Indent(st, depth)) == Layout(ElemLines(es, st.pretty, depth), st)
    decreases es, 0
  {
    hide Layout, Text, Lines, Spaces, Indent, Comma, Break;
    var i := Indent(st, depth);
    var text := Spaces(i) + Text(es[0], st, i);
    if |es| == 1 {
      TextIsLayout(es[0], st, depth, "", "");
      assert Spaces(i) + "" + Text(es[0], st, i) + "" == text == text + "";
    } else {
      TextIsLayout(es[0], st, depth, "", ",");
      assert Spaces(i) + "" + Text(es[0], st, i) + "," == text + ",";
      ElemsAreLines(es[1..], st, depth);
      LinesExist(es[0], st.pretty, depth, "", ",");
      PartsExist(es[1..], [], st.pretty, depth);
      LayoutConcat(Lines(es[0], st.pretty, depth, "", ","), ElemLines(es[1..], st.pretty, depth), st);
      CommaEnds(text, st, Elems(es[1..], st, i));
    }
  }

  lemma MemberIsLed(m: Member, st: Style, i: u32, tail: string)
    ensures MemberText(m, st, i) + tail == Spaces(i) + KeyText(m.key, st.pretty) + Text(m.value, st, i) + tail
  {
    hide Text, Spaces, Escape;
    assert KeyText(m.key, st.pretty) == Quoted(m.key) + Colon(st);
    hide KeyText, Quoted, Colon;
    assert Spaces(i) + (Quoted(m.key) + Colon(st)) == Spaces(i) + Quoted(m.key) + Colon(st);
  }

  lemma {:induction false} MembersAreLines(ms: seq<Member>, st: Style, depth: nat)
    requires ms != []
    ensures Members(ms, st, Indent(st, depth)) == Layout(MemberLines(ms, st.pretty, depth), st)
    decreases ms, 0
  {
    hide Layout, Text, Lines, Spaces, Indent, Comma, Break, MemberText, KeyText;
    var i, lead := Indent(st, depth), KeyText(ms[0].key, st.pretty);
    var text := MemberText(ms[0], st, i);
    if |ms| == 1 {
      MemberIsLed(ms[0], st, i, "");
      TextIsLayout(ms[0].value, st, depth, lead, "");
      assert text + "" == text;
    } else {
      MemberIsLed(ms[0], st, i, ",");
      TextIsLayout(ms[0].value, st, depth, lead, ",");
      MembersAreLines(ms[1..], st, depth);
      LinesExist(ms[0].value, st.pretty, depth, lead, ",");
      PartsExist([], ms[1..], st.pretty, depth);
      LayoutConcat(Lines(ms[0].value, st.pretty, depth, lead, ","), MemberLines(ms[1..], st.pretty, depth), st);
      CommaEnds(text, st, Members(ms[1..], st, i));
    }
  }

  /**
   What is printed is the layout of the lines: with an indent every line begins with that many
   spaces per open bracket, counted like unsigned int; without one there are no line breaks.
   */
  lemma DumpIsLayout(v: Json, indent: int)
    requires indent < 0x8000_0000
    ensures var st := if indent >= 0 then Style(true, indent) else Style(false, 0);
      DumpText(v, indent) == Layout(Lines(v, st.pretty, 0, "", ""), st)
  {
    hide Text, Lines, Layout;
    var st := if indent >= 0 then Style(true, indent) else Style(false, 0);
    TextIsLayout(v, st, 0, "", "");
    assert Spaces(0) == "";
    assert "" + "" + Text(v, st, 0) + "" == Text(v, st, 0);
  }

  // ---- the order of keys ----

  /** The strings differ at k, or the first one ends there. */
  predicate DifferAt(a: string, b: string, k: int) {
    0 <= k <= |a| && k < |b| && a[..k] == b[..k] && (k < |a| ==> a[k] < b[k])
  }

  lemma DifferFirst(a: string, b: string, k: int)
    requires DifferAt(a, b, k)
    ensures b != "" && (a == "" || a[0] < b[0] || (a[0] == b[0] && DifferAt(a[1..], b[1..], k - 1)))
  {
    if k > 0 {
      assert a[0] == a[..k][0] == b[..k][0] == b[0];
      assert a[1..][..k - 1] == a[..k][1..] && b[1..][..k - 1] == b[..k][1..];
    }
  }

  /** Keys are ordered by the first byte at which they differ. */
  lemma {:induction false} LessIsByFirstDifference(a: string, b: string)
    ensures Less(a, b) <==> exists k :: DifferAt(a, b, k)
  {
    if a != "" && b != "" && a[0] == b[0] {
      LessIsByFirstDifference(a[1..], b[1..]);
      if k :| DifferAt(a[1..], b[1..], k) {
        assert a[..k + 1] == [a[0]] + a[1..][..k] && b[..k + 1] == [b[0]] + b[1..][..k];
        assert DifferAt(a, b, k + 1);
      }
    } else if Less(a, b) {
      assert DifferAt(a, b, 0);
    }
    if k :| DifferAt(a, b, k) { DifferFirst(a, b, k); }
  }
}
