/**
 JSON values and their text: the dump member function, writing to a stream.
 */
module JsonValue {
  import opened JsonEscape
  import opened JsonString

  /** A value without floating-point numbers; an object is a map ordered by key. */
  datatype Json =
    | Null
    | Bool(b: bool)
    | Int(n: int)
    | Str(s: string)
    | Arr(elems: seq<Json>)
    | Obj(members: seq<Member>)

  datatype Member = Member(key: string, value: Json)

  // ---- std::map ----

  /** std::less on strings. */
  predicate Less(a: string, b: string) {
    b != "" && (a == "" || a[0] < b[0] || (a[0] == b[0] && Less(a[1..], b[1..])))
  }

  lemma {:induction false} LessIsStrict(a: string, b: string)
    ensures Less(a, b) ==> a != b && !Less(b, a)
  {
    if a != "" && b != "" { LessIsStrict(a[1..], b[1..]); }
  }

  lemma {:induction false} LessIsTotal(a: string, b: string)
    ensures Less(a, b) || a == b || Less(b, a)
  {
    if a != "" && b != "" {
      LessIsTotal(a[1..], b[1..]);
      if a[0] == b[0] && a[1..] == b[1..] {
        assert a == [a[0]] + a[1..];
        assert b == [b[0]] + b[1..];
      }
    }
  }

  lemma {:induction false} LessIsTransitive(a: string, b: string, c: string)
    requires Less(a, b) && Less(b, c)
    ensures Less(a, c)
  {
    if a != "" { if a[0] == b[0] == c[0] { LessIsTransitive(a[1..], b[1..], c[1..]); } }
  }

  predicate Ordered(ms: seq<Member>) {
    forall i, j :: 0 <= i < j < |ms| ==> Less(ms[i].key, ms[j].key)
  }

  /** operator[] followed by an assignment. */
  function Put(ms: seq<Member>, key: string, value: Json): seq<Member> {
    if ms == [] then [Member(key, value)]
    else if ms[0].key == key then [Member(key, value)] + ms[1..]
    else if Less(key, ms[0].key) then [Member(key, value)] + ms
    else [ms[0]] + Put(ms[1..], key, value)
  }

  /** Putting keeps the order, adds at most the key, and binds it to the value. */
  lemma {:induction false} PutKeepsOrder(ms: seq<Member>, key: string, value: Json)
    requires Ordered(ms)
    ensures Ordered(Put(ms, key, value))
    ensures forall m :: m in Put(ms, key, value) <==> m == Member(key, value) || (m in ms && m.key != key)
    decreases |ms|
  {
    var r := Put(ms, key, value);
    if ms != [] {
      var head, tail := ms[0], ms[1..];
      assert ms == [head] + tail;
      assert forall j :: 0 <= j < |tail| ==> tail[j] == ms[j + 1];
      assert forall m :: m in tail ==> Less(head.key, m.key);
      forall m | m in tail ensures m.key != head.key { LessIsStrict(head.key, m.key); }
      if head.key == key {
      } else if Less(key, head.key) {
        forall m | m in ms ensures Less(key, m.key) && m.key != key {
          if m in tail { LessIsTransitive(key, head.key, m.key); }
          LessIsStrict(key, m.key);
        }
      } else {
        LessIsTotal(key, head.key);
        PutKeepsOrder(tail, key, value);
        var rest := Put(tail, key, value);
        forall m | m in rest ensures Less(head.key, m.key) { }
        assert r == [head] + rest;
      }
    }
  }

  /** A key beyond all others goes to the end. */
  lemma {:induction false} PutAtEnd(ms: seq<Member>, key: string, value: Json)
    requires forall m :: m in ms ==> Less(m.key, key)
    ensures Put(ms, key, value) == ms + [Member(key, value)]
    decreases |ms|
  {
    if ms != [] {
      assert ms[0] in ms;
      LessIsStrict(ms[0].key, key);
      PutAtEnd(ms[1..], key, value);
    }
  }

  // ---- printable values ----

  const I64 := 0x8000_0000_0000_0000

  /** What the C++ types guarantee: integers of 64 bits, objects in key order. */
  predicate Typed(v: Json)
    decreases v
  {
    match v
    case Int(n) => -I64 <= n < I64
    case Arr(es) => forall e :: e in es ==> Typed(e)
    case Obj(ms) => Ordered(ms) && forall m :: m in ms ==> Typed(m.value)
    case _ => true
  }

  // ---- the text of a value ----

  function Digits(n: nat): string {
    if n < 10 then [(n + '0' as int) as char] else Digits(n / 10) + [(n % 10 + '0' as int) as char]
  }

  /** operator<< of an integer. */
  function Decimal(n: int): string {
    if n < 0 then "-" + Digits(-n) else Digits(n)
  }

  function Spaces(n: nat): (s: string)
    ensures |s| == n && forall i :: 0 <= i < n ==> s[i] == ' '
  {
    seq(n, _ => ' ')
  }

  const U32 := 0x1_0000_0000

  type u32 = n: nat | n < U32

  /** pretty_print and indent_step. */
  datatype Style = Style(pretty: bool, step: u32)

  function Break(st: Style): string { if st.pretty then "\n" else "" }

  function Comma(st: Style): string { if st.pretty then ",\n" else "," }

  function Colon(st: Style): string { if st.pretty then ": " else ":" }

  /** new_indent; unsigned addition wraps around. */
  function Deeper(st: Style, indent: u32): u32 {
    if st.pretty then (indent + st.step) % U32 else indent
  }

  function Text(v: Json, st: Style, indent: u32): string
    decreases v, 1
  {
    match v
    case Null => "null"
    case Bool(b) => if b then "true" else "false"
    case Int(n) => Decimal(n)
    case Str(s) => Quoted(s)
    case Arr(es) =>
      if es == [] then "[]"
      else "[" + Break(st) + Elems(es, st, Deeper(st, indent)) + Break(st) + Spaces(indent) + "]"
    case Obj(ms) =>
      if ms == [] then "{}"
      else "{" + Break(st) + Members(ms, st, Deeper(st, indent)) + Break(st) + Spaces(indent) + "}"
  }

  function Elems(es: seq<Json>, st: Style, indent: u32): string
    requires es != []
    decreases es, 0
  {
    Spaces(indent) + Text(es[0], st, indent) +
    (if |es| == 1 then "" else Comma(st) + Elems(es[1..], st, indent))
  }

  function MemberText(m: Member, st: Style, indent: u32): string
    decreases m, 2
  {
    Spaces(indent) + Quoted(m.key) + Colon(st) + Text(m.value, st, indent)
  }

  function Members(ms: seq<Member>, st: Style, indent: u32): string
    requires ms != []
    decreases ms, 0
  {
    MemberText(ms[0], st, indent) +
    (if |ms| == 1 then "" else Comma(st) + Members(ms[1..], st, indent))
  }

  /** The public dump: a negative indent asks for compact text. */
  function DumpText(v: Json, indent: int): string
    requires indent < 0x8000_0000
  {
    if indent >= 0 then Text(v, Style(true, indent), 0) else Text(v, Style(false, 0), 0)
  }

  // ---- dump ----

  class OStream {
    var text: string

    constructor ()
      ensures text == ""
    {
      text := "";
    }

    method Put(s: string)
      modifies this
      ensures text == old(text) + s
    {
      text := text + s;
    }
  }

  /** What is still to be printed of an array from its element i on. */
  function ElemsLeft(es: seq<Json>, i: nat, st: Style, indent: u32): string
    requires i <= |es|
  {
    if i == |es| then "" else (if i > 0 then Comma(st) else "") + Elems(es[i..], st, indent)
  }

  function MembersLeft(ms: seq<Member>, i: nat, st: Style, indent: u32): string
    requires i <= |ms|
  {
    if i == |ms| then "" else (if i > 0 then Comma(st) else "") + Members(ms[i..], st, indent)
  }

  lemma ElemsStep(es: seq<Json>, i: nat, st: Style, indent: u32)
    requires i < |es|
    ensures ElemsLeft(es, i, st, indent) ==
            (if i > 0 then Comma(st) else "") + (Spaces(indent) + Text(es[i], st, indent)) +
            ElemsLeft(es, i + 1, st, indent)
  {
    hide Text, Spaces;
    assert es[i..][1..] == es[i + 1..];
  }

  lemma MembersStep(ms: seq<Member>, i: nat, st: Style, indent: u32)
    requires i < |ms|
    ensures MembersLeft(ms, i, st, indent) ==
            (if i > 0 then Comma(st) else "") + MemberText(ms[i], st, indent) + MembersLeft(ms, i + 1, st, indent)
  {
    hide MemberText;
    assert ms[i..][1..] == ms[i + 1..];
  }

  /** The bytes in front of the first element or member, and the indent of what follows. */
  method Open(o: OStream, bracket: string, st: Style, indent: u32) returns (newIndent: u32)
    modifies o
    ensures o.text == old(o.text) + (bracket + Break(st)) && newIndent == Deeper(st, indent)
  {
    o.Put(bracket);
    newIndent := indent;
    if st.pretty {
      newIndent := (newIndent + st.step) % U32;
      o.Put("\n");
    }
  }

  /** The bytes behind the last one. */
  method CloseList(o: OStream, bracket: string, st: Style, newIndent: u32, ghost indent: u32)
    requires newIndent == Deeper(st, indent)
    modifies o
    ensures o.text == old(o.text) + (Break(st) + Spaces(indent) + bracket)
  {
    hide Spaces;
    var outer := newIndent;
    if st.pretty {
      outer := (outer + U32 - st.step) % U32;
      o.Put("\n");
    }
    o.Put(Spaces(outer) + bracket);
  }

  lemma Assembled(before: string, open: string, inner: string, close: string)
    ensures before + open + inner + close == before + (open + inner + close)
  {
  }

  /** dump: the elements of an array, each on its own line when pretty printing. */
  method DumpElems(es: seq<Json>, o: OStream, st: Style, indent: u32)
    requires es != []
    modifies o
    ensures o.text == old(o.text) + Elems(es, st, indent)
    decreases es, 0
  {
    hide Text, Spaces, Elems;
    ghost var before := o.text;
    assert es[0..] == es;
    for i := 0 to |es|
      invariant o.text + ElemsLeft(es, i, st, indent) == before + Elems(es, st, indent)
    {
      ElemsStep(es, i, st, indent);
      ghost var now := o.text;
      if i != 0 { o.Put(Comma(st)); }
      o.Put(Spaces(indent));
      Dump(es[i], o, st, indent);
      assert o.text == now + ((if i > 0 then Comma(st) else "") + (Spaces(indent) + Text(es[i], st, indent)));
    }
  }

  method DumpMember(m: Member, o: OStream, st: Style, indent: u32)
    modifies o
    ensures o.text == old(o.text) + MemberText(m, st, indent)
    decreases m, 2
  {
    hide Text, Spaces, Colon, Escape;
    ghost var before := o.text;
    o.Put(Spaces(indent) + "\"");
    var key := EscapeString(m.key);
    o.Put(key + "\"" + Colon(st));
    assert o.text == before + (Spaces(indent) + Quoted(m.key) + Colon(st));
    Dump(m.value, o, st, indent);
    hide Quoted;
    assert o.text == before + (Spaces(indent) + Quoted(m.key) + Colon(st) + Text(m.value, st, indent));
  }

  /** dump: the members of an object, in the order of their keys. */
  method DumpMembers(ms: seq<Member>, o: OStream, st: Style, indent: u32)
    requires ms != []
    modifies o
    ensures o.text == old(o.text) + Members(ms, st, indent)
    decreases ms, 0
  {
    hide MemberText, Members;
    ghost var before := o.text;
    assert ms[0..] == ms;
    for i := 0 to |ms|
      invariant o.text + MembersLeft(ms, i, st, indent) == before + Members(ms, st, indent)
    {
      MembersStep(ms, i, st, indent);
      ghost var now := o.text;
      if i != 0 { o.Put(Comma(st)); }
      DumpMember(ms[i], o, st, indent);
      assert o.text == now + ((if i > 0 then Comma(st) else "") + MemberText(ms[i], st, indent));
    }
  }

  /** dump with its internal parameters. */
  method Dump(v: Json, o: OStream, st: Style, indent: u32)
    modifies o
    ensures o.text == old(o.text) + Text(v, st, indent)
    decreases v, 1
  {
    hide Elems, Members, Spaces, Break, Deeper, Decimal, Escape;
    ghost var before := o.text;
    match v {
      case Null => o.Put("null");
      case Bool(b) => o.Put(if b then "true" else "false");
      case Int(n) => o.Put(Decimal(n));
      case Str(s) =>
        var escaped := EscapeString(s);
        o.Put("\"" + escaped + "\"");
      case Arr(es) =>
        if |es| == 0 {
          o.Put("[]");
          return;
        }
        var newIndent := Open(o, "[", st, indent);
        DumpElems(es, o, st, newIndent);
        CloseList(o, "]", st, newIndent, indent);
        Assembled(before, "[" + Break(st), Elems(es, st, newIndent), Break(st) + Spaces(indent) + "]");
      case Obj(ms) =>
        if |ms| == 0 {
          o.Put("{}");
          return;
        }
        var newIndent := Open(o, "{", st, indent);
        DumpMembers(ms, o, st, newIndent);
        CloseList(o, "}", st, newIndent, indent);
        Assembled(before, "{" + Break(st), Members(ms, st, newIndent), Break(st) + Spaces(indent) + "}");
    }
  }
}
