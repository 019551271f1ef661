/**
 http_parser_parse_url and http_parse_host: splitting a url into slices.  The slices are
 proved to be exactly the byte ranges that the two state machines label with each field.
 */
module HttpUrl {
  import opened HttpTypes
  import opened HttpSwitch
  import opened HttpInvariant

  datatype UrlField = UfSchema | UfHost | UfPort | UfPath | UfQuery | UfFragment | UfUserinfo

  /** off and len of one entry of field_data. */
  datatype Slice = Slice(off: nat, len: nat)

  datatype HostState =
    | HostDead
    | UserinfoStart | Userinfo
    | HostStart | HostV6Start | Host | HostV6 | HostV6End
    | HostPortStart | HostPort

  /** No field, or one. */
  datatype Label = NoField | Of(field: UrlField)

  function ParseHostChar(s: HostState, ch: char): HostState {
    match s
    case Userinfo | UserinfoStart =>
      if ch == '@' then HostStart else if IsUserinfoChar(ch) then Userinfo else HostDead
    case HostStart =>
      if ch == '[' then HostV6Start else if IsHostChar(ch) then Host else HostDead
    case Host =>
      if IsHostChar(ch) then Host else if ch == ':' then HostPortStart else HostDead
    case HostV6End =>
      if ch == ':' then HostPortStart else HostDead
    case HostV6 =>
      if ch == ']' then HostV6End
      else if IsHex(ch) || ch == ':' || ch == '.' then HostV6 else HostDead
    case HostV6Start =>
      if IsHex(ch) || ch == ':' || ch == '.' then HostV6 else HostDead
    case HostPort | HostPortStart =>
      if IsNum(ch) then HostPort else HostDead
    case HostDead => HostDead
  }

  // ---- the labelling ----

  /** The url state after some bytes; Dead once a byte was refused. */
  function UrlRun(from: UrlState, buf: string): State {
    if buf == "" then Url(from)
    else match UrlRun(from, buf[..|buf| - 1])
      case Url(u) => ParseUrlChar(u, buf[|buf| - 1])
      case _ => Dead
  }

  /** The field a byte belongs to, by the state it leads to. */
  function FieldOf(s: State): Label {
    match s
    case Url(u) => (
      match u
      case Schema => Of(UfSchema)
      case Server | ServerWithAt => Of(UfHost)
      case Path => Of(UfPath)
      case QueryString => Of(UfQuery)
      case Fragment => Of(UfFragment)
      case _ => NoField
    )
    case _ => NoField
  }

  /** The label of every byte, by the state it leads to. */
  function MainLabels(from: UrlState, buf: string): (r: seq<Label>)
    ensures |r| == |buf|
  {
    if buf == "" then [] else MainLabels(from, buf[..|buf| - 1]) + [FieldOf(UrlRun(from, buf))]
  }

  function HostRun(from: HostState, section: string): HostState {
    if section == "" then from
    else ParseHostChar(HostRun(from, section[..|section| - 1]), section[|section| - 1])
  }

  function HostFieldOf(s: HostState): Label {
    match s
    case Host | HostV6 => Of(UfHost)
    case HostPort => Of(UfPort)
    case Userinfo => Of(UfUserinfo)
    case _ => NoField
  }

  function HostLabels(from: HostState, section: string): (r: seq<Label>)
    ensures |r| == |section|
  {
    if section == "" then []
    else HostLabels(from, section[..|section| - 1]) + [HostFieldOf(HostRun(from, section))]
  }

  /** The states in which the host section may end. */
  predicate HostMayEnd(s: HostState) { s.Host? || s.HostV6End? || s.HostPort? }

  /** Whether some byte of the server part was an at-sign. */
  predicate FoundAt(from: UrlState, buf: string) {
    buf != "" && (FoundAt(from, buf[..|buf| - 1]) || UrlRun(from, buf) == Url(ServerWithAt))
  }

  function HostFrom(from: UrlState, buf: string): HostState {
    if FoundAt(from, buf) then UserinfoStart else HostStart
  }

  /** The labels after the server part a..b has been split further. */
  function FinalLabels(from: UrlState, buf: string, a: nat, b: nat): (r: seq<Label>)
    requires a <= b <= |buf|
    ensures |r| == |buf|
  {
    var main := MainLabels(from, buf);
    main[..a] + HostLabels(HostFrom(from, buf), buf[a..b]) + main[b..]
  }

  /** a..b is the server part. */
  predicate HostPart(labels: seq<Label>, a: nat, b: nat) {
    a <= b <= |labels| && forall i :: 0 <= i < |labels| ==> (a <= i < b <==> labels[i] == Of(UfHost))
  }

  // ---- slices against labels ----

  predicate In(i: int, s: Slice) { s.off <= i < s.off + s.len }

  /** The slice of a field holds exactly the positions that carry its label. */
  predicate Exact(fields: map<UrlField, Slice>, f: UrlField, labels: seq<Label>, base: nat) {
    if f in fields && fields[f].len > 0 then
      base <= fields[f].off && fields[f].off + fields[f].len <= base + |labels| &&
      forall i :: 0 <= i < |labels| ==> (In(base + i, fields[f]) <==> labels[i] == Of(f))
    else
      forall i :: 0 <= i < |labels| ==> labels[i] != Of(f)
  }

  predicate AllExact(fields: map<UrlField, Slice>, labels: seq<Label>, base: nat) {
    forall f: UrlField :: Exact(fields, f, labels, base)
  }

  /** The order in which the fields of a url can begin. */
  function Order(f: UrlField): nat {
    match f
    case UfSchema => 0
    case UfHost => 1
    case UfPath => 2
    case UfQuery => 3
    case UfFragment => 4
    case _ => 5
  }

  /** Fields begun before a state come before this in the order. */
  function Reached(u: UrlState): nat {
    match u
    case SpacesBeforeUrl => 0
    case Schema | SchemaSlash | SchemaSlashSlash | ServerStart => 1
    case Server | ServerWithAt => 2
    case Path | QueryStringStart => 3
    case QueryString | FragmentStart => 4
    case Fragment => 5
  }

  /** Fields begin in order: a byte stays in its neighbour's field or begins a later one. */
  lemma FieldsInOrder(u: UrlState, ch: char)
    ensures var s := ParseUrlChar(u, ch);
      s.Url? ==>
        !s.url.SpacesBeforeUrl? && Reached(u) <= Reached(s.url) &&
        match FieldOf(s)
        case NoField => true
        case Of(f) =>
          Order(f) < Reached(s.url) && Order(f) <= 4 &&
          (FieldOf(Url(u)) == Of(f) || Reached(u) <= Order(f))
  {
    hide IsUrlChar, IsUserinfoChar, IsAlpha;
  }

  /** Appending one label to exact slices. */
  lemma ExtendExact(fields: map<UrlField, Slice>, more: map<UrlField, Slice>, labels: seq<Label>, l: Label, base: nat)
    requires AllExact(fields, labels, base)
    requires match l
      case NoField => more == fields
      case Of(f) =>
        if f in fields && fields[f].len > 0 then
          fields[f].off + fields[f].len == base + |labels| &&
          more == fields[f := fields[f].(len := fields[f].len + 1)]
        else more == fields[f := Slice(base + |labels|, 1)]
    ensures AllExact(more, labels + [l], base)
  {
    forall g: UrlField ensures Exact(more, g, labels + [l], base) {
      assert Exact(fields, g, labels, base);
    }
  }

  function HostReached(s: HostState): nat {
    match s
    case UserinfoStart => 0
    case Userinfo | HostStart | HostV6Start => 1
    case Host | HostV6 | HostV6End | HostPortStart => 2
    case HostPort | HostDead => 3
  }

  function HostOrder(f: UrlField): nat {
    match f
    case UfUserinfo => 0
    case UfHost => 1
    case _ => 2
  }

  lemma HostFieldsInOrder(s: HostState, ch: char)
    ensures var t := ParseHostChar(s, ch);
      HostReached(s) <= HostReached(t) &&
      match HostFieldOf(t)
      case NoField => true
      case Of(f) =>
        HostOrder(f) < HostReached(t) && (f.UfHost? || f.UfPort? || f.UfUserinfo?) &&
        (if s == t then HostFieldOf(s) == Of(f) else HostReached(s) <= HostOrder(f))
  {
    hide IsHostChar, IsUserinfoChar, IsHex, IsNum;
  }

  /** The value of decimal digits. */
  function NumberOf(digits: string): nat {
    if digits == "" then 0
    else
      var c := digits[|digits| - 1];
      NumberOf(digits[..|digits| - 1]) * 10 + (if IsNum(c) then Digit(c) else 0)
  }

  /** strtoul in base 10: the digits from off up to the first byte that is none. */
  method ReadNumber(buf: string, off: nat) returns (v: nat, ghost end: nat)
    requires off <= |buf|
    ensures off <= end <= |buf| && (forall i :: off <= i < end ==> IsNum(buf[i]))
    ensures end < |buf| ==> !IsNum(buf[end])
    ensures v == NumberOf(buf[off..end])
  {
    v := 0;
    var p := off;
    while p < |buf| && IsNum(buf[p])
      invariant off <= p <= |buf| && (forall i :: off <= i < p ==> IsNum(buf[i]))
      invariant v == NumberOf(buf[off..p])
    {
      assert buf[off..p + 1][..p - off] == buf[off..p];
      v := v * 10 + Digit(buf[p]);
      p := p + 1;
    }
    end := p;
  }

  /** Where the fields of the server part stand after a state of the host machine. */
  predicate HostProgress(h: map<UrlField, Slice>, s: HostState, end: nat) {
    h.Keys <= {UfHost, UfPort, UfUserinfo} &&
    (forall f :: f in h && h[f].len > 0 ==> HostOrder(f) < HostReached(s)) &&
    (forall f :: f in h && !f.UfHost? ==> h[f].len > 0) &&
    (s.Host? || s.HostV6? || s.HostV6End? || s.HostPortStart? || s.HostPort? ==> UfHost in h && h[UfHost].len > 0) &&
    match HostFieldOf(s)
    case NoField => true
    case Of(f) => f in h && h[f].len > 0 && h[f].off + h[f].len == end
  }

  // ---- which urls are accepted ----

  /** A byte carries the label of a field. */
  predicate Uses(labels: seq<Label>, f: UrlField) { Of(f) in labels }

  /** The bytes that carry a label. */
  function Select(labels: seq<Label>, buf: string, f: UrlField): string
    requires |labels| == |buf|
  {
    if buf == "" then ""
    else
      var n := |buf| - 1;
      Select(labels[..n], buf[..n], f) + (if labels[n] == Of(f) then [buf[n]] else "")
  }

  function UrlFrom(isConnect: bool): UrlState { if isConnect then ServerStart else SpacesBeforeUrl }

  /** The urls that are accepted, a..b being the server part. */
  predicate UrlAccepted(buf: string, isConnect: bool, a: nat, b: nat) {
    var from := UrlFrom(isConnect);
    var main := MainLabels(from, buf);
    UrlRun(from, buf).Url? && HostPart(main, a, b) &&
    var final := FinalLabels(from, buf, a, b);
    (Uses(main, UfSchema) || Uses(main, UfHost) ==> HostMayEnd(HostRun(HostFrom(from, buf), buf[a..b]))) &&
    (isConnect ==> forall f: UrlField :: Uses(final, f) <==> f == UfHost || f == UfPort) &&
    NumberOf(Select(final, buf, UfPort)) <= 0xffff
  }

  lemma SameServerPart(buf: string, isConnect: bool, a: nat, b: nat, c: nat, d: nat)
    requires var main := MainLabels(UrlFrom(isConnect), buf); HostPart(main, a, b) && HostPart(main, c, d)
    ensures buf[a..b] == buf[c..d]
    ensures FinalLabels(UrlFrom(isConnect), buf, a, b) == FinalLabels(UrlFrom(isConnect), buf, c, d)
  {
    var from := UrlFrom(isConnect);
    var main := MainLabels(from, buf);
    hide MainLabels, HostLabels, HostFrom;
    if a < b {
      assert main[a] == Of(UfHost) && main[b - 1] == Of(UfHost);
      assert main[c] == Of(UfHost) && main[d - 1] == Of(UfHost);
    } else {
      var first := if c < |main| then main[c] else NoField;
      assert c == d;
      assert buf[a..b] == "" == buf[c..d];
      assert HostLabels(HostFrom(from, buf), "") == [];
      assert main[..a] + [] + main[b..] == main == main[..c] + [] + main[d..];
    }
  }

  /** Whether a url is accepted does not depend on where an empty server part is taken to be. */
  lemma OneServerPart(buf: string, isConnect: bool, a: nat, b: nat)
    requires HostPart(MainLabels(UrlFrom(isConnect), buf), a, b)
    ensures (exists c, d :: UrlAccepted(buf, isConnect, c, d)) <==> UrlAccepted(buf, isConnect, a, b)
  {
    hide UrlRun, MainLabels, HostRun, HostFrom, HostPart, FinalLabels, NumberOf, Select;
    forall c, d | UrlAccepted(buf, isConnect, c, d) ensures UrlAccepted(buf, isConnect, a, b) {
      assert HostPart(MainLabels(UrlFrom(isConnect), buf), c, d);
      SameServerPart(buf, isConnect, a, b, c, d);
    }
  }

  /** The result describes the labelling exactly, and port is the value of its digits. */
  predicate Described(buf: string, isConnect: bool, a: nat, b: nat, fields: map<UrlField, Slice>, port: nat)
    requires UrlAccepted(buf, isConnect, a, b)
  {
    var final := FinalLabels(UrlFrom(isConnect), buf, a, b);
    (forall f :: f in fields ==> fields[f].len > 0) && AllExact(fields, final, 0) &&
    port == NumberOf(Select(final, buf, UfPort))
  }

  // ---- the loop over the url ----

  /** Where the fields of the url stand after a state of the url machine. */
  predicate MainProgress(fields: map<UrlField, Slice>, last: Label, u: UrlState, p: nat) {
    (forall f :: f in fields ==> fields[f].len > 0 && Order(f) < Reached(u)) &&
    (last.Of? ==> last.field in fields) &&
    match FieldOf(Url(u))
    case NoField => true
    case Of(f) => last == Of(f) && fields[f].off + fields[f].len == p
  }

  /** Only the fields of the url machine, none of them empty. */
  predicate MainOnly(fields: map<UrlField, Slice>) {
    (forall f :: f in fields ==> fields[f].len > 0) && UfPort !in fields && UfUserinfo !in fields
  }

  lemma MainStarts(from: UrlState)
    requires from.SpacesBeforeUrl? || from.ServerStart?
    ensures MainProgress(map[], NoField, from, 0) && AllExact(map[], MainLabels(from, ""), 0)
    ensures UrlRun(from, "") == Url(from) && !FoundAt(from, "")
  {
  }

  lemma MainStep(from: UrlState, buf: string, p: nat)
    requires p < |buf| && UrlRun(from, buf[..p]).Url?
    ensures var s := ParseUrlChar(UrlRun(from, buf[..p]).url, buf[p]);
      && UrlRun(from, buf[..p + 1]) == s
      && MainLabels(from, buf[..p + 1]) == MainLabels(from, buf[..p]) + [FieldOf(s)]
      && (FoundAt(from, buf[..p + 1]) <==> FoundAt(from, buf[..p]) || s == Url(ServerWithAt))
  {
    hide ParseUrlChar, FieldOf;
    assert buf[..p + 1][..p] == buf[..p];
  }

  lemma {:induction false} DeadUrl(from: UrlState, buf: string, n: nat)
    requires n <= |buf| && !UrlRun(from, buf[..n]).Url?
    ensures !UrlRun(from, buf).Url?
    decreases |buf| - n
  {
    hide ParseUrlChar;
    if n < |buf| {
      assert buf[..n + 1][..n] == buf[..n];
      DeadUrl(from, buf, n + 1);
    } else {
      assert buf[..n] == buf;
    }
  }

  function Counted(fields: map<UrlField, Slice>, f: UrlField, goesOn: bool, p: nat): map<UrlField, Slice>
    requires goesOn ==> f in fields
  {
    fields[f := if goesOn then fields[f].(len := fields[f].len + 1) else Slice(p, 1)]
  }

  /** The fields after a byte that leads to a state. */
  function MainCounted(fields: map<UrlField, Slice>, last: Label, s: State, p: nat): map<UrlField, Slice>
    requires last.Of? ==> last.field in fields
  {
    match FieldOf(s)
    case NoField => fields
    case Of(f) => Counted(fields, f, Of(f) == last, p)
  }

  lemma MainCounts(fields: map<UrlField, Slice>, last: Label, u: UrlState, ch: char, labels: seq<Label>)
    requires MainProgress(fields, last, u, |labels|) && AllExact(fields, labels, 0)
    requires ParseUrlChar(u, ch) != Dead
    ensures var s := ParseUrlChar(u, ch);
      && s.Url? && (last.Of? ==> last.field in fields)
      && var g := MainCounted(fields, last, s, |labels|);
      && MainProgress(g, if FieldOf(s).Of? then FieldOf(s) else last, s.url, |labels| + 1)
      && AllExact(g, labels + [FieldOf(s)], 0)
  {
    UrlCharStates(u, ch);
    FieldsInOrder(u, ch);
    hide ParseUrlChar, AllExact;
    var s := ParseUrlChar(u, ch);
    ExtendExact(fields, MainCounted(fields, last, s, |labels|), labels, FieldOf(s), 0);
  }

  lemma MainEnds(fields: map<UrlField, Slice>, last: Label, u: UrlState, p: nat)
    requires MainProgress(fields, last, u, p)
    ensures MainOnly(fields)
  {
  }

  /** A label is used exactly when its field has a slice. */
  lemma UsedFields(fields: map<UrlField, Slice>, labels: seq<Label>, base: nat, f: UrlField)
    requires Exact(fields, f, labels, base)
    ensures Uses(labels, f) <==> f in fields && fields[f].len > 0
  {
    if f in fields && fields[f].len > 0 {
      assert In(base + (fields[f].off - base), fields[f]);
      assert labels[fields[f].off - base] == Of(f);
    }
  }

  lemma MainHost(main: map<UrlField, Slice>, from: UrlState, buf: string)
    requires AllExact(main, MainLabels(from, buf), 0) && MainOnly(main)
    ensures var labels := MainLabels(from, buf);
      && (if UfHost in main then
            main[UfHost].off + main[UfHost].len <= |buf| &&
            HostPart(labels, main[UfHost].off, main[UfHost].off + main[UfHost].len)
          else HostPart(labels, 0, 0))
      && (Uses(labels, UfSchema) <==> UfSchema in main) && (Uses(labels, UfHost) <==> UfHost in main)
  {
    var labels := MainLabels(from, buf);
    assert Exact(main, UfHost, labels, 0) && Exact(main, UfSchema, labels, 0);
    UsedFields(main, labels, 0, UfHost);
    UsedFields(main, labels, 0, UfSchema);
    hide MainLabels;
    if UfHost in main {
      var s := main[UfHost];
      forall i | 0 <= i < |labels| ensures s.off <= i < s.off + s.len <==> labels[i] == Of(UfHost) {
        assert In(0 + i, s) <==> labels[i] == Of(UfHost);
      }
    }
  }

  /** The main machine never labels a port or user info. */
  lemma {:induction false} MainLabelsOnly(from: UrlState, buf: string)
    ensures !Uses(MainLabels(from, buf), UfPort) && !Uses(MainLabels(from, buf), UfUserinfo)
  {
    hide UrlRun;
    if buf != "" { MainLabelsOnly(from, buf[..|buf| - 1]); }
  }

  /** The host machine labels nothing else. */
  lemma {:induction false} HostLabelsOnly(from: HostState, section: string, f: UrlField)
    requires f != UfHost && f != UfPort && f != UfUserinfo
    ensures !Uses(HostLabels(from, section), f)
  {
    hide HostRun;
    if section != "" { HostLabelsOnly(from, section[..|section| - 1], f); }
  }

  lemma FinalAt(from: UrlState, buf: string, a: nat, b: nat, i: nat)
    requires a <= b <= |buf| && i < |buf|
    ensures FinalLabels(from, buf, a, b)[i] ==
            if a <= i < b then HostLabels(HostFrom(from, buf), buf[a..b])[i - a] else MainLabels(from, buf)[i]
  {
    hide HostLabels, MainLabels, HostFrom;
  }

  lemma PartExact(fields: map<UrlField, Slice>, f: UrlField, parts: seq<Label>, labels: seq<Label>, final: seq<Label>,
                  a: nat, b: nat)
    requires a <= b <= |labels| == |final| && |parts| == b - a && Exact(fields, f, parts, a)
    requires forall i :: 0 <= i < |final| ==> final[i] == if a <= i < b then parts[i - a] else labels[i]
    requires forall i :: 0 <= i < |labels| && labels[i] == Of(f) ==> a <= i < b
    ensures Exact(fields, f, final, 0)
  {
    forall i | 0 <= i < |final|
      ensures if f in fields && fields[f].len > 0 then In(i, fields[f]) <==> final[i] == Of(f) else final[i] != Of(f)
    {
      if a <= i < b { assert a + (i - a) == i; assert parts[i - a] == final[i]; }
    }
  }

  lemma RestExact(main: map<UrlField, Slice>, fields: map<UrlField, Slice>, f: UrlField, parts: seq<Label>,
                  labels: seq<Label>, final: seq<Label>, a: nat, b: nat)
    requires a <= b <= |labels| == |final| && |parts| == b - a && Exact(main, f, labels, 0)
    requires (f in fields <==> f in main) && (f in main ==> fields[f] == main[f])
    requires forall i :: 0 <= i < |final| ==> final[i] == if a <= i < b then parts[i - a] else labels[i]
    requires !Uses(parts, f) && forall i :: a <= i < b ==> labels[i] != Of(f)
    ensures Exact(fields, f, final, 0)
  {
    forall i | 0 <= i < |final|
      ensures if f in fields && fields[f].len > 0 then In(i, fields[f]) <==> final[i] == Of(f) else final[i] != Of(f)
    {
      assert f in main && main[f].len > 0 ==> (In(0 + i, main[f]) <==> labels[i] == Of(f));
      if a <= i < b { assert parts[i - a] in parts; }
    }
  }

  /** What a successful split of the server part says of the three fields and leaves of the others. */
  ghost predicate HostSplit(before: map<UrlField, Slice>, after: map<UrlField, Slice>, labels: seq<Label>, off: nat) {
    before.Keys <= after.Keys <= before.Keys + {UfPort, UfUserinfo} &&
    (forall f :: f in before && f != UfHost ==> after[f] == before[f]) &&
    forall f :: f == UfHost || f == UfPort || f == UfUserinfo ==>
      (f in after ==> after[f].len > 0) && Exact(after, f, labels, off)
  }

  lemma FinalExact(main: map<UrlField, Slice>, fields: map<UrlField, Slice>, from: UrlState, buf: string,
                   a: nat, b: nat, f: UrlField)
    requires MainOnly(main) && HostPart(MainLabels(from, buf), a, b) && AllExact(main, MainLabels(from, buf), 0)
    requires if UfSchema in main || UfHost in main then
               UfHost in main && HostSplit(main, fields, HostLabels(HostFrom(from, buf), buf[a..b]), a)
             else fields == main && a == b == 0
    ensures Exact(fields, f, FinalLabels(from, buf, a, b), 0)
    ensures f in fields ==> fields[f].len > 0
  {
    hide FinalLabels, MainLabels, HostLabels, HostFrom;
    var labels, parts := MainLabels(from, buf), HostLabels(HostFrom(from, buf), buf[a..b]);
    var final := FinalLabels(from, buf, a, b);
    forall i | 0 <= i < |final| ensures final[i] == if a <= i < b then parts[i - a] else labels[i] {
      FinalAt(from, buf, a, b, i);
    }
    assert Exact(main, f, labels, 0);
    MainLabelsOnly(from, buf);
    if f == UfHost || f == UfPort || f == UfUserinfo {
      if UfHost in main { PartExact(fields, f, parts, labels, final, a, b); }
    } else {
      HostLabelsOnly(HostFrom(from, buf), buf[a..b], f);
      RestExact(main, fields, f, parts, labels, final, a, b);
    }
  }

  /** What the two machines together leave in the result. */
  lemma FinalFields(main: map<UrlField, Slice>, fields: map<UrlField, Slice>, from: UrlState, buf: string,
                    a: nat, b: nat)
    requires MainOnly(main) && HostPart(MainLabels(from, buf), a, b) && AllExact(main, MainLabels(from, buf), 0)
    requires if UfSchema in main || UfHost in main then
               UfHost in main && HostSplit(main, fields, HostLabels(HostFrom(from, buf), buf[a..b]), a)
             else fields == main && a == b == 0
    ensures AllExact(fields, FinalLabels(from, buf, a, b), 0)
    ensures forall f :: f in fields ==> fields[f].len > 0
    ensures forall f: UrlField :: f in fields <==> Uses(FinalLabels(from, buf, a, b), f)
  {
    hide FinalLabels, MainLabels, HostLabels, HostFrom, Uses;
    var final := FinalLabels(from, buf, a, b);
    forall f: UrlField ensures Exact(fields, f, final, 0) {
      FinalExact(main, fields, from, buf, a, b, f);
    }
    forall f: UrlField ensures f in fields <==> Uses(final, f) {
      UsedFields(fields, final, 0, f);
    }
  }

  lemma SliceOfFront(buf: string, n: nat, off: nat, end: nat)
    requires off <= end <= n <= |buf|
    ensures buf[..n][off..end] == buf[off..end]
  {
  }

  lemma SliceGrows(buf: string, off: nat, n: nat)
    requires off <= n < |buf|
    ensures buf[off..n] + [buf[n]] == buf[off..n + 1]
  {
  }

  /** A slice holds the selected bytes. */
  lemma {:induction false} SelectIsSlice(labels: seq<Label>, buf: string, f: UrlField, off: nat, end: nat)
    requires |labels| == |buf| && off <= end <= |buf|
    requires forall i :: 0 <= i < |buf| ==> (off <= i < end <==> labels[i] == Of(f))
    ensures Select(labels, buf, f) == buf[off..end]
  {
    if buf != "" {
      var n := |buf| - 1;
      if end > n {
        var from := if off <= n then off else n;
        SelectIsSlice(labels[..n], buf[..n], f, from, n);
        SliceOfFront(buf, n, from, n);
        SliceGrows(buf, from, n);
      } else {
        SelectIsSlice(labels[..n], buf[..n], f, off, end);
        SliceOfFront(buf, n, off, end);
      }
    }
  }

  lemma NoDigits()
    ensures NumberOf("") == 0
  {
  }

  lemma NoPort(fields: map<UrlField, Slice>, final: seq<Label>, buf: string)
    requires |final| == |buf| && (UfPort in fields <==> Uses(final, UfPort))
    ensures UfPort !in fields ==> NumberOf(Select(final, buf, UfPort)) == 0
  {
    hide Select, NumberOf;
    if UfPort !in fields {
      SelectIsSlice(final, buf, UfPort, 0, 0);
      assert buf[0..0] == "";
      assert NumberOf("") == 0 by { NoDigits(); }
    }
  }

  lemma {:induction false} HostLabelAt(from: HostState, section: string, k: nat)
    requires k < |section|
    ensures HostLabels(from, section)[k] == HostFieldOf(HostRun(from, section[..k + 1]))
  {
    hide HostRun, HostFieldOf;
    var n := |section| - 1;
    if k < n {
      HostLabelAt(from, section[..n], k);
      assert section[..n][..k + 1] == section[..k + 1];
    } else {
      assert section[..k + 1] == section;
    }
  }

  lemma HostStep(from: HostState, section: string, k: nat)
    requires k < |section|
    ensures HostRun(from, section[..k + 1]) == ParseHostChar(HostRun(from, section[..k]), section[k])
    ensures HostLabels(from, section[..k + 1]) ==
            HostLabels(from, section[..k]) + [HostFieldOf(HostRun(from, section[..k + 1]))]
  {
    hide ParseHostChar;
    assert section[..k + 1][..k] == section[..k];
  }

  lemma PortDigit(from: UrlState, buf: string, a: nat, b: nat, i: nat)
    requires a <= b <= |buf| && i < |buf| && FinalLabels(from, buf, a, b)[i] == Of(UfPort)
    ensures a <= i < b && IsNum(buf[i])
    ensures HostRun(HostFrom(from, buf), buf[a..b][..i - a + 1]).HostPort?
  {
    hide UrlRun, MainLabels, HostLabels, HostRun, HostFrom, FinalLabels, IsNum;
    FinalAt(from, buf, a, b, i);
    MainLabelsOnly(from, buf);
    var section := buf[a..b];
    HostLabelAt(HostFrom(from, buf), section, i - a);
    HostStep(HostFrom(from, buf), section, i - a);
  }

  lemma DigitStaysInServer(u: UrlState, ch: char)
    requires FieldOf(Url(u)) == Of(UfHost) && IsNum(ch)
    ensures FieldOf(ParseUrlChar(u, ch)) == Of(UfHost)
  {
  }

  lemma {:induction false} MainLabelAt(from: UrlState, buf: string, k: nat)
    requires k < |buf|
    ensures MainLabels(from, buf)[k] == FieldOf(UrlRun(from, buf[..k + 1]))
  {
    hide UrlRun, FieldOf;
    var n := |buf| - 1;
    if k < n {
      MainLabelAt(from, buf[..n], k);
      assert buf[..n][..k + 1] == buf[..k + 1];
    } else {
      assert buf[..k + 1] == buf;
    }
  }

  /** The byte after the port slice is no digit: the slice runs to the end of the server part. */
  lemma AfterPort(from: UrlState, buf: string, a: nat, b: nat, e: nat)
    requires UrlRun(from, buf).Url? && HostPart(MainLabels(from, buf), a, b)
    requires 0 < e < |buf|
    requires var final := FinalLabels(from, buf, a, b);
      final[e - 1] == Of(UfPort) && final[e] != Of(UfPort)
    ensures !IsNum(buf[e])
  {
    hide UrlRun, MainLabels, HostLabels, HostRun, HostFrom, FinalLabels;
    PortDigit(from, buf, a, b, e - 1);
    var section, start := buf[a..b], HostFrom(from, buf);
    if e < b {
      FinalAt(from, buf, a, b, e);
      HostLabelAt(start, section, e - a);
      HostStep(start, section, e - a);
    } else {
      MainLabelAt(from, buf, e - 1);
      MainLabelAt(from, buf, e);
      if !UrlRun(from, buf[..e]).Url? { DeadUrl(from, buf, e); }
      MainStep(from, buf, e);
      if !UrlRun(from, buf[..e + 1]).Url? { DeadUrl(from, buf, e + 1); }
      if IsNum(buf[e]) { DigitStaysInServer(UrlRun(from, buf[..e]).url, buf[e]); }
    }
  }

  /** The digits strtoul reads are those of the port slice: it stops where the slice does. */
  lemma PortEnds(fields: map<UrlField, Slice>, from: UrlState, buf: string,
                 a: nat, b: nat, end: nat)
    requires UrlRun(from, buf).Url? && HostPart(MainLabels(from, buf), a, b)
    requires UfPort in fields && fields[UfPort].len > 0
    requires Exact(fields, UfPort, FinalLabels(from, buf, a, b), 0)
    requires fields[UfPort].off <= end <= |buf|
    requires forall i :: fields[UfPort].off <= i < end ==> IsNum(buf[i])
    requires end < |buf| ==> !IsNum(buf[end])
    ensures Select(FinalLabels(from, buf, a, b), buf, UfPort) == buf[fields[UfPort].off..end]
  {
    hide UrlRun, MainLabels, HostLabels, HostRun, FinalLabels, Select, HostFrom;
    var final, s := FinalLabels(from, buf, a, b), fields[UfPort];
    var e := s.off + s.len;
    forall i | 0 <= i < |buf| ensures s.off <= i < e <==> final[i] == Of(UfPort) {
      assert In(0 + i, s) <==> final[i] == Of(UfPort);
    }
    assert e == end by {
      forall i | s.off <= i < e ensures IsNum(buf[i]) { PortDigit(from, buf, a, b, i); }
      if e < |buf| { AfterPort(from, buf, a, b, e); }
    }
    SelectIsSlice(final, buf, UfPort, s.off, e);
  }

  // ---- counting bytes into fields ----

  predicate CanCount(fields: map<UrlField, Slice>, s: HostState, t: HostState) {
    (t.Host? || t.HostV6? ==> UfHost in fields) &&
    (t.HostPort? && s.HostPort? ==> UfPort in fields) &&
    (t.Userinfo? && s.Userinfo? ==> UfUserinfo in fields)
  }

  /** The fields after counting the byte at p. */
  function HostCounted(fields: map<UrlField, Slice>, s: HostState, t: HostState, p: nat): map<UrlField, Slice>
    requires CanCount(fields, s, t)
  {
    match t
    case Host | HostV6 =>
      fields[UfHost := Slice(if s != t then p else fields[UfHost].off, fields[UfHost].len + 1)]
    case HostPort => Counted(fields, UfPort, s == HostPort, p)
    case Userinfo => Counted(fields, UfUserinfo, s == Userinfo, p)
    case _ => fields
  }

  lemma NothingCounted(h: map<UrlField, Slice>, s: HostState, off: nat)
    requires s.UserinfoStart? || s.HostStart?
    requires forall f :: f in h ==> f == UfHost && h[f].len == 0
    ensures HostProgress(h, s, off) && AllExact(h, HostLabels(s, ""), off) && HostRun(s, "") == s
  {
  }

  lemma CountedProgress(h: map<UrlField, Slice>, s: HostState, ch: char, p: nat)
    requires UfHost in h && HostProgress(h, s, p) && !ParseHostChar(s, ch).HostDead?
    ensures var t := ParseHostChar(s, ch);
      CanCount(h, s, t) && UfHost in HostCounted(h, s, t, p) && HostProgress(HostCounted(h, s, t, p), t, p + 1)
  {
    var t := ParseHostChar(s, ch);
    HostFieldsInOrder(s, ch);
    hide IsHostChar, IsUserinfoChar, IsHex, IsNum;
    match t
    case Host | HostV6 =>
    case HostPort =>
    case Userinfo =>
    case _ =>
  }

  lemma CountedExact(h: map<UrlField, Slice>, s: HostState, ch: char, labels: seq<Label>, base: nat, p: nat)
    requires UfHost in h && HostProgress(h, s, p) && !ParseHostChar(s, ch).HostDead?
    requires p == base + |labels| && AllExact(h, labels, base)
    ensures var t := ParseHostChar(s, ch);
      CanCount(h, s, t) && AllExact(HostCounted(h, s, t, p), labels + [HostFieldOf(t)], base)
  {
    var t := ParseHostChar(s, ch);
    HostFieldsInOrder(s, ch);
    CountedProgress(h, s, ch, p);
    hide ParseHostChar, AllExact, CanCount;
    var g := HostCounted(h, s, t, p);
    match t
    case Host | HostV6 => ExtendExact(h, g, labels, Of(UfHost), base);
    case HostPort => ExtendExact(h, g, labels, Of(UfPort), base);
    case Userinfo => ExtendExact(h, g, labels, Of(UfUserinfo), base);
    case _ => ExtendExact(h, g, labels, NoField, base);
  }

  lemma UpdatedBeside(rest: map<UrlField, Slice>, h: map<UrlField, Slice>, f: UrlField, s: Slice)
    ensures (rest + h)[f := s] == rest + h[f := s]
  {
  }

  lemma CountedBeside(rest: map<UrlField, Slice>, h: map<UrlField, Slice>, s: HostState, t: HostState, p: nat)
    requires rest.Keys !! {UfHost, UfPort, UfUserinfo} && CanCount(h, s, t)
    ensures CanCount(rest + h, s, t) && HostCounted(rest + h, s, t, p) == rest + HostCounted(h, s, t, p)
  {
    var g := HostCounted(h, s, t, p);
    match t
    case Host | HostV6 => UpdatedBeside(rest, h, UfHost, g[UfHost]);
    case HostPort => UpdatedBeside(rest, h, UfPort, g[UfPort]);
    case Userinfo => UpdatedBeside(rest, h, UfUserinfo, g[UfUserinfo]);
    case _ =>
  }

  /** A server part that may end holds a host. */
  lemma HostEndFits(h: map<UrlField, Slice>, s: HostState, p: nat, given: bool)
    requires HostProgress(h, s, p) && HostMayEnd(s) && (given <==> UfHost in h)
    ensures given && h[UfHost].len > 0
  {
  }

  lemma SameSlice(a: map<UrlField, Slice>, b: map<UrlField, Slice>, f: UrlField, labels: seq<Label>, base: nat)
    requires Exact(a, f, labels, base) && (f in a <==> f in b) && (f in a ==> a[f] == b[f])
    ensures Exact(b, f, labels, base)
  {
  }

  lemma SplitDone(before: map<UrlField, Slice>, rest: map<UrlField, Slice>, h: map<UrlField, Slice>,
                  s: HostState, p: nat, labels: seq<Label>, off: nat)
    requires UfHost in before && UfPort !in before && UfUserinfo !in before && rest == before - {UfHost}
    requires UfHost in h && HostProgress(h, s, p) && HostMayEnd(s) && AllExact(h, labels, off)
    requires h[UfHost].len > 0
    ensures HostSplit(before, rest + h, labels, off)
  {
    forall f | f == UfHost || f == UfPort || f == UfUserinfo
      ensures (f in rest + h ==> (rest + h)[f].len > 0) && Exact(rest + h, f, labels, off)
    {
      assert Exact(h, f, labels, off);
      SameSlice(h, rest + h, f, labels, off);
    }
  }

  lemma {:induction false} DeadHost(from: HostState, section: string, n: nat)
    requires n <= |section| && HostRun(from, section[..n]).HostDead?
    ensures HostRun(from, section).HostDead?
    decreases |section| - n
  {
    if n < |section| {
      assert section[..n + 1][..n] == section[..n];
      DeadHost(from, section, n + 1);
    } else {
      assert section[..n] == section;
    }
  }

  /** struct http_parser_url: a field is in the map when its bit in field_set is set. */
  class ParsedUrl {
    var fields: map<UrlField, Slice>
    var port: nat

    constructor ()
      ensures fields == map[] && port == 0
    {
      fields, port := map[], 0;
    }

    /** Counts the byte at p towards a field that begins there unless it goes on. */
    method Count(f: UrlField, goesOn: bool, p: nat)
      requires goesOn ==> f in fields
      modifies this`fields
      ensures fields == old(fields)[f := if goesOn then old(fields)[f].(len := old(fields)[f].len + 1) else Slice(p, 1)]
    {
      if goesOn {
        fields := fields[f := fields[f].(len := fields[f].len + 1)];
      } else {
        fields := fields[f := Slice(p, 1)];
      }
    }

    /** The switch of http_parse_host on the state t reached from s by the byte at p. */
    method CountHostByte(s: HostState, t: HostState, p: nat)
      requires CanCount(fields, s, t)
      modifies this`fields
      ensures fields == HostCounted(old(fields), s, t, p)
    {
      match t {
        case Host | HostV6 =>
          if s != t { fields := fields[UfHost := fields[UfHost].(off := p)]; }
          fields := fields[UfHost := fields[UfHost].(len := fields[UfHost].len + 1)];
        case HostPort => Count(UfPort, s == HostPort, p);
        case Userinfo => Count(UfUserinfo, s == Userinfo, p);
        case _ =>
      }
    }

    /** http_parse_host: splits the server part into user info, host and port. */
    method ParseHost(buf: string, foundAt: bool) returns (failed: bool)
      requires UfHost in fields ==> fields[UfHost].off + fields[UfHost].len <= |buf|
      requires UfPort !in fields && UfUserinfo !in fields
      modifies this`fields
      ensures var from := if foundAt then UserinfoStart else HostStart;
        var host := if UfHost in old(fields) then old(fields)[UfHost] else Slice(0, 0);
        var section := buf[host.off..host.off + host.len];
        && (failed <==> !HostMayEnd(HostRun(from, section)))
        && (!failed ==> UfHost in old(fields) && HostSplit(old(fields), fields, HostLabels(from, section), host.off))
    {
      hide Exact, ParseHostChar, HostProgress, HostCounted, HostSplit, AllExact, CanCount, HostRun, HostLabels;
      var off, end := 0, 0;
      var s := if foundAt then UserinfoStart else HostStart;
      ghost var from, rest, h := s, fields - {UfHost}, map[];
      if UfHost in fields {
        off, end := fields[UfHost].off, fields[UfHost].off + fields[UfHost].len;
        fields := fields[UfHost := Slice(off, 0)];
        h := map[UfHost := Slice(off, 0)];
      }
      ghost var section := buf[off..end];
      assert section[..0] == "";
      var p := off;
      NothingCounted(h, s, off);
      while p < end
        invariant off <= p <= end && (p > off ==> UfHost in old(fields))
        invariant fields == rest + h && HostProgress(h, s, p)
        invariant s == HostRun(from, section[..p - off]) && !s.HostDead?
        invariant UfHost in old(fields) <==> UfHost in h
        invariant AllExact(h, HostLabels(from, section[..p - off]), off)
      {
        var t := ParseHostChar(s, buf[p]);
        ghost var k := p - off;
        HostStep(from, section, k);
        if t == HostDead {
          DeadHost(from, section, k + 1);
          return true;
        }
        CountedProgress(h, s, buf[p], p);
        CountedExact(h, s, buf[p], HostLabels(from, section[..k]), off, p);
        CountedBeside(rest, h, s, t, p);
        CountHostByte(s, t, p);
        h := HostCounted(h, s, t, p);
        s := t;
        p := p + 1;
      }
      assert section[..p - off] == section;
      if HostMayEnd(s) {
        HostEndFits(h, s, p, UfHost in old(fields));
        SplitDone(old(fields), rest, h, s, p, HostLabels(from, section), off);
      }
      return !HostMayEnd(s);
    }

    /** The loop of http_parser_parse_url over the url's bytes. */
    method SplitMain(buf: string, from: UrlState) returns (dead: bool, foundAt: bool)
      requires fields == map[] && (from.SpacesBeforeUrl? || from.ServerStart?)
      modifies this`fields
      ensures dead <==> !UrlRun(from, buf).Url?
      ensures !dead ==>
        foundAt == FoundAt(from, buf) && AllExact(fields, MainLabels(from, buf), 0) && MainOnly(fields)
    {
      hide AllExact, ParseUrlChar, MainProgress, UrlRun, FoundAt, MainLabels, FieldOf;
      foundAt := false;
      var s := from;
      var oldField: Label := NoField;
      var p := 0;
      assert buf[..0] == "";
      MainStarts(from);
      while p < |buf|
        invariant p <= |buf|
        invariant UrlRun(from, buf[..p]) == Url(s) && foundAt == FoundAt(from, buf[..p])
        invariant MainProgress(fields, oldField, s, p)
        invariant AllExact(fields, MainLabels(from, buf[..p]), 0)
      {
        MainStep(from, buf, p);
        var next := ParseUrlChar(s, buf[p]);
        if next == Dead {
          DeadUrl(from, buf, p + 1);
          return true, foundAt;
        }
        MainCounts(fields, oldField, s, buf[p], MainLabels(from, buf[..p]));
        if next == Url(ServerWithAt) { foundAt := true; }
        match FieldOf(next) {
          case NoField =>
          case Of(f) =>
            Count(f, Of(f) == oldField, p);
            oldField := Of(f);
        }
        s := next.url;
        p := p + 1;
      }
      assert buf[..p] == buf;
      MainEnds(fields, oldField, s, p);
      return false, foundAt;
    }

    /** The port as a number, 0 when there is none. */
    method PortValue(buf: string, from: UrlState, ghost a: nat, ghost b: nat) returns (v: nat)
      requires UrlRun(from, buf).Url? && HostPart(MainLabels(from, buf), a, b)
      requires AllExact(fields, FinalLabels(from, buf, a, b), 0)
      requires UfPort in fields <==> Uses(FinalLabels(from, buf, a, b), UfPort)
      requires forall f :: f in fields ==> fields[f].len > 0
      ensures v == NumberOf(Select(FinalLabels(from, buf, a, b), buf, UfPort))
    {
      hide UrlRun, MainLabels, FinalLabels, Select, NumberOf;
      ghost var final := FinalLabels(from, buf, a, b);
      NoPort(fields, final, buf);
      assert Exact(fields, UfPort, final, 0);
      if UfPort !in fields {
        return 0;
      }
      ghost var end;
      v, end := ReadNumber(buf, fields[UfPort].off);
      PortEnds(fields, from, buf, a, b, end);
    }

    /**
     http_parser_parse_url into a zeroed result.  a..b is the server part, empty when
     there is none.
     */
    method ParseUrl(buf: string, isConnect: bool) returns (failed: bool, ghost a: nat, ghost b: nat)
      requires |buf| <= 0xffff && fields == map[]
      modifies this
      ensures var from := UrlFrom(isConnect); UrlRun(from, buf).Url? ==> HostPart(MainLabels(from, buf), a, b)
      ensures failed <==> !UrlAccepted(buf, isConnect, a, b)
      ensures !failed <==> exists c, d :: UrlAccepted(buf, isConnect, c, d)
      ensures !failed ==> Described(buf, isConnect, a, b, fields, port)
    {
      hide UrlRun, FoundAt, MainLabels, HostLabels, HostRun, AllExact, Exact, HostPart, FinalLabels, Select;
      a, b, port := 0, 0, 0;
      var from := UrlFrom(isConnect);
      var dead, foundAt := SplitMain(buf, from);
      if dead {
        return true, a, b;
      }
      ghost var main := fields;
      MainHost(main, from, buf);
      if UfHost in fields { a, b := fields[UfHost].off, fields[UfHost].off + fields[UfHost].len; }
      OneServerPart(buf, isConnect, a, b);
      if UfSchema in fields || UfHost in fields {
        failed := ParseHost(buf, foundAt);
        if failed {
          return true, a, b;
        }
      }
      FinalFields(main, fields, from, buf, a, b);
      if isConnect && fields.Keys != {UfHost, UfPort} {
        return true, a, b;
      }
      var v := PortValue(buf, from, a, b);
      if v > 0xffff {
        return true, a, b;
      }
      port := v;
      return false, a, b;
    }
  }

  // ---- what an accepted url's slices say ----

  lemma CoveredIsLabelled(fields: map<UrlField, Slice>, labels: seq<Label>, i: nat, f: UrlField)
    requires Exact(fields, f, labels, 0) && f in fields && In(i, fields[f])
    ensures i < |labels| && labels[i] == Of(f)
  {
    assert 0 + i == i;
  }

  /** Slices are in bounds, and no byte is in two of them. */
  lemma SlicesAreDisjoint(buf: string, isConnect: bool, a: nat, b: nat, fields: map<UrlField, Slice>, port: nat,
                          f: UrlField, g: UrlField)
    requires UrlAccepted(buf, isConnect, a, b) && Described(buf, isConnect, a, b, fields, port)
    requires f in fields && g in fields && f != g
    ensures fields[f].off + fields[f].len <= |buf|
    ensures fields[f].off + fields[f].len <= fields[g].off || fields[g].off + fields[g].len <= fields[f].off
  {
    hide Select, FinalLabels, HostRun, UrlRun, MainLabels, HostFrom;
    var final := FinalLabels(UrlFrom(isConnect), buf, a, b);
    assert Exact(fields, f, final, 0) && Exact(fields, g, final, 0);
    var later := if fields[f].off < fields[g].off then fields[g].off else fields[f].off;
    if In(later, fields[f]) { CoveredIsLabelled(fields, final, later, f); }
    if In(later, fields[g]) { CoveredIsLabelled(fields, final, later, g); }
  }

  lemma LabelledIsCovered(fields: map<UrlField, Slice>, labels: seq<Label>, i: nat, f: UrlField)
    requires AllExact(fields, labels, 0) && i < |labels| && labels[i] == Of(f)
    ensures f in fields && In(i, fields[f])
  {
    assert Exact(fields, f, labels, 0);
    assert 0 + i == i;
  }

  predicate IsDelimiter(c: char) {
    c == ':' || c == '/' || c == '?' || c == '#' || c == '@' || c == '[' || c == ']'
  }

  lemma SkippedByMain(u: UrlState, ch: char)
    ensures var s := ParseUrlChar(u, ch); s.Url? && FieldOf(s).NoField? ==> IsDelimiter(ch)
  {
    hide IsUrlChar, IsUserinfoChar, IsAlpha;
  }

  lemma SkippedByHost(s: HostState, ch: char)
    ensures var t := ParseHostChar(s, ch); !t.HostDead? && HostFieldOf(t).NoField? ==> IsDelimiter(ch)
  {
    hide IsHostChar, IsUserinfoChar, IsHex, IsNum;
  }

  /** Every byte outside the slices is a delimiter. */
  lemma OutsideAreDelimiters(buf: string, isConnect: bool, a: nat, b: nat, fields: map<UrlField, Slice>, port: nat,
                             i: nat)
    requires UrlAccepted(buf, isConnect, a, b) && Described(buf, isConnect, a, b, fields, port)
    requires i < |buf| && forall f :: f in fields ==> !In(i, fields[f])
    ensures IsDelimiter(buf[i])
  {
    hide Select, FinalLabels, MainLabels, UrlRun, HostRun, HostLabels, HostFrom, IsDelimiter;
    var from := UrlFrom(isConnect);
    var final := FinalLabels(from, buf, a, b);
    if final[i].Of? { LabelledIsCovered(fields, final, i, final[i].field); }
    FinalAt(from, buf, a, b, i);
    if a <= i < b {
      var section, start := buf[a..b], HostFrom(from, buf);
      MainLabelAt(from, buf, i);
      HostLabelAt(start, section, i - a);
      HostStep(start, section, i - a);
      assert Of(UfHost) in MainLabels(from, buf);
      if HostRun(start, section[..i - a + 1]).HostDead? { DeadHost(start, section, i - a + 1); }
      SkippedByHost(HostRun(start, section[..i - a]), section[i - a]);
    } else {
      MainLabelAt(from, buf, i);
      if !UrlRun(from, buf[..i]).Url? { DeadUrl(from, buf, i); }
      MainStep(from, buf, i);
      if !UrlRun(from, buf[..i + 1]).Url? { DeadUrl(from, buf, i + 1); }
      SkippedByMain(UrlRun(from, buf[..i]).url, buf[i]);
    }
  }

  lemma PortSlice(fields: map<UrlField, Slice>, final: seq<Label>, buf: string)
    requires |final| == |buf| && UfPort in fields && fields[UfPort].len > 0 && Exact(fields, UfPort, final, 0)
    ensures fields[UfPort].off + fields[UfPort].len <= |buf|
    ensures Select(final, buf, UfPort) == buf[fields[UfPort].off..fields[UfPort].off + fields[UfPort].len]
  {
    hide Select;
    var s := fields[UfPort];
    forall i | 0 <= i < |buf| ensures s.off <= i < s.off + s.len <==> final[i] == Of(UfPort) {
      assert In(0 + i, s) <==> final[i] == Of(UfPort);
    }
    SelectIsSlice(final, buf, UfPort, s.off, s.off + s.len);
  }

  /** A CONNECT target has a host and a port and nothing else. */
  lemma ConnectTargets(buf: string, a: nat, b: nat, fields: map<UrlField, Slice>, port: nat)
    requires UrlAccepted(buf, true, a, b) && Described(buf, true, a, b, fields, port)
    ensures fields.Keys == {UfHost, UfPort} && port <= 0xffff
    ensures fields[UfPort].off + fields[UfPort].len <= |buf| &&
            port == NumberOf(buf[fields[UfPort].off..fields[UfPort].off + fields[UfPort].len])
  {
    hide Select, FinalLabels, MainLabels, UrlRun, HostRun, HostFrom, NumberOf;
    var final := FinalLabels(ServerStart, buf, a, b);
    forall f: UrlField ensures f in fields <==> f == UfHost || f == UfPort {
      assert Exact(fields, f, final, 0);
      UsedFields(fields, final, 0, f);
    }
    PortSlice(fields, final, buf);
  }
}
