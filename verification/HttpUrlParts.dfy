/**
 Urls, written down without the machines that parse them: their parts, each over its own
 characters, and the delimiters between them.  The parser accepts exactly these urls, and its
 slices are exactly the positions of the parts.
 */
module HttpUrlParts {
  import opened Common
  import opened HttpTypes
  import opened HttpSwitch
  import opened HttpUrl
  import HttpBounds
  import HttpLine
  // ---- the parts of a url ----

  /** The server part; at says that there is user info, which may be empty, v6 that the host is in brackets. */
  datatype Authority =
    | NoAuthority
    | Authority(at: bool, user: string, v6: bool, host: string, port: string)

  /** asks says that there is a query, which may be empty; hashes is what stands in front of the fragment. */
  datatype Parts = Parts(schema: string, server: Authority, path: string, asks: bool, query: string,
                         hashes: string, fragment: string)

  function HostText(s: Authority): string
    requires s.Authority?
  {
    if s.v6 then "[" + s.host + "]" else s.host
  }

  function PortText(port: string): string { if port == "" then "" else ":" + port }

  function UserText(s: Authority): string
    requires s.Authority?
  {
    if s.at then s.user + "@" else ""
  }

  function AddressText(s: Authority): string
    requires s.Authority?
  {
    HostText(s) + PortText(s.port)
  }

  function ServerText(s: Authority): string {
    if s.NoAuthority? then "" else UserText(s) + AddressText(s)
  }

  function SchemaText(schema: string): string { if schema == "" then "" else schema + "://" }

  function QueryText(u: Parts): string { if u.asks then "?" + u.query else "" }

  function TailText(u: Parts): string { u.hashes + u.fragment }

  function RestText(u: Parts): string { u.path + QueryText(u) + TailText(u) }

  function UrlText(u: Parts): string { SchemaText(u.schema) + ServerText(u.server) + RestText(u) }

  predicate Letter(c: char) { 'a' <= c <= 'z' || 'A' <= c <= 'Z' }

  predicate DigitLetter(c: char) { '0' <= c <= '9' }

  predicate HostLetter(c: char) { Letter(c) || DigitLetter(c) || c == '.' || c == '-' }

  predicate AddressLetter(c: char) { DigitLetter(c) || 'a' <= c <= 'f' || 'A' <= c <= 'F' || c == ':' || c == '.' }

  predicate UserLetter(c: char) { Letter(c) || DigitLetter(c) || c in "-_.!~*'()%;:&=+$," }

  /** What a path is made of: everything printable but the two delimiters behind it. */
  predicate PathLetter(c: char) { ' ' < c < '\U{7F}' && c != '?' && c != '#' }

  predicate QueryLetter(c: char) { ' ' < c < '\U{7F}' && c != '#' }

  predicate FragmentLetter(c: char) { ' ' < c < '\U{7F}' }

  predicate All(text: string, p: char -> bool) { forall i :: 0 <= i < |text| ==> p(text[i]) }

  predicate ProperServer(s: Authority) {
    s.Authority? ==>
      && (s.user != "" ==> s.at) && All(s.user, UserLetter)
      && s.host != "" && All(s.host, if s.v6 then AddressLetter else HostLetter)
      && All(s.port, DigitLetter)
  }

  /** Path, query and fragment. */
  predicate ProperRest(u: Parts) {
    && All(u.path, PathLetter) && All(u.query, QueryLetter) && All(u.fragment, FragmentLetter)
    && (u.query != "" ==> u.asks) && (u.fragment != "" ==> u.hashes != "" && u.fragment[0] != '#')
    && All(u.hashes, c => c == '#')
  }

  /**
   The parts fit together: a schema comes with a server part, which a path may follow, unless
   the url is the target of CONNECT, which begins with the server part; and without a server
   part there is only a path and what may follow it, or nothing.
   */
  predicate WellFormed(u: Parts, isConnect: bool) {
    && ProperServer(u.server) && ProperRest(u) && All(u.schema, Letter)
    && (u.hashes != "" ==> u.path != "" || u.asks)
    && (if u.server.Authority? then
          (isConnect <==> u.schema == "") && (u.path != "" ==> u.path[0] == '/')
        else !isConnect && u.schema == "" && if u.path == "" then !u.asks else u.path[0] == '/' || u.path[0] == '*')
  }

  /** The target of CONNECT is a host and a port; nothing that is not empty stands beside them. */
  predicate IsTarget(u: Parts) {
    u.server.Authority? && u.server.port != "" && u.server.user == "" && u.path == "" && u.query == "" &&
    u.fragment == ""
  }

  function PortNumber(u: Parts): nat { if u.server.Authority? then HttpBounds.DecimalValue(u.server.port) else 0 }

  predicate ProperParts(u: Parts, isConnect: bool) {
    WellFormed(u, isConnect) && PortNumber(u) <= 0xffff && (isConnect ==> IsTarget(u))
  }

  // ---- where the parts are ----

  /** A part of the url, unless it is empty. */
  function With(fields: map<UrlField, Slice>, f: UrlField, off: nat, part: string): map<UrlField, Slice> {
    if part == "" then fields else fields[f := Slice(off, |part|)]
  }

  /** The slices of the server part that begins at off. */
  function ServerSlices(fields: map<UrlField, Slice>, s: Authority, off: nat): map<UrlField, Slice> {
    if s.NoAuthority? then fields
    else
      var host := off + (if s.at then |s.user| + 1 else 0) + if s.v6 then 1 else 0;
      var port := host + |s.host| + (if s.v6 then 1 else 0) + 1;
      With(With(With(fields, UfUserinfo, off, s.user), UfHost, host, s.host), UfPort, port, s.port)
  }

  function RestSlices(fields: map<UrlField, Slice>, u: Parts, off: nat): map<UrlField, Slice> {
    var query := off + |u.path| + 1;
    var fragment := off + |u.path + QueryText(u) + u.hashes|;
    With(With(With(fields, UfPath, off, u.path), UfQuery, query, u.query), UfFragment, fragment, u.fragment)
  }

  function Slices(u: Parts): map<UrlField, Slice> {
    var server := |SchemaText(u.schema)|;
    RestSlices(ServerSlices(With(map[], UfSchema, 0, u.schema), u.server, server), u, server + |ServerText(u.server)|)
  }

  // ---- runs over several parts ----

  lemma {:induction false} RunConcat(from: UrlState, a: string, b: string)
    requires UrlRun(from, a).Url?
    ensures var u := UrlRun(from, a).url;
      && UrlRun(from, a + b) == UrlRun(u, b)
      && MainLabels(from, a + b) == MainLabels(from, a) + MainLabels(u, b)
      && (FoundAt(from, a + b) <==> FoundAt(from, a) || FoundAt(u, b))
  {
    hide ParseUrlChar, FieldOf;
    if b == "" {
      assert a + b == a;
    } else {
      RunConcat(from, a, b[..|b| - 1]);
      assert (a + b)[..|a + b| - 1] == a + b[..|b| - 1];
    }
  }

  function Repeat(l: Label, n: nat): (r: seq<Label>)
    ensures |r| == n && forall i :: 0 <= i < n ==> r[i] == l
  {
    if n == 0 then [] else Repeat(l, n - 1) + [l]
  }

  /** A part all of whose bytes lead to one state. */
  lemma {:induction false} Stretch(u: UrlState, t: UrlState, text: string)
    requires text != "" ==> ParseUrlChar(u, text[0]) == Url(t)
    requires forall i :: 0 < i < |text| ==> ParseUrlChar(t, text[i]) == Url(t)
    ensures UrlRun(u, text) == if text == "" then Url(u) else Url(t)
    ensures MainLabels(u, text) == Repeat(FieldOf(Url(t)), |text|)
    ensures FoundAt(u, text) <==> text != "" && t.ServerWithAt?
  {
    hide ParseUrlChar, FieldOf;
    if text != "" {
      Stretch(u, t, text[..|text| - 1]);
      if |text| == 1 { assert text[..0] == ""; }
    }
  }

  lemma {:induction false} HostConcat(from: HostState, a: string, b: string)
    ensures HostRun(from, a + b) == HostRun(HostRun(from, a), b)
    ensures HostLabels(from, a + b) == HostLabels(from, a) + HostLabels(HostRun(from, a), b)
  {
    hide ParseHostChar, HostFieldOf;
    if b == "" {
      assert a + b == a;
    } else {
      HostConcat(from, a, b[..|b| - 1]);
      assert (a + b)[..|a + b| - 1] == a + b[..|b| - 1];
    }
  }

  lemma {:induction false} HostStretch(s: HostState, t: HostState, text: string)
    requires text != "" ==> ParseHostChar(s, text[0]) == t
    requires forall i :: 0 < i < |text| ==> ParseHostChar(t, text[i]) == t
    ensures HostRun(s, text) == if text == "" then s else t
    ensures HostLabels(s, text) == Repeat(HostFieldOf(t), |text|)
  {
    hide ParseHostChar, HostFieldOf;
    if text != "" {
      HostStretch(s, t, text[..|text| - 1]);
      if |text| == 1 { assert text[..0] == ""; }
    }
  }

  // ---- the letters of the source ----

  lemma Letters(c: char)
    ensures Letter(c) <==> IsAlpha(c)
    ensures DigitLetter(c) <==> IsNum(c)
    ensures HostLetter(c) <==> IsHostChar(c)
    ensures AddressLetter(c) <==> IsHex(c) || c == ':' || c == '.'
    ensures UserLetter(c) <==> IsUserinfoChar(c)
    ensures PathLetter(c) <==> IsUrlChar(c)
    ensures QueryLetter(c) <==> IsUrlChar(c) || c == '?'
    ensures FragmentLetter(c) <==> IsUrlChar(c) || c == '?' || c == '#'
  {
  }

  // ---- the machines on the text of the parts ----

  function SchemaLabels(schema: string): seq<Label> {
    if schema == "" then [] else Repeat(Of(UfSchema), |schema|) + Repeat(NoField, 3)
  }

  function UserLabels(s: Authority): seq<Label>
    requires s.Authority?
  {
    if s.at then Repeat(Of(UfUserinfo), |s.user|) + Repeat(NoField, 1) else []
  }

  function HostNameLabels(s: Authority): seq<Label>
    requires s.Authority?
  {
    if s.v6 then Repeat(NoField, 1) + Repeat(Of(UfHost), |s.host|) + Repeat(NoField, 1)
    else Repeat(Of(UfHost), |s.host|)
  }

  function PortLabels(port: string): seq<Label> {
    if port == "" then [] else Repeat(NoField, 1) + Repeat(Of(UfPort), |port|)
  }

  function AddressLabels(s: Authority): seq<Label>
    requires s.Authority?
  {
    HostNameLabels(s) + PortLabels(s.port)
  }

  function ServerLabels(s: Authority): seq<Label> {
    if s.NoAuthority? then [] else UserLabels(s) + AddressLabels(s)
  }

  function QueryLabels(u: Parts): seq<Label> {
    if u.asks then Repeat(NoField, 1) + Repeat(Of(UfQuery), |u.query|) else []
  }

  function TailLabels(u: Parts): seq<Label> {
    Repeat(NoField, |u.hashes|) + Repeat(Of(UfFragment), |u.fragment|)
  }

  function RestLabels(u: Parts): seq<Label> {
    Repeat(Of(UfPath), |u.path|) + QueryLabels(u) + TailLabels(u)
  }

  lemma SchemaByte(c: char)
    ensures Letter(c) ==> ParseUrlChar(Schema, c) == Url(Schema) && ParseUrlChar(SpacesBeforeUrl, c) == Url(Schema)
    ensures ParseUrlChar(Schema, ':') == Url(SchemaSlash) && ParseUrlChar(SchemaSlash, '/') == Url(SchemaSlashSlash)
    ensures ParseUrlChar(SchemaSlashSlash, '/') == Url(ServerStart)
  {
  }

  lemma SchemaRun(schema: string)
    requires schema != "" && All(schema, Letter)
    ensures UrlRun(SpacesBeforeUrl, SchemaText(schema)) == Url(ServerStart)
    ensures MainLabels(SpacesBeforeUrl, SchemaText(schema)) == SchemaLabels(schema)
    ensures !FoundAt(SpacesBeforeUrl, SchemaText(schema))
  {
    hide UrlRun, MainLabels, FoundAt, ParseUrlChar;
    forall i | 0 <= i < |schema|
      ensures ParseUrlChar(Schema, schema[i]) == Url(Schema)
      ensures ParseUrlChar(SpacesBeforeUrl, schema[i]) == Url(Schema)
    {
      SchemaByte(schema[i]);
    }
    SchemaByte('a');
    Stretch(SpacesBeforeUrl, Schema, schema);
    Stretch(Schema, SchemaSlash, ":");
    Stretch(SchemaSlash, SchemaSlashSlash, "/");
    Stretch(SchemaSlashSlash, ServerStart, "/");
    RunConcat(SpacesBeforeUrl, schema, ":");
    RunConcat(SpacesBeforeUrl, schema + ":", "/");
    RunConcat(SpacesBeforeUrl, schema + ":" + "/", "/");
    assert schema + ":" + "/" + "/" == schema + "://";
    assert Repeat(NoField, 3) == Repeat(NoField, 1) + Repeat(NoField, 1) + Repeat(NoField, 1);
  }

  /** The bytes of host and port, as the main machine sees them. */
  lemma AddressBytes(s: Authority, i: nat)
    requires s.Authority? && ProperServer(s) && i < |AddressText(s)|
    ensures var c := AddressText(s)[i]; c != '@' && (IsUserinfoChar(c) || c == '[' || c == ']')
  {
    var c := AddressText(s)[i];
    var n := if s.v6 then |s.host| + 2 else |s.host|;
    if i < n {
      assert c == if s.v6 then ("[" + s.host + "]")[i] else s.host[i];
      if s.v6 && 0 < i <= |s.host| { assert AddressLetter(s.host[i - 1]); }
      if !s.v6 { assert HostLetter(s.host[i]); }
    } else if i > n {
      assert c == s.port[i - n - 1];
      assert DigitLetter(s.port[i - n - 1]);
    }
  }

  lemma ServerByte(u: UrlState, c: char)
    requires u.ServerStart? || u.Server? || u.ServerWithAt?
    ensures IsUserinfoChar(c) || c == '[' || c == ']' ==> ParseUrlChar(u, c) == Url(Server)
    ensures c == '@' && !u.ServerWithAt? ==> ParseUrlChar(u, c) == Url(ServerWithAt)
  {
  }

  lemma AddressRun(u: UrlState, s: Authority)
    requires u.ServerStart? || u.Server? || u.ServerWithAt?
    requires s.Authority? && ProperServer(s)
    ensures var text := AddressText(s);
      && text != "" && UrlRun(u, text) == Url(Server) && !FoundAt(u, text)
      && MainLabels(u, text) == Repeat(Of(UfHost), |text|)
  {
    var text := AddressText(s);
    assert |text| >= |s.host| > 0;
    hide UrlRun, MainLabels, FoundAt, ParseUrlChar, AddressText;
    forall i | 0 <= i < |text|
      ensures ParseUrlChar(u, text[i]) == Url(Server) && ParseUrlChar(Server, text[i]) == Url(Server)
    {
      AddressBytes(s, i);
      ServerByte(u, text[i]);
      ServerByte(Server, text[i]);
    }
    Stretch(u, Server, text);
  }

  lemma UserByte(c: char)
    requires UserLetter(c)
    ensures ParseUrlChar(ServerStart, c) == Url(Server) && ParseUrlChar(Server, c) == Url(Server)
  {
    hide ParseUrlChar, UserLetter, IsUserinfoChar;
    Letters(c);
    ServerByte(ServerStart, c);
    ServerByte(Server, c);
  }

  lemma ServerFields()
    ensures FieldOf(Url(Server)) == Of(UfHost) && FieldOf(Url(ServerWithAt)) == Of(UfHost)
  {
  }

  lemma RepeatMore(l: Label, n: nat)
    ensures Repeat(l, n) + Repeat(l, 1) == Repeat(l, n + 1)
  {
  }

  lemma UserRun(user: string)
    requires All(user, UserLetter)
    ensures UrlRun(ServerStart, user + "@") == Url(ServerWithAt) && FoundAt(ServerStart, user + "@")
    ensures MainLabels(ServerStart, user + "@") == Repeat(Of(UfHost), |user| + 1)
  {
    hide UrlRun, MainLabels, FoundAt, ParseUrlChar, UserLetter, FieldOf, Repeat, IsUserinfoChar;
    forall i | 0 <= i < |user|
      ensures ParseUrlChar(ServerStart, user[i]) == Url(Server) && ParseUrlChar(Server, user[i]) == Url(Server)
    {
      UserByte(user[i]);
    }
    Stretch(ServerStart, Server, user);
    var u := if user == "" then ServerStart else Server;
    ServerByte(u, '@');
    Stretch(u, ServerWithAt, "@");
    RunConcat(ServerStart, user, "@");
    ServerFields();
    RepeatMore(Of(UfHost), |user|);
  }

  lemma ServerRun(s: Authority)
    requires s.Authority? && ProperServer(s)
    ensures var text := ServerText(s);
      && text != "" && UrlRun(ServerStart, text) == Url(Server) && (FoundAt(ServerStart, text) <==> s.at)
      && MainLabels(ServerStart, text) == Repeat(Of(UfHost), |text|)
  {
    hide UrlRun, MainLabels, FoundAt, AddressText;
    if s.at {
      UserRun(s.user);
      AddressRun(ServerWithAt, s);
      RunConcat(ServerStart, s.user + "@", AddressText(s));
    } else {
      AddressRun(ServerStart, s);
      assert "" + AddressText(s) == AddressText(s);
    }
  }

  lemma PathByte(c: char)
    requires PathLetter(c)
    ensures ParseUrlChar(Path, c) == Url(Path)
    ensures c == '/' ==> ParseUrlChar(Server, c) == Url(Path)
    ensures c == '/' || c == '*' ==> ParseUrlChar(SpacesBeforeUrl, c) == Url(Path)
  {
  }

  lemma QueryByte(c: char)
    ensures QueryLetter(c) ==> ParseUrlChar(QueryStringStart, c) == Url(QueryString)
    ensures QueryLetter(c) ==> ParseUrlChar(QueryString, c) == Url(QueryString)
    ensures ParseUrlChar(Server, '?') == Url(QueryStringStart) && ParseUrlChar(Path, '?') == Url(QueryStringStart)
    ensures ParseUrlChar(Path, '#') == Url(FragmentStart) && ParseUrlChar(QueryStringStart, '#') == Url(FragmentStart)
    ensures ParseUrlChar(QueryString, '#') == Url(FragmentStart) &&
            ParseUrlChar(FragmentStart, '#') == Url(FragmentStart)
    ensures FragmentLetter(c) ==> ParseUrlChar(Fragment, c) == Url(Fragment)
    ensures FragmentLetter(c) && c != '#' ==> ParseUrlChar(FragmentStart, c) == Url(Fragment)
  {
  }

  /** Where the machine is behind the path, and behind the query. */
  function BehindPath(from: UrlState, u: Parts): UrlState { if u.path == "" then from else Path }

  function BehindQuery(from: UrlState, u: Parts): UrlState {
    if !u.asks then BehindPath(from, u) else if u.query == "" then QueryStringStart else QueryString
  }

  lemma PathRun(from: UrlState, u: Parts)
    requires ProperRest(u) && (from.Server? || from.SpacesBeforeUrl?)
    requires u.path != "" ==> u.path[0] == '/' || (from.SpacesBeforeUrl? && u.path[0] == '*')
    ensures UrlRun(from, u.path) == Url(BehindPath(from, u)) && !FoundAt(from, u.path)
    ensures MainLabels(from, u.path) == Repeat(Of(UfPath), |u.path|)
  {
    hide UrlRun, MainLabels, FoundAt, ParseUrlChar;
    forall i | 0 <= i < |u.path|
      ensures ParseUrlChar(Path, u.path[i]) == Url(Path) && (i == 0 ==> ParseUrlChar(from, u.path[i]) == Url(Path))
    {
      PathByte(u.path[i]);
    }
    Stretch(from, Path, u.path);
  }

  lemma QueryFields()
    ensures FieldOf(Url(QueryStringStart)) == NoField && FieldOf(Url(QueryString)) == Of(UfQuery)
  {
  }

  lemma NothingRun(from: UrlState)
    ensures UrlRun(from, "") == Url(from) && MainLabels(from, "") == [] && !FoundAt(from, "")
  {
  }

  lemma QueryRun(from: UrlState, u: Parts)
    requires ProperRest(u) && (from.Server? || from.Path?)
    ensures UrlRun(from, QueryText(u)) ==
            Url(if !u.asks then from else if u.query == "" then QueryStringStart else QueryString)
    ensures !FoundAt(from, QueryText(u))
    ensures MainLabels(from, QueryText(u)) == QueryLabels(u)
  {
    hide UrlRun, MainLabels, FoundAt, ParseUrlChar, QueryLetter, FieldOf, Repeat, FragmentLetter;
    if u.asks {
      QueryFields();
      QueryByte('?');
      Stretch(from, QueryStringStart, "?");
      forall i | 0 <= i < |u.query|
        ensures ParseUrlChar(QueryString, u.query[i]) == Url(QueryString)
        ensures ParseUrlChar(QueryStringStart, u.query[i]) == Url(QueryString)
      {
        QueryByte(u.query[i]);
      }
      Stretch(QueryStringStart, QueryString, u.query);
      RunConcat(from, "?", u.query);
    } else {
      NothingRun(from);
    }
  }

  lemma FragmentRun(from: UrlState, u: Parts)
    requires ProperRest(u) && (u.hashes != "" ==> from.Path? || from.QueryStringStart? || from.QueryString?)
    ensures var s := UrlRun(from, TailText(u));
      s == Url(if u.hashes == "" then from else if u.fragment == "" then FragmentStart else Fragment)
    ensures !FoundAt(from, TailText(u)) && MainLabels(from, TailText(u)) == TailLabels(u)
  {
    hide UrlRun, MainLabels, FoundAt, ParseUrlChar;
    QueryByte('#');
    Stretch(from, FragmentStart, u.hashes);
    forall i | 0 <= i < |u.fragment|
      ensures ParseUrlChar(Fragment, u.fragment[i]) == Url(Fragment)
      ensures i == 0 ==> ParseUrlChar(FragmentStart, u.fragment[i]) == Url(Fragment)
    {
      QueryByte(u.fragment[i]);
    }
    Stretch(if u.hashes == "" then from else FragmentStart, Fragment, u.fragment);
    RunConcat(from, u.hashes, u.fragment);
  }

  /** Behind these states a url may end. */
  predicate Final(s: State) {
    s.Url? && (s.url.Server? || s.url.Path? || s.url.QueryStringStart? || s.url.QueryString? ||
               s.url.FragmentStart? || s.url.Fragment?)
  }

  lemma RestRun(from: UrlState, u: Parts)
    requires ProperRest(u) && (from.Server? || (from.SpacesBeforeUrl? && u.path != ""))
    requires u.path != "" ==> u.path[0] == '/' || (from.SpacesBeforeUrl? && u.path[0] == '*')
    requires u.hashes != "" ==> u.path != "" || u.asks
    ensures Final(UrlRun(from, RestText(u))) && !FoundAt(from, RestText(u))
    ensures MainLabels(from, RestText(u)) == RestLabels(u)
  {
    hide UrlRun, MainLabels, FoundAt, QueryText, TailText, QueryLabels, TailLabels, ProperRest, Repeat;
    PathRun(from, u);
    var s1 := BehindPath(from, u);
    QueryRun(s1, u);
    RunConcat(from, u.path, QueryText(u));
    var s2 := BehindQuery(from, u);
    FragmentRun(s2, u);
    RunConcat(from, u.path + QueryText(u), TailText(u));
  }

  // ---- the server part ----

  lemma HostByte(c: char)
    ensures HostLetter(c) ==> ParseHostChar(HostStart, c) == Host && ParseHostChar(Host, c) == Host
    ensures AddressLetter(c) ==> ParseHostChar(HostV6Start, c) == HostV6 && ParseHostChar(HostV6, c) == HostV6
    ensures UserLetter(c) ==> ParseHostChar(UserinfoStart, c) == Userinfo && ParseHostChar(Userinfo, c) == Userinfo
    ensures DigitLetter(c) ==> ParseHostChar(HostPortStart, c) == HostPort && ParseHostChar(HostPort, c) == HostPort
    ensures ParseHostChar(HostStart, '[') == HostV6Start && ParseHostChar(HostV6, ']') == HostV6End
    ensures ParseHostChar(UserinfoStart, '@') == HostStart && ParseHostChar(Userinfo, '@') == HostStart
    ensures ParseHostChar(Host, ':') == HostPortStart && ParseHostChar(HostV6End, ':') == HostPortStart
  {
  }

  lemma HostNameRun(s: Authority)
    requires s.Authority? && ProperServer(s)
    ensures HostRun(HostStart, HostText(s)) == if s.v6 then HostV6End else Host
    ensures HostLabels(HostStart, HostText(s)) == HostNameLabels(s)
  {
    hide HostRun, HostLabels, ParseHostChar;
    HostByte('[');
    if s.v6 {
      HostStretch(HostStart, HostV6Start, "[");
      forall i | 0 <= i < |s.host|
        ensures ParseHostChar(HostV6Start, s.host[i]) == HostV6 && ParseHostChar(HostV6, s.host[i]) == HostV6
      {
        assert AddressLetter(s.host[i]);
        HostByte(s.host[i]);
      }
      HostStretch(HostV6Start, HostV6, s.host);
      HostStretch(HostV6, HostV6End, "]");
      HostConcat(HostStart, "[", s.host);
      HostConcat(HostStart, "[" + s.host, "]");
    } else {
      forall i | 0 <= i < |s.host|
        ensures ParseHostChar(HostStart, s.host[i]) == Host && ParseHostChar(Host, s.host[i]) == Host
      {
        assert HostLetter(s.host[i]);
        HostByte(s.host[i]);
      }
      HostStretch(HostStart, Host, s.host);
    }
  }

  lemma Labelled()
    ensures HostFieldOf(HostPortStart) == NoField && HostFieldOf(HostPort) == Of(UfPort)
    ensures HostFieldOf(HostStart) == NoField && HostFieldOf(Userinfo) == Of(UfUserinfo)
  {
  }

  lemma NoMoreHost(t: HostState)
    ensures HostRun(t, "") == t && HostLabels(t, "") == []
  {
  }

  lemma PortRun(t: HostState, port: string)
    requires (t.Host? || t.HostV6End?) && All(port, DigitLetter)
    ensures HostRun(t, PortText(port)) == if port == "" then t else HostPort
    ensures HostLabels(t, PortText(port)) == PortLabels(port)
  {
    hide HostRun, HostLabels, ParseHostChar, HostFieldOf, Repeat, DigitLetter;
    if port == "" {
      NoMoreHost(t);
    } else {
      Labelled();
      HostByte(':');
      HostStretch(t, HostPortStart, ":");
      forall i | 0 <= i < |port|
        ensures ParseHostChar(HostPortStart, port[i]) == HostPort && ParseHostChar(HostPort, port[i]) == HostPort
      {
        HostByte(port[i]);
      }
      HostStretch(HostPortStart, HostPort, port);
      HostConcat(t, ":", port);
    }
  }

  lemma AddressHostRun(s: Authority)
    requires s.Authority? && ProperServer(s)
    ensures HostMayEnd(HostRun(HostStart, AddressText(s)))
    ensures HostLabels(HostStart, AddressText(s)) == AddressLabels(s)
  {
    hide HostRun, HostLabels, HostText, PortText, HostNameLabels, PortLabels, HostLetter, AddressLetter, UserLetter,
      DigitLetter;
    HostNameRun(s);
    PortRun(if s.v6 then HostV6End else Host, s.port);
    HostConcat(HostStart, HostText(s), PortText(s.port));
  }

  lemma UserHostRun(s: Authority)
    requires s.Authority? && ProperServer(s)
    ensures var from := if s.at then UserinfoStart else HostStart;
      HostRun(from, UserText(s)) == HostStart && HostLabels(from, UserText(s)) == UserLabels(s)
  {
    hide HostRun, HostLabels, ParseHostChar, UserLetter, HostFieldOf, Repeat;
    if s.at {
      Labelled();
      forall i | 0 <= i < |s.user|
        ensures ParseHostChar(UserinfoStart, s.user[i]) == Userinfo && ParseHostChar(Userinfo, s.user[i]) == Userinfo
      {
        assert UserLetter(s.user[i]);
        HostByte(s.user[i]);
      }
      HostStretch(UserinfoStart, Userinfo, s.user);
      HostByte('@');
      HostStretch(if s.user == "" then UserinfoStart else Userinfo, HostStart, "@");
      HostConcat(UserinfoStart, s.user, "@");
    } else {
      NoMoreHost(HostStart);
    }
  }

  /** The host machine on a server part. */
  lemma ServerHostRun(s: Authority)
    requires s.Authority? && ProperServer(s)
    ensures var from := if s.at then UserinfoStart else HostStart;
      HostMayEnd(HostRun(from, ServerText(s))) && HostLabels(from, ServerText(s)) == ServerLabels(s)
  {
    hide HostRun, HostLabels, HostMayEnd, UserText, AddressText, UserLabels, AddressLabels, ProperServer;
    UserHostRun(s);
    AddressHostRun(s);
    HostConcat(if s.at then UserinfoStart else HostStart, UserText(s), AddressText(s));
  }

  // ---- the labels of a url ----

  function MainPartLabels(u: Parts): seq<Label> {
    SchemaLabels(u.schema) + Repeat(Of(UfHost), |ServerText(u.server)|) + RestLabels(u)
  }

  function PartLabels(u: Parts): seq<Label> {
    SchemaLabels(u.schema) + ServerLabels(u.server) + RestLabels(u)
  }

  lemma NothingAtAll(u: Parts)
    requires WellFormed(u, false) && u.server.NoAuthority? && u.path == ""
    ensures UrlText(u) == "" && MainPartLabels(u) == []
  {
  }

  lemma NoText()
    ensures SchemaText("") == "" && SchemaLabels("") == [] && ServerText(NoAuthority) == "" &&
            ServerLabels(NoAuthority) == []
  {
  }

  /** The main machine on a url. */
  lemma MainRun(u: Parts, isConnect: bool)
    requires WellFormed(u, isConnect)
    ensures var from, text := UrlFrom(isConnect), UrlText(u);
      && UrlRun(from, text).Url? && (text != "" ==> Final(UrlRun(from, text))) &&
          MainLabels(from, text) == MainPartLabels(u)
      && (FoundAt(from, text) <==> u.server.Authority? && u.server.at)
  {
    hide UrlRun, MainLabels, FoundAt, RestText, RestLabels, ServerText, SchemaText, SchemaLabels, ProperServer,
      ProperRest;
    var from := UrlFrom(isConnect);
    NothingRun(from);
    NoText();
    if u.server.NoAuthority? && u.path == "" {
      NothingAtAll(u);
    } else if u.server.NoAuthority? {
      RestRun(from, u);
      assert UrlText(u) == RestText(u);
    } else {
      ServerRun(u.server);
      RestRun(UrlState.Server, u);
      if isConnect {
        assert UrlText(u) == ServerText(u.server) + RestText(u);
        RunConcat(from, ServerText(u.server), RestText(u));
      } else {
        SchemaRun(u.schema);
        RunConcat(from, SchemaText(u.schema), ServerText(u.server));
        RunConcat(from, SchemaText(u.schema) + ServerText(u.server), RestText(u));
      }
    }
  }

  // ---- the slices of a url ----

  lemma WithExact(fields: map<UrlField, Slice>, labels: seq<Label>, f: UrlField, part: string)
    requires AllExact(fields, labels, 0) && f !in fields
    ensures AllExact(With(fields, f, |labels|, part), labels + Repeat(Of(f), |part|), 0)
  {
    hide Repeat;
    var more, all := With(fields, f, |labels|, part), labels + Repeat(Of(f), |part|);
    forall g: UrlField ensures Exact(more, g, all, 0) {
      assert Exact(fields, g, labels, 0);
    }
  }

  lemma SkipExact(fields: map<UrlField, Slice>, labels: seq<Label>, n: nat)
    requires AllExact(fields, labels, 0)
    ensures AllExact(fields, labels + Repeat(NoField, n), 0)
  {
    hide Repeat;
    forall g: UrlField ensures Exact(fields, g, labels + Repeat(NoField, n), 0) {
      assert Exact(fields, g, labels, 0);
    }
  }

  lemma SchemaExact(schema: string)
    ensures AllExact(With(map[], UfSchema, 0, schema), SchemaLabels(schema), 0)
  {
    assert AllExact(map[], [], 0);
    hide AllExact, Repeat;
    WithExact(map[], [], UfSchema, schema);
    if schema != "" {
      assert [] + Repeat(Of(UfSchema), |schema|) == Repeat(Of(UfSchema), |schema|);
      SkipExact(With(map[], UfSchema, 0, schema), Repeat(Of(UfSchema), |schema|), 3);
    }
  }

  lemma OnlyWith(fields: map<UrlField, Slice>, f: UrlField, off: nat, part: string, g: UrlField)
    requires g != f
    ensures g in With(fields, f, off, part) <==> g in fields
  {
  }

  lemma WithNothing(fields: map<UrlField, Slice>, f: UrlField, off: nat)
    ensures With(fields, f, off, "") == fields
  {
  }

  lemma HostNameExact(fields: map<UrlField, Slice>, labels: seq<Label>, s: Authority)
    requires s.Authority? && AllExact(fields, labels, 0) && UfHost !in fields
    ensures AllExact(With(fields, UfHost, |labels| + (if s.v6 then 1 else 0), s.host), labels + HostNameLabels(s), 0)
  {
    hide AllExact, Repeat, With;
    var one, mid := Repeat(NoField, 1), Repeat(Of(UfHost), |s.host|);
    if s.v6 {
      SkipExact(fields, labels, 1);
      WithExact(fields, labels + one, UfHost, s.host);
      SkipExact(With(fields, UfHost, |labels| + 1, s.host), labels + one + mid, 1);
      Associate(labels, one + mid, one);
      Associate(labels, one, mid);
    } else {
      WithExact(fields, labels, UfHost, s.host);
    }
  }

  lemma PortExact(fields: map<UrlField, Slice>, labels: seq<Label>, port: string)
    requires AllExact(fields, labels, 0) && UfPort !in fields
    ensures AllExact(With(fields, UfPort, |labels| + 1, port), labels + PortLabels(port), 0)
  {
    hide AllExact, Repeat, With;
    if port == "" {
      WithNothing(fields, UfPort, |labels| + 1);
      assert labels + [] == labels;
    } else {
      SkipExact(fields, labels, 1);
      WithExact(fields, labels + Repeat(NoField, 1), UfPort, port);
      Associate(labels, Repeat(NoField, 1), Repeat(Of(UfPort), |port|));
    }
  }

  lemma UserExact(fields: map<UrlField, Slice>, labels: seq<Label>, s: Authority)
    requires s.Authority? && AllExact(fields, labels, 0) && UfUserinfo !in fields && (s.user != "" ==> s.at)
    ensures AllExact(With(fields, UfUserinfo, |labels|, s.user), labels + UserLabels(s), 0)
  {
    hide AllExact, Repeat, With;
    if s.at {
      WithExact(fields, labels, UfUserinfo, s.user);
      SkipExact(With(fields, UfUserinfo, |labels|, s.user), labels + Repeat(Of(UfUserinfo), |s.user|), 1);
      Associate(labels, Repeat(Of(UfUserinfo), |s.user|), Repeat(NoField, 1));
    } else {
      WithNothing(fields, UfUserinfo, |labels|);
      assert labels + [] == labels;
    }
  }

  lemma LabelCounts(s: Authority)
    requires s.Authority? && (s.user != "" ==> s.at)
    ensures |UserLabels(s)| == (if s.at then |s.user| + 1 else 0)
    ensures |HostNameLabels(s)| == |s.host| + if s.v6 then 2 else 0
  {
  }

  lemma ServerExact(fields: map<UrlField, Slice>, labels: seq<Label>, s: Authority)
    requires AllExact(fields, labels, 0) && UfHost !in fields && UfPort !in fields && UfUserinfo !in fields
    requires ProperServer(s)
    ensures AllExact(ServerSlices(fields, s, |labels|), labels + ServerLabels(s), 0)
  {
    hide AllExact, With, UserLabels, HostNameLabels, PortLabels;
    if s.NoAuthority? {
      assert labels + [] == labels;
    } else {
      LabelCounts(s);
      UserExact(fields, labels, s);
      var f1, l1 := With(fields, UfUserinfo, |labels|, s.user), labels + UserLabels(s);
      OnlyWith(fields, UfUserinfo, |labels|, s.user, UfHost);
      OnlyWith(fields, UfUserinfo, |labels|, s.user, UfPort);
      HostNameExact(f1, l1, s);
      var host := |l1| + if s.v6 then 1 else 0;
      OnlyWith(f1, UfHost, host, s.host, UfPort);
      PortExact(With(f1, UfHost, host, s.host), l1 + HostNameLabels(s), s.port);
      Associate(labels, UserLabels(s), AddressLabels(s));
      Associate(l1, HostNameLabels(s), PortLabels(s.port));
    }
  }

  lemma QueryExact(fields: map<UrlField, Slice>, labels: seq<Label>, u: Parts)
    requires AllExact(fields, labels, 0) && UfQuery !in fields && ProperRest(u)
    ensures AllExact(With(fields, UfQuery, |labels| + 1, u.query), labels + QueryLabels(u), 0)
  {
    hide AllExact, Repeat, With;
    if u.asks {
      SkipExact(fields, labels, 1);
      WithExact(fields, labels + Repeat(NoField, 1), UfQuery, u.query);
      Associate(labels, Repeat(NoField, 1), Repeat(Of(UfQuery), |u.query|));
    } else {
      assert u.query == "" && labels + [] == labels;
      WithNothing(fields, UfQuery, |labels| + 1);
    }
  }

  lemma TailExact(fields: map<UrlField, Slice>, labels: seq<Label>, u: Parts)
    requires AllExact(fields, labels, 0) && UfFragment !in fields
    ensures AllExact(With(fields, UfFragment, |labels| + |u.hashes|, u.fragment), labels + TailLabels(u), 0)
  {
    hide AllExact, Repeat, With;
    SkipExact(fields, labels, |u.hashes|);
    WithExact(fields, labels + Repeat(NoField, |u.hashes|), UfFragment, u.fragment);
    Associate(labels, Repeat(NoField, |u.hashes|), Repeat(Of(UfFragment), |u.fragment|));
  }

  lemma RestExact(fields: map<UrlField, Slice>, labels: seq<Label>, u: Parts)
    requires AllExact(fields, labels, 0) && UfPath !in fields && UfQuery !in fields && UfFragment !in fields
    requires ProperRest(u)
    ensures AllExact(RestSlices(fields, u, |labels|), labels + RestLabels(u), 0)
  {
    assert |QueryLabels(u)| == |QueryText(u)|;
    hide AllExact, Repeat, With, QueryLabels, TailLabels, ProperRest, QueryText;
    var path := Repeat(Of(UfPath), |u.path|);
    var f1, l1 := With(fields, UfPath, |labels|, u.path), labels + path;
    WithExact(fields, labels, UfPath, u.path);
    OnlyWith(fields, UfPath, |labels|, u.path, UfQuery);
    OnlyWith(fields, UfPath, |labels|, u.path, UfFragment);
    QueryExact(f1, l1, u);
    OnlyWith(f1, UfQuery, |l1| + 1, u.query, UfFragment);
    TailExact(With(f1, UfQuery, |l1| + 1, u.query), l1 + QueryLabels(u), u);
    Associate(labels, path + QueryLabels(u), TailLabels(u));
    Associate(labels, path, QueryLabels(u));
  }

  lemma NoneOfTheRest(u: Parts)
    ensures var f1, n := With(map[], UfSchema, 0, u.schema), |SchemaText(u.schema)|;
      && UfHost !in f1 && UfPort !in f1 && UfUserinfo !in f1
      && var f2 := ServerSlices(f1, u.server, n);
      && UfPath !in f2 && UfQuery !in f2 && UfFragment !in f2
  {
    hide SchemaText;
  }

  lemma SlicesLength(u: Parts)
    requires ProperServer(u.server) && ProperRest(u)
    ensures |SchemaLabels(u.schema)| == |SchemaText(u.schema)|
    ensures |ServerLabels(u.server)| == |ServerText(u.server)|
    ensures |RestLabels(u)| == |RestText(u)|
  {
  }

  /** The positions of the parts are the slices of their labels. */
  lemma SlicesExact(u: Parts)
    requires ProperServer(u.server) && ProperRest(u)
    ensures AllExact(Slices(u), PartLabels(u), 0)
  {
    hide AllExact, Repeat, ServerLabels, RestLabels, RestText, ServerText, SchemaText, SchemaLabels, With,
      ServerSlices, RestSlices, ProperServer, ProperRest;
    SlicesLength(u);
    NoneOfTheRest(u);
    SchemaExact(u.schema);
    var f1, l1 := With(map[], UfSchema, 0, u.schema), SchemaLabels(u.schema);
    ServerExact(f1, l1, u.server);
    var f2, l2 := ServerSlices(f1, u.server, |l1|), l1 + ServerLabels(u.server);
    RestExact(f2, l2, u);
  }

  lemma WithFilled(fields: map<UrlField, Slice>, f: UrlField, off: nat, part: string)
    requires forall g :: g in fields ==> fields[g].len > 0
    ensures var more := With(fields, f, off, part); forall g :: g in more ==> more[g].len > 0
  {
  }

  lemma SlicesFilled(u: Parts)
    ensures forall f :: f in Slices(u) ==> Slices(u)[f].len > 0
  {
    hide With, SchemaText, ServerText, QueryText;
    forall fields: map<UrlField, Slice>, f, off, part | forall g :: g in fields ==> fields[g].len > 0
      ensures forall g :: g in With(fields, f, off, part) ==> With(fields, f, off, part)[g].len > 0
    {
      WithFilled(fields, f, off, part);
    }
  }

  lemma SameEnds(s: Slice, t: Slice, f: UrlField, labels: seq<Label>)
    requires s.len > 0 && t.len > 0 && s.off + s.len <= |labels| && t.off + t.len <= |labels|
    requires forall i :: 0 <= i < |labels| ==> (In(0 + i, s) <==> labels[i] == Of(f))
    requires forall i :: 0 <= i < |labels| ==> (In(0 + i, t) <==> labels[i] == Of(f))
    ensures s == t
  {
    var i, j, k, l := s.off, t.off, s.off + s.len - 1, t.off + t.len - 1;
    assert In(0 + i, s) && In(0 + j, t) && In(0 + k, s) && In(0 + l, t);
    assert labels[i] == Of(f) && labels[j] == Of(f) && labels[k] == Of(f) && labels[l] == Of(f);
    assert In(0 + i, t) && In(0 + j, s) && In(0 + k, t) && In(0 + l, s);
  }

  /** Labels have one set of slices. */
  lemma OneSetOfSlices(a: map<UrlField, Slice>, b: map<UrlField, Slice>, labels: seq<Label>)
    requires AllExact(a, labels, 0) && (forall f :: f in a ==> a[f].len > 0)
    requires AllExact(b, labels, 0) && (forall f :: f in b ==> b[f].len > 0)
    ensures a == b
  {
    forall f: UrlField ensures (f in a <==> f in b) && (f in a ==> a[f] == b[f]) {
      assert Exact(a, f, labels, 0) && Exact(b, f, labels, 0);
      UsedFields(a, labels, 0, f);
      UsedFields(b, labels, 0, f);
      if f in a { SameEnds(a[f], b[f], f, labels); }
    }
  }

  // ---- well-formed urls are accepted ----

  function ServerBegin(u: Parts): nat { |SchemaText(u.schema)| }

  function ServerEnd(u: Parts): nat { |SchemaText(u.schema)| + |ServerText(u.server)| }

  lemma MiddleIsHost(x: seq<Label>, n: nat, y: seq<Label>)
    requires Of(UfHost) !in x && Of(UfHost) !in y
    ensures HostPart(x + Repeat(Of(UfHost), n) + y, |x|, |x| + n)
  {
    var all := x + Repeat(Of(UfHost), n) + y;
    forall i | 0 <= i < |all| ensures |x| <= i < |x| + n <==> all[i] == Of(UfHost) {
      if i < |x| { assert all[i] == x[i]; }
      if i >= |x| + n { assert all[i] == y[i - |x| - n]; }
    }
  }

  lemma ServerIsText(s: Authority)
    requires ProperServer(s)
    ensures ServerText(s) != "" <==> s.Authority?
  {
  }

  lemma NoHostAround(u: Parts)
    ensures forall l :: l in SchemaLabels(u.schema) ==> l == Of(UfSchema) || l == NoField
    ensures u.schema == "" ==> SchemaLabels(u.schema) == []
    ensures u.schema != "" ==> SchemaLabels(u.schema) != [] && SchemaLabels(u.schema)[0] == Of(UfSchema)
    ensures forall l :: l in RestLabels(u) ==> l != Of(UfHost) && l != Of(UfSchema)
  {
  }

  lemma HostPartIsServer(u: Parts, isConnect: bool)
    requires WellFormed(u, isConnect)
    ensures |MainPartLabels(u)| == |UrlText(u)| && HostPart(MainPartLabels(u), ServerBegin(u), ServerEnd(u))
    ensures Of(UfSchema) in MainPartLabels(u) <==> u.schema != ""
    ensures Of(UfHost) in MainPartLabels(u) <==> u.server.Authority?
  {
    hide SchemaLabels, RestLabels, ServerText, SchemaText, RestText, ProperServer, ProperRest, HostPart;
    SlicesLength(u);
    ServerIsText(u.server);
    NoHostAround(u);
    MiddleIsHost(SchemaLabels(u.schema), |ServerText(u.server)|, RestLabels(u));
    var labels, n := MainPartLabels(u), |ServerText(u.server)|;
    if u.schema != "" { assert labels[0] == SchemaLabels(u.schema)[0]; }
    if n > 0 { assert labels[ServerBegin(u)] == Repeat(Of(UfHost), n)[0]; }
    assert forall l :: l in labels ==> l in SchemaLabels(u.schema) || l in Repeat(Of(UfHost), n) || l in RestLabels(u);
  }

  /** What the two machines make of the url. */
  lemma UrlIsLabelled(u: Parts, isConnect: bool)
    requires WellFormed(u, isConnect)
    ensures var from, text, a, b := UrlFrom(isConnect), UrlText(u), ServerBegin(u), ServerEnd(u);
      && a <= b <= |text| && text[a..b] == ServerText(u.server)
      && UrlRun(from, text).Url? && HostPart(MainLabels(from, text), a, b)
      && FinalLabels(from, text, a, b) == PartLabels(u)
      && (u.server.Authority? ==> HostMayEnd(HostRun(HostFrom(from, text), text[a..b])))
      && (Uses(MainLabels(from, text), UfSchema) || Uses(MainLabels(from, text), UfHost) <==> u.server.Authority?)
  {
    hide UrlRun, MainLabels, FoundAt, HostRun, HostLabels, SchemaLabels, RestLabels, ServerLabels, SchemaText,
      ServerText, RestText, ProperServer, ProperRest, HostMayEnd, HostPart;
    MainRun(u, isConnect);
    HostPartIsServer(u, isConnect);
    SlicesLength(u);
    var from, text, a, b := UrlFrom(isConnect), UrlText(u), ServerBegin(u), ServerEnd(u);
    var main := MainLabels(from, text);
    assert text[a..b] == ServerText(u.server);
    assert main[..a] == SchemaLabels(u.schema) && main[b..] == RestLabels(u);
    if u.server.Authority? {
      ServerHostRun(u.server);
    } else {
      NoText();
      NoMoreHost(HostFrom(from, text));
    }
  }

  lemma {:induction false} SameNumber(digits: string)
    requires All(digits, DigitLetter)
    ensures NumberOf(digits) == HttpBounds.DecimalValue(digits)
  {
    if digits != "" {
      assert All(digits[..|digits| - 1], DigitLetter);
      SameNumber(digits[..|digits| - 1]);
    }
  }

  lemma MiddleText(a: string, b: string, c: string)
    ensures (a + b + c)[|a|..|a| + |b|] == b
  {
  }

  lemma UserCount(s: Authority)
    requires s.Authority?
    ensures |UserText(s)| == if s.at then |s.user| + 1 else 0
  {
  }

  lemma PortInServer(s: Authority)
    requires s.Authority? && s.port != ""
    ensures ServerText(s) == UserText(s) + HostText(s) + ":" + s.port
    ensures |UserText(s) + HostText(s) + ":"| ==
            (if s.at then |s.user| + 1 else 0) + |s.host| + (if s.v6 then 2 else 0) + 1
  {
    assert |HostText(s)| == |s.host| + if s.v6 then 2 else 0;
    hide UserText, HostText;
    assert UserText(s) + (HostText(s) + (":" + s.port)) == UserText(s) + HostText(s) + ":" + s.port;
    assert |UserText(s)| == if s.at then |s.user| + 1 else 0 by { UserCount(s); }
  }

  lemma Regroup4(a: string, b: string, c: string, d: string)
    ensures a + (b + c) + d == a + b + c + d
  {
  }

  lemma PortPosition(u: Parts)
    requires u.server.Authority? && u.server.port != ""
    ensures UfPort in Slices(u)
    ensures Slices(u)[UfPort] ==
            Slice(|SchemaText(u.schema)| + (if u.server.at then |u.server.user| + 1 else 0) +
                  |u.server.host| + (if u.server.v6 then 2 else 0) + 1, |u.server.port|)
  {
    hide SchemaText, QueryText, ServerText;
  }

  lemma PortIsPart(u: Parts)
    requires ProperServer(u.server) && u.server.Authority? && u.server.port != ""
    ensures UfPort in Slices(u) && Slices(u)[UfPort].off + Slices(u)[UfPort].len <= |UrlText(u)|
    ensures var s := Slices(u)[UfPort]; UrlText(u)[s.off..s.off + s.len] == u.server.port
  {
    hide SchemaText, RestText, ProperServer, ServerText, HostText, UserText, Slices;
    var front := UserText(u.server) + HostText(u.server) + ":";
    PortInServer(u.server);
    PortPosition(u);
    MiddleText(SchemaText(u.schema) + front, u.server.port, RestText(u));
    Regroup4(SchemaText(u.schema), front, u.server.port, RestText(u));
  }

  lemma PortFree(u: Parts)
    requires ProperServer(u.server)
    ensures UfPort in Slices(u) <==> u.server.Authority? && u.server.port != ""
  {
    hide SchemaText, QueryText, HostText;
  }

  lemma ExactOne(fields: map<UrlField, Slice>, labels: seq<Label>, f: UrlField)
    requires AllExact(fields, labels, 0)
    ensures Exact(fields, f, labels, 0)
  {
  }

  /** The port of the url is the number of its part. */
  lemma PortIsNumber(u: Parts, labels: seq<Label>)
    requires ProperServer(u.server) && |labels| == |UrlText(u)| && AllExact(Slices(u), labels, 0)
    ensures NumberOf(Select(labels, UrlText(u), UfPort)) == PortNumber(u)
  {
    hide AllExact, UrlText, Select, NumberOf, Slices, Exact;
    PortFree(u);
    ExactOne(Slices(u), labels, UfPort);
    SlicesFilled(u);
    UsedFields(Slices(u), labels, 0, UfPort);
    if u.server.Authority? && u.server.port != "" {
      PortIsPart(u);
      PortSlice(Slices(u), labels, UrlText(u));
      SameNumber(u.server.port);
    } else {
      NoPort(Slices(u), labels, UrlText(u));
      assert u.server.Authority? ==> HttpBounds.DecimalValue("") == 0;
    }
  }

  /** Which fields the target of CONNECT must have. */
  lemma TargetFields(u: Parts)
    requires ProperServer(u.server) && ProperRest(u) && u.schema == "" && u.server.Authority?
    ensures (forall f: UrlField :: f in Slices(u) <==> f == UfHost || f == UfPort) <==> IsTarget(u)
  {
    hide SchemaText, QueryText, HostText;
    var s := Slices(u);
    assert UfHost in s && UfSchema !in s;
    assert UfPort in s <==> u.server.port != "";
    assert UfUserinfo in s <==> u.server.user != "";
    assert UfPath in s <==> u.path != "";
    assert UfQuery in s <==> u.query != "";
    assert UfFragment in s <==> u.fragment != "";
  }

  lemma FieldsUsed(u: Parts, labels: seq<Label>)
    requires AllExact(Slices(u), labels, 0)
    ensures forall f: UrlField :: Uses(labels, f) <==> f in Slices(u)
  {
    SlicesFilled(u);
    hide Slices, Uses, Exact, AllExact;
    forall f: UrlField ensures Uses(labels, f) <==> f in Slices(u) {
      ExactOne(Slices(u), labels, f);
      UsedFields(Slices(u), labels, 0, f);
    }
  }

  /** A well-formed url is accepted exactly if its port is small and a CONNECT target is no more than that. */
  lemma PartsAreAccepted(u: Parts, isConnect: bool)
    requires WellFormed(u, isConnect)
    ensures UrlAccepted(UrlText(u), isConnect, ServerBegin(u), ServerEnd(u)) <==> ProperParts(u, isConnect)
  {
    hide UrlRun, MainLabels, FinalLabels, HostRun, HostFrom, HostPart, NumberOf, Select, Slices, PartLabels, UrlText,
      Uses, AllExact, IsTarget, PortNumber, ProperServer, ProperRest;
    UrlIsLabelled(u, isConnect);
    SlicesExact(u);
    PortIsNumber(u, PartLabels(u));
    FieldsUsed(u, PartLabels(u));
    if isConnect { TargetFields(u); }
  }

  /** The slices of an accepted url are the positions of its parts, and its port is their number. */
  lemma SlicesAreParts(u: Parts, isConnect: bool, a: nat, b: nat, fields: map<UrlField, Slice>, port: nat)
    requires ProperParts(u, isConnect) && UrlAccepted(UrlText(u), isConnect, a, b)
    requires Described(UrlText(u), isConnect, a, b, fields, port)
    ensures fields == Slices(u) && port == PortNumber(u)
  {
    hide UrlRun, MainLabels, FinalLabels, HostRun, HostFrom, HostPart, NumberOf, Select, Slices, PartLabels, UrlText,
      Uses, AllExact, IsTarget, PortNumber, ProperServer, ProperRest, HostMayEnd;
    UrlIsLabelled(u, isConnect);
    SameServerPart(UrlText(u), isConnect, a, b, ServerBegin(u), ServerEnd(u));
    SlicesExact(u);
    SlicesFilled(u);
    OneSetOfSlices(fields, Slices(u), PartLabels(u));
    PortIsNumber(u, PartLabels(u));
  }

  // ---- accepted urls are well-formed ----

  /** What the main machine has read, part by part; mark is what has been read of the delimiter behind a schema. */
  datatype Front = Front(schema: string, mark: string, server: string, path: string, asks: bool, query: string,
                         hashes: string, fragment: string)

  function AskText(x: Front): string { if x.asks then "?" + x.query else "" }

  function FrontText(x: Front): string {
    x.schema + x.mark + x.server + x.path + AskText(x) + x.hashes + x.fragment
  }

  /** One byte more, which leads to a state. */
  function Grow(x: Front, s: State, c: char): Front {
    match s
    case Url(u) => (
      match u
      case SpacesBeforeUrl => x
      case Schema => x.(schema := x.schema + [c])
      case SchemaSlash | SchemaSlashSlash | ServerStart => x.(mark := x.mark + [c])
      case Server | ServerWithAt => x.(server := x.server + [c])
      case Path => x.(path := x.path + [c])
      case QueryStringStart => x.(asks := true)
      case QueryString => x.(query := x.query + [c])
      case FragmentStart => x.(hashes := x.hashes + [c])
      case Fragment => x.(fragment := x.fragment + [c])
    )
    case _ => x
  }

  function FrontOf(from: UrlState, buf: string): Front {
    if buf == "" then Front("", "", "", "", false, "", "", "")
    else Grow(FrontOf(from, buf[..|buf| - 1]), UrlRun(from, buf), buf[|buf| - 1])
  }

  /** How far a state is in a url. */
  function Stage(u: UrlState): nat {
    match u
    case SpacesBeforeUrl => 0
    case Schema => 1
    case SchemaSlash => 2
    case SchemaSlashSlash => 3
    case ServerStart => 4
    case Server | ServerWithAt => 5
    case Path => 6
    case QueryStringStart | QueryString => 7
    case FragmentStart => 8
    case Fragment => 9
  }

  predicate FrontLetters(x: Front) {
    && All(x.schema, Letter) && All(x.path, PathLetter) && All(x.query, QueryLetter) && All(x.fragment, FragmentLetter)
    && All(x.hashes, c => c == '#')
  }

  /** What a state says of the parts read so far. */
  predicate FrontFits(from: UrlState, x: Front, u: UrlState) {
    && FrontLetters(x)
    && (Stage(u) < 5 ==> x.server == "") && (Stage(u) < 6 ==> x.path == "") &&
        (Stage(u) < 7 ==> !x.asks && x.query == "")
    && (Stage(u) < 8 ==> x.hashes == "") && (Stage(u) < 9 ==> x.fragment == "")
    && (Stage(u) == 5 ==> x.server != "") && (Stage(u) == 6 ==> x.path != "") && (Stage(u) == 7 ==> x.asks)
    && (u.QueryStringStart? ==> x.query == "") && (u.QueryString? ==> x.query != "")
    && (Stage(u) >= 8 ==> x.hashes != "" && (x.path != "" || x.asks)) && (u.Fragment? ==> x.fragment != "")
    && (x.query != "" ==> x.asks) && (x.fragment != "" ==> x.fragment[0] != '#')
    && (x.path != "" ==> x.path[0] == '/' || (x.path[0] == '*' && from.SpacesBeforeUrl? && x.schema == ""))
    && (if from.ServerStart? then
          Stage(u) >= 4 && x.schema == "" && x.mark == ""
        else if x.schema == "" then
          x.mark == "" && x.server == "" && (u.SpacesBeforeUrl? || (Stage(u) >= 6 && x.path != ""))
        else
          Stage(u) >= 1 && x.mark == if Stage(u) < 4 then "://"[..Stage(u) - 1] else "://")
  }

  lemma UrlLetters(u: UrlState, c: char)
    ensures var s := ParseUrlChar(u, c);
      && (s == Url(Schema) ==> Letter(c)) && (s == Url(Path) ==> PathLetter(c)) &&
          (s == Url(QueryString) ==> QueryLetter(c))
      && (s == Url(FragmentStart) ==> c == '#') && (s == Url(Fragment) ==> FragmentLetter(c))
  {
  }

  lemma GrowLetters(x: Front, u: UrlState, c: char)
    requires FrontLetters(x) && ParseUrlChar(u, c).Url?
    ensures FrontLetters(Grow(x, ParseUrlChar(u, c), c))
  {
    Letters(c);
    UrlLetters(u, c);
    hide ParseUrlChar, Letter, PathLetter, QueryLetter, FragmentLetter;
    match ParseUrlChar(u, c).url
    case Schema =>
    case Path =>
    case QueryString =>
    case FragmentStart =>
    case Fragment =>
    case _ =>
  }

  /** From where, and with which byte, a state is reached. */
  predicate Reaches(u: UrlState, t: UrlState, c: char) {
    match t
    case SpacesBeforeUrl => false
    case Schema => u.SpacesBeforeUrl? || u.Schema?
    case SchemaSlash => u.Schema? && c == ':'
    case SchemaSlashSlash => u.SchemaSlash? && c == '/'
    case ServerStart => u.SchemaSlashSlash? && c == '/'
    case Server | ServerWithAt => Stage(u) == 4 || Stage(u) == 5
    case Path =>
      (u.SpacesBeforeUrl? && (c == '/' || c == '*')) || ((Stage(u) == 4 || Stage(u) == 5) && c == '/') || u.Path?
    case QueryStringStart => 4 <= Stage(u) <= 6 && c == '?'
    case QueryString => Stage(u) == 7
    case FragmentStart => 6 <= Stage(u) <= 8 && c == '#'
    case Fragment => (u.FragmentStart? && c != '#') || u.Fragment?
  }

  lemma StateIsReached(u: UrlState, c: char)
    requires ParseUrlChar(u, c).Url?
    ensures Reaches(u, ParseUrlChar(u, c).url, c)
  {
    hide IsUserinfoChar, IsAlpha;
  }

  /** A byte at the end of a part behind which nothing stands yet. */
  lemma AtTheEnd(a: string, b: string, d: string, e: string, f: string, g: string, h: string, c: char)
    ensures b + d + e + f + g + h == "" ==> (a + [c]) + b + d + e + f + g + h == a + b + d + e + f + g + h + [c]
    ensures d + e + f + g + h == "" ==> a + (b + [c]) + d + e + f + g + h == a + b + d + e + f + g + h + [c]
    ensures e + f + g + h == "" ==> a + b + (d + [c]) + e + f + g + h == a + b + d + e + f + g + h + [c]
    ensures f + g + h == "" ==> a + b + d + (e + [c]) + f + g + h == a + b + d + e + f + g + h + [c]
    ensures g + h == "" ==> a + b + d + e + (f + [c]) + g + h == a + b + d + e + f + g + h + [c]
    ensures h == "" ==> a + b + d + e + f + (g + [c]) + h == a + b + d + e + f + g + h + [c]
    ensures a + b + d + e + f + g + (h + [c]) == a + b + d + e + f + g + h + [c]
  {
  }

  lemma AskGrows(from: UrlState, x: Front, u: UrlState, t: UrlState, c: char)
    requires FrontFits(from, x, u) && Reaches(u, t, c)
    ensures AskText(Grow(x, Url(t), c)) == if Stage(t) == 7 then AskText(x) + [c] else AskText(x)
    ensures Stage(t) <= 6 ==> AskText(x) == ""
  {
    hide FrontLetters;
  }

  lemma GrowText(from: UrlState, x: Front, u: UrlState, t: UrlState, c: char)
    requires FrontFits(from, x, u) && Reaches(u, t, c)
    ensures FrontText(Grow(x, Url(t), c)) == FrontText(x) + [c]
  {
    hide FrontLetters;
    AtTheEnd(x.schema, x.mark, x.server, x.path, AskText(x), x.hashes, x.fragment, c);
    AskGrows(from, x, u, t, c);
    hide AskText;
    match t
    case Schema =>
    case SchemaSlash | SchemaSlashSlash | ServerStart =>
    case Server | ServerWithAt =>
    case Path =>
    case QueryStringStart | QueryString =>
    case FragmentStart =>
    case Fragment =>
  }

  lemma Marks()
    ensures "://"[..0] == "" && "://"[..1] == ":" && "://"[..2] == ":/" && ":" + "/" == ":/" && ":/" + "/" == "://"
    ensures "" + ":" == ":"
  {
  }

  /** A byte keeps the parts in step with the state. */
  lemma GrowFits(from: UrlState, x: Front, u: UrlState, t: UrlState, c: char)
    requires (from.SpacesBeforeUrl? || from.ServerStart?) && FrontFits(from, x, u) && Reaches(u, t, c)
    requires FrontLetters(Grow(x, Url(t), c))
    ensures FrontFits(from, Grow(x, Url(t), c), t)
  {
    hide FrontLetters;
    Marks();
    match t
    case Schema =>
    case SchemaSlash | SchemaSlashSlash | ServerStart =>
    case Server | ServerWithAt =>
    case Path =>
    case QueryStringStart =>
    case QueryString =>
    case FragmentStart =>
    case Fragment =>
  }

  // ---- the server part of an accepted url ----

  /** What is read of a url: its parts fit the state, and the server part carries the label of the host. */
  predicate FrontIs(from: UrlState, buf: string, x: Front) {
    && UrlRun(from, buf).Url? && FrontFits(from, x, UrlRun(from, buf).url) && FrontText(x) == buf
    && HostPart(MainLabels(from, buf), |x.schema + x.mark|, |x.schema + x.mark + x.server|)
    && (Uses(MainLabels(from, buf), UfSchema) <==> x.schema != "") && (FoundAt(from, buf) <==> '@' in x.server)
  }

  lemma FrontBegins(from: UrlState)
    requires from.SpacesBeforeUrl? || from.ServerStart?
    ensures FrontIs(from, "", FrontOf(from, ""))
  {
  }

  lemma HostGrows(labels: seq<Label>, a: nat, b: nat)
    requires HostPart(labels, a, b) && (a == b || b == |labels|)
    ensures HostPart(labels + [Of(UfHost)], if a == b then |labels| else a, |labels| + 1)
  {
  }

  lemma HostStays(labels: seq<Label>, l: Label, a: nat, b: nat)
    requires HostPart(labels, a, b) && l != Of(UfHost)
    ensures HostPart(labels + [l], a, b) && (a == b ==> HostPart(labels + [l], |labels| + 1, |labels| + 1))
  {
  }

  lemma SchemaGrows(labels: seq<Label>, l: Label)
    ensures Uses(labels + [l], UfSchema) <==> Uses(labels, UfSchema) || l == Of(UfSchema)
  {
  }

  /** Where the server part is, after a byte more. */
  lemma ServerGrows(from: UrlState, x: Front, u: UrlState, t: UrlState, c: char, labels: seq<Label>)
    requires (from.SpacesBeforeUrl? || from.ServerStart?) && FrontFits(from, x, u) && Reaches(u, t, c)
    requires |labels| == |FrontText(x)| && HostPart(labels, |x.schema + x.mark|, |x.schema + x.mark + x.server|)
    ensures var y := Grow(x, Url(t), c);
      HostPart(labels + [FieldOf(Url(t))], |y.schema + y.mark|, |y.schema + y.mark + y.server|)
  {
    var a, b := |x.schema + x.mark|, |x.schema + x.mark + x.server|;
    hide FrontLetters, HostPart;
    if t.Server? || t.ServerWithAt? {
      HostGrows(labels, a, b);
    } else {
      HostStays(labels, FieldOf(Url(t)), a, b);
    }
  }

  lemma AtGrows(x: Front, t: UrlState, c: char)
    requires t.ServerWithAt? <==> (t.Server? || t.ServerWithAt?) && c == '@'
    ensures '@' in Grow(x, Url(t), c).server <==> '@' in x.server || t.ServerWithAt?
    ensures Grow(x, Url(t), c).schema != "" <==> x.schema != "" || FieldOf(Url(t)) == Of(UfSchema)
  {
  }

  lemma AtIsSeen(u: UrlState, c: char)
    ensures var s := ParseUrlChar(u, c);
      s == Url(ServerWithAt) <==> (s == Url(UrlState.Server) || s == Url(ServerWithAt)) && c == '@'
  {
  }

  lemma OneByteMore(from: UrlState, buf: string, c: char)
    requires UrlRun(from, buf).Url?
    ensures var s := ParseUrlChar(UrlRun(from, buf).url, c);
      && UrlRun(from, buf + [c]) == s && MainLabels(from, buf + [c]) == MainLabels(from, buf) + [FieldOf(s)]
      && (FoundAt(from, buf + [c]) <==> FoundAt(from, buf) || s == Url(ServerWithAt))
  {
    hide ParseUrlChar, FieldOf;
    assert (buf + [c])[..|buf|] == buf;
  }

  lemma FitsLetters(from: UrlState, x: Front, u: UrlState)
    requires FrontFits(from, x, u)
    ensures FrontLetters(x)
  {
  }

  lemma FrontGrows(from: UrlState, buf: string, x: Front, c: char)
    requires (from.SpacesBeforeUrl? || from.ServerStart?) && FrontIs(from, buf, x)
    requires ParseUrlChar(UrlRun(from, buf).url, c).Url?
    ensures FrontIs(from, buf + [c], Grow(x, ParseUrlChar(UrlRun(from, buf).url, c), c))
  {
    hide ParseUrlChar, FrontFits, FrontText, Grow, Reaches, HostPart, Uses, FieldOf, UrlRun, MainLabels, FoundAt;
    var u := UrlRun(from, buf).url;
    var t, labels := ParseUrlChar(u, c).url, MainLabels(from, buf);
    OneByteMore(from, buf, c);
    StateIsReached(u, c);
    FitsLetters(from, x, u);
    GrowLetters(x, u, c);
    GrowText(from, x, u, t, c);
    GrowFits(from, x, u, t, c);
    ServerGrows(from, x, u, t, c, labels);
    SchemaGrows(labels, FieldOf(Url(t)));
    AtIsSeen(u, c);
    AtGrows(x, t, c);
  }

  /** What the machine has read is a text of its parts. */
  lemma {:induction false} FrontIsText(from: UrlState, buf: string)
    requires (from.SpacesBeforeUrl? || from.ServerStart?) && UrlRun(from, buf).Url?
    ensures FrontIs(from, buf, FrontOf(from, buf))
  {
    hide ParseUrlChar, FrontIs, Grow;
    if buf == "" {
      FrontBegins(from);
    } else {
      var n := |buf| - 1;
      FrontIsText(from, buf[..n]);
      FrontGrows(from, buf[..n], FrontOf(from, buf[..n]), buf[n]);
      assert buf[..n] + [buf[n]] == buf;
    }
  }

  /** What the host machine has read, part by part. */
  datatype HostFront = HostFront(user: string, at: bool, open: bool, host: string, shut: bool, colon: bool,
                                 port: string)

  function HostFrontText(x: HostFront): string {
    x.user + (if x.at then "@" else "") + (if x.open then "[" else "") + x.host + (if x.shut then "]" else "") +
    (if x.colon then ":" else "") + x.port
  }

  function HostGrow(x: HostFront, t: HostState, c: char): HostFront {
    match t
    case Userinfo => x.(user := x.user + [c])
    case HostStart => x.(at := true)
    case HostV6Start => x.(open := true)
    case Host | HostV6 => x.(host := x.host + [c])
    case HostV6End => x.(shut := true)
    case HostPortStart => x.(colon := true)
    case HostPort => x.(port := x.port + [c])
    case _ => x
  }

  function HostFrontOf(from: HostState, text: string): HostFront {
    if text == "" then HostFront("", false, false, "", false, false, "")
    else HostGrow(HostFrontOf(from, text[..|text| - 1]), HostRun(from, text), text[|text| - 1])
  }

  predicate HostFrontLetters(x: HostFront) {
    All(x.user, UserLetter) && All(x.host, if x.open then AddressLetter else HostLetter) && All(x.port, DigitLetter)
  }

  predicate HostFits(from: HostState, x: HostFront, t: HostState) {
    && HostFrontLetters(x)
    && (x.at ==> from.UserinfoStart?) && (x.user != "" ==> from.UserinfoStart?)
    && (t.UserinfoStart? || t.Userinfo? <==> from.UserinfoStart? && !x.at)
    && (x.shut ==> x.open) && (x.port != "" ==> x.colon)
    && match t
       case UserinfoStart => x.user == "" && !x.open && x.host == "" && !x.colon
       case Userinfo => x.user != "" && !x.open && x.host == "" && !x.colon
       case HostStart => !x.open && x.host == "" && !x.colon
       case HostV6Start => x.open && !x.shut && x.host == "" && !x.colon
       case Host => !x.open && x.host != "" && !x.colon
       case HostV6 => x.open && !x.shut && x.host != "" && !x.colon
       case HostV6End => x.open && x.shut && x.host != "" && !x.colon
       case HostPortStart => x.open == x.shut && x.host != "" && x.colon && x.port == ""
       case HostPort => x.open == x.shut && x.host != "" && x.colon && x.port != ""
       case HostDead => false
  }

  /** From where, and with which byte, a state of the host machine is reached. */
  predicate HostReaches(s: HostState, t: HostState, c: char) {
    match t
    case Userinfo => (s.UserinfoStart? || s.Userinfo?) && UserLetter(c)
    case HostStart => (s.UserinfoStart? || s.Userinfo?) && c == '@'
    case HostV6Start => s.HostStart? && c == '['
    case Host => (s.HostStart? || s.Host?) && HostLetter(c)
    case HostV6 => (s.HostV6Start? || s.HostV6?) && AddressLetter(c)
    case HostV6End => s.HostV6? && c == ']'
    case HostPortStart => (s.Host? || s.HostV6End?) && c == ':'
    case HostPort => (s.HostPortStart? || s.HostPort?) && DigitLetter(c)
    case _ => false
  }

  lemma HostStateIsReached(s: HostState, c: char)
    requires !ParseHostChar(s, c).HostDead?
    ensures HostReaches(s, ParseHostChar(s, c), c)
  {
    Letters(c);
    hide IsUserinfoChar, IsHostChar, IsHex, IsNum, UserLetter, HostLetter, AddressLetter, DigitLetter;
  }

  lemma HostGrowFits(from: HostState, x: HostFront, s: HostState, t: HostState, c: char)
    requires (from.UserinfoStart? || from.HostStart?) && HostFits(from, x, s) && HostReaches(s, t, c)
    ensures HostFits(from, HostGrow(x, t, c), t)
  {
    hide UserLetter, HostLetter, AddressLetter, DigitLetter;
    match t
    case Userinfo =>
    case HostStart =>
    case HostV6Start =>
    case Host | HostV6 =>
    case HostV6End =>
    case HostPortStart =>
    case HostPort =>
  }

  lemma HostGrowText(from: HostState, x: HostFront, s: HostState, t: HostState, c: char)
    requires (from.UserinfoStart? || from.HostStart?) && HostFits(from, x, s) && HostReaches(s, t, c)
    ensures HostFrontText(HostGrow(x, t, c)) == HostFrontText(x) + [c]
  {
    hide UserLetter, HostLetter, AddressLetter, DigitLetter, All;
    AtTheEnd(x.user, if x.at then "@" else "", if x.open then "[" else "", x.host, if x.shut then "]" else "",
             if x.colon then ":" else "", x.port, c);
    match t
    case Userinfo =>
    case HostStart =>
    case HostV6Start =>
    case Host | HostV6 =>
    case HostV6End =>
    case HostPortStart =>
    case HostPort =>
  }

  lemma DeadStays(c: char)
    ensures ParseHostChar(HostDead, c) == HostDead
  {
  }

  lemma {:induction false} HostFrontIsText(from: HostState, text: string)
    requires (from.UserinfoStart? || from.HostStart?) && !HostRun(from, text).HostDead?
    ensures HostFits(from, HostFrontOf(from, text), HostRun(from, text)) &&
            HostFrontText(HostFrontOf(from, text)) == text
  {
    if text != "" {
      hide ParseHostChar, HostFits, HostFrontText, HostGrow, HostReaches;
      var n := |text| - 1;
      DeadStays(text[n]);
      HostFrontIsText(from, text[..n]);
      var s := HostRun(from, text[..n]);
      HostStateIsReached(s, text[n]);
      HostGrowFits(from, HostFrontOf(from, text[..n]), s, HostRun(from, text), text[n]);
      HostGrowText(from, HostFrontOf(from, text[..n]), s, HostRun(from, text), text[n]);
      assert text[..n] + [text[n]] == text;
    }
  }

  lemma FittingEnd(from: HostState, x: HostFront, t: HostState)
    requires (from.UserinfoStart? || from.HostStart?) && HostFits(from, x, t) && HostMayEnd(t)
    ensures x.open == x.shut && (x.user != "" ==> x.at) && (x.colon <==> x.port != "") && x.host != "" &&
            HostFrontLetters(x)
  {
    hide HostFrontLetters;
  }

  lemma Regroup7(a: string, b: string, c: string, d: string, e: string, f: string, g: string)
    ensures a + b + c + d + e + f + g == (a + b) + ((c + d + e) + (f + g))
  {
  }

  lemma FittingText(x: HostFront)
    requires x.open == x.shut && (x.user != "" ==> x.at) && (x.colon <==> x.port != "")
    ensures ServerText(Authority(x.at, x.user, x.open, x.host, x.port)) == HostFrontText(x)
  {
    var s := Authority(x.at, x.user, x.open, x.host, x.port);
    var at, open := if x.at then "@" else "", if x.open then "[" else "";
    var shut, colon := if x.shut then "]" else "", if x.colon then ":" else "";
    Regroup7(x.user, at, open, x.host, shut, colon, x.port);
    assert HostText(s) == open + x.host + shut;
    assert PortText(s.port) == colon + x.port;
    assert UserText(s) == x.user + at;
    hide HostText, PortText, UserText;
  }

  lemma FittingServer(from: HostState, x: HostFront, t: HostState)
    requires (from.UserinfoStart? || from.HostStart?) && HostFits(from, x, t) && HostMayEnd(t)
    ensures var s := Authority(x.at, x.user, x.open, x.host, x.port);
      ProperServer(s) && ServerText(s) == HostFrontText(x)
  {
    hide HostFits, HostFrontText, ServerText, All;
    FittingEnd(from, x, t);
    FittingText(x);
  }

  /** A text in which the host machine may end is a server part. */
  lemma HostIsServer(at: bool, text: string) returns (s: Authority)
    requires HostMayEnd(HostRun(if at then UserinfoStart else HostStart, text))
    ensures s.Authority? && ProperServer(s) && ServerText(s) == text
  {
    hide HostRun, HostFrontOf, HostFits, HostFrontText, ServerText, ProperServer;
    var from := if at then UserinfoStart else HostStart;
    var x := HostFrontOf(from, text);
    HostFrontIsText(from, text);
    FittingServer(from, x, HostRun(from, text));
    s := Authority(x.at, x.user, x.open, x.host, x.port);
  }

  // ---- urls exactly ----

  /** The parts of what was read, given those of the server part. */
  function PartsOf(x: Front, s: Authority): Parts {
    Parts(x.schema, s, x.path, x.asks, x.query, x.hashes, x.fragment)
  }

  lemma RestOfFront(from: UrlState, x: Front, u: UrlState)
    requires (from.SpacesBeforeUrl? || from.ServerStart?) && FrontFits(from, x, u)
    ensures All(x.schema, Letter) && forall s :: ProperRest(PartsOf(x, s))
    ensures x.hashes != "" ==> x.path != "" || x.asks
  {
    hide Letter, PathLetter, QueryLetter, FragmentLetter;
    assert x.fragment != "" ==> x.hashes != "";
  }

  lemma MarkIsWhole(from: UrlState, x: Front, u: UrlState)
    requires (from.SpacesBeforeUrl? || from.ServerStart?) && FrontFits(from, x, u)
    requires x.server != "" || x.schema == ""
    ensures SchemaText(x.schema) == x.schema + x.mark
  {
    hide FrontLetters;
  }

  lemma Regroup(a: string, b: string, c: string, d: string, e: string)
    ensures a + (b + c + (d + e)) == a + b + c + d + e
  {
  }

  lemma FrontTextIs(x: Front, s: Authority)
    requires SchemaText(x.schema) == x.schema + x.mark && ServerText(s) == x.server
    ensures UrlText(PartsOf(x, s)) == FrontText(x)
  {
    hide SchemaText, ServerText;
    assert RestText(PartsOf(x, s)) == x.path + AskText(x) + (x.hashes + x.fragment);
    Regroup(x.schema + x.mark + x.server, x.path, AskText(x), x.hashes, x.fragment);
  }

  lemma FrontIsWellFormed(from: UrlState, isConnect: bool, x: Front, u: UrlState, s: Authority)
    requires from == UrlFrom(isConnect) && FrontFits(from, x, u) && ProperServer(s)
    requires if s.Authority? then x.server != "" else x.server == "" && x.schema == "" && !isConnect
    ensures WellFormed(PartsOf(x, s), isConnect)
  {
    RestOfFront(from, x, u);
    hide ProperServer, ProperRest, FrontLetters, All;
  }

  /** With a server part, or with neither schema nor server part, what was read is a url. */
  lemma FrontIsUrl(from: UrlState, isConnect: bool, x: Front, u: UrlState, s: Authority)
    requires from == UrlFrom(isConnect) && FrontFits(from, x, u) && ProperServer(s)
    requires if s.Authority? then x.server == ServerText(s) else x.server == "" && x.schema == "" && !isConnect
    ensures WellFormed(PartsOf(x, s), isConnect) && UrlText(PartsOf(x, s)) == FrontText(x)
  {
    hide FrontFits, ProperServer, ServerText, WellFormed, UrlText, FrontText, SchemaText;
    ServerIsText(s);
    NoText();
    MarkIsWhole(from, x, u);
    FrontTextIs(x, s);
    FrontIsWellFormed(from, isConnect, x, u, s);
  }

  lemma NoServerIsProper()
    ensures ProperServer(NoAuthority)
  {
  }

  lemma HostUsed(labels: seq<Label>, i: nat, j: nat)
    requires HostPart(labels, i, j)
    ensures Uses(labels, UfHost) <==> i < j
  {
    if i < j { assert labels[i] == Of(UfHost); }
  }

  lemma PartFits(labels: seq<Label>, i: nat, j: nat)
    requires HostPart(labels, i, j)
    ensures i <= j <= |labels|
  {
  }

  /** Without a server part the main labels are all there is. */
  lemma NoServerLabels(from: UrlState, buf: string, i: nat)
    requires HostPart(MainLabels(from, buf), i, i)
    ensures i <= |buf| && FinalLabels(from, buf, i, i) == MainLabels(from, buf)
    ensures !Uses(MainLabels(from, buf), UfHost)
  {
    hide UrlRun, MainLabels, HostRun, HostPart, HostFrom;
    var main := MainLabels(from, buf);
    HostUsed(main, i, i);
    NoMoreHost(HostFrom(from, buf));
    PartFits(main, i, i);
    assert buf[i..i] == "";
  }

  lemma TargetHasHost(buf: string, a: nat, b: nat, i: nat, j: nat)
    requires UrlAccepted(buf, true, a, b) && HostPart(MainLabels(ServerStart, buf), i, j)
    ensures i != j
  {
    hide UrlRun, MainLabels, HostRun, NumberOf, Select, HostMayEnd, HostPart, HostFrom, FinalLabels;
    PartFits(MainLabels(ServerStart, buf), a, b);
    assert Uses(FinalLabels(ServerStart, buf, a, b), UfHost);
    if i == j {
      SameServerPart(buf, true, a, b, i, i);
      NoServerLabels(ServerStart, buf, i);
    }
  }

  /** The server part of an accepted url. */
  lemma ServerOfUrl(buf: string, isConnect: bool, a: nat, b: nat, x: Front) returns (s: Authority)
    requires UrlAccepted(buf, isConnect, a, b) && FrontIs(UrlFrom(isConnect), buf, x)
    ensures ProperServer(s)
    ensures if s.Authority? then x.server == ServerText(s) else x.server == "" && x.schema == "" && !isConnect
  {
    hide FrontFits, UrlRun, MainLabels, HostRun, NumberOf, Select, FinalLabels, HostMayEnd, HostPart, ProperServer,
      ServerText;
    var from := UrlFrom(isConnect);
    var i, j := |x.schema + x.mark|, |x.schema + x.mark + x.server|;
    SameServerPart(buf, isConnect, a, b, i, j);
    MiddleText(x.schema + x.mark, x.server, x.path + AskText(x) + x.hashes + x.fragment);
    assert FrontText(x) == x.schema + x.mark + x.server + (x.path + AskText(x) + x.hashes + x.fragment);
    assert buf[i..j] == x.server;
    HostUsed(MainLabels(from, buf), i, j);
    if x.schema != "" || x.server != "" {
      s := HostIsServer(FoundAt(from, buf), x.server);
    } else {
      s := NoAuthority;
      NoServerIsProper();
      if isConnect { TargetHasHost(buf, a, b, i, j); }
    }
  }

  lemma ProperIsWellFormed(u: Parts, isConnect: bool)
    requires ProperParts(u, isConnect)
    ensures WellFormed(u, isConnect)
  {
  }

  /** An accepted url and its parts. */
  lemma PartsOfUrl(buf: string, isConnect: bool, a: nat, b: nat) returns (u: Parts)
    requires UrlAccepted(buf, isConnect, a, b)
    ensures ProperParts(u, isConnect) && UrlText(u) == buf
  {
    hide UrlRun, MainLabels, HostRun, NumberOf, Select, FinalLabels, HostMayEnd, FrontOf, FrontFits, FrontText,
      UrlText, WellFormed, ProperServer, HostPart, PortNumber, IsTarget;
    var from := UrlFrom(isConnect);
    var x := FrontOf(from, buf);
    FrontIsText(from, buf);
    var s := ServerOfUrl(buf, isConnect, a, b, x);
    u := PartsOf(x, s);
    FrontIsUrl(from, isConnect, x, UrlRun(from, buf).url, s);
    UrlIsLabelled(u, isConnect);
    OneServerPart(buf, isConnect, ServerBegin(u), ServerEnd(u));
    PartsAreAccepted(u, isConnect);
  }

  /**
   The parser accepts exactly the well-formed urls; they are written down above without it, and
   PartsAreAccepted and SlicesAreParts say what it makes of them.
   */
  lemma UrlsAreExact(buf: string, isConnect: bool)
    ensures (exists a, b :: UrlAccepted(buf, isConnect, a, b)) <==>
            exists u :: ProperParts(u, isConnect) && UrlText(u) == buf
  {
    hide UrlAccepted, ProperParts, UrlText, WellFormed, FrontIs, FrontFits, UrlRun, FrontOf;
    forall u | ProperParts(u, isConnect) && UrlText(u) == buf
      ensures UrlAccepted(buf, isConnect, ServerBegin(u), ServerEnd(u))
    {
      ProperIsWellFormed(u, isConnect);
      PartsAreAccepted(u, isConnect);
    }
    if a, b :| UrlAccepted(buf, isConnect, a, b) {
      var u := PartsOfUrl(buf, isConnect, a, b);
    }
  }

  // ---- urls in requests ----

  /** A well-formed url can stand in a request line. */
  lemma UrlIsTaken(u: Parts, isConnect: bool)
    requires WellFormed(u, isConnect) && UrlText(u) != ""
    ensures HttpLine.UrlTaken(UrlText(u), isConnect)
  {
    hide UrlText, WellFormed, UrlRun, MainLabels, FoundAt, MainPartLabels;
    MainRun(u, isConnect);
  }

  /** Parsing a well-formed url gives the positions of its parts and the number of its port. */
  method ParseParts(u: Parts, isConnect: bool) returns (parsed: ParsedUrl)
    requires ProperParts(u, isConnect) && |UrlText(u)| <= 0xffff
    ensures parsed.fields == Slices(u) && parsed.port == PortNumber(u)
  {
    hide UrlAccepted, ProperParts, UrlText, WellFormed, Slices, PortNumber, Described, UrlRun, HostPart;
    parsed := new ParsedUrl();
    ProperIsWellFormed(u, isConnect);
    PartsAreAccepted(u, isConnect);
    var failed, a, b := parsed.ParseUrl(UrlText(u), isConnect);
    assert !failed;
    SlicesAreParts(u, isConnect, a, b, parsed.fields, parsed.port);
  }

  lemma RestPositions(u: Parts)
    ensures var n, slices := ServerEnd(u), Slices(u);
      && (UfQuery in slices <==> u.query != "") && (u.query != "" ==> slices[UfQuery].off == n + |u.path| + 1)
      && (UfFragment in slices <==> u.fragment != "")
      && (u.fragment != "" ==> slices[UfFragment].off == n + |u.path + QueryText(u) + u.hashes|)
  {
    hide SchemaText, ServerText, QueryText, HostText;
  }

  /** Between the parts stand their delimiters: in front of a query a question mark, of a fragment a hash. */
  lemma DelimitersInFront(u: Parts, isConnect: bool)
    requires WellFormed(u, isConnect)
    ensures var text, slices := UrlText(u), Slices(u);
      && (UfQuery in slices ==> 0 < slices[UfQuery].off <= |text| && text[slices[UfQuery].off - 1] == '?')
      && (UfFragment in slices ==> 0 < slices[UfFragment].off <= |text| && text[slices[UfFragment].off - 1] == '#')
  {
    RestPositions(u);
    hide Slices, ProperServer, SchemaText, ServerText, HostText;
    var front := SchemaText(u.schema) + ServerText(u.server);
    if u.query != "" { assert UrlText(u)[|front| + |u.path|] == RestText(u)[|u.path|] == '?'; }
    if u.fragment != "" {
      var n := |u.path + QueryText(u) + u.hashes|;
      assert u.hashes[|u.hashes| - 1] == '#';
      assert UrlText(u)[|front| + n - 1] == RestText(u)[n - 1] == '#';
    }
  }

  /** What an accepted url and its slices are: the text of parts, and where these are. */
  lemma SlicesArePositions(buf: string, isConnect: bool, a: nat, b: nat, fields: map<UrlField, Slice>, port: nat)
    returns (u: Parts)
    requires UrlAccepted(buf, isConnect, a, b) && Described(buf, isConnect, a, b, fields, port)
    ensures ProperParts(u, isConnect) && UrlText(u) == buf && fields == Slices(u) && port == PortNumber(u)
    ensures UfQuery in fields ==> 0 < fields[UfQuery].off <= |buf| && buf[fields[UfQuery].off - 1] == '?'
    ensures UfFragment in fields ==> 0 < fields[UfFragment].off <= |buf| && buf[fields[UfFragment].off - 1] == '#'
  {
    hide UrlAccepted, Described, ProperParts, UrlText, Slices, PortNumber, WellFormed;
    u := PartsOfUrl(buf, isConnect, a, b);
    SlicesAreParts(u, isConnect, a, b, fields, port);
    ProperIsWellFormed(u, isConnect);
    DelimitersInFront(u, isConnect);
  }
}
