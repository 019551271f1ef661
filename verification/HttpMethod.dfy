/**
 The request methods: the matcher of s_req_method, which guesses a method from the first
 letter and changes its mind on later ones, accepts exactly the 27 method names.
 */
module HttpMethod {
  import opened HttpTypes
  import opened HttpSwitch
  import opened HttpRun
  import opened HttpTape

  /** A change of mind keeps the text read so far a prefix of the method's name. */
  lemma OtherMethodPrefix(m: Method, index: nat, ch: char)
    requires OtherMethod(m, index, ch).0 && index <= |MethodString(m)|
    ensures var o := OtherMethod(m, index, ch).1;
      index < |MethodString(o)| && MethodString(o)[index] == ch &&
      forall i :: 0 <= i < index ==> MethodString(o)[i] == MethodString(m)[i]
  {
  }

  lemma InitialLetter(ch: char)
    requires IsMethodInitial(ch)
    ensures IsAlpha(ch) && MethodString(InitialMethod(ch))[0] == ch
  {
  }

  lemma NamesAreCapitals(m: Method, i: nat)
    requires i < |MethodString(m)|
    ensures var c := MethodString(m)[i]; c == '-' || 'A' <= c <= 'Z'
  {
  }

  /** The record that on_message_begin is given. */
  function Begun(p: Parser, ch: char): Parser {
    p.(flags := NO_FLAGS, contentLength := ULLONG_MAX, verb := InitialMethod(ch), index := 1, state := ReqMethod,
       nread := p.nread + 1)
  }

  lemma FirstByte(s: Settings, p: Parser, ch: char)
    requires p.state.StartReq? && p.nread < MAX_HEADER_SIZE && ch != '\r' && ch != '\n'
    ensures var o := StepByte(s, p, ch);
      if IsMethodInitial(ch) then o == Outcome(Begun(p, ch), [Notify(Begin(Begun(p, ch)))], Advance)
      else o.ctl.Fail?
  {
    hide InitialMethod, Notices, AsData;
    NoticesOne(Call(Begin(Begun(p, ch))));
    if IsMethodInitial(ch) { InitialLetter(ch); }
  }

  lemma NextByte(s: Settings, p: Parser, ch: char)
    requires p.state.ReqMethod? && p.nread < MAX_HEADER_SIZE
    ensures var o := StepByte(s, p, ch);
      var t := SwitchMethod(p.(nread := p.nread + 1), ch);
      o == Outcome(t.p, [], t.ctl) && !t.ctl.Again? && !t.ctl.Leave?
  {
    hide OtherMethod, MethodString, AsData;
  }

  /** A method token in front of its space. */
  predicate MethodToken(text: string) {
    text != "" && text[0] != '\r' && text[0] != '\n' && ' ' !in text
  }

  /** While a method is being read, the text read so far begins its name. */
  lemma {:induction false} TextBeginsName(s: Settings, p: Parser, text: string)
    requires p.state.StartReq? && MethodToken(text) && p.nread + |text| <= MAX_HEADER_SIZE
    ensures var r := Feed(s, Start(p), text);
      r.ctl.Advance? ==>
        r.p.state.ReqMethod? && r.p.nread == p.nread + |text| &&
        r.p.index == |text| <= |MethodString(r.p.verb)| &&
        text == MethodString(r.p.verb)[..|text|]
  {
    hide StepByte, MethodString, OtherMethod, InitialMethod, IsMethodInitial;
    var n := |text| - 1;
    var front := Feed(s, Start(p), text[..n]);
    if n == 0 {
      FirstByte(s, p, text[0]);
      if IsMethodInitial(text[0]) { InitialLetter(text[0]); }
    } else {
      TextBeginsName(s, p, text[..n]);
      if front.ctl.Advance? {
        NextByte(s, front.p, text[n]);
        if OtherMethod(front.p.verb, n, text[n]).0 { OtherMethodPrefix(front.p.verb, n, text[n]); }
      }
    }
  }

  lemma SpaceByte(s: Settings, p: Parser)
    requires p.state.ReqMethod? && p.nread < MAX_HEADER_SIZE && p.index <= |MethodString(p.verb)|
    ensures var o := StepByte(s, p, ' ');
      if p.index == |MethodString(p.verb)| then
        o == Outcome(p.(state := Url(SpacesBeforeUrl), index := p.index + 1, nread := p.nread + 1), [], Advance)
      else o.ctl.Fail?
  {
    hide StepByte, MethodString;
    NextByte(s, p, ' ');
    if p.index < |MethodString(p.verb)| { NamesAreCapitals(p.verb, p.index); }
  }

  /** The methods guessed on the way to m, after k letters of its name. */
  function GuessAt(m: Method, k: nat): Method {
    match m
    case COPY => if k <= 2 then CONNECT else COPY
    case CHECKOUT => if k <= 1 then CONNECT else CHECKOUT
    case MOVE => if k <= 1 then MKCOL else MOVE
    case MERGE => if k <= 1 then MKCOL else MERGE
    case MSEARCH => if k <= 1 then MKCOL else MSEARCH
    case MKACTIVITY => if k <= 2 then MKCOL else MKACTIVITY
    case MKCALENDAR => if k <= 3 then MKCOL else MKCALENDAR
    case SEARCH => if k <= 1 then SUBSCRIBE else SEARCH
    case PROPFIND => if k <= 1 then POST else PROPFIND
    case PUT => if k <= 1 then POST else PUT
    case PATCH => if k <= 1 then POST else PATCH
    case PURGE => if k <= 1 then POST else if k <= 2 then PUT else PURGE
    case PROPPATCH => if k <= 1 then POST else if k <= 4 then PROPFIND else PROPPATCH
    case UNSUBSCRIBE => if k <= 2 then UNLOCK else UNSUBSCRIBE
    case _ => m
  }

  lemma GuessStarts(m: Method)
    ensures var ch := MethodString(m)[0];
      IsMethodInitial(ch) && InitialMethod(ch) == GuessAt(m, 1) && GuessAt(m, |MethodString(m)|) == m
  {
  }

  lemma GuessGoesOn(m: Method, k: nat)
    requires 1 <= k < |MethodString(m)|
    ensures var v, ch := GuessAt(m, k), MethodString(m)[k];
      if At(MethodString(v), k) == ch then GuessAt(m, k + 1) == v
      else OtherMethod(v, k, ch) == (true, GuessAt(m, k + 1))
  {
  }

  lemma {:induction false} NameIsRead(s: Settings, p: Parser, m: Method, k: nat)
    requires p.state.StartReq? && 1 <= k <= |MethodString(m)| && p.nread + k <= MAX_HEADER_SIZE
    ensures var r := Feed(s, Start(p), MethodString(m)[..k]);
      var b := Begun(p, MethodString(m)[0]);
      r == Run(b.(verb := GuessAt(m, k), index := k, nread := p.nread + k), k, [Notify(Begin(b))], Advance)
  {
    hide StepByte, MethodString, OtherMethod, InitialMethod, IsMethodInitial, GuessAt;
    var text := MethodString(m)[..k];
    GuessStarts(m);
    NamesAreCapitals(m, k - 1);
    assert text[..k - 1] == MethodString(m)[..k - 1];
    if k == 1 {
      InitialLetter(text[0]);
      FirstByte(s, p, text[0]);
    } else {
      NameIsRead(s, p, m, k - 1);
      GuessGoesOn(m, k - 1);
      NextByte(s, Feed(s, Start(p), text[..k - 1]).p, text[k - 1]);
    }
  }

  /**
   A request may start with a token and a space exactly when the token is the name of a
   method, and then that method is recorded.
   */
  lemma MethodsAreExactlyTheNames(s: Settings, p: Parser, text: string)
    requires p.state.StartReq? && MethodToken(text) && p.nread + |text| < MAX_HEADER_SIZE
    ensures var r := Feed(s, Start(p), text + " ");
      && (r.ctl.Advance? <==> exists m :: MethodString(m) == text)
      && (r.ctl.Advance? ==> r.p.state == Url(SpacesBeforeUrl) && MethodString(r.p.verb) == text)
  {
    hide StepByte, MethodString;
    var r := Feed(s, Start(p), text);
    assert (text + " ")[..|text|] == text;
    TextBeginsName(s, p, text);
    if r.ctl.Advance? { SpaceByte(s, r.p); }
    forall m | MethodString(m) == text
      ensures Feed(s, Start(p), text + " ").ctl.Advance?
    {
      NameIsRead(s, p, m, |text|);
      GuessStarts(m);
      assert text[..|text|] == text;
    }
  }
}
