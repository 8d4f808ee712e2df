/** Other forms of the same messages: bare line feeds, folded values, and a parser for either kind. */
module HttpLenient {
  import opened HttpTypes
  import opened HttpSwitch
  import opened HttpInvariant
  import opened HttpCall
  import opened HttpMicro
  import opened HttpLengths
  import opened HttpHeaders
  import opened HttpChunked
  import opened HttpText
  import opened HttpStatusLine

  // -------------------------------------------------------------------------------- line ends

  /** Where a line of a head may end, the blank line included. */
  predicate MayEndLine(s: State) {
    || s.HeaderValue? || s.HeaderFieldStart? || s.DiscardWs? || s.ReqEnd? || s.ResStatusCode? || s.ResStatusStart? || s.ResStatus?
    || (IsUrlState(s) && !s.ReqSchema? && !s.ReqSchemaSlash? && !s.ReqSchemaSlashSlash? && !s.ReqServerStart?)
  }

  lemma RequestLineFeed(c: Core)
    requires c.state.ReqEnd? || (IsUrlState(c.state) && MayEndLine(c.state))
    ensures var o := RequestLineByte(c, CR);
            o.Next? && o == Go(o.core) && o.core.state.ReqLineAlmostDone? && RequestLineByte(o.core, LF) == RequestLineByte(c, LF)
    ensures RequestLineByte(c, LF) == Go(RequestLineByte(c, LF).core) && RequestLineByte(c, LF).core.state.HeaderFieldStart?
  {
    hide UrlStep;
  }

  lemma StatusLineFeed(c: Core)
    requires c.state.ResStatusCode? || c.state.ResStatusStart? || c.state.ResStatus?
    ensures var o := ResponseLineByte(c, CR);
            o.Next? && o == Go(o.core) && o.core.state.ResLineAlmostDone? && ResponseLineByte(o.core, LF) == ResponseLineByte(c, LF)
    ensures ResponseLineByte(c, LF) == Go(ResponseLineByte(c, LF).core) && ResponseLineByte(c, LF).core.state.HeaderFieldStart?
  {
  }

  lemma HeaderFeed(c: Core)
    requires c.state.HeaderFieldStart? || c.state.DiscardWs?
    ensures var o := HeaderByte(c, CR);
            o.Next? && o == Go(o.core) && IsHeaderState(o.core.state) && HeaderByte(o.core, LF) == HeaderByte(c, LF)
  {
    hide NewMessage, NeedsEof, ValueStartByte;
    if c.state.HeaderFieldStart? {
      SameEnd(c, c.(state := HeadersAlmostDone));
    }
    hide HeadersEndByte;
  }

  lemma SameEnd(c: Core, e: Core)
    requires e == c.(state := HeadersAlmostDone)
    ensures HeadersEndByte(c, LF) == HeadersEndByte(e, LF)
  {
  }

  /** A line feed alone ends a line of a head exactly as a line feed after a carriage return does. */
  lemma BareLineFeed(c: Core)
    requires CoreOk(c) && MayEndLine(c.state)
    ensures Micros(c, [LF]) == Micros(c, CRLF)
  {
    hide Micros, CoreOk, MicroStep, RequestLineByte, ResponseLineByte, HeaderByte, Switch;
    MicrosOne(c, LF);
    if c.state.HeaderValue? {
      LineEnd(c);
      ValueFeed(c);
    } else if c.state.HeaderFieldStart? || c.state.DiscardWs? {
      HeaderFeed(c);
      HeaderOk(c, CR);
      HeaderStep(c, CR);
      TwoBytes(c, HeaderByte(c, CR).core);
      HeaderStep(HeaderByte(c, CR).core, LF);
      HeaderStep(c, LF);
    } else if IsResponseLineState(c.state) {
      StatusLineFeed(c);
      ResponseLineOk(c, CR);
      LineStep(c, CR);
      TwoBytes(c, ResponseLineByte(c, CR).core);
      LineStep(ResponseLineByte(c, CR).core, LF);
      LineStep(c, LF);
    } else {
      RequestLineFeed(c);
      RequestLineOk(c, CR);
      RequestStep(c, CR);
      TwoBytes(c, RequestLineByte(c, CR).core);
      RequestStep(RequestLineByte(c, CR).core, LF);
      RequestStep(c, LF);
    }
  }

  lemma ValueFeed(c: Core)
    requires CoreOk(c) && c.state.HeaderValue?
    ensures MicroStep(c, LF) == Moved(c.(state := HeaderValueLws), [])
  {
    hide Switch, ValueByte;
  }

  /** Two bytes, the first of which runs no callback. */
  lemma TwoBytes(c: Core, d: Core)
    requires CoreOk(c) && CoreOk(d) && MicroStep(c, CR) == Moved(d, [] + Text(d.state, CR)) && Text(d.state, CR) == []
    ensures Micros(c, CRLF) == MicroStep(d, LF)
  {
    hide Micros, MicroStep, CoreOk, Text;
    assert [] + Text(d.state, CR) == [];
    Cons(c, CR, [LF], d, []);
    MicrosOne(d, LF);
    assert CRLF == [CR] + [LF];
    var r := Micros(d, [LF]);
    assert r.Moved? ==> [] + r.events == r.events;
  }

  // ---------------------------------------------------------------------------- folded values

  /** A line that starts with a blank goes on with the value of a plain header, blank included. */
  lemma FoldedLine(c: Core, ch: char, s: seq<char>)
    requires CoreOk(c) && c.state.HeaderValueLws? && c.hstate.HGeneral? && (ch == ' ' || ch == '\t') && IsPlain(s)
    ensures var d := c.(index := 0); CoreOk(d) && Micros(c, [ch] + (s + CRLF)) == Moved(d, ValueEvents([ch] + s))
  {
    hide Micros, CoreOk, MicroStep, IsPlain, ValueEvents;
    var e, d := c.(state := HeaderValue, index := 0), c.(index := 0);
    FoldOk(c, e, d);
    FoldStarts(c, ch, e);
    PlainValue(e, s);
    LineEnd(e);
    Then(e, s, e, ValueEvents(s), CRLF, d, []);
    Cons(c, ch, s + CRLF, e, [Value(ch)]);
    FoldEvents(ch, s);
  }

  lemma FoldOk(c: Core, e: Core, d: Core)
    requires CoreOk(c) && c.state.HeaderValueLws? && c.hstate.HGeneral?
    requires e == c.(state := HeaderValue, index := 0) && d == c.(index := 0)
    ensures CoreOk(e) && CoreOk(d) && d == e.(state := HeaderValueLws)
  {
  }

  lemma FoldEvents(ch: char, s: seq<char>)
    ensures [Value(ch)] + (ValueEvents(s) + []) == ValueEvents([ch] + s)
  {
  }

  lemma FoldStarts(c: Core, ch: char, e: Core)
    requires CoreOk(c) && c.state.HeaderValueLws? && c.hstate.HGeneral? && (ch == ' ' || ch == '\t')
    requires e == c.(state := HeaderValue, index := 0)
    ensures MicroStep(c, ch) == Moved(e, [Value(ch)])
  {
    hide MicroStep, FieldStartByte, ApplyHeader;
    HeaderStep(c, ch);
    assert HeaderByte(c, ch) == Go(e);
    hide HeaderByte;
    assert [] + [Value(ch)] == [Value(ch)];
  }

  // ------------------------------------------------------------------- parsers for either kind

  /** A parser for either kind takes a request as one for requests does, and a response as one for responses. */
  lemma EitherKind(s: seq<char>)
    requires |s| >= 2 && IsAlpha(s[0])
    ensures CoreOk(InitCore(Both)) && CoreOk(InitCore(Request)) && CoreOk(InitCore(Response))
    ensures s[0] != 'H' || s[1] == 'E' ==> Micros(InitCore(Both), s) == Micros(InitCore(Request), s)
    ensures s[0] == 'H' && s[1] == 'T' ==> Micros(InitCore(Both), s) == Micros(InitCore(Response), s)
    ensures s[0] == 'H' && s[1] != 'E' && s[1] != 'T' ==> Micros(InitCore(Both), s).Stuck?
  {
    hide Micros, MicroStep, CoreOk, InitCore, IsAlpha;
    var b, q, p := InitCore(Both), InitCore(Request), InitCore(Response);
    FirstBytes(s[0]);
    FirstOf(b, s);
    FirstOf(q, s);
    FirstOf(p, s);
    if s[0] == 'H' {
      SecondBytes(s[1]);
      var t := s[1..];
      assert t[0] == s[1];
      FirstOf(MicroStep(b, 'H').core, t);
      FirstOf(MicroStep(q, 'H').core, t);
      FirstOf(MicroStep(p, 'H').core, t);
    }
  }

  lemma FirstOf(c: Core, s: seq<char>)
    requires CoreOk(c) && s != []
    ensures MicroStep(c, s[0]).Moved? ==> CoreOk(MicroStep(c, s[0]).core)
    ensures Micros(c, s) ==
            if MicroStep(c, s[0]).Stuck? then Stuck else Prepended(MicroStep(c, s[0]).events, Micros(MicroStep(c, s[0]).core, s[1..]))
  {
    hide MicroStep, CoreOk;
    MicroStepOk(c, s[0]);
  }

  lemma FirstBytes(ch: char)
    requires IsAlpha(ch)
    ensures CoreOk(InitCore(Both)) && CoreOk(InitCore(Request)) && CoreOk(InitCore(Response))
    ensures ch != 'H' ==> MicroStep(InitCore(Both), ch) == MicroStep(InitCore(Request), ch)
    ensures ch == 'H' ==>
              && MicroStep(InitCore(Both), ch) == Moved(InitCore(Both).(flags := NO_FLAGS, contentLength := NO_LENGTH, state := ResOrRespH), [MessageBegin])
              && MicroStep(InitCore(Request), ch) == Moved(InitCore(Request).(flags := NO_FLAGS, contentLength := NO_LENGTH, verb := HEAD, index := 1, state := ReqMethod), [MessageBegin])
              && MicroStep(InitCore(Response), ch) == Moved(InitCore(Response).(flags := NO_FLAGS, contentLength := NO_LENGTH, state := ResH), [MessageBegin])
  {
    hide GuardOk, ResponseLineByte, RequestLineByte, HeaderByte, BodyByte, MethodByte;
    assert [MessageBegin] + [] == [MessageBegin];
  }

  lemma SecondBytes(ch: char)
    ensures var b := InitCore(Both).(flags := NO_FLAGS, contentLength := NO_LENGTH, state := ResOrRespH);
            var q := InitCore(Request).(flags := NO_FLAGS, contentLength := NO_LENGTH, verb := HEAD, index := 1, state := ReqMethod);
            var p := InitCore(Response).(flags := NO_FLAGS, contentLength := NO_LENGTH, state := ResH);
            && CoreOk(b) && CoreOk(q) && CoreOk(p)
            && (ch == 'E' ==> MicroStep(b, ch) == MicroStep(q, ch)) && (ch == 'T' ==> MicroStep(b, ch) == MicroStep(p, ch))
            && (ch != 'E' && ch != 'T' ==> MicroStep(b, ch).Stuck?)
  {
    hide RequestLineByte, HeaderByte, BodyByte, NewRequest;
    assert MethodString(HEAD) == "HEAD";
  }
}
