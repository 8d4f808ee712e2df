/** A run from a fresh parser that one call accepts and two calls do not. */
module HttpSplitLimits {
  import opened HttpTypes
  import opened HttpSwitch
  import opened HttpInvariant
  import opened HttpCall
  import opened HttpSplit
  import opened HttpMicro
  import opened HttpNames
  import opened HttpHeaders
  import opened HttpText
  import opened HttpRequestLine
  import opened HttpRoom

  /** A request up to the first byte of a header value: "POST / HTTP/1.1", "A: b". */
  function Opening(): seq<char> { AnyRequestLine(POST, "/") + ("A" + ": " + "b") }

  lemma SlashIsTarget()
    ensures IsTarget(POST, "/") && IsVersion(HTTP11)
  {
  }

  lemma OpeningMicros() returns (e: Core)
    ensures CoreOk(e) && Micros(InitCore(Request), Opening()).Moved? && Micros(InitCore(Request), Opening()).core == e
    ensures e.state.HeaderValue? && e.hstate.HGeneral? && !e.lenient
  {
    StartsOk();
    var c := InitCore(Request);
    SlashIsTarget();
    assert IsName("A") && LowerName("A") == "a";
    hide Micros, MicroStep, RequestLineOf, LowerName, IsTarget;
    var r := RequestLineRead(c, POST, "/", HTTP11);
    var d := NameAndColon(r, "A");
    e := d.(state := HeaderValue, index := 0, hstate := HGeneral);
    assert ValueStartByte(d, 'b') == Go(e);
    ValueStart(d, 'b');
    hide CoreOk, ValueStartByte;
    MicrosOne(d, 'b');
    Then(r, "A" + ": ", d, FieldEvents("A"), ['b'], e, [Value('b')]);
    Then(c, AnyRequestLine(POST, "/"), r, [MessageBegin] + UrlEvents("/"), "A" + ": " + "b", e, FieldEvents("A") + [Value('b')]);
  }

  /** The first byte of a call inside a plain value is looked at. */
  lemma FirstByteRejected(c: Call, y: char)
    requires Ready(c) && c.core.state.HeaderValue? && c.core.hstate.HGeneral? && !c.core.lenient && c.nread < MAX_HEADER_SIZE
    requires !IsHeaderChar(y) && !IsNewline(y)
    ensures Feed(c, [y]) == Failed(InvalidHeaderToken)
  {
    hide CoreOk, IsHeaderChar;
    assert Begin(c) == c && Steps(c, [y], 0) == c && Steps(c, [y], 1) == Step(c, y);
  }

  const BAD: char := 1 as char

  /** "POST / HTTP/1.1", "A: bc" and a control character: accepted in one call, not when the control character comes in its own. */
  lemma AcceptedTogetherOnly()
    ensures var c, x, y := Init(Request), Opening() + "c", [BAD];
            Feed(c, x + y).Live? && Feed(c, x).Live? && Feed(Feed(c, x), y) == Failed(InvalidHeaderToken)
  {
    var c, h := Init(Request), Opening();
    var e := OpeningMicros();
    assert |h| <= 40 && h != [];
    assert !IsHeaderChar(BAD) && !IsNewline(BAD) && IsHeaderChar('c') && !IsNewline('c');
    hide Micros, CoreOk, Opening, Feed, IsHeaderChar;
    TallyBound(c.core, 0, h);
    FeedRoom(c, h);
    var d := Feed(c, h);
    SplitConverseFails(d, 'c', BAD);
    SplitInvariance(c, h, ['c', BAD]);
    SplitInvariance(c, h, ['c']);
    assert h + ['c', BAD] == (h + "c") + [BAD] && h + ['c'] == h + "c";
    NextShape(d, 'c');
    FirstByteRejected(Feed(c, h + "c"), BAD);
  }

  lemma NextShape(c: Call, x: char)
    requires Ready(c) && c.core.state.HeaderValue? && c.core.hstate.HGeneral? && c.nread + 3 <= MAX_HEADER_SIZE
    requires IsHeaderChar(x) && !IsNewline(x)
    ensures var r := Feed(c, [x]); r.Live? && !r.exit && r.core == c.core && r.nread == c.nread + 2
  {
    hide CoreOk, IsHeaderChar;
    assert Begin(c) == c && Steps(c, [x], 0) == c && Steps(c, [x], 1) == Step(c, x);
  }
}
