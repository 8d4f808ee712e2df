/** Request lines of every method, read from a fresh parser up to the header lines. */
module HttpRequestLine {
  import opened HttpTypes
  import opened HttpSwitch
  import opened HttpInvariant
  import opened HttpCall
  import opened HttpMicro
  import opened HttpHeaders
  import opened HttpText
  import HttpMethods
  import HttpUrlGrammar

  /** How the URL automaton starts. */
  function UrlStart(m: Method): State { HttpUrlGrammar.StartOf(m == CONNECT) }

  /** The states in which a URL may end. */
  predicate EndsUrl(s: State) { HttpUrlGrammar.InTail(s) || s.ReqServer? || s.ReqServerWithAt? }

  /** What a method is sent with: CONNECT a host and port, the others a path or a whole URL. */
  predicate IsTarget(m: Method, url: seq<char>) { EndsUrl(HttpUrlGrammar.Run(UrlStart(m), url)) }

  /** The version in a request line, of two digits; a request line of version 0.9 has none. */
  datatype Version = Simple | Version(major: char, minor: char)

  predicate IsVersion(v: Version) { v.Version? ==> IsNum(v.major) && IsNum(v.minor) }

  function Major(v: Version): nat
    requires IsVersion(v)
  {
    if v.Simple? then 0 else DigitValue(v.major)
  }

  function Minor(v: Version): nat
    requires IsVersion(v)
  {
    if v.Simple? then 9 else DigitValue(v.minor)
  }

  const HTTP11 := Version('1', '1')

  function Numbers(v: Version): seq<char> { if v.Simple? then [] else [v.major] + "." + [v.minor] }

  /** What comes behind the target. */
  function Protocol(v: Version): seq<char> {
    (if v.Simple? then [] else " HTTP/" + Numbers(v)) + CRLF
  }

  function RequestLineOf(m: Method, url: seq<char>, v: Version): seq<char> { MethodString(m) + " " + (url + Protocol(v)) }

  function AnyRequestLine(m: Method, url: seq<char>): seq<char> { RequestLineOf(m, url, HTTP11) }

  /** The fields while a method is read, before and after its first letter. */
  ghost predicate Reading(c: Core, d: Core) {
    if d.state.StartReq? then d == c
    else
      && (d.state.ReqMethod? || d.state.ReqSpacesBeforeUrl?)
      && d == c.(flags := NO_FLAGS, contentLength := NO_LENGTH, verb := d.verb, index := d.index, state := d.state)
  }

  lemma MethodStep(c: Core, d: Core, ch: char)
    requires CoreOk(d) && c.state.StartReq? && Reading(c, d) && !d.state.ReqSpacesBeforeUrl? && Switch(d, ch).Next?
    ensures MicroStep(d, ch).Moved? && MicroStep(d, ch).core == Switch(d, ch).core && Reading(c, Switch(d, ch).core)
    ensures ReadingEvents(d) + MicroStep(d, ch).events == ReadingEvents(MicroStep(d, ch).core)
  {
    hide GuardOk, MethodString, FirstLetter, SwitchMethod, IsAlpha;
  }

  /** The callbacks while a method is read. */
  function ReadingEvents(d: Core): seq<Event> { if d.state.StartReq? then [] else [MessageBegin] }

  /** What HttpMethods reads is what the parser reads. */
  lemma {:induction false} ReadsMicros(c: Core, w: seq<char>)
    requires CoreOk(c) && c.state.StartReq? && HttpMethods.Reads(c, w).Some?
    ensures Micros(c, w).Moved? && Micros(c, w).core == HttpMethods.Reads(c, w).value && Reading(c, Micros(c, w).core)
    ensures Micros(c, w).events == ReadingEvents(Micros(c, w).core)
    decreases |w|
  {
    hide Switch, CoreOk, MicroStep;
    if w != [] {
      var v, ch := w[..|w| - 1], w[|w| - 1];
      assert w == v + [ch];
      ReadsMicros(c, v);
      var d := HttpMethods.Reads(c, v).value;
      MethodStep(c, d, ch);
      MicrosConcat(c, v, [ch]);
      MicrosOne(d, ch);
    }
  }

  lemma NoStrip(m: Method)
    ensures HttpMethods.Strip(MethodString(m)) == MethodString(m)
  {
    HttpMethods.FirstComplete(m);
    hide MethodString;
  }

  /** The method and the space after it. */
  lemma MethodRead(c: Core, m: Method) returns (d: Core)
    requires CoreOk(c) && c.state.StartReq?
    ensures CoreOk(d) && d.state.ReqSpacesBeforeUrl? && d.verb == m && Reading(c, d)
    ensures Micros(c, MethodString(m) + " ") == Moved(d, [MessageBegin])
  {
    hide MethodString, CoreOk, Micros;
    NoStrip(m);
    HttpMethods.MethodRecognised(c, MethodString(m), m);
    ReadsMicros(c, MethodString(m) + [' ']);
    d := Micros(c, MethodString(m) + " ").core;
  }

  // -------------------------------------------------------------------------------- the target

  /** The state a URL byte starts from. */
  function UrlFrom(c: Core): State {
    if c.state.ReqSpacesBeforeUrl? && c.verb == CONNECT then ReqServerStart else c.state
  }

  lemma UrlByte(c: Core, ch: char)
    requires (IsUrlState(c.state) || c.state.ReqSpacesBeforeUrl?) && !UrlChar(UrlFrom(c), ch).Dead?
    ensures RequestLineByte(c, ch) == Go(c.(state := UrlChar(UrlFrom(c), ch))) && IsUrlState(UrlChar(UrlFrom(c), ch))
  {
    UrlCharState(UrlFrom(c), ch);
    NoBlanks(UrlFrom(c), ch);
    hide UrlChar;
  }

  lemma NoBlanks(s: State, ch: char)
    ensures !UrlChar(s, ch).Dead? ==> ch != ' ' && ch != CR && ch != LF
  {
  }

  lemma UrlStepRead(c: Core, ch: char)
    requires CoreOk(c) && (IsUrlState(c.state) || c.state.ReqSpacesBeforeUrl?) && !UrlChar(UrlFrom(c), ch).Dead?
    ensures var d := c.(state := UrlChar(UrlFrom(c), ch)); CoreOk(d) && IsUrlState(d.state) && MicroStep(c, ch) == Moved(d, [Url(ch)])
  {
    hide RequestLineByte, MicroStep, UrlChar;
    RequestStep(c, ch);
    UrlByte(c, ch);
    var d := c.(state := UrlChar(UrlFrom(c), ch));
    assert CoreOk(d);
    assert [] + [Url(ch)] == [Url(ch)];
  }

  /** A target is read by the URL automaton. */
  lemma {:induction false} TargetRead(c: Core, url: seq<char>)
    requires CoreOk(c) && (IsUrlState(c.state) || (c.state.ReqSpacesBeforeUrl? && url != []))
    requires IsUrlState(HttpUrlGrammar.Run(UrlFrom(c), url))
    ensures var d := c.(state := HttpUrlGrammar.Run(UrlFrom(c), url)); CoreOk(d) && Micros(c, url) == Moved(d, UrlEvents(url))
    decreases |url|
  {
    hide MicroStep, CoreOk, UrlChar;
    if url != [] {
      HttpUrlGrammar.RunDead(url[1..]);
      UrlStepRead(c, url[0]);
      TargetRead(c.(state := UrlChar(UrlFrom(c), url[0])), url[1..]);
      assert [Url(url[0])] + UrlEvents(url[1..]) == UrlEvents(url);
    }
  }

  // ------------------------------------------------------------------------------- the protocol

  lemma SpaceAfterUrl(c: Core, s: seq<char>)
    requires CoreOk(c) && EndsUrl(c.state)
    ensures CoreOk(c.(state := ReqHttpStart)) && Micros(c, [' '] + s) == Micros(c.(state := ReqHttpStart), s)
  {
    Silence(c, ' ', c.(state := ReqHttpStart), s);
  }

  /** The protocol name after a target. */
  lemma NameRead(c: Core, s: seq<char>)
    requires CoreOk(c) && EndsUrl(c.state)
    ensures CoreOk(c.(state := ReqMajor)) && Micros(c, " HTTP/" + s) == Micros(c.(state := ReqMajor), s)
  {
    hide Micros, CoreOk, EndsUrl, RequestLineByte;
    var h, t, tt := c.(state := ReqHttpStart), c.(state := ReqHttpH), c.(state := ReqHttpHT);
    var p, slash := c.(state := ReqHttpHTT), c.(state := ReqHttpHTTP);
    NameSteps(c);
    NameStepsOn(c);
    SpaceAfterUrl(c, "HTTP/" + s);
    Silence(h, 'H', t, "TTP/" + s);
    Silence(t, 'T', tt, "TP/" + s);
    Silence(tt, 'T', p, "P/" + s);
    Silence(p, 'P', slash, "/" + s);
    Silence(slash, '/', c.(state := ReqMajor), s);
    ProtocolText(s);
  }

  lemma NameSteps(c: Core)
    ensures RequestLineByte(c.(state := ReqHttpStart), 'H') == Go(c.(state := ReqHttpH))
    ensures RequestLineByte(c.(state := ReqHttpH), 'T') == Go(c.(state := ReqHttpHT))
  {
    hide UrlStep;
  }

  lemma NameStepsOn(c: Core)
    ensures RequestLineByte(c.(state := ReqHttpHT), 'T') == Go(c.(state := ReqHttpHTT))
    ensures RequestLineByte(c.(state := ReqHttpHTT), 'P') == Go(c.(state := ReqHttpHTTP))
    ensures RequestLineByte(c.(state := ReqHttpHTTP), '/') == Go(c.(state := ReqMajor))
  {
    hide UrlStep;
  }

  lemma ProtocolText(s: seq<char>)
    ensures " HTTP/" + s == [' '] + ("HTTP/" + s) && "HTTP/" + s == ['H'] + ("TTP/" + s) && "TTP/" + s == ['T'] + ("TP/" + s)
    ensures "TP/" + s == ['T'] + ("P/" + s) && "P/" + s == ['P'] + ("/" + s) && "/" + s == ['/'] + s
  {
  }

  /** A byte of the version or of the line end. */
  lemma NumberSteps(c: Core, ch: char)
    ensures c.state.ReqMajor? && IsNum(ch) ==> RequestLineByte(c, ch) == Go(c.(major := DigitValue(ch), state := ReqDot))
    ensures c.state.ReqDot? ==> RequestLineByte(c, '.') == Go(c.(state := ReqMinor))
    ensures c.state.ReqMinor? && IsNum(ch) ==> RequestLineByte(c, ch) == Go(c.(minor := DigitValue(ch), state := ReqEnd))
    ensures c.state.ReqEnd? ==> RequestLineByte(c, CR) == Go(c.(state := ReqLineAlmostDone))
    ensures EndsUrl(c.state) ==> RequestLineByte(c, CR) == Go(c.(major := 0, minor := 9, state := ReqLineAlmostDone))
    ensures c.state.ReqLineAlmostDone? ==> RequestLineByte(c, LF) == Go(c.(state := HeaderFieldStart))
  {
    hide UrlStep;
  }

  lemma NumbersRead(c: Core, v: Version)
    requires CoreOk(c) && c.state.ReqMajor? && v.Version? && IsVersion(v)
    ensures var d := c.(major := Major(v), minor := Minor(v), state := HeaderFieldStart);
            CoreOk(d) && Micros(c, Numbers(v) + CRLF) == Moved(d, [])
  {
    hide Micros, CoreOk, RequestLineByte, EndsUrl;
    var c1 := c.(major := Major(v), state := ReqDot);
    var c2 := c1.(state := ReqMinor);
    var c3 := c1.(minor := Minor(v), state := ReqEnd);
    NumberSteps(c, v.major);
    NumberSteps(c1, '.');
    NumberSteps(c2, v.minor);
    Silence(c, v.major, c1, ['.'] + ([v.minor] + CRLF));
    Silence(c1, '.', c2, [v.minor] + CRLF);
    Silence(c2, v.minor, c3, CRLF);
    var c4 := c3.(state := ReqLineAlmostDone);
    NumberSteps(c3, CR);
    NumberSteps(c4, LF);
    Silence(c3, CR, c4, [LF]);
    Silence(c4, LF, c4.(state := HeaderFieldStart), []);
    MicrosEmpty(c4.(state := HeaderFieldStart));
    LineEndText();
    hide *;
    assert Numbers(v) + CRLF == [v.major] + (['.'] + ([v.minor] + CRLF)) by { NumbersAre(v); }
  }

  lemma NumbersAre(v: Version)
    requires v.Version?
    ensures Numbers(v) + CRLF == [v.major] + (['.'] + ([v.minor] + CRLF))
  {
  }

  /** A request line without a version. */
  lemma SimpleRead(c: Core)
    requires CoreOk(c) && EndsUrl(c.state)
    ensures var d := c.(major := 0, minor := 9, state := HeaderFieldStart); CoreOk(d) && Micros(c, CRLF) == Moved(d, [])
  {
    hide Micros, CoreOk, RequestLineByte, EndsUrl;
    var a := c.(major := 0, minor := 9, state := ReqLineAlmostDone);
    NumberSteps(c, CR);
    NumberSteps(a, LF);
    UrlIsLine(c.state);
    Silence(c, CR, a, [LF]);
    Silence(a, LF, a.(state := HeaderFieldStart), []);
    MicrosEmpty(a.(state := HeaderFieldStart));
    LineEndText();
  }

  lemma LineEndText()
    ensures CRLF == [CR] + [LF] && [LF] == [LF] + []
  {
  }

  lemma UrlIsLine(s: State)
    ensures EndsUrl(s) ==> IsRequestLineState(s)
  {
  }

  lemma ProtocolRead(c: Core, v: Version)
    requires CoreOk(c) && EndsUrl(c.state) && IsVersion(v)
    ensures var d := c.(major := Major(v), minor := Minor(v), state := HeaderFieldStart);
            CoreOk(d) && Micros(c, Protocol(v)) == Moved(d, [])
  {
    hide Micros, CoreOk, EndsUrl, Numbers;
    if v.Simple? {
      SimpleRead(c);
      assert [] + CRLF == CRLF;
    } else {
      NameRead(c, Numbers(v) + CRLF);
      NumbersRead(c.(state := ReqMajor), v);
      assert Protocol(v) == " HTTP/" + (Numbers(v) + CRLF);
    }
  }

  lemma TargetIsUrl(m: Method, url: seq<char>)
    requires IsTarget(m, url)
    ensures IsUrlState(HttpUrlGrammar.Run(UrlStart(m), url)) && url != []
  {
  }

  /** Any request line: the fields it leads to and the URL it reports, from a fresh parser or any other that expects one. */
  lemma RequestLineRead(c: Core, m: Method, url: seq<char>, v: Version) returns (d: Core)
    requires CoreOk(c) && c.state.StartReq? && IsTarget(m, url) && IsVersion(v)
    ensures CoreOk(d) && d == c.(flags := NO_FLAGS, contentLength := NO_LENGTH, verb := m, index := d.index,
                                 major := Major(v), minor := Minor(v), state := HeaderFieldStart)
    ensures Micros(c, RequestLineOf(m, url, v)) == Moved(d, [MessageBegin] + UrlEvents(url))
  {
    hide Micros, CoreOk, MethodString, Protocol, UrlChar;
    var e := MethodRead(c, m);
    TargetIsUrl(m, url);
    var t := HttpUrlGrammar.Run(UrlStart(m), url);
    hide HttpUrlGrammar.Run;
    assert UrlFrom(e) == UrlStart(m);
    TargetRead(e, url);
    var f := e.(state := t);
    ProtocolRead(f, v);
    d := f.(major := Major(v), minor := Minor(v), state := HeaderFieldStart);
    Then(e, url, f, UrlEvents(url), Protocol(v), d, []);
    Then(c, MethodString(m) + " ", e, [MessageBegin], url + Protocol(v), d, UrlEvents(url) + []);
    assert [MessageBegin] + (UrlEvents(url) + []) == [MessageBegin] + UrlEvents(url);
  }

  lemma RequestRead(c: Core, m: Method, url: seq<char>) returns (d: Core)
    requires CoreOk(c) && c.state.StartReq? && IsTarget(m, url)
    ensures CoreOk(d) && d == c.(flags := NO_FLAGS, contentLength := NO_LENGTH, verb := m, index := d.index,
                                 major := 1, minor := 1, state := HeaderFieldStart)
    ensures Micros(c, AnyRequestLine(m, url)).Moved? && Micros(c, AnyRequestLine(m, url)).core == d
  {
    hide Micros, CoreOk, IsTarget, RequestLineOf;
    d := RequestLineRead(c, m, url, HTTP11);
  }
}
