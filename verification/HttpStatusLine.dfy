/** Status lines of any version, status and reason, read from a fresh parser up to the header lines. */
module HttpStatusLine {
  import opened HttpTypes
  import opened HttpSwitch
  import opened HttpInvariant
  import opened HttpCall
  import opened HttpMicro
  import opened HttpHeaders
  import opened HttpResponse
  import opened HttpText
  import opened HttpRequestLine

  lemma LineStep(c: Core, ch: char)
    requires CoreOk(c) && IsResponseLineState(c.state)
    ensures var o := ResponseLineByte(c, ch);
            MicroStep(c, ch) == if o.Fail? || o.exit then Stuck else Moved(o.core, o.events + Text(o.core.state, ch))
  {
    hide HeaderByte, GuardOk, StartByte, ResponseLineByte, RequestLineByte, BodyByte;
  }

  /** A byte of the status line that runs no callback. */
  lemma Quiet(c: Core, ch: char, d: Core, s: seq<char>)
    requires CoreOk(c) && IsResponseLineState(c.state) && ResponseLineByte(c, ch) == Go(d) && !d.state.ResStatus?
    requires IsResponseLineState(d.state) || d.state.HeaderFieldStart?
    ensures CoreOk(d) && Micros(c, [ch] + s) == Micros(d, s)
  {
    ResponseLineOk(c, ch);
    LineStep(c, ch);
    hide MicroStep, ResponseLineByte, CoreOk;
    assert [] + Text(d.state, ch) == [];
    Cons(c, ch, s, d, []);
    var r := Micros(d, s);
    assert r.Moved? ==> [] + r.events == r.events;
  }

  lemma FirstByte(c: Core, b: Core)
    requires CoreOk(c) && c.state.StartRes? && b == c.(flags := NO_FLAGS, contentLength := NO_LENGTH, state := ResH)
    ensures CoreOk(b) && MicroStep(c, 'H') == Moved(b, [MessageBegin])
  {
    hide HeaderByte, ResponseLineByte, RequestLineByte, BodyByte, GuardOk;
    assert Switch(c, 'H') == Next(b, [MessageBegin], false, false);
    assert [MessageBegin] + [] == [MessageBegin];
  }

  function StatusEvents(s: seq<char>): seq<Event> { seq(|s|, i requires 0 <= i < |s| => Status(s[i])) }

  /** A byte of the status line, whose text may be reported. */
  lemma ResponseByte(c: Core, ch: char, d: Core, s: seq<char>)
    requires CoreOk(c) && IsResponseLineState(c.state) && ResponseLineByte(c, ch) == Go(d)
    requires IsResponseLineState(d.state) || d.state.HeaderFieldStart?
    ensures CoreOk(d)
    ensures Micros(c, [ch] + s) == Prepended(if d.state.ResStatus? then [Status(ch)] else [], Micros(d, s))
  {
    ResponseLineOk(c, ch);
    LineStep(c, ch);
    hide MicroStep, ResponseLineByte, CoreOk;
    var ev := if d.state.ResStatus? then [Status(ch)] else [];
    assert Text(d.state, ch) == ev;
    assert [] + ev == ev;
    Cons(c, ch, s, d, ev);
  }

  lemma {:induction false} ReasonRead(c: Core, r: seq<char>)
    requires CoreOk(c) && (c.state.ResStatus? || c.state.ResStatusStart?) && forall i :: 0 <= i < |r| ==> !IsNewline(r[i])
    ensures var d := c.(index := if c.state.ResStatusStart? then 0 else c.index, state := HeaderFieldStart);
            CoreOk(d) && Micros(c, r + CRLF) == Moved(d, StatusEvents(r))
    decreases |r|
  {
    hide Micros, CoreOk;
    var i := if c.state.ResStatusStart? then 0 else c.index;
    if r == [] {
      var a := c.(index := i, state := ResLineAlmostDone);
      var d := a.(state := HeaderFieldStart);
      ResponseByte(c, CR, a, [LF]);
      ResponseByte(a, LF, d, []);
      MicrosEmpty(d);
      assert [] + CRLF == [CR] + [LF] && [LF] + [] == [LF];
      NoEvents(Micros(a, [LF]));
    } else {
      var d := c.(index := i, state := ResStatus);
      ResponseByte(c, r[0], d, r[1..] + CRLF);
      ReasonRead(d, r[1..]);
      assert r + CRLF == [r[0]] + (r[1..] + CRLF);
      assert [Status(r[0])] + StatusEvents(r[1..]) == StatusEvents(r);
    }
  }

  predicate IsReason(r: seq<char>) { r == [] || (r[0] == ' ' && forall i :: 0 <= i < |r| ==> !IsNewline(r[i])) }

  /** From the last digit of the status on. */
  lemma AfterStatus(c: Core, r: seq<char>)
    requires CoreOk(c) && c.state.ResStatusCode? && IsReason(r)
    ensures var d := c.(index := 0, state := HeaderFieldStart);
            CoreOk(d) && Micros(c, r + CRLF) == Moved(d, StatusEvents(if r == [] then [] else r[1..]))
  {
    hide Micros, CoreOk;
    if r == [] {
      var a := c.(index := 0, state := ResLineAlmostDone);
      var d := a.(state := HeaderFieldStart);
      ResponseByte(c, CR, a, [LF]);
      ResponseByte(a, LF, d, []);
      MicrosEmpty(d);
      assert [] + CRLF == [CR] + [LF] && [LF] + [] == [LF];
      NoEvents(Micros(a, [LF]));
    } else {
      var a := c.(state := ResStatusStart);
      ResponseByte(c, ' ', a, r[1..] + CRLF);
      ReasonRead(a, r[1..]);
      NoEvents(Micros(a, r[1..] + CRLF));
      assert r + CRLF == [' '] + (r[1..] + CRLF);
    }
  }

  /** The status code, and what is behind it. */
  lemma StatusRead(c: Core, status: nat, s: seq<char>)
    requires CoreOk(c) && c.state.ResFirstStatusCode? && 100 <= status <= 999
    ensures var d := c.(statusCode := status, state := ResStatusCode);
            CoreOk(d) && Micros(c, ToDecimal(status) + s) == Micros(d, s)
  {
    hide Micros, CoreOk;
    var x, y, z := Digit(status / 100), Digit(status / 10 % 10), Digit(status % 10);
    CodeDigits(status);
    hide ToDecimal, Digit;
    assert [x, y, z] + s == [x] + ([y] + ([z] + s));
    var c1 := c.(statusCode := status / 100, state := ResStatusCode);
    var c2 := c1.(statusCode := status / 10);
    Quiet(c, x, c1, [y] + ([z] + s));
    Quiet(c1, y, c2, [z] + s);
    Quiet(c2, z, c1.(statusCode := status), s);
  }

  /** "HTTP/" and two numbers, from the second character on. */
  lemma VersionRead(c: Core, v: Version, s: seq<char>)
    requires CoreOk(c) && c.state.ResH? && v.Version? && IsVersion(v)
    ensures var d := c.(major := Major(v), minor := Minor(v), state := ResFirstStatusCode);
            CoreOk(d) && Micros(c, "TTP/" + (Numbers(v) + (" " + s))) == Micros(d, s)
  {
    hide Micros, CoreOk;
    var c1, c2, c3, c4 := c.(state := ResHT), c.(state := ResHTT), c.(state := ResHTTP), c.(state := ResMajor);
    var t := Numbers(v) + (" " + s);
    Quiet(c, 'T', c1, "TP/" + t);
    Quiet(c1, 'T', c2, "P/" + t);
    Quiet(c2, 'P', c3, "/" + t);
    Quiet(c3, '/', c4, t);
    NumbersMoved(c4, v, s);
    TextOfName(t);
  }

  lemma TextOfName(t: seq<char>)
    ensures "TTP/" + t == ['T'] + ("TP/" + t) && "TP/" + t == ['T'] + ("P/" + t) && "P/" + t == ['P'] + ("/" + t) && "/" + t == ['/'] + t
    ensures "HTTP/" + t == ['H'] + ("TTP/" + t)
  {
  }

  lemma NumbersMoved(c: Core, v: Version, s: seq<char>)
    requires CoreOk(c) && c.state.ResMajor? && v.Version? && IsVersion(v)
    ensures var d := c.(major := Major(v), minor := Minor(v), state := ResFirstStatusCode);
            CoreOk(d) && Micros(c, Numbers(v) + (" " + s)) == Micros(d, s)
  {
    hide Micros, CoreOk;
    var c5 := c.(major := Major(v), state := ResDot);
    var c6 := c5.(state := ResMinor);
    var c7 := c5.(minor := Minor(v), state := ResEnd);
    Quiet(c, v.major, c5, ['.'] + ([v.minor] + ([' '] + s)));
    Quiet(c5, '.', c6, [v.minor] + ([' '] + s));
    Quiet(c6, v.minor, c7, [' '] + s);
    Quiet(c7, ' ', c7.(state := ResFirstStatusCode), s);
    assert Numbers(v) + (" " + s) == [v.major] + (['.'] + ([v.minor] + ([' '] + s)));
  }

  /** A status line, with or without a reason. */
  function StatusLineOf(v: Version, status: nat, reason: seq<char>): seq<char> {
    "HTTP/" + (Numbers(v) + (" " + (ToDecimal(status) + (reason + CRLF))))
  }

  function ReasonEvents(reason: seq<char>): seq<Event> { StatusEvents(if reason == [] then [] else reason[1..]) }

  /** Any status line: the fields it leads to, and the reason it reports. */
  lemma StatusLineRead(c: Core, v: Version, status: nat, reason: seq<char>) returns (d: Core)
    requires CoreOk(c) && c.state.StartRes? && v.Version? && IsVersion(v) && 100 <= status <= 999 && IsReason(reason)
    ensures CoreOk(d) && d == c.(flags := NO_FLAGS, contentLength := NO_LENGTH, index := 0, statusCode := status,
                                 major := Major(v), minor := Minor(v), state := HeaderFieldStart)
    ensures Micros(c, StatusLineOf(v, status, reason)) == Moved(d, [MessageBegin] + ReasonEvents(reason))
  {
    hide Micros, CoreOk, MicroStep, ToDecimal, Numbers, IsReason;
    var b := c.(flags := NO_FLAGS, contentLength := NO_LENGTH, state := ResH);
    FirstByte(c, b);
    var tail := reason + CRLF;
    var e := b.(major := Major(v), minor := Minor(v), state := ResFirstStatusCode);
    VersionRead(b, v, ToDecimal(status) + tail);
    StatusRead(e, status, tail);
    var f := e.(statusCode := status, state := ResStatusCode);
    AfterStatus(f, reason);
    d := f.(index := 0, state := HeaderFieldStart);
    var rest := Numbers(v) + (" " + (ToDecimal(status) + tail));
    Cons(c, 'H', "TTP/" + rest, b, [MessageBegin]);
    TextOfName(rest);
  }

  /** The status line as the broker prints it. */
  lemma PrintedStatusLine(status: nat)
    ensures StatusLineOf(HTTP11, status, []) == StatusLine(status)
  {
    hide ToDecimal;
    assert [] + CRLF == CRLF;
    assert "HTTP/" + (Numbers(HTTP11) + (" " + (ToDecimal(status) + CRLF))) == "HTTP/1.1 " + ToDecimal(status) + CRLF;
  }
}
