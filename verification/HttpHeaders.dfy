/** Reading one header line at a time, one byte per call. */
module HttpHeaders {
  import opened HttpTypes
  import opened HttpSwitch
  import opened HttpInvariant
  import opened HttpCall
  import opened HttpMicro
  import opened HttpLengths
  import opened HttpNames

  /** The first byte of a string, then the rest. */
  lemma Cons(c: Core, x: char, s: seq<char>, d: Core, e: seq<Event>)
    requires CoreOk(c) && CoreOk(d) && MicroStep(c, x) == Moved(d, e)
    ensures Micros(c, [x] + s) == (var r := Micros(d, s); if r.Stuck? then Stuck else r.(events := e + r.events))
  {
    hide MicroStep, CoreOk;
    assert ([x] + s)[0] == x && ([x] + s)[1..] == s;
  }

  /** One string, then another. */
  lemma Then(c: Core, a: seq<char>, d: Core, e: seq<Event>, b: seq<char>, f: Core, g: seq<Event>)
    requires CoreOk(c) && CoreOk(d) && Micros(c, a) == Moved(d, e) && Micros(d, b) == Moved(f, g)
    ensures Micros(c, a + b) == Moved(f, e + g)
  {
    hide MicroStep, CoreOk;
    MicrosConcat(c, a, b);
  }

  lemma HeaderStep(c: Core, ch: char)
    requires CoreOk(c) && IsHeaderState(c.state)
    ensures var o := HeaderByte(c, ch);
            MicroStep(c, ch) == if o.Fail? || o.exit then Stuck else Moved(o.core, o.events + Text(o.core.state, ch))
  {
    hide HeaderByte, GuardOk, StartByte, ResponseLineByte, RequestLineByte, BodyByte;
  }

  // ------------------------------------------------------------------- between lines

  /** After a complete header line: what its recognition has set. */
  function Settle(c: Core): Core { ApplyHeader(c).(state := HeaderFieldStart) }

  /** A line that does not continue the previous value reads as if the previous header were settled. */
  lemma NextLine(c: Core, s: seq<char>)
    requires CoreOk(c) && c.state.HeaderValueLws? && s != [] && s[0] != ' ' && s[0] != '\t'
    ensures CoreOk(Settle(c)) && Micros(c, s) == Micros(Settle(c), s)
  {
    SettleOk(c);
    HeaderStep(c, s[0]);
    HeaderStep(Settle(c), s[0]);
    assert HeaderByte(c, s[0]) == HeaderByte(Settle(c), s[0]) by {
      hide FieldStartByte, ApplyHeader, GuardOk;
    }
    hide HeaderByte, MicroStep, CoreOk;
  }

  lemma SettleOk(c: Core)
    requires CoreOk(c)
    ensures CoreOk(Settle(c)) && Settle(c).contentLength == c.contentLength
  {
    hide GuardOk;
  }

  // ------------------------------------------------------------------------- values

  /** ": " after a name. */
  lemma Colon(c: Core)
    requires CoreOk(c) && c.state.HeaderField?
    ensures var d := c.(state := DiscardWs); CoreOk(d) && Micros(c, ": ") == Moved(d, [])
  {
    var d := c.(state := DiscardWs);
    PlainOk(c, DiscardWs);
    assert MicroStep(c, ':') == Moved(d, []) by { hide FieldByte, GuardOk; }
    HeaderStep(d, ' ');
    assert HeaderByte(d, ' ') == Go(d);
    assert MicroStep(d, ' ') == Moved(d, []) by { hide MicroStep, HeaderByte, GuardOk; assert [] + Text(DiscardWs, ' ') == []; }
    hide MicroStep, CoreOk, HeaderByte;
    MicrosOne(d, ' ');
    Cons(c, ':', [' '], d, []);
    assert ": " == [':'] + [' '];
  }

  predicate IsPlain(s: seq<char>) {
    forall i :: 0 <= i < |s| ==> IsHeaderChar(s[i]) && !IsNewline(s[i])
  }

  /** A value nothing is looked for in. */
  lemma {:induction false} PlainValue(c: Core, s: seq<char>)
    requires CoreOk(c) && c.state.HeaderValue? && c.hstate.HGeneral? && IsPlain(s)
    ensures Micros(c, s) == Moved(c, ValueEvents(s))
    decreases |s|
  {
    if s != [] {
      assert MicroStep(c, s[0]) == Moved(c, [Value(s[0])]) by { hide GuardOk, IsHeaderChar; }
      hide MicroStep, CoreOk;
      PlainValue(c, s[1..]);
      assert [Value(s[0])] + ValueEvents(s[1..]) == ValueEvents(s);
    }
  }

  /** CR LF after a value. */
  lemma LineEnd(c: Core)
    requires CoreOk(c) && c.state.HeaderValue?
    ensures var d := c.(state := HeaderValueLws); CoreOk(d) && Micros(c, CRLF) == Moved(d, [])
  {
    var d, e := c.(state := HeaderAlmostDone), c.(state := HeaderValueLws);
    PlainOk(c, HeaderAlmostDone);
    PlainOk(c, HeaderValueLws);
    assert MicroStep(c, CR) == Moved(d, []) by { hide ValueByte, GuardOk; }
    HeaderStep(d, LF);
    assert HeaderByte(d, LF) == Go(e);
    assert MicroStep(d, LF) == Moved(e, []) by { hide MicroStep, HeaderByte, GuardOk; assert [] + Text(HeaderValueLws, LF) == []; }
    hide MicroStep, CoreOk, HeaderByte;
    MicrosOne(d, LF);
    Cons(c, CR, [LF], d, []);
    assert CRLF == [CR] + [LF];
  }

  lemma ValueStart(c: Core, ch: char)
    requires CoreOk(c) && c.state.DiscardWs? && ch != ' ' && ch != '\t' && !IsNewline(ch)
    requires ValueStartByte(c, ch).Next?
    ensures var d := ValueStartByte(c, ch).core; CoreOk(d) && MicroStep(c, ch) == Moved(d, [Value(ch)])
  {
    HeaderStep(c, ch);
    ValueStartOk(c, ch);
    ValueStartQuiet(c, ch);
    hide ValueStartByte, GuardOk, MicroStep;
    assert HeaderByte(c, ch) == ValueStartByte(c, ch);
    assert [] + [Value(ch)] == [Value(ch)];
  }

  lemma ValueStartQuiet(c: Core, ch: char)
    ensures var o := ValueStartByte(c, ch);
            o.Next? ==> o.events == [] && !o.exit && o.core.state.HeaderValue?
  {
  }

  // -------------------------------------------------------------------- whole lines

  /** Name and colon: the fields at the start of the value. */
  lemma NameAndColon(c: Core, name: seq<char>) returns (d: Core)
    requires CoreOk(c) && c.state.HeaderFieldStart? && IsName(name)
    ensures CoreOk(d) && Micros(c, name + ": ") == Moved(d, FieldEvents(name))
    ensures d == c.(state := DiscardWs, hstate := d.hstate, index := d.index)
    ensures var f := LowerName(name);
            && (d.hstate.HContentLength? <==> f == "content-length")
            && (d.hstate.HConnection? <==> f == "connection" || f == "proxy-connection")
            && (d.hstate.HTransferEncoding? <==> f == "transfer-encoding")
            && (d.hstate.HUpgrade? <==> f == "upgrade")
            && IsFieldHState(d.hstate)
  {
    NameRecognised(c, name);
    hide Micros, CoreOk, LowerName;
    var m := Micros(c, name);
    Colon(m.core);
    d := m.core.(state := DiscardWs);
    Then(c, name, m.core, FieldEvents(name), ": ", d, []);
    assert FieldEvents(name) + [] == FieldEvents(name);
  }

  predicate IsSpecial(f: seq<char>) {
    f == "content-length" || f == "connection" || f == "proxy-connection" || f == "transfer-encoding" || f == "upgrade"
  }

  function LineEvents(name: seq<char>, value: seq<char>): seq<Event> { FieldEvents(name) + ValueEvents(value) }

  /** The pieces of a line put together. */
  lemma Assemble(c: Core, name: seq<char>, d: Core, x: char, e: Core, rest: seq<char>, f: Core)
    requires CoreOk(c) && CoreOk(d) && CoreOk(e) && CoreOk(f) && f.state.HeaderValue?
    requires Micros(c, name + ": ") == Moved(d, FieldEvents(name))
    requires MicroStep(d, x) == Moved(e, [Value(x)]) && Micros(e, rest) == Moved(f, ValueEvents(rest))
    ensures Micros(c, name + ": " + ([x] + rest) + CRLF) ==
            Moved(f.(state := HeaderValueLws), LineEvents(name, [x] + rest))
  {
    Cons(d, x, rest, e, [Value(x)]);
    assert [Value(x)] + ValueEvents(rest) == ValueEvents([x] + rest);
    hide Micros, MicroStep, CoreOk;
    Then(c, name + ": ", d, FieldEvents(name), [x] + rest, f, ValueEvents([x] + rest));
    LineEnd(f);
    Then(c, name + ": " + ([x] + rest), f, LineEvents(name, [x] + rest), CRLF, f.(state := HeaderValueLws), []);
    assert LineEvents(name, [x] + rest) + [] == LineEvents(name, [x] + rest);
  }

  /** A header the parser does not look into. */
  lemma PlainLine(c: Core, name: seq<char>, value: seq<char>)
    requires CoreOk(c) && c.state.HeaderFieldStart? && IsName(name) && !IsSpecial(LowerName(name))
    requires value != [] && IsPlain(value) && value[0] != ' ' && value[0] != '\t'
    ensures Micros(c, name + ": " + value + CRLF) ==
            Moved(c.(state := HeaderValueLws, hstate := HGeneral, index := 0), LineEvents(name, value))
  {
    hide Micros, MicroStep, LowerName, IsHeaderChar;
    var d := NameAndColon(c, name);
    var e := d.(state := HeaderValue, index := 0, hstate := HGeneral);
    assert ValueStartByte(d, value[0]) == Go(e);
    ValueStart(d, value[0]);
    PlainValue(e, value[1..]);
    hide CoreOk, ValueStartByte;
    Assemble(c, name, d, value[0], e, value[1..], e);
    assert [value[0]] + value[1..] == value;
  }

  /** Content-Length. */
  lemma LengthLine(c: Core, name: seq<char>, value: seq<char>)
    requires CoreOk(c) && c.state.HeaderFieldStart? && IsName(name) && LowerName(name) == "content-length"
    requires value != [] && IsNum(value[0]) && IsDecimal(value) && Decimal(0, value) <= MAX_DECIMAL && !c.flags.contentLength
    ensures Micros(c, name + ": " + value + CRLF) ==
            Moved(c.(state := HeaderValueLws, hstate := HContentLength, index := 0, contentLength := Decimal(0, value),
                     flags := c.flags.(contentLength := true)), LineEvents(name, value))
  {
    hide Micros, MicroStep, LowerName;
    var d := NameAndColon(c, name);
    var x, rest := value[0], value[1..];
    var e := d.(state := HeaderValue, index := 0, flags := d.flags.(contentLength := true), contentLength := DigitValue(x));
    assert ValueStartByte(d, x) == Go(e);
    ValueStart(d, x);
    assert Decimal(0, value) == Decimal(DigitValue(x), rest);
    ContentLengthExact(e, rest);
    var f := e.(contentLength := Decimal(0, value));
    assert CoreOk(f);
    hide CoreOk, ValueStartByte, Decimal;
    Assemble(c, name, d, x, e, rest, f);
    assert [x] + rest == value;
  }
}
