/**
 Feeding one byte per call, with header counting set aside: the form in which
 whole messages are followed byte by byte. AnySplit lifts the results to every split.
 */
module HttpMicro {
  import opened HttpTypes
  import opened HttpSwitch
  import opened HttpInvariant
  import opened HttpCall
  import opened HttpSplit

  datatype Micro = Stuck | Moved(core: Core, events: seq<Event>)

  /** One call with one byte, for a parser that is far from the header limit; Stuck on error or upgrade. */
  function MicroStep(c: Core, ch: char): (r: Micro)
    requires CoreOk(c)
  {
    if c.state.HeaderField? then
      if IsToken(ch) then Moved(FieldByte(c, ch), [Field(ch)])
      else if ch == ':' then Moved(c.(state := DiscardWs), []) else Stuck
    else if c.state.HeaderValue? then
      if ch == CR then Moved(c.(state := HeaderAlmostDone), [])
      else if ch == LF then Moved(c.(state := HeaderValueLws), [])
      else if !c.lenient && !IsHeaderChar(ch) then Stuck
      else
        var v := ValueByte(c, ch);
        if v.BadValue? then Stuck else Moved(v.core, [Value(ch)])
    else
      var o := Switch(c, ch);
      if o.Fail? || o.exit then Stuck else Moved(o.core, o.events + Text(o.core.state, ch))
  }

  lemma MicroStepOk(c: Core, ch: char)
    requires CoreOk(c)
    ensures MicroStep(c, ch).Moved? ==> CoreOk(MicroStep(c, ch).core)
  {
    hide Switch, FieldByte, ValueByte, CoreOk, IsToken, IsHeaderChar;
    if c.state.HeaderField? {
      if IsToken(ch) {
        FieldByteOk(c, ch);
      }
      PlainOk(c, DiscardWs);
    } else if c.state.HeaderValue? {
      ValueByteOk(c, ch);
      PlainOk(c, HeaderAlmostDone);
      PlainOk(c, HeaderValueLws);
    } else {
      SwitchOk(c, ch);
    }
  }

  ghost function Micros(c: Core, s: seq<char>): (r: Micro)
    requires CoreOk(c)
    ensures r.Moved? ==> CoreOk(r.core)
    decreases |s|
  {
    if s == [] then Moved(c, [])
    else
      var m := MicroStep(c, s[0]);
      MicroStepOk(c, s[0]);
      if m.Stuck? then Stuck
      else
        var r := Micros(m.core, s[1..]);
        if r.Stuck? then Stuck else r.(events := m.events + r.events)
  }

  lemma MicrosEmpty(c: Core)
    requires CoreOk(c)
    ensures Micros(c, []) == Moved(c, [])
  {
  }

  /** A parser between calls that has not failed and not exited. */
  ghost predicate Ready(c: Call) { CallOk(c) && c.Live? && !c.exit && c.run == 0 && !c.skip }

  /** One byte per call. */
  ghost function Ones(c: Call, s: seq<char>): Call
    requires CallOk(c)
  {
    FeedAll(c, Singles(s))
  }

  lemma OnesConcat(c: Call, a: seq<char>, b: seq<char>)
    requires CallOk(c)
    ensures Ones(c, a + b) == Ones(Ones(c, a), b)
  {
    assert Singles(a + b) == Singles(a) + Singles(b);
    FeedAllConcat(c, Singles(a), Singles(b));
  }

  lemma OnesEmpty(c: Call)
    requires CallOk(c)
    ensures Ones(c, []) == c
  {
    assert Singles([]) == [];
  }

  lemma OnesOne(c: Call, ch: char)
    requires Ready(c)
    ensures Ones(c, [ch]) == Count(Steps(c, [ch], 1)) && Steps(c, [ch], 1) == Step(c, ch)
  {
    hide Step, CoreOk;
    assert Singles([ch]) == [[ch]];
    assert [[ch]][1..] == [];
    var d := Feed(c, [ch]);
    assert Begin(c) == c;
    assert Steps(c, [ch], 0) == c;
    assert FeedAll(d, []) == d;
  }

  /** One byte, header count aside. */
  lemma OneMicro(c: Call, ch: char)
    requires Ready(c) && c.nread + 2 <= MAX_HEADER_SIZE && MicroStep(c.core, ch).Moved?
    ensures var m := MicroStep(c.core, ch);
            var r := Ones(c, [ch]);
            Ready(r) && r.core == m.core && r.log == c.log + m.events && r.nread <= c.nread + 2
  {
    hide MicroStep, Step, CoreOk, Steps, Ones, ParsingHeader;
    OnesOne(c, ch);
    StepMicro(c, ch);
    StepOk(c, ch);
  }

  lemma {:induction false} OnesMicro(c: Call, s: seq<char>)
    requires Ready(c) && c.nread + 2 * |s| <= MAX_HEADER_SIZE && Micros(c.core, s).Moved?
    ensures var m := Micros(c.core, s);
            var r := Ones(c, s);
            Ready(r) && r.core == m.core && r.log == c.log + m.events && r.nread <= c.nread + 2 * |s|
    decreases |s|
  {
    hide MicroStep, CoreOk;
    if s == [] {
      OnesEmpty(c);
    } else {
      assert s == [s[0]] + s[1..];
      OnesConcat(c, [s[0]], s[1..]);
      OneMicro(c, s[0]);
      var m, d := MicroStep(c.core, s[0]), Ones(c, [s[0]]);
      OnesMicro(d, s[1..]);
      var r := Micros(d.core, s[1..]);
      assert (c.log + m.events) + r.events == c.log + (m.events + r.events);
    }
  }

  lemma {:induction false} MicrosConcat(c: Core, a: seq<char>, b: seq<char>)
    requires CoreOk(c) && Micros(c, a).Moved?
    ensures Micros(c, a + b) ==
            (var m := Micros(c, a);
             var r := Micros(m.core, b);
             if r.Stuck? then Stuck else r.(events := m.events + r.events))
    decreases |a|
  {
    hide MicroStep, CoreOk;
    if a == [] {
      assert a + b == b;
    } else {
      assert (a + b)[1..] == a[1..] + b;
      MicroStepOk(c, a[0]);
      var m := MicroStep(c, a[0]);
      MicrosConcat(m.core, a[1..], b);
    }
  }

  lemma MicrosOne(c: Core, ch: char)
    requires CoreOk(c)
    ensures Micros(c, [ch]) == MicroStep(c, ch)
  {
    hide MicroStep, CoreOk;
    var m := MicroStep(c, ch);
    assert [ch][1..] == [];
    if m.Moved? {
      MicroStepOk(c, ch);
      assert m.events + [] == m.events;
    }
  }

  // ------------------------------------------------------------------ calls of any size

  lemma {:induction false} MicrosSplit(c: Core, a: seq<char>, b: seq<char>)
    requires CoreOk(c) && Micros(c, a + b).Moved?
    ensures Micros(c, a).Moved? && Micros(Micros(c, a).core, b).Moved?
    ensures Micros(c, a + b).core == Micros(Micros(c, a).core, b).core
    ensures Micros(c, a + b).events == Micros(c, a).events + Micros(Micros(c, a).core, b).events
    decreases |a|
  {
    hide MicroStep, CoreOk, ParsingHeader;
    if a == [] {
      assert a + b == b;
    } else {
      assert (a + b)[0] == a[0] && (a + b)[1..] == a[1..] + b;
      MicroStepOk(c, a[0]);
      MicrosSplit(MicroStep(c, a[0]).core, a[1..], b);
    }
  }

  /** One byte inside a call, at whatever point of an inner loop. */
  lemma StepMicro(c: Call, ch: char)
    requires CallOk(c) && c.Live? && !c.exit && MicroStep(c.core, ch).Moved?
    requires c.nread + c.run + (if c.run > 0 then 0 else 1) <= MAX_HEADER_SIZE
    ensures var m, r := MicroStep(c.core, ch), Step(c, ch);
            && r.Live? && !r.exit && r.core == m.core && r.log == c.log + m.events
            && r.nread + r.run <= c.nread + c.run + (if ParsingHeader(c.core.state) then 1 else 0)
                                  + (if r.run > 0 then 1 else 0) - (if c.run > 0 then 1 else 0)
  {
    StepOk(c, ch);
    hide Switch, FieldByte, ValueByte, CoreOk, IsToken, IsHeaderChar, Text;
    assert c.log + [] == c.log;
    if c.core.state.HeaderField? {
    } else if c.core.state.HeaderValue? {
    } else {
      var o := Switch(c.core, ch);
      assert (c.log + o.events) + Text(o.core.state, ch) == c.log + (o.events + Text(o.core.state, ch));
    }
  }

  predicate InNameOrValue(s: State) { s.HeaderField? || s.HeaderValue? }

  /** How many of the calls end inside a header name or value. */
  ghost function CallsInside(c: Core, pieces: seq<seq<char>>): nat
    requires CoreOk(c)
    decreases |pieces|
  {
    if pieces == [] || Micros(c, pieces[0]).Stuck? then 0
    else
      var d := Micros(c, pieces[0]).core;
      (if InNameOrValue(d.state) then 1 else 0) + CallsInside(d, pieces[1..])
  }
}
