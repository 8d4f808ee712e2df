/**
 Reading any header lines: what each does to the fields that frame the body. Values are single
 lines and may be empty; the lines a head may hold are otherwise arbitrary.
 */
module HttpHead {
  import opened HttpTypes
  import opened HttpSwitch
  import opened HttpInvariant
  import opened HttpCall
  import opened HttpMicro
  import opened HttpLengths
  import opened HttpNames
  import opened HttpHeaders
  import opened HttpResponse
  import opened HttpText
  import opened HttpValues
  import opened HttpConnection

  ghost predicate IsHeader(h: Header) {
    IsName(h.name) && IsPlain(h.value) && (h.value != [] ==> h.value[0] != ' ' && h.value[0] != '\t')
  }

  function Key(h: Header): seq<char> { LowerName(h.name) }

  function Line(h: Header): seq<char> { h.name + ": " + h.value + CRLF }

  /** A Content-Length the parser takes: a digit, then digits and spaces, and not too large. */
  predicate LengthOk(v: seq<char>) {
    v != [] && IsNum(v[0]) && IsDecimal(v) && Decimal(0, v) <= MAX_DECIMAL
  }

  predicate RefusesLine(c: Core, h: Header) {
    Key(h) == "content-length" && h.value != [] && (c.flags.contentLength || !LengthOk(h.value))
  }

  predicate IsConnection(key: seq<char>) { key == "connection" || key == "proxy-connection" }

  /** The fields after a line, from those before it. */
  ghost predicate LineRead(c: Core, h: Header, e: Core) {
    && e.state.HeaderFieldStart?
    && e == c.(hstate := e.hstate, index := e.index, flags := e.flags, contentLength := e.contentLength)
    && e.flags == c.flags.(chunked := e.flags.chunked, contentLength := e.flags.contentLength, upgrade := e.flags.upgrade,
                           keepAlive := e.flags.keepAlive, close := e.flags.close, connUpgrade := e.flags.connUpgrade)
    && e.flags.chunked == (c.flags.chunked || (Key(h) == "transfer-encoding" && IsChunked(h.value)))
    && e.flags.contentLength == (c.flags.contentLength || (Key(h) == "content-length" && h.value != []))
    && (Key(h) == "content-length" && h.value != [] ==> LengthOk(h.value) && e.contentLength == Decimal(0, h.value))
    && (Key(h) != "content-length" || h.value == [] ==> e.contentLength == c.contentLength)
    && e.flags.upgrade == (c.flags.upgrade || (Key(h) == "upgrade" && h.value != []))
    && Flagged(e) == Union(Flagged(c), if IsConnection(Key(h)) then Listed(h.value, true) else NO_OPTIONS)
  }

  predicate StartsLine(rest: seq<char>) { rest != [] && rest[0] != ' ' && rest[0] != '\t' }

  // ----------------------------------------------------------------------- putting together

  /** A line that ends its value, and then what follows. */
  lemma LineThen(c: Core, line: seq<char>, d: Core, ev: seq<Event>, rest: seq<char>)
    requires CoreOk(c) && CoreOk(d) && Micros(c, line) == Moved(d, ev) && d.state.HeaderValueLws? && StartsLine(rest)
    ensures CoreOk(Settle(d)) && Micros(c, line + rest) == Prepended(ev, Micros(Settle(d), rest))
  {
    hide Micros, CoreOk, Settle;
    NextLine(d, rest);
    MicrosConcat(c, line, rest);
  }

  /** What stops the parser early stops it. */
  lemma StuckStays(c: Core, a: seq<char>, b: seq<char>)
    requires CoreOk(c) && Micros(c, a).Stuck?
    ensures Micros(c, a + b).Stuck?
  {
    hide Micros, CoreOk;
    if Micros(c, a + b).Moved? {
      MicrosSplit(c, a, b);
    }
  }

  lemma StuckAfter(c: Core, a: seq<char>, b: seq<char>)
    requires CoreOk(c) && Micros(c, a).Moved? && Micros(Micros(c, a).core, b).Stuck?
    ensures Micros(c, a + b).Stuck?
  {
    hide Micros, CoreOk;
    MicrosConcat(c, a, b);
  }

  // -------------------------------------------------------------------------- empty values

  /** An empty value: nothing is looked at, not even a length. */
  lemma EmptyValue(c: Core, h: Header, rest: seq<char>) returns (e: Core)
    requires CoreOk(c) && c.state.HeaderFieldStart? && IsHeader(h) && h.value == [] && StartsLine(rest)
    ensures ReadsAs(c, h, rest, e)
  {
    hide Micros, CoreOk, IsName, LowerName, IsChunked;
    var d := NameAndColon(c, h.name);
    assert !IsChunked([]) by { Short([]); }
    assert Listed([], true) == NO_OPTIONS;
    var d2 := d.(state := DiscardLws);
    BlankEnd(d, d2);
    Then(c, h.name + ": ", d, FieldEvents(h.name), CRLF, d2, []);
    e := d2.(state := HeaderFieldStart);
    MicrosConcat(c, h.name + ": " + CRLF, rest);
    NextLineEmpty(d2, e, rest);
    assert Line(h) == h.name + ": " + CRLF;
    assert FieldEvents(h.name) + [] == LineEvents(h.name, []);
  }

  lemma BlankEnd(d: Core, e: Core)
    requires CoreOk(d) && d.state.DiscardWs? && e == d.(state := DiscardLws)
    ensures CoreOk(e) && Micros(d, CRLF) == Moved(e, [])
  {
    var m := d.(state := DiscardWsAlmostDone);
    assert CoreOk(m) && CoreOk(e);
    hide CoreOk, Micros, MicroStep;
    HeaderStep(d, CR);
    HeaderStep(m, LF);
    assert MicroStep(d, CR) == Moved(m, []) by { assert HeaderByte(d, CR) == Go(m); assert [] + Text(m.state, CR) == []; }
    assert MicroStep(m, LF) == Moved(e, []) by { assert HeaderByte(m, LF) == Go(e); assert [] + Text(e.state, LF) == []; }
    MicrosOne(m, LF);
    Cons(d, CR, [LF], m, []);
    assert CRLF == [CR] + [LF];
  }

  /** After an empty value the next line starts as after any other. */
  lemma NextLineEmpty(d: Core, e: Core, s: seq<char>)
    requires CoreOk(d) && d.state.DiscardLws? && StartsLine(s) && e == d.(state := HeaderFieldStart)
    requires !d.hstate.HChunked? && !d.hstate.HKeepAlive? && !d.hstate.HClose? && !d.hstate.HConnUpgrade?
    ensures CoreOk(e) && Micros(d, s) == Micros(e, s)
  {
    assert CoreOk(e);
    HeaderStep(d, s[0]);
    HeaderStep(e, s[0]);
    assert HeaderByte(d, s[0]) == HeaderByte(e, s[0]) by {
      hide FieldStartByte, GuardOk;
      assert ApplyHeader(d) == d;
    }
    hide HeaderByte, MicroStep, CoreOk;
  }

  // ------------------------------------------------------------------ values looked into

  /** What reading a line comes to: the fields and the callbacks. */
  ghost predicate ReadsAs(c: Core, h: Header, rest: seq<char>, e: Core)
    requires CoreOk(c)
  {
    CoreOk(e) && LineRead(c, h, e) && Micros(c, Line(h) + rest) == Prepended(LineEvents(h.name, h.value), Micros(e, rest))
  }

  lemma HeaderParts(h: Header)
    requires IsHeader(h) && h.value != []
    ensures var x, more := h.value[0], h.value[1..];
            h.value == [x] + more && IsPlain(more) && IsHeaderChar(x) && !IsNewline(x) && x != ' ' && x != '\t'
  {
    hide IsHeaderChar, IsName;
  }

  lemma PlainHeader(c: Core, h: Header, rest: seq<char>) returns (e: Core)
    requires CoreOk(c) && c.state.HeaderFieldStart? && IsHeader(h) && h.value != [] && !IsSpecial(Key(h)) && StartsLine(rest)
    ensures ReadsAs(c, h, rest, e)
  {
    var d := c.(state := HeaderValueLws, hstate := HGeneral, index := 0);
    assert CoreOk(d) && Settle(d) == d.(state := HeaderFieldStart);
    e := Settle(d);
    hide Micros, CoreOk, IsName, LowerName, IsChunked, IsPlain, Settle, LineEvents;
    PlainLine(c, h.name, h.value);
    LineThen(c, Line(h), d, LineEvents(h.name, h.value), rest);
  }

  lemma TransferHeader(c: Core, h: Header, rest: seq<char>) returns (e: Core)
    requires CoreOk(c) && c.state.HeaderFieldStart? && IsHeader(h) && h.value != [] && Key(h) == "transfer-encoding" && StartsLine(rest)
    ensures ReadsAs(c, h, rest, e)
  {
    hide Micros, CoreOk, IsName, LowerName, IsChunked, IsPlain, Settle, LineEvents;
    TransferEncodingExact(c, h.name, h.value);
    var d := Micros(c, Line(h)).core;
    e := Settle(d);
    LineThen(c, Line(h), d, LineEvents(h.name, h.value), rest);
    SettleStart(d);
  }

  lemma SettleStart(d: Core)
    ensures Settle(d).state.HeaderFieldStart?
  {
  }

  lemma UpgradeHeader(c: Core, h: Header, rest: seq<char>) returns (e: Core)
    requires CoreOk(c) && c.state.HeaderFieldStart? && IsHeader(h) && h.value != [] && Key(h) == "upgrade" && StartsLine(rest)
    ensures ReadsAs(c, h, rest, e)
  {
    hide Micros, MicroStep, LowerName, IsName, IsHeaderChar, IsChunked, IsPlain, LineEvents;
    HeaderParts(h);
    var x, more := h.value[0], h.value[1..];
    var d := NameAndColon(c, h.name);
    var v := d.(state := HeaderValue, index := 0, hstate := HGeneral, flags := d.flags.(upgrade := true));
    assert ValueStartByte(d, x) == Go(v);
    ValueStart(d, x);
    PlainValue(v, more);
    var f := v.(state := HeaderValueLws);
    assert CoreOk(f) && Settle(f) == f.(state := HeaderFieldStart);
    e := Settle(f);
    hide CoreOk, ValueStartByte, Settle;
    Assemble(c, h.name, d, x, v, more, v);
    LineThen(c, Line(h), f, LineEvents(h.name, h.value), rest);
  }

  // ------------------------------------------------------------------------ Content-Length

  lemma LengthHeader(c: Core, h: Header, rest: seq<char>) returns (e: Core)
    requires CoreOk(c) && c.state.HeaderFieldStart? && IsHeader(h) && h.value != [] && Key(h) == "content-length" && StartsLine(rest)
    requires !RefusesLine(c, h)
    ensures ReadsAs(c, h, rest, e)
  {
    var d := c.(state := HeaderValueLws, hstate := HContentLength, index := 0, contentLength := Decimal(0, h.value),
                flags := c.flags.(contentLength := true));
    assert CoreOk(d) && Settle(d) == d.(state := HeaderFieldStart);
    e := Settle(d);
    hide Micros, CoreOk, IsName, LowerName, IsChunked, IsPlain, Settle, LineEvents, Decimal;
    LengthLine(c, h.name, h.value);
    LineThen(c, Line(h), d, LineEvents(h.name, h.value), rest);
  }

  /** A Content-Length value is read to its end exactly if it is digits and spaces and not too large. */
  lemma {:induction false} DigitsOnly(c: Core, s: seq<char>)
    requires CoreOk(c) && c.state.HeaderValue? && c.hstate.HContentLength? && c.contentLength <= MAX_DECIMAL && IsPlain(s)
    ensures Micros(c, s).Moved? ==> IsDecimal(s) && Decimal(c.contentLength, s) <= MAX_DECIMAL
    decreases |s|
  {
    hide MicroStep, CoreOk, IsHeaderChar;
    if IsDecimal(s) {
      ContentLengthExact(c, s);
    } else if IsNum(s[0]) || s[0] == ' ' {
      DigitStep(c, s[0]);
      MicroStepOk(c, s[0]);
      if MicroStep(c, s[0]).Moved? {
        DigitsOnly(MicroStep(c, s[0]).core, s[1..]);
      }
    } else {
      NotADigit(c, s[0]);
    }
  }

  lemma NotADigit(c: Core, ch: char)
    requires CoreOk(c) && c.state.HeaderValue? && c.hstate.HContentLength? && !IsNum(ch) && ch != ' ' && !IsNewline(ch)
    ensures MicroStep(c, ch).Stuck?
  {
    hide GuardOk, IsHeaderChar, Switch;
  }

  lemma RefusedHeader(c: Core, h: Header, rest: seq<char>)
    requires CoreOk(c) && c.state.HeaderFieldStart? && IsHeader(h) && RefusesLine(c, h)
    ensures Micros(c, Line(h) + rest).Stuck?
  {
    hide Micros, MicroStep, LowerName, IsName, IsHeaderChar, IsPlain, LengthOk;
    HeaderParts(h);
    var x, more := h.value[0], h.value[1..];
    var d := NameAndColon(c, h.name);
    if !IsNum(x) || c.flags.contentLength {
      assert ValueStartByte(d, x).Fail?;
      FailsAtStart(d, x, more);
    } else {
      var v := d.(state := HeaderValue, index := 0, flags := d.flags.(contentLength := true), contentLength := DigitValue(x));
      assert ValueStartByte(d, x) == Go(v);
      ValueStart(d, x);
      hide CoreOk, ValueStartByte;
      BadDigits(v, x, more);
      Cons(d, x, more, v, [Value(x)]);
    }
    hide CoreOk, ValueStartByte;
    StuckAfter(c, h.name + ": ", h.value);
    StuckStays(c, h.name + ": " + h.value, CRLF + rest);
    assert Line(h) + rest == h.name + ": " + h.value + (CRLF + rest);
  }

  lemma FailsAtStart(d: Core, x: char, more: seq<char>)
    requires CoreOk(d) && d.state.DiscardWs? && ValueStartByte(d, x).Fail? && x != ' ' && x != '\t' && !IsNewline(x)
    ensures Micros(d, [x] + more).Stuck?
  {
    hide CoreOk, ValueStartByte;
    HeaderStep(d, x);
    hide MicroStep;
    assert ([x] + more)[0] == x;
  }

  lemma BadDigits(v: Core, x: char, more: seq<char>)
    requires CoreOk(v) && v.state.HeaderValue? && v.hstate.HContentLength? && IsNum(x) && v.contentLength == DigitValue(x)
    requires IsPlain(more) && !LengthOk([x] + more)
    ensures Micros(v, more).Stuck?
  {
    hide CoreOk, Micros, IsPlain;
    if Micros(v, more).Moved? {
      DigitsOnly(v, more);
      var s := [x] + more;
      assert s[1..] == more && s[0] == x;
      assert IsDecimal(s) && Decimal(0, s) == Decimal(DigitValue(x), more);
    }
  }

  // --------------------------------------------------------------------------- Connection

  lemma ConnectionHeader(c: Core, h: Header, rest: seq<char>) returns (e: Core)
    requires CoreOk(c) && c.state.HeaderFieldStart? && IsHeader(h) && h.value != [] && IsConnection(Key(h)) && StartsLine(rest)
    ensures ReadsAs(c, h, rest, e)
  {
    hide Micros, CoreOk, IsName, LowerName, IsChunked, IsPlain, Settle, LineEvents, Listed;
    ConnectionExact(c, h.name, h.value);
    var d := Micros(c, Line(h)).core;
    e := Settle(d);
    LineThen(c, Line(h), d, LineEvents(h.name, h.value), rest);
    SettleStart(d);
  }

  // -------------------------------------------------------------------------------- any line

  /** Every line a head may hold: refused, or read as its name and value say. */
  lemma AnyLine(c: Core, h: Header, rest: seq<char>) returns (e: Core)
    requires CoreOk(c) && c.state.HeaderFieldStart? && IsHeader(h) && StartsLine(rest)
    ensures if RefusesLine(c, h) then Micros(c, Line(h) + rest).Stuck? else ReadsAs(c, h, rest, e)
  {
    hide CoreOk, IsName, Key, ReadsAs, LengthOk, IsPlain;
    e := c;
    if RefusesLine(c, h) {
      RefusedHeader(c, h, rest);
    } else if h.value == [] {
      e := EmptyValue(c, h, rest);
    } else if Key(h) == "content-length" {
      e := LengthHeader(c, h, rest);
    } else if Key(h) == "transfer-encoding" {
      e := TransferHeader(c, h, rest);
    } else if Key(h) == "upgrade" {
      e := UpgradeHeader(c, h, rest);
    } else if IsConnection(Key(h)) {
      e := ConnectionHeader(c, h, rest);
    } else {
      e := PlainHeader(c, h, rest);
    }
  }

  // ------------------------------------------------------------------------------- all lines

  /** The values of the lines with that name, in order. */
  function Values(headers: seq<Header>, key: seq<char>): seq<seq<char>> {
    if headers == [] then []
    else (if Key(headers[0]) == key then [headers[0].value] else []) + Values(headers[1..], key)
  }

  function Nonempty(vs: seq<seq<char>>): seq<seq<char>> {
    if vs == [] then [] else (if vs[0] == [] then [] else [vs[0]]) + Nonempty(vs[1..])
  }

  /** Some line has that name and a value. */
  predicate Mentions(headers: seq<Header>, key: seq<char>) { Nonempty(Values(headers, key)) != [] }

  predicate SaysChunked(te: seq<seq<char>>) { exists i :: 0 <= i < |te| && IsChunked(te[i]) }

  /** The options of all Connection and Proxy-Connection lines. */
  function Wanted(headers: seq<Header>): ConnOptions {
    if headers == [] then NO_OPTIONS
    else Union(if IsConnection(Key(headers[0])) then Listed(headers[0].value, true) else NO_OPTIONS, Wanted(headers[1..]))
  }

  /** The lengths the parser stops at: a second one, or one it does not take. */
  predicate Refuses(seen: bool, lengths: seq<seq<char>>) {
    lengths != [] && (seen || |lengths| > 1 || !LengthOk(lengths[0]))
  }

  /** The fields after all the lines, from those before them. */
  ghost predicate HeadRead(c: Core, headers: seq<Header>, e: Core) {
    var lengths := Nonempty(Values(headers, "content-length"));
    && e.state.HeaderFieldStart?
    && e == c.(hstate := e.hstate, index := e.index, flags := e.flags, contentLength := e.contentLength)
    && e.flags == c.flags.(chunked := e.flags.chunked, contentLength := e.flags.contentLength, upgrade := e.flags.upgrade,
                           keepAlive := e.flags.keepAlive, close := e.flags.close, connUpgrade := e.flags.connUpgrade)
    && e.flags.chunked == (c.flags.chunked || SaysChunked(Values(headers, "transfer-encoding")))
    && e.flags.contentLength == (c.flags.contentLength || lengths != [])
    && (lengths == [] ==> e.contentLength == c.contentLength)
    && (lengths != [] ==> LengthOk(lengths[0]) && e.contentLength == Decimal(0, lengths[0]))
    && e.flags.upgrade == (c.flags.upgrade || Mentions(headers, "upgrade"))
    && Flagged(e) == Union(Flagged(c), Wanted(headers))
  }

  lemma LinesStart(headers: seq<Header>, rest: seq<char>)
    requires StartsLine(rest) && forall i :: 0 <= i < |headers| ==> IsHeader(headers[i])
    ensures StartsLine(Lines(headers) + rest)
  {
    if headers != [] {
      assert IsHeader(headers[0]);
      hide IsPlain;
      assert IsToken(headers[0].name[0]);
      assert (Lines(headers) + rest)[0] == headers[0].name[0];
    }
  }

  /** Any list of header lines: refused at a length, or read as the lines together say. */
  lemma {:induction false} AllLines(c: Core, headers: seq<Header>, rest: seq<char>) returns (e: Core)
    requires CoreOk(c) && c.state.HeaderFieldStart? && StartsLine(rest) && forall i :: 0 <= i < |headers| ==> IsHeader(headers[i])
    ensures var lengths := Nonempty(Values(headers, "content-length"));
            if Refuses(c.flags.contentLength, lengths) then Micros(c, Lines(headers) + rest).Stuck?
            else CoreOk(e) && HeadRead(c, headers, e) && Micros(c, Lines(headers) + rest) == Prepended(LinesEvents(headers), Micros(e, rest))
    decreases |headers|
  {
    hide Micros, CoreOk, IsHeader, LineEvents, Key, IsChunked, LengthOk, LineRead, HeadRead, Refuses, Values, Nonempty, RefusesLine;
    e := c;
    if headers == [] {
      assert Lines(headers) + rest == rest;
      NoEvents(Micros(c, rest));
      NoLines(c);
    } else {
      var h, tail := headers[0], headers[1..];
      var more := Lines(tail) + rest;
      LinesStart(tail, rest);
      var d := AnyLine(c, h, more);
      assert Lines(headers) + rest == Line(h) + more;
      if RefusesLine(c, h) {
        RefusedFirst(c, headers);
      } else {
        StartOf(c, h, d);
        e := AllLines(d, tail, rest);
        RefusedLater(c, headers, d);
        if !Refuses(c.flags.contentLength, Nonempty(Values(headers, "content-length"))) {
          ReadMore(c, headers, d, e);
          Regrouped(LineEvents(h.name, h.value), LinesEvents(tail), Micros(e, rest));
        }
      }
    }
  }

  lemma NoLines(c: Core)
    requires c.state.HeaderFieldStart?
    ensures HeadRead(c, [], c) && !Refuses(c.flags.contentLength, Nonempty(Values([], "content-length")))
  {
  }

  lemma StartOf(c: Core, h: Header, d: Core)
    requires LineRead(c, h, d)
    ensures d.state.HeaderFieldStart?
  {
  }

  /** What the first line adds to the values under a name. */
  lemma FirstValue(headers: seq<Header>, key: seq<char>)
    requires headers != []
    ensures var h, rest := headers[0], Nonempty(Values(headers[1..], key));
            Nonempty(Values(headers, key)) == if Key(h) == key && h.value != [] then [h.value] + rest else rest
  {
    hide Key;
    var vs := Values(headers[1..], key);
    if Key(headers[0]) == key {
      assert Values(headers, key)[1..] == vs;
    } else {
      assert Values(headers, key) == vs;
    }
  }

  lemma RefusedFirst(c: Core, headers: seq<Header>)
    requires headers != [] && RefusesLine(c, headers[0])
    ensures Refuses(c.flags.contentLength, Nonempty(Values(headers, "content-length")))
  {
    hide Values, Nonempty, LengthOk, Key;
    FirstValue(headers, "content-length");
  }

  lemma RefusedLater(c: Core, headers: seq<Header>, d: Core)
    requires headers != [] && !RefusesLine(c, headers[0]) && LineRead(c, headers[0], d)
    ensures Refuses(c.flags.contentLength, Nonempty(Values(headers, "content-length"))) <==>
            Refuses(d.flags.contentLength, Nonempty(Values(headers[1..], "content-length")))
  {
    hide Values, Nonempty, LengthOk, Key, IsChunked;
    FirstValue(headers, "content-length");
  }

  lemma ChunkedFirst(headers: seq<Header>)
    requires headers != []
    ensures SaysChunked(Values(headers, "transfer-encoding")) <==>
            (Key(headers[0]) == "transfer-encoding" && IsChunked(headers[0].value)) || SaysChunked(Values(headers[1..], "transfer-encoding"))
  {
    hide Key, IsChunked;
    var all, vs := Values(headers, "transfer-encoding"), Values(headers[1..], "transfer-encoding");
    if Key(headers[0]) == "transfer-encoding" {
      assert all == [headers[0].value] + vs;
      if SaysChunked(vs) {
        var i :| 0 <= i < |vs| && IsChunked(vs[i]);
        assert all[i + 1] == vs[i];
      }
      if IsChunked(headers[0].value) {
        assert all[0] == headers[0].value;
      }
    } else {
      assert all == vs;
    }
  }

  lemma ReadMore(c: Core, headers: seq<Header>, d: Core, e: Core)
    requires headers != [] && LineRead(c, headers[0], d) && HeadRead(d, headers[1..], e)
    requires !Refuses(c.flags.contentLength, Nonempty(Values(headers, "content-length")))
    ensures HeadRead(c, headers, e)
  {
    hide Values, Nonempty, Key, IsChunked, LengthOk, Decimal, SaysChunked, Listed;
    ChunkedFirst(headers);
    FirstValue(headers, "content-length");
    FirstValue(headers, "upgrade");
  }
}
