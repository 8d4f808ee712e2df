/** How a message body is framed: what the parser decides against section 3.3.3 of RFC 7230. */
module HttpFraming {
  import opened HttpTypes
  import opened HttpSwitch
  import opened HttpInvariant
  import opened HttpCall
  import opened HttpMicro
  import opened HttpLengths
  import opened HttpNames
  import opened HttpHeaders
  import opened HttpChunked
  import opened HttpResponse
  import opened HttpText
  import opened HttpValues
  import opened HttpConnection
  import opened HttpRequestLine
  import opened HttpStatusLine
  import opened HttpHead

  datatype Framing = Refused | NoBody | Chunked | Length(n: nat) | UntilClose | Undecided

  function Sized(n: nat): Framing { if n == 0 then NoBody else Length(n) }

  // ------------------------------------------------------------------- what the parser does

  /** What the last byte of a head decides, by the error, the callbacks and the state it leads to. */
  function Decided(o: Out): Framing {
    if o.Fail? then Refused
    else if MessageComplete in o.events then NoBody
    else if o.core.state.ChunkSizeStart? then Chunked
    else if o.core.state.BodyIdentity? then Length(o.core.contentLength)
    else if o.core.state.BodyIdentityEof? then UntilClose
    else Undecided
  }

  /** Reading a head, whose line feed at the end is left out of `head`. */
  ghost function Framed(c: Core, head: seq<char>): Framing
    requires CoreOk(c)
  {
    var m := Micros(c, head);
    if m.Stuck? then Refused
    else if !m.core.state.HeadersAlmostDone? then Undecided
    else Decided(Switch(m.core, LF))
  }

  /** Header lines and the CR of the empty line. */
  function Head(headers: seq<Header>): seq<char> { Lines(headers) + [CR] }

  // ------------------------------------------------------------------------- what the RFC says

  predicate IsBlank(ch: char) { ch == ' ' || ch == '\t' }

  function TrimRight(s: seq<char>): seq<char> {
    if s != [] && IsBlank(s[|s| - 1]) then TrimRight(s[..|s| - 1]) else s
  }

  function TrimLeft(s: seq<char>): seq<char> {
    if s != [] && IsBlank(s[0]) then TrimLeft(s[1..]) else s
  }

  /** Section 3.3.2: one or more digits. A list of equal values is taken as invalid, as that section permits. */
  predicate IsLength(v: seq<char>) {
    TrimRight(v) != [] && forall i :: 0 <= i < |TrimRight(v)| ==> IsNum(TrimRight(v)[i])
  }

  function LengthOf(v: seq<char>): nat
    requires IsLength(v)
  {
    Decimal(0, TrimRight(v))
  }

  /** The elements of a comma-separated list, in lower case; empty ones do not count (section 7). */
  function Elements(s: seq<char>): seq<seq<char>>
    decreases |s|
  {
    var k := Comma(s);
    var x := LowerName(TrimRight(TrimLeft(s[..k])));
    (if x == [] then [] else [x]) + if k == |s| then [] else Elements(s[k + 1..])
  }

  /** All transfer codings, those of several lines in the order of the lines. */
  function Codings(te: seq<seq<char>>): seq<seq<char>> {
    if te == [] then [] else Elements(te[0]) + Codings(te[1..])
  }

  predicate ChunkedIsFinal(te: seq<seq<char>>) {
    var codings := Codings(te);
    codings != [] && codings[|codings| - 1] == CHUNKED
  }

  /** 1xx, 204 and 304 responses never have a body. */
  predicate BodylessStatus(status: nat) { status / 100 == 1 || status == 204 || status == 304 }

  predicate SameLengths(cl: seq<seq<char>>) {
    && cl != [] && (forall i :: 0 <= i < |cl| ==> IsLength(cl[i]))
    && forall i :: 0 <= i < |cl| ==> LengthOf(cl[i]) == LengthOf(cl[0])
  }

  /**
   The rules of section 3.3.3 in their order, the method of a response's request aside: may the
   body be framed as `f`? A message with both fields may be refused, and so may one with several lengths.
   */
  predicate RfcAllows(isRequest: bool, status: nat, headers: seq<Header>, f: Framing) {
    var te, cl := Values(headers, "transfer-encoding"), Values(headers, "content-length");
    if !isRequest && BodylessStatus(status) then f == NoBody
    else if te != [] then
      || f == (if ChunkedIsFinal(te) then Chunked else if isRequest then Refused else UntilClose)
      || (f == Refused && cl != [])
    else if cl != [] then
      || f == (if SameLengths(cl) then Sized(LengthOf(cl[0])) else Refused)
      || (f == Refused && |cl| > 1)
    else f == if isRequest then NoBody else UntilClose
  }

  // ------------------------------------------------------------- what the parser looks at instead

  function Lengths(headers: seq<Header>): seq<seq<char>> { Nonempty(Values(headers, "content-length")) }

  /** The framing by the lines the parser looks at: is a coding "chunked", is there a length. */
  function CodeView(isRequest: bool, connect: bool, status: nat, headers: seq<Header>): Framing {
    var chunked, cl := SaysChunked(Values(headers, "transfer-encoding")), Lengths(headers);
    if Refuses(false, cl) || (chunked && cl != []) then Refused
    else if connect then NoBody
    else if chunked then Chunked
    else if cl != [] then Sized(Decimal(0, cl[0]))
    else if isRequest || BodylessStatus(status) then NoBody
    else UntilClose
  }

  ghost predicate StartsHeaders(c: Core) {
    CoreOk(c) && c.state.HeaderFieldStart? && c.flags == NO_FLAGS && c.contentLength == NO_LENGTH
  }

  /** The end of a head. */
  lemma Ends(c: Core)
    requires CoreOk(c) && c.state.HeadersAlmostDone? && !c.flags.trailing && !c.flags.skipBody && (c.verb == CONNECT ==> c.kind == Request)
    ensures Decided(Switch(c, LF)) ==
            if c.flags.chunked && c.flags.contentLength then Refused
            else if c.verb == CONNECT then NoBody
            else if c.flags.chunked then Chunked
            else if c.contentLength != NO_LENGTH then Sized(c.contentLength)
            else if c.kind == Request || BodylessStatus(c.statusCode) then NoBody
            else UntilClose
  {
    hide GuardOk, StartByte, ResponseLineByte, RequestLineByte, BodyByte, NewMessage, FieldStartByte, ValueStartByte;
    assert Switch(c, LF) == HeadersEndByte(c, LF);
    if !(c.flags.chunked && c.flags.contentLength) {
      var up := if c.flags.upgrade && c.flags.connUpgrade then c.kind == Request || c.statusCode == 101 else c.verb == CONNECT;
      var o := HeadersDoneByte(c.(upgrade := up));
      var p := Switch(c, LF);
      assert p == o.(events := [HeadersComplete(c.verb, c.contentLength)] + o.events);
      assert MessageComplete in p.events <==> MessageComplete in o.events;
    }
  }

  /** The headers are reported before anything else. */
  lemma HeadersFirst(c: Core)
    requires CoreOk(c) && c.state.HeadersAlmostDone? && !c.flags.trailing && !(c.flags.chunked && c.flags.contentLength)
    ensures var o := Switch(c, LF); o.Next? && o.events != [] && o.events[0] == HeadersComplete(c.verb, c.contentLength)
  {
    hide GuardOk, StartByte, ResponseLineByte, RequestLineByte, BodyByte, NewMessage, FieldStartByte, ValueStartByte;
    assert Switch(c, LF) == HeadersEndByte(c, LF);
  }

  /** A head with both a transfer coding and a length is refused, and so is one ended by anything but a line feed. */
  lemma ConflictRefused(c: Core, ch: char)
    requires CoreOk(c) && c.state.HeadersAlmostDone? && !c.flags.trailing
    requires ch != LF || (c.flags.chunked && c.flags.contentLength)
    ensures Switch(c, ch) == Fail(if ch != LF then Strict else UnexpectedContentLength)
  {
    hide GuardOk, StartByte, ResponseLineByte, RequestLineByte, BodyByte;
  }

  /** The head is read to its end, or refused at a length. */
  lemma HeadFramed(c: Core, headers: seq<Header>)
    requires StartsHeaders(c) && (c.verb == CONNECT ==> c.kind == Request) && forall i :: 0 <= i < |headers| ==> IsHeader(headers[i])
    ensures Framed(c, Head(headers)) == CodeView(c.kind == Request, c.verb == CONNECT, c.statusCode, headers)
  {
    hide Micros, MicroStep, CoreOk, IsHeader, Switch, Decided, Values, Nonempty, SaysChunked, Wanted;
    var e := AllLines(c, headers, [CR]);
    if !Refuses(false, Lengths(headers)) {
      var f := e.(state := HeadersAlmostDone);
      AlmostDone(e, f);
      Ends(f);
      assert Micros(c, Head(headers)).core == f;
    }
  }

  lemma AlmostDone(e: Core, f: Core)
    requires CoreOk(e) && e.state.HeaderFieldStart? && f == e.(state := HeadersAlmostDone)
    ensures CoreOk(f) && Micros(e, [CR]) == Moved(f, [])
  {
    assert CoreOk(f);
    LastCr(e, f);
    assert MicroStep(e, CR) == Moved(f, []) by {
      hide Switch, CoreOk;
      assert [] + Text(f.state, CR) == [];
    }
    hide MicroStep, CoreOk;
    MicrosOne(e, CR);
  }

  // ---------------------------------------------------------------------------------- upgrades

  /** The head asks to go on with another protocol. */
  predicate AsksToUpgrade(isRequest: bool, connect: bool, status: nat, headers: seq<Header>) {
    if Mentions(headers, "upgrade") && Wanted(headers).upgrade then isRequest || status == 101 else connect
  }

  /** The last byte of a head decides on an upgrade, and ends the call if there is no body before it. */
  lemma UpgradeAt(c: Core)
    requires CoreOk(c) && c.state.HeadersAlmostDone? && !c.flags.trailing && !c.flags.skipBody && !(c.flags.chunked && c.flags.contentLength)
    requires c.verb == CONNECT ==> c.kind == Request
    ensures var o := Switch(c, LF);
            var up := if c.flags.upgrade && c.flags.connUpgrade then c.kind == Request || c.statusCode == 101 else c.verb == CONNECT;
            o.Next? && o.core.upgrade == up && o.exit == (up && Decided(o) == NoBody)
  {
    hide GuardOk, StartByte, ResponseLineByte, RequestLineByte, BodyByte, NewMessage, FieldStartByte, ValueStartByte;
    assert Switch(c, LF) == HeadersEndByte(c, LF);
    var up := if c.flags.upgrade && c.flags.connUpgrade then c.kind == Request || c.statusCode == 101 else c.verb == CONNECT;
    var o := HeadersDoneByte(c.(upgrade := up));
    var p := Switch(c, LF);
    assert p == o.(events := [HeadersComplete(c.verb, c.contentLength)] + o.events);
    assert MessageComplete in p.events <==> MessageComplete in o.events;
  }

  /**
   Any head that is not refused: an upgrade is decided exactly if its Upgrade and Connection lines
   both ask for one, in a request or a 101 response, or else if the method is CONNECT; and the call
   ends with the head exactly if then no body comes first.
   */
  lemma UpgradeExact(c: Core, headers: seq<Header>)
    requires StartsHeaders(c) && (c.verb == CONNECT ==> c.kind == Request) && forall i :: 0 <= i < |headers| ==> IsHeader(headers[i])
    requires CodeView(c.kind == Request, c.verb == CONNECT, c.statusCode, headers) != Refused
    ensures Micros(c, Head(headers)).Moved? && Micros(c, Head(headers)).core.state.HeadersAlmostDone?
    ensures var o := Switch(Micros(c, Head(headers)).core, LF);
            && o.Next? && o.core.upgrade == AsksToUpgrade(c.kind == Request, c.verb == CONNECT, c.statusCode, headers)
            && (o.exit <==> o.core.upgrade && CodeView(c.kind == Request, c.verb == CONNECT, c.statusCode, headers) == NoBody)
  {
    hide Micros, MicroStep, CoreOk, IsHeader, Switch, Decided, Values, Nonempty, SaysChunked, Wanted, CodeView, Refuses;
    HeadFramed(c, headers);
    var e := AllLines(c, headers, [CR]);
    NotRefusedByView(c.kind == Request, c.verb == CONNECT, c.statusCode, headers);
    var f := e.(state := HeadersAlmostDone);
    AlmostDone(e, f);
    assert Micros(c, Head(headers)).core == f;
    UpgradeAt(f);
  }

  lemma NotRefusedByView(isRequest: bool, connect: bool, status: nat, headers: seq<Header>)
    requires CodeView(isRequest, connect, status, headers) != Refused
    ensures !Refuses(false, Lengths(headers)) && !(SaysChunked(Values(headers, "transfer-encoding")) && Lengths(headers) != [])
  {
    hide Values, Nonempty, SaysChunked, Decimal;
  }

  // ------------------------------------------------------------------------ where they differ

  function Codes(headers: seq<Header>): seq<seq<char>> { Values(headers, "transfer-encoding") }

  predicate HeadRefused(headers: seq<Header>) {
    Refuses(false, Lengths(headers)) || (SaysChunked(Codes(headers)) && Lengths(headers) != [])
  }

  /** The head has a length above zero. */
  predicate HasBody(headers: seq<Header>) {
    Lengths(headers) != [] && LengthOk(Lengths(headers)[0]) && Decimal(0, Lengths(headers)[0]) > 0
  }

  /** A response that cannot have a body is refused for its lengths, or given one by its headers. */
  predicate BodylessFramed(headers: seq<Header>) {
    HeadRefused(headers) || SaysChunked(Codes(headers)) || HasBody(headers)
  }

  /** A CONNECT request is never given a body. */
  predicate ConnectFramed(headers: seq<Header>) {
    !HeadRefused(headers) && (Codes(headers) != [] || HasBody(headers))
  }

  /** Some line is just "chunked" but the last coding is another, or the other way round. */
  predicate CodingMisread(headers: seq<Header>) {
    Codes(headers) != [] && Lengths(headers) == [] && SaysChunked(Codes(headers)) != ChunkedIsFinal(Codes(headers))
  }

  /** A request with codings, none of them found to be "chunked", is taken to have no body. */
  predicate CodingIgnored(headers: seq<Header>) {
    Codes(headers) != [] && Lengths(headers) == [] && !SaysChunked(Codes(headers))
  }

  /** A length is believed although there is a transfer coding. */
  predicate LengthBeforeCoding(headers: seq<Header>) {
    Codes(headers) != [] && Lengths(headers) != [] && !HeadRefused(headers)
  }

  /** The one length has spaces between its digits. */
  predicate SpacedLength(headers: seq<Header>) {
    var cl := Values(headers, "content-length");
    Codes(headers) == [] && |cl| == 1 && LengthOk(cl[0]) && !IsLength(cl[0])
  }

  /** The one length is valid, but a tab follows or it is above the parser's limit. */
  predicate LengthRefused(headers: seq<Header>) {
    var cl := Values(headers, "content-length");
    Codes(headers) == [] && |cl| == 1 && IsLength(cl[0]) && !LengthOk(cl[0])
  }

  /** An empty length goes unnoticed. */
  predicate EmptyLength(headers: seq<Header>) {
    Codes(headers) == [] && [] in Values(headers, "content-length") && !HeadRefused(headers)
  }

  predicate Deviates(isRequest: bool, connect: bool, status: nat, headers: seq<Header>) {
    if !isRequest && BodylessStatus(status) then BodylessFramed(headers)
    else
      || (connect && ConnectFramed(headers)) || CodingMisread(headers) || (isRequest && CodingIgnored(headers))
      || LengthBeforeCoding(headers) || SpacedLength(headers) || LengthRefused(headers) || EmptyLength(headers)
  }

  // ---------------------------------------------------------------------------------- the theorem

  lemma {:induction false} NonemptyOf(vs: seq<seq<char>>)
    ensures Nonempty(vs) == vs <==> [] !in vs
    ensures |Nonempty(vs)| <= |vs| && (|Nonempty(vs)| == |vs| ==> Nonempty(vs) == vs)
    decreases |vs|
  {
    if vs != [] {
      NonemptyOf(vs[1..]);
      assert vs == [vs[0]] + vs[1..];
    }
  }

  /** Trailing blanks do not change a number. */
  lemma {:induction false} TrimmedNumber(n: nat, v: seq<char>)
    requires IsDecimal(v)
    ensures IsDecimal(TrimRight(v)) && Decimal(n, TrimRight(v)) == Decimal(n, v)
    decreases |v|
  {
    if v != [] && IsBlank(v[|v| - 1]) {
      var w := v[..|v| - 1];
      assert v == w + [' '];
      TrimmedNumber(n, w);
      BlankAfter(n, w);
    }
  }

  lemma {:induction false} BlankAfter(n: nat, w: seq<char>)
    requires IsDecimal(w)
    ensures IsDecimal(w + [' ']) && Decimal(n, w + [' ']) == Decimal(n, w)
    decreases |w|
  {
    if w == [] {
      assert [' '][1..] == [] && [] + [' '] == [' '];
    } else {
      assert (w + [' '])[1..] == w[1..] + [' '];
      BlankAfter(if w[0] == ' ' then n else n * 10 + DigitValue(w[0]), w[1..]);
    }
  }

  /** The two views agree exactly where no exception applies. */
  lemma ViewsAgree(isRequest: bool, connect: bool, status: nat, headers: seq<Header>)
    requires connect ==> isRequest
    ensures RfcAllows(isRequest, status, headers, CodeView(isRequest, connect, status, headers)) <==>
            !Deviates(isRequest, connect, status, headers)
  {
    hide Values, Nonempty, SaysChunked, ChunkedIsFinal, TrimRight, Decimal, IsDecimal;
    var cl := Values(headers, "content-length");
    NonemptyOf(cl);
    NothingIn();
    if |cl| == 1 && LengthOk(cl[0]) {
      TrimmedNumber(0, cl[0]);
    }
  }

  lemma NothingIn()
    ensures !IsLength([]) && !SaysChunked([])
  {
  }

  /**
   Any head, of a request or of a response: the parser frames the body as section 3.3.3 of
   RFC 7230 allows if and only if none of the exceptions above applies.
   */
  lemma FramingExact(c: Core, headers: seq<Header>)
    requires StartsHeaders(c) && (c.verb == CONNECT ==> c.kind == Request) && forall i :: 0 <= i < |headers| ==> IsHeader(headers[i])
    ensures RfcAllows(c.kind == Request, c.statusCode, headers, Framed(c, Head(headers))) <==>
            !Deviates(c.kind == Request, c.verb == CONNECT, c.statusCode, headers)
  {
    hide Framed, RfcAllows, Deviates, CodeView, StartsHeaders;
    HeadFramed(c, headers);
    ViewsAgree(c.kind == Request, c.verb == CONNECT, c.statusCode, headers);
  }

  // ------------------------------------------------------------------------- from fresh parsers

  lemma StartsAnywhere(c: Core, line: seq<char>, d: Core, headers: seq<Header>)
    requires CoreOk(c) && Micros(c, line).Moved? && Micros(c, line).core == d && StartsHeaders(d)
    ensures Framed(c, line + Head(headers)) == Framed(d, Head(headers))
  {
    hide Micros, CoreOk, Decided, Switch;
    MicrosConcat(c, line, Head(headers));
  }

  /** A request of any method, from a fresh parser. */
  lemma RequestFramed(m: Method, url: seq<char>, headers: seq<Header>)
    requires IsTarget(m, url) && forall i :: 0 <= i < |headers| ==> IsHeader(headers[i])
    ensures CoreOk(InitCore(Request))
    ensures Framed(InitCore(Request), AnyRequestLine(m, url) + Head(headers)) == CodeView(true, m == CONNECT, 0, headers)
  {
    hide Micros, IsTarget, IsHeader, AnyRequestLine, Framed, CodeView;
    StartsOk();
    var c := InitCore(Request);
    var d := RequestRead(c, m, url);
    assert StartsHeaders(d) && d.kind == Request && d.verb == m && d.statusCode == 0;
    hide CoreOk, StartsHeaders;
    StartsAnywhere(c, AnyRequestLine(m, url), d, headers);
    HeadFramed(d, headers);
  }

  lemma NoReason(status: nat)
    ensures IsReason([]) && StatusLineOf(HTTP11, status, []) == StatusLine(status)
  {
    PrintedStatusLine(status);
  }

  /** A response, from a fresh parser. */
  lemma ResponseFramed(status: nat, headers: seq<Header>)
    requires 100 <= status <= 999 && forall i :: 0 <= i < |headers| ==> IsHeader(headers[i])
    ensures CoreOk(InitCore(Response))
    ensures Framed(InitCore(Response), StatusLine(status) + Head(headers)) == CodeView(false, false, status, headers)
  {
    hide Micros, IsHeader, StatusLine, Framed, CodeView;
    var c := InitCore(Response);
    assert CoreOk(c);
    NoReason(status);
    var d := StatusLineRead(c, HTTP11, status, []);
    assert StartsHeaders(d) && d.kind == Response && d.verb == DELETE && d.statusCode == status;
    hide CoreOk, StartsHeaders;
    StartsAnywhere(c, StatusLine(status), d, headers);
    HeadFramed(d, headers);
  }

  /** Whole heads of requests, of any method. */
  lemma RequestFramingExact(m: Method, url: seq<char>, headers: seq<Header>)
    requires IsTarget(m, url) && forall i :: 0 <= i < |headers| ==> IsHeader(headers[i])
    ensures CoreOk(InitCore(Request))
    ensures RfcAllows(true, 0, headers, Framed(InitCore(Request), AnyRequestLine(m, url) + Head(headers))) <==>
            !Deviates(true, m == CONNECT, 0, headers)
  {
    hide Framed, RfcAllows, Deviates, CodeView, IsTarget, IsHeader;
    RequestFramed(m, url, headers);
    ViewsAgree(true, m == CONNECT, 0, headers);
  }

  /** Whole heads of responses. */
  lemma ResponseFramingExact(status: nat, headers: seq<Header>)
    requires 100 <= status <= 999 && forall i :: 0 <= i < |headers| ==> IsHeader(headers[i])
    ensures CoreOk(InitCore(Response))
    ensures RfcAllows(false, status, headers, Framed(InitCore(Response), StatusLine(status) + Head(headers))) <==>
            !Deviates(false, false, status, headers)
  {
    hide Framed, RfcAllows, Deviates, CodeView, IsHeader;
    ResponseFramed(status, headers);
    ViewsAgree(false, false, status, headers);
  }

  // -------------------------------------------------------------- a head for every exception

  const LENGTH := "Content-Length"
  const CODING := "Transfer-Encoding"

  /** What the parser makes of a request or response that it should not. */
  ghost predicate ReadsRequestAs(m: Method, url: seq<char>, headers: seq<Header>, f: Framing) {
    && CoreOk(InitCore(Request)) && Framed(InitCore(Request), AnyRequestLine(m, url) + Head(headers)) == f
    && !RfcAllows(true, 0, headers, f)
  }

  ghost predicate ReadsResponseAs(status: nat, headers: seq<Header>, f: Framing) {
    && CoreOk(InitCore(Response)) && Framed(InitCore(Response), StatusLine(status) + Head(headers)) == f
    && !RfcAllows(false, status, headers, f)
  }

  ghost predicate Plainly(v: seq<char>) { IsPlain(v) && (v != [] ==> v[0] != ' ' && v[0] != '\t') }

  lemma FramingNames()
    ensures IsName(LENGTH) && LowerName(LENGTH) == "content-length"
    ensures IsName(CODING) && LowerName(CODING) == "transfer-encoding"
    ensures LowerName(LENGTH) != "transfer-encoding" && LowerName(CODING) != "content-length"
  {
    assert |LowerName(LENGTH)| == 14 && |LowerName(CODING)| == 17;
  }

  lemma ValuesFirst(h: Header, more: seq<Header>, key: seq<char>)
    ensures Values([h] + more, key) == (if Key(h) == key then [h.value] else []) + Values(more, key)
  {
    hide Key;
    assert ([h] + more)[1..] == more;
  }

  lemma NoValues()
    ensures Values([], "content-length") == [] && Codes([]) == [] && Nonempty([]) == [] && !SaysChunked([])
  {
  }

  lemma OneLength(v: seq<char>)
    ensures Nonempty([v]) == if v == [] then [] else [v]
  {
    assert [v][1..] == [];
  }

  /** A length line in front of others. */
  lemma LengthThen(v: seq<char>, more: seq<Header>) returns (h: seq<Header>)
    requires Plainly(v)
    ensures h == [Header(LENGTH, v)] + more && IsHeader(h[0])
    ensures Codes(h) == Codes(more) && Values(h, "content-length") == [v] + Values(more, "content-length")
    ensures more == [] ==> Codes(h) == [] && Values(h, "content-length") == [v] && Lengths(h) == if v == [] then [] else [v]
  {
    FramingNames();
    hide LowerName, IsName, IsPlain, Values, Nonempty;
    NoValues();
    OneLength(v);
    h := [Header(LENGTH, v)] + more;
    ValuesFirst(h[0], more, "content-length");
    ValuesFirst(h[0], more, "transfer-encoding");
  }

  /** A transfer coding line in front of others. */
  lemma CodingThen(v: seq<char>, more: seq<Header>) returns (h: seq<Header>)
    requires Plainly(v)
    ensures h == [Header(CODING, v)] + more && IsHeader(h[0])
    ensures Codes(h) == [v] + Codes(more) && Values(h, "content-length") == Values(more, "content-length")
    ensures more == [] ==> Codes(h) == [v] && Lengths(h) == []
  {
    FramingNames();
    hide LowerName, IsName, IsPlain, Values, Nonempty;
    NoValues();
    OneLength(v);
    h := [Header(CODING, v)] + more;
    ValuesFirst(h[0], more, "content-length");
    ValuesFirst(h[0], more, "transfer-encoding");
  }

  lemma OneCoding(v: seq<char>)
    ensures SaysChunked([v]) == IsChunked(v)
  {
    assert [v][0] == v;
  }

  /** A digit is a length, for the parser and the RFC. */
  lemma FiveIsALength()
    ensures Plainly("5") && LengthOk("5") && IsLength("5") && Decimal(0, "5") == 5
  {
    assert "5"[1..] == [] && TrimRight("5") == "5";
  }

  /** A 204 response with a length is given a body. */
  lemma BodylessResponse() returns (h: seq<Header>)
    ensures h == [Header(LENGTH, "5")] && ReadsResponseAs(204, h, Length(5))
  {
    hide Framed, Values, IsHeader, Decimal, Head, Plainly, LengthOk, IsLength, Nonempty, SaysChunked;
    FiveIsALength();
    NoValues();
    h := LengthThen("5", []);
    ResponseFramed(204, h);
  }

  /** CONNECT with a length is given none. */
  lemma ConnectWithBody() returns (h: seq<Header>)
    ensures h == [Header(LENGTH, "5")] && ReadsRequestAs(CONNECT, "a:1", h, NoBody)
  {
    hide Framed, Values, IsHeader, Decimal, Head, Plainly, LengthOk, Nonempty, SaysChunked, AnyRequestLine;
    FiveIsALength();
    NoValues();
    h := LengthThen("5", []);
    RequestFramed(CONNECT, "a:1", h);
  }

  lemma LastElement(s: seq<char>, x: seq<char>)
    requires Comma(s) == |s| && LowerName(TrimRight(TrimLeft(s))) == x && x != []
    ensures Elements(s) == [x]
  {
    hide Comma, TrimLeft, TrimRight, LowerName;
    assert s[..|s|] == s;
    assert Elements(s) == [x] + [];
  }

  lemma FirstElement(s: seq<char>, k: nat, x: seq<char>)
    requires Comma(s) == k < |s| && LowerName(TrimRight(TrimLeft(s[..k]))) == x && x != []
    ensures Elements(s) == [x] + Elements(s[k + 1..])
  {
    hide Comma, TrimLeft, TrimRight, LowerName;
  }

  lemma CodingsOf(v: seq<char>, w: seq<char>)
    ensures Codings([v]) == Elements(v) && Codings([v, w]) == Elements(v) + Elements(w)
  {
    hide Elements;
    assert [v][1..] == [] && [w][1..] == [] && [v, w][1..] == [w];
    assert Codings([v]) == Elements(v) + [] && Codings([w]) == Elements(w) + [];
  }

  lemma Commas()
    ensures Comma("gzip, chunked") == 4 && Comma(" chunked") == 8 && Comma("gzip") == 4 && Comma("chunked") == 7
  {
    hide Comma;
    CommaAt("gzip, chunked", 4);
    CommaAt(" chunked", 8);
    CommaAt("gzip", 4);
    CommaAt("chunked", 7);
  }

  lemma Cut(s: seq<char>)
    requires s == "gzip, chunked"
    ensures s[..4] == "gzip" && s[5..] == " chunked" && !IsChunked(s) && Plainly(s)
  {
    assert LowerText(s)[0] == 'g' && LowerText(s)[..7][0] == LowerText(s)[0];
    hide LowerText;
  }

  /** The list "gzip, chunked" ends in chunked, but is not the word "chunked". */
  lemma GzipChunked()
    ensures Plainly("gzip, chunked") && !IsChunked("gzip, chunked") && ChunkedIsFinal(["gzip, chunked"])
  {
    hide Comma, TrimLeft, TrimRight, LowerName, Elements, Codings, Plainly, IsChunked;
    var s := "gzip, chunked";
    Cut(s);
    Commas();
    Trimmed();
    LastElement(" chunked", CHUNKED);
    FirstElement(s, 4, "gzip");
    CodingsOf(s, []);
  }

  lemma Trimmed()
    ensures TrimLeft(" chunked") == CHUNKED && TrimLeft("chunked") == CHUNKED && TrimLeft("gzip") == "gzip"
    ensures TrimRight(CHUNKED) == CHUNKED && TrimRight("gzip") == "gzip" && LowerName(CHUNKED) == CHUNKED && LowerName("gzip") == "gzip"
  {
    assert " chunked"[1..] == "chunked";
  }

  /** A chunked request is taken to have no body when a coding comes before. */
  lemma CodingBeforeChunked() returns (h: seq<Header>)
    ensures h == [Header(CODING, "gzip, chunked")] && ReadsRequestAs(POST, "/", h, NoBody)
  {
    hide Framed, Values, IsHeader, Head, Plainly, Nonempty, SaysChunked, ChunkedIsFinal, IsChunked, AnyRequestLine;
    GzipChunked();
    NoValues();
    h := CodingThen("gzip, chunked", []);
    OneCoding("gzip, chunked");
    RequestFramed(POST, "/", h);
  }

  lemma Words()
    ensures Plainly("gzip") && !IsChunked("gzip") && Plainly("chunked") && IsChunked("chunked") && "gzip" != CHUNKED
  {
    var t := "chunked";
    assert LowerText(t) == CHUNKED && LowerText(t)[..7] == CHUNKED && t[7..] == [];
  }

  lemma Gzip()
    ensures Plainly("gzip") && !IsChunked("gzip") && !ChunkedIsFinal(["gzip"])
    ensures Plainly("chunked") && IsChunked("chunked") && !ChunkedIsFinal(["chunked", "gzip"])
  {
    hide Comma, TrimLeft, TrimRight, LowerName, Elements, Codings, Plainly, IsChunked;
    Words();
    Commas();
    Trimmed();
    LastElement("gzip", "gzip");
    LastElement("chunked", CHUNKED);
    CodingsOf("chunked", "gzip");
    CodingsOf("gzip", []);
  }

  /** A response in chunks and then another coding is read as chunks. */
  lemma CodingAfterChunked() returns (h: seq<Header>)
    ensures h == [Header(CODING, "chunked"), Header(CODING, "gzip")] && ReadsResponseAs(200, h, Chunked)
  {
    hide Framed, Values, IsHeader, Head, Plainly, Nonempty, ChunkedIsFinal, IsChunked, StatusLine;
    Gzip();
    NoValues();
    var g := CodingThen("gzip", []);
    h := CodingThen("chunked", g);
    assert Codes(h) == ["chunked", "gzip"] && Codes(h)[0] == "chunked";
    ResponseFramed(200, h);
  }

  /** A request with another coding is taken to have no body; it has to be refused. */
  lemma OtherCoding() returns (h: seq<Header>)
    ensures h == [Header(CODING, "gzip")] && ReadsRequestAs(POST, "/", h, NoBody)
  {
    hide Framed, Values, IsHeader, Head, Plainly, Nonempty, SaysChunked, ChunkedIsFinal, IsChunked, AnyRequestLine;
    Gzip();
    NoValues();
    h := CodingThen("gzip", []);
    OneCoding("gzip");
    RequestFramed(POST, "/", h);
  }

  /** A response with another coding and a length is read by the length. */
  lemma CodingAndLength() returns (h: seq<Header>)
    ensures h == [Header(CODING, "gzip"), Header(LENGTH, "5")] && ReadsResponseAs(200, h, Length(5))
  {
    hide Framed, Values, IsHeader, Decimal, Head, Plainly, LengthOk, Nonempty, SaysChunked, ChunkedIsFinal, IsChunked, StatusLine;
    FiveIsALength();
    Gzip();
    NoValues();
    var g := LengthThen("5", []);
    h := CodingThen("gzip", g);
    OneCoding("gzip");
    assert Codes(h) == ["gzip"];
    ResponseFramed(200, h);
  }

  lemma SpacesInside()
    ensures Plainly("1 2") && LengthOk("1 2") && !IsLength("1 2") && Decimal(0, "1 2") == 12
  {
    assert "1 2"[1..] == " 2" && " 2"[1..] == "2" && "2"[1..] == [];
    assert TrimRight("1 2") == "1 2" && "1 2"[1] == ' ';
  }

  /** A length of "1 2" is read as 12. */
  lemma LengthWithSpaces() returns (h: seq<Header>)
    ensures h == [Header(LENGTH, "1 2")] && ReadsRequestAs(POST, "/", h, Length(12))
  {
    hide Framed, Values, IsHeader, Decimal, Head, Plainly, LengthOk, IsLength, Nonempty, SaysChunked, AnyRequestLine;
    SpacesInside();
    NoValues();
    h := LengthThen("1 2", []);
    RequestFramed(POST, "/", h);
  }

  lemma TabBehind()
    ensures Plainly("5\t") && !LengthOk("5\t") && IsLength("5\t")
  {
    assert "5\t"[1] == '\t' && "5\t"[..1] == "5" && TrimRight("5") == "5" && TrimRight("5\t") == TrimRight("5");
  }

  /** A length with a tab behind it is refused. */
  lemma LengthWithTab() returns (h: seq<Header>)
    ensures h == [Header(LENGTH, "5\t")] && ReadsRequestAs(POST, "/", h, Refused)
  {
    hide Framed, Values, IsHeader, Decimal, Head, Plainly, LengthOk, IsLength, Nonempty, SaysChunked, AnyRequestLine;
    TabBehind();
    NoValues();
    h := LengthThen("5\t", []);
    RequestFramed(POST, "/", h);
  }

  lemma {:induction false} Printed(n: nat)
    ensures forall i :: 0 <= i < |ToDecimal(n)| ==> IsNum(ToDecimal(n)[i])
    decreases n
  {
    if n >= 10 {
      Printed(n / 10);
    }
  }

  /** So is every length above the limit, as it is printed. */
  lemma LengthTooLarge(n: nat) returns (h: seq<Header>)
    requires n > MAX_DECIMAL
    ensures h == [Header(LENGTH, ToDecimal(n))] && ReadsRequestAs(POST, "/", h, Refused)
  {
    var v := ToDecimal(n);
    Printed(n);
    DecimalRoundTrip(n);
    assert TrimRight(v) == v;
    hide Framed, Values, IsHeader, Decimal, Head, TrimRight, Nonempty, SaysChunked, AnyRequestLine, ToDecimal;
    NoValues();
    h := LengthThen(v, []);
    RequestFramed(POST, "/", h);
  }

  /** An empty length is not seen. */
  lemma NoLength() returns (h: seq<Header>)
    ensures h == [Header(LENGTH, "")] && ReadsRequestAs(POST, "/", h, NoBody)
  {
    hide Framed, Values, IsHeader, Decimal, Head, LengthOk, IsLength, Nonempty, SaysChunked, AnyRequestLine;
    NothingIn();
    NoValues();
    h := LengthThen("", []);
    RequestFramed(POST, "/", h);
  }

  /** On the other side: a single line that says "chunked" is always read right. */
  lemma ChunkedIsRight(v: seq<char>)
    requires IsChunked(v)
    ensures ChunkedIsFinal([v])
  {
    ChunkedText(v);
    CommaAt(v, |v|);
    assert v[..|v|] == v && TrimLeft(v) == v;
    TrimBlanks(v, 7);
    hide Comma, TrimLeft, TrimRight, Elements, Codings;
    LastElement(v, CHUNKED);
    CodingsOf(v, []);
  }

  lemma ChunkedText(v: seq<char>)
    requires IsChunked(v)
    ensures LowerName(v[..7]) == CHUNKED && !IsBlank(v[0]) && !IsBlank(v[6]) && forall i :: 0 <= i < |v| ==> v[i] != ','
  {
    var l := LowerText(v)[..7];
    forall i | 0 <= i < 7
      ensures TokenOf(v[i]) == CHUNKED[i] && v[i] != ',' && !IsBlank(v[i])
    {
      assert l[i] == Lower(v[i]) == CHUNKED[i];
      assert 'a' <= CHUNKED[i] <= 'z';
    }
    forall i | 7 <= i < |v|
      ensures v[i] != ','
    {
      assert v[7..][i - 7] == v[i];
    }
  }

  lemma {:induction false} TrimBlanks(v: seq<char>, k: nat)
    requires 0 < k <= |v| && !IsBlank(v[k - 1]) && Blanks(v[k..])
    ensures TrimRight(v) == v[..k]
    decreases |v|
  {
    if |v| == k {
      assert v[..k] == v;
    } else {
      var w := v[..|v| - 1];
      assert v[k..][|v| - 1 - k] == v[|v| - 1];
      assert w[k..] == v[k..][..|v| - 1 - k] && w[..k] == v[..k];
      TrimBlanks(w, k);
    }
  }
}
