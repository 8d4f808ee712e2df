/**
 Whole messages, one after the other on a connection: what is printed is read back, and then the
 parser waits for the next message if the connection is to be kept, or takes no more if it is not.
 */
module HttpMessages {
  import opened HttpTypes
  import opened HttpSwitch
  import opened HttpInvariant
  import opened HttpCall
  import opened HttpSplit
  import opened HttpExecute
  import opened HttpMicro
  import opened HttpLengths
  import opened HttpNames
  import opened HttpHeaders
  import opened HttpChunked
  import opened HttpResponse
  import opened HttpText
  import opened HttpValues
  import opened HttpConnection
  import opened HttpRequestLine
  import opened HttpStatusLine
  import opened HttpHead
  import opened HttpFraming

  // ------------------------------------------------------------------------------- messages

  /** A chunk, and whatever stands behind its size. */
  datatype Chunk = Chunk(data: seq<char>, ext: seq<char>)

  datatype Payload =
    | Nothing
    | Sized(data: seq<char>)
    | Chunks(chunks: seq<Chunk>, trailers: seq<Header>)
    | ToEnd(data: seq<char>)

  datatype Message =
    | Asking(verb: Method, target: seq<char>, version: Version, headers: seq<Header>, payload: Payload)
    | Answering(version: Version, status: nat, reason: seq<char>, headers: seq<Header>, payload: Payload)

  function StartText(m: Message): seq<char> {
    if m.Asking? then RequestLineOf(m.verb, m.target, m.version) else StatusLineOf(m.version, m.status, m.reason)
  }

  function StartEvents(m: Message): seq<Event> {
    [MessageBegin] + if m.Asking? then UrlEvents(m.target) else ReasonEvents(m.reason)
  }

  // ----------------------------------------------------------------------- the end of a message

  /** Where the next message starts. */
  function FirstState(kind: Kind): State { if kind == Request then StartReq else StartRes }

  /** HTTP/1.1 connections are kept unless closed, older ones only if both sides ask for it. */
  predicate IsKept(major: nat, minor: nat, o: ConnOptions) {
    if major > 0 && minor > 0 then !o.close else o.keepAlive
  }

  /** What the parser is left with after a message. */
  function Left(c: Core): Core {
    c.(state := if IsKept(c.major, c.minor, Flagged(c)) then FirstState(c.kind) else Dead)
  }

  /** The message has an end of its own. */
  predicate HasEnd(c: Core) {
    c.kind == Request || BodylessStatus(c.statusCode) || c.flags.chunked || c.contentLength != NO_LENGTH
  }

  lemma EndsIn(c: Core)
    requires HasEnd(c) && !c.flags.skipBody
    ensures c.(state := NewMessage(c)) == Left(c)
  {
  }

  lemma LeftFlags(b: Core)
    ensures Left(b) == b.(state := Left(b).state)
    ensures Left(b).state == if IsKept(b.major, b.minor, Flagged(b)) then FirstState(b.kind) else Dead
  {
  }

  lemma LeftOk(c: Core, ch: char)
    requires c.contentLength <= NO_LENGTH
    ensures CoreOk(Left(c)) && Text(Left(c).state, ch) == []
  {
  }

  // ------------------------------------------------------------------------------------- bodies

  lemma BodyMicro(c: Core, ch: char)
    requires CoreOk(c) && IsBodyState(c.state)
    ensures var o := BodyByte(c, ch);
            MicroStep(c, ch) == if o.Fail? || o.exit then Stuck else Moved(o.core, o.events + Text(o.core.state, ch))
  {
    hide Switch, BodyByte, CoreOk, FieldByte, ValueByte, IsToken, IsHeaderChar;
    BodySwitch(c, ch);
    assert !c.state.HeaderField? && !c.state.HeaderValue?;
  }

  lemma BodySwitch(c: Core, ch: char)
    requires CoreOk(c) && IsBodyState(c.state)
    ensures Switch(c, ch) == BodyByte(c, ch)
  {
    hide CoreOk, BodyByte, HeaderByte, StartByte, ResponseLineByte, RequestLineByte;
  }

  lemma SizedByte(c: Core, ch: char)
    requires CoreOk(c) && c.state.BodyIdentity? && !c.upgrade && !c.flags.skipBody
    ensures c.contentLength > 1 ==>
              CoreOk(c.(contentLength := c.contentLength - 1)) && MicroStep(c, ch) == Moved(c.(contentLength := c.contentLength - 1), [Body(ch)])
    ensures c.contentLength == 1 ==>
              var d := Left(c.(contentLength := 0)); CoreOk(d) && MicroStep(c, ch) == Moved(d, [Body(ch), BodyFinal, MessageComplete])
  {
    hide NewMessage, Left, MicroStep;
    BodyMicro(c, ch);
    EndsIn(c.(contentLength := 0));
    LeftOk(c.(contentLength := 0), ch);
    assert [Body(ch)] + [] == [Body(ch)];
    assert [Body(ch), BodyFinal] + [MessageComplete] + [] == [Body(ch), BodyFinal, MessageComplete];
  }

  lemma BodyCons(s: seq<char>)
    requires s != []
    ensures [Body(s[0])] + TextEvents(BodyText, s[1..]) == TextEvents(BodyText, s)
  {
  }

  lemma {:induction false} SizedRead(c: Core, s: seq<char>)
    requires CoreOk(c) && c.state.BodyIdentity? && !c.upgrade && !c.flags.skipBody && |s| == c.contentLength
    ensures s != []
    ensures var d := Left(c.(contentLength := 0));
            CoreOk(d) && Micros(c, s) == Moved(d, TextEvents(BodyText, s) + [BodyFinal, MessageComplete])
    decreases |s|
  {
    hide MicroStep, CoreOk, Left;
    BodyStarts(c);
    SizedByte(c, s[0]);
    BodyCons(s);
    var end := [BodyFinal, MessageComplete];
    if |s| > 1 {
      SizedRead(c.(contentLength := c.contentLength - 1), s[1..]);
      assert [Body(s[0])] + (TextEvents(BodyText, s[1..]) + end) == TextEvents(BodyText, s) + end;
    } else {
      assert s == [s[0]];
      MicrosOne(c, s[0]);
      assert TextEvents(BodyText, s) + end == [Body(s[0])] + end;
    }
  }

  lemma BodyStarts(c: Core)
    requires CoreOk(c) && (c.state.BodyIdentity? || c.state.ChunkData?)
    ensures c.contentLength > 0
  {
  }

  lemma ToEndByte(c: Core, ch: char)
    requires CoreOk(c) && c.state.BodyIdentityEof?
    ensures MicroStep(c, ch) == Moved(c, [Body(ch)])
  {
    hide StartByte, ResponseLineByte, RequestLineByte, HeaderByte;
    assert [Body(ch)] + [] == [Body(ch)];
  }

  lemma {:induction false} ToEndRead(c: Core, s: seq<char>)
    requires CoreOk(c) && c.state.BodyIdentityEof?
    ensures Micros(c, s) == Moved(c, TextEvents(BodyText, s))
    decreases |s|
  {
    hide MicroStep, CoreOk;
    if s != [] {
      ToEndByte(c, s[0]);
      ToEndRead(c, s[1..]);
      BodyCons(s);
    }
  }

  // ------------------------------------------------------------------------------------- chunks

  /** Behind the size of a chunk: nothing, or anything from a semicolon or space to the line end. */
  predicate IsExt(s: seq<char>) { s == [] || ((s[0] == ';' || s[0] == ' ') && forall i :: 0 <= i < |s| ==> s[i] != CR) }

  function SizeText(n: nat, ext: seq<char>): seq<char> { ToHex(n) + (ext + CRLF) }

  function ChunkText(k: Chunk): seq<char> { SizeText(|k.data|, k.ext) + (k.data + CRLF) }

  lemma ExtByte(c: Core, ch: char)
    requires CoreOk(c) && ch != CR && ((c.state.ChunkSize? && (ch == ';' || ch == ' ')) || c.state.ChunkParameters?)
    ensures var d := c.(state := ChunkParameters); CoreOk(d) && MicroStep(c, ch) == Moved(d, [])
  {
    hide MicroStep;
    BodyMicro(c, ch);
    assert [] + Text(ChunkParameters, ch) == [];
  }

  lemma {:induction false} ExtRead(c: Core, s: seq<char>)
    requires CoreOk(c) && (c.state.ChunkSize? || c.state.ChunkParameters?) && forall i :: 0 <= i < |s| ==> s[i] != CR
    requires c.state.ChunkSize? ==> s == [] || s[0] == ';' || s[0] == ' '
    ensures var d := if s == [] then c else c.(state := ChunkParameters); CoreOk(d) && Micros(c, s) == Moved(d, [])
    decreases |s|
  {
    hide MicroStep, CoreOk;
    if s != [] {
      ExtByte(c, s[0]);
      ExtRead(c.(state := ChunkParameters), s[1..]);
    }
  }

  /** The fields once a size line has been read. */
  function AfterSize(c: Core, n: nat): Core {
    if n == 0 then c.(contentLength := 0, flags := c.flags.(trailing := true), state := HeaderFieldStart)
    else c.(contentLength := n, state := ChunkData)
  }

  lemma SizeEnd(c: Core)
    requires CoreOk(c) && (c.state.ChunkSize? || c.state.ChunkParameters?)
    ensures CoreOk(AfterSize(c, c.contentLength)) && Micros(c, CRLF) == Moved(AfterSize(c, c.contentLength), [ChunkHeader(c.contentLength)])
  {
    var d := c.(state := ChunkSizeAlmostDone);
    assert CoreOk(d);
    SizeEndSteps(c, d);
    hide MicroStep, CoreOk, AfterSize;
    MicrosOne(d, LF);
    Cons(c, CR, [LF], d, []);
    assert CRLF == [CR] + [LF] && [] + [ChunkHeader(c.contentLength)] == [ChunkHeader(c.contentLength)];
  }

  lemma SizeEndSteps(c: Core, d: Core)
    requires CoreOk(c) && (c.state.ChunkSize? || c.state.ChunkParameters?) && CoreOk(d) && d == c.(state := ChunkSizeAlmostDone)
    ensures MicroStep(c, CR) == Moved(d, [])
    ensures MicroStep(d, LF) == Moved(AfterSize(c, c.contentLength), [ChunkHeader(c.contentLength)])
    ensures CoreOk(AfterSize(c, c.contentLength))
  {
    hide MicroStep;
    BodyMicro(c, CR);
    BodyMicro(d, LF);
    var f := AfterSize(c, c.contentLength);
    assert [] + Text(d.state, CR) == [] && [ChunkHeader(c.contentLength)] + Text(f.state, LF) == [ChunkHeader(c.contentLength)];
  }

  lemma SizeRead(c: Core, n: nat, ext: seq<char>)
    requires CoreOk(c) && c.state.ChunkSizeStart? && n <= MAX_HEX && IsExt(ext)
    ensures CoreOk(AfterSize(c, n)) && Micros(c, SizeText(n, ext)) == Moved(AfterSize(c, n), [ChunkHeader(n)])
  {
    hide Micros, ToHex, AfterSize;
    HexRoundTrip(n);
    ChunkSizeExact(c, ToHex(n));
    var d := c.(contentLength := n, state := ChunkSize);
    assert CoreOk(d);
    ExtRead(d, ext);
    var e := if ext == [] then d else d.(state := ChunkParameters);
    SizeEnd(e);
    SameAfter(c, e, n);
    hide CoreOk, IsExt;
    Then(d, ext, e, [], CRLF, AfterSize(c, n), [ChunkHeader(n)]);
    Then(c, ToHex(n), d, [], ext + CRLF, AfterSize(c, n), [] + [ChunkHeader(n)]);
    assert [] + ([] + [ChunkHeader(n)]) == [ChunkHeader(n)];
  }

  lemma SameAfter(c: Core, e: Core, n: nat)
    requires e == c.(contentLength := n, state := e.state)
    ensures AfterSize(e, n) == AfterSize(c, n)
  {
  }

  lemma ChunkByte(c: Core, ch: char)
    requires CoreOk(c) && c.state.ChunkData?
    ensures var d := c.(contentLength := c.contentLength - 1, state := if c.contentLength == 1 then ChunkDataAlmostDone else ChunkData);
            CoreOk(d) && MicroStep(c, ch) == Moved(d, [Body(ch)])
  {
    hide StartByte, ResponseLineByte, RequestLineByte, HeaderByte;
    assert [Body(ch)] + [] == [Body(ch)];
  }

  lemma {:induction false} ChunkRead(c: Core, s: seq<char>)
    requires CoreOk(c) && c.state.ChunkData? && |s| == c.contentLength
    ensures var d := c.(contentLength := 0, state := ChunkDataAlmostDone); CoreOk(d) && Micros(c, s) == Moved(d, TextEvents(BodyText, s))
    decreases |s|
  {
    hide MicroStep, CoreOk;
    BodyStarts(c);
    ChunkByte(c, s[0]);
    BodyCons(s);
    if |s| > 1 {
      ChunkRead(c.(contentLength := c.contentLength - 1), s[1..]);
    } else {
      assert s == [s[0]] && TextEvents(BodyText, s) == [Body(s[0])];
      MicrosOne(c, s[0]);
    }
  }

  predicate IsChunk(k: Chunk) { 0 < |k.data| <= MAX_HEX && IsExt(k.ext) }

  /** One chunk leads back to where the next one starts. */
  lemma ChunkMicros(c: Core, k: Chunk)
    requires CoreOk(c) && c.state.ChunkSizeStart? && IsChunk(k)
    ensures CoreOk(c.(contentLength := 0)) && Micros(c, ChunkText(k)) == Moved(c.(contentLength := 0), ChunkEvents(k.data))
  {
    hide Micros, SizeText, TextEvents, IsExt;
    var n := |k.data|;
    SizeRead(c, n, k.ext);
    var a := AfterSize(c, n);
    ChunkRead(a, k.data);
    var b := a.(contentLength := 0, state := ChunkDataAlmostDone);
    DataEndMicros(b);
    var d := c.(contentLength := 0);
    assert b.(state := ChunkSizeStart) == d && CoreOk(d);
    hide CoreOk;
    var text := TextEvents(BodyText, k.data);
    Then(a, k.data, b, text, CRLF, d, [ChunkComplete]);
    Then(c, SizeText(n, k.ext), a, [ChunkHeader(n)], k.data + CRLF, d, text + [ChunkComplete]);
    assert [ChunkHeader(n)] + (text + [ChunkComplete]) == ChunkEvents(k.data);
  }

  function ChunksText(chunks: seq<Chunk>): seq<char> {
    if chunks == [] then [] else ChunkText(chunks[0]) + ChunksText(chunks[1..])
  }

  function ChunksEvents(chunks: seq<Chunk>): seq<Event> {
    if chunks == [] then [] else ChunkEvents(chunks[0].data) + ChunksEvents(chunks[1..])
  }

  lemma {:induction false} ChunksRead(c: Core, chunks: seq<Chunk>)
    requires CoreOk(c) && c.state.ChunkSizeStart? && forall i :: 0 <= i < |chunks| ==> IsChunk(chunks[i])
    ensures var d := if chunks == [] then c else c.(contentLength := 0);
            CoreOk(d) && Micros(c, ChunksText(chunks)) == Moved(d, ChunksEvents(chunks))
    decreases |chunks|
  {
    hide Micros, CoreOk, IsChunk, ChunkText, ChunkEvents;
    if chunks == [] {
      MicrosEmpty(c);
    } else {
      ChunkMicros(c, chunks[0]);
      var d := c.(contentLength := 0);
      ChunksRead(d, chunks[1..]);
      Then(c, ChunkText(chunks[0]), d, ChunkEvents(chunks[0].data), ChunksText(chunks[1..]), d, ChunksEvents(chunks[1..]));
    }
  }

  // -------------------------------------------------------------------------- the end of the head

  /** Where the empty line behind the header lines leads, if no upgrade is asked for. */
  function HeadLeft(c: Core): Core {
    var d := c.(upgrade := false);
    if c.flags.chunked then d.(state := ChunkSizeStart)
    else if c.contentLength == 0 then Left(d)
    else if c.contentLength != NO_LENGTH then d.(state := BodyIdentity)
    else if c.kind == Request || BodylessStatus(c.statusCode) then Left(d)
    else d.(state := BodyIdentityEof)
  }

  function BlankEvents(c: Core): seq<Event> {
    [HeadersComplete(c.verb, c.contentLength)] +
    if c.flags.chunked then []
    else if c.contentLength == 0 || (c.contentLength == NO_LENGTH && (c.kind == Request || BodylessStatus(c.statusCode))) then [MessageComplete]
    else []
  }

  predicate EndsPlainly(c: Core) {
    && !c.flags.trailing && !c.flags.skipBody && !(c.flags.chunked && c.flags.contentLength) && c.verb != CONNECT
    && !(c.flags.upgrade && c.flags.connUpgrade && (c.kind == Request || c.statusCode == 101))
  }

  lemma HeadersDone(c: Core)
    requires EndsPlainly(c) && c.contentLength <= NO_LENGTH
    ensures var o := HeadersDoneByte(c.(upgrade := false));
            o == Next(HeadLeft(c), BlankEvents(c)[1..], true, false)
  {
    var d := c.(upgrade := false);
    if HasEnd(d) {
      EndsIn(d);
    }
    hide NewMessage, Left;
  }

  lemma HeadersEnd(e: Core)
    requires CoreOk(e) && e.state.HeadersAlmostDone? && EndsPlainly(e)
    ensures Switch(e, LF) == Next(HeadLeft(e), BlankEvents(e), true, false)
  {
    hide GuardOk, StartByte, ResponseLineByte, RequestLineByte, BodyByte, HeadersDoneByte, HeadLeft;
    HeadersDone(e);
    assert [HeadersComplete(e.verb, e.contentLength)] + BlankEvents(e)[1..] == BlankEvents(e);
    assert Switch(e, LF) == HeadersEndByte(e, LF);
  }

  lemma HeadLeftOk(c: Core)
    requires c.contentLength <= NO_LENGTH
    ensures CoreOk(HeadLeft(c)) && Text(HeadLeft(c).state, LF) == []
  {
    LeftOk(c.(upgrade := false), LF);
    hide Left;
  }

  lemma BlankRead(c: Core)
    requires CoreOk(c) && c.state.HeaderFieldStart? && EndsPlainly(c)
    ensures CoreOk(HeadLeft(c)) && Micros(c, CRLF) == Moved(HeadLeft(c), BlankEvents(c))
  {
    var e := c.(state := HeadersAlmostDone);
    assert CoreOk(e) && HeadLeft(e) == HeadLeft(c) && BlankEvents(e) == BlankEvents(c);
    hide Switch, CoreOk, HeadLeft, Micros, BlankEvents;
    LastCr(c, e);
    HeadersEnd(e);
    HeadLeftOk(c) by { assert c.contentLength <= NO_LENGTH by { LengthOkIn(c); } }
    assert MicroStep(c, CR) == Moved(e, []) by { assert [] + Text(e.state, CR) == []; }
    assert MicroStep(e, LF) == Moved(HeadLeft(e), BlankEvents(e)) by { assert BlankEvents(e) + [] == BlankEvents(e); }
    hide MicroStep;
    MicrosOne(e, LF);
    Cons(c, CR, [LF], e, []);
    assert CRLF == [CR] + [LF] && [] + BlankEvents(e) == BlankEvents(e);
  }

  lemma LengthOkIn(c: Core)
    requires CoreOk(c)
    ensures c.contentLength <= NO_LENGTH
  {
  }

  // ------------------------------------------------------------------------------ whole messages

  function PayloadText(p: Payload): seq<char> {
    match p
    case Nothing => []
    case Sized(data) => data
    case Chunks(chunks, trailers) => ChunksText(chunks) + (SizeText(0, []) + (Lines(trailers) + CRLF))
    case ToEnd(data) => data
  }

  function PayloadEvents(p: Payload): seq<Event> {
    match p
    case Nothing => []
    case Sized(data) => TextEvents(BodyText, data) + [BodyFinal, MessageComplete]
    case Chunks(chunks, trailers) => ChunksEvents(chunks) + ([ChunkHeader(0)] + (LinesEvents(trailers) + [ChunkComplete, MessageComplete]))
    case ToEnd(data) => TextEvents(BodyText, data)
  }

  function VerbOf(m: Message, c: Core): Method { if m.Asking? then m.verb else c.verb }

  function LengthField(headers: seq<Header>): nat {
    var lengths := Lengths(headers);
    if lengths != [] && IsDecimal(lengths[0]) then Decimal(0, lengths[0]) else NO_LENGTH
  }

  function StatusOf(m: Message): nat { if m.Asking? then 0 else m.status }

  /** What the head promises is what follows. */
  predicate Announced(m: Message) {
    var f := CodeView(m.Asking?, false, StatusOf(m), m.headers);
    match m.payload
    case Nothing => f == NoBody
    case Sized(data) => f == Length(|data|)
    case Chunks(chunks, trailers) => f == Chunked && !Refuses(false, Lengths(trailers))
    case ToEnd(data) => f == UntilClose
  }

  ghost predicate Headers(headers: seq<Header>) { forall i :: 0 <= i < |headers| ==> IsHeader(headers[i]) }

  ghost predicate IsPayload(p: Payload) {
    p.Chunks? ==> Headers(p.trailers) && forall i :: 0 <= i < |p.chunks| ==> IsChunk(p.chunks[i])
  }

  predicate AsksUpgrade(m: Message) {
    Mentions(m.headers, "upgrade") && Wanted(m.headers).upgrade && (m.Asking? || m.status == 101)
  }

  ghost predicate IsStart(m: Message) {
    && IsVersion(m.version)
    && if m.Asking? then m.verb != CONNECT && IsTarget(m.verb, m.target)
       else m.version.Version? && 100 <= m.status <= 999 && IsReason(m.reason)
  }

  /** A message that is framed as it says and asks for no upgrade. */
  ghost predicate IsMessage(m: Message) {
    IsStart(m) && Headers(m.headers) && Announced(m) && IsPayload(m.payload) && !AsksUpgrade(m)
  }

  /** The options of all its Connection lines, those of the trailer included. */
  function Options(m: Message): ConnOptions {
    Union(Wanted(m.headers), if m.payload.Chunks? then Wanted(m.payload.trailers) else NO_OPTIONS)
  }

  /** The connection is kept after it. */
  predicate Persists(m: Message) {
    IsVersion(m.version) && !m.payload.ToEnd? && IsKept(Major(m.version), Minor(m.version), Options(m))
  }

  function MessageHead(m: Message): seq<char> { StartText(m) + (Lines(m.headers) + CRLF) }

  function MessageText(m: Message): seq<char> { MessageHead(m) + PayloadText(m.payload) }

  /** The callbacks at the end of the head. */
  function HeadCallbacks(m: Message, verb: Method): seq<Event> {
    [HeadersComplete(verb, LengthField(m.headers))] + if m.payload.Nothing? then [MessageComplete] else []
  }

  /** All callbacks; the method of a response is the one the parser has had before. */
  function MessageEvents(m: Message, verb: Method): seq<Event> {
    StartEvents(m) + (LinesEvents(m.headers) + HeadCallbacks(m, verb)) + PayloadEvents(m.payload)
  }

  /** The parser is where such a message may start. */
  ghost predicate Expects(c: Core, m: Message) {
    && CoreOk(c) && c.state == FirstState(c.kind)
    && c.kind == (if m.Asking? then HttpTypes.Request else HttpTypes.Response) && (m.Answering? ==> c.verb != CONNECT)
  }

  /** What the parser is left with: the fields of the message, and a state that says what may follow. */
  ghost predicate Done(c: Core, m: Message, d: Core)
    requires IsVersion(m.version)
  {
    && CoreOk(d) && d.kind == c.kind && !d.upgrade && d.verb == VerbOf(m, c)
    && d.major == Major(m.version) && d.minor == Minor(m.version) && (m.Answering? ==> d.statusCode == m.status)
    && d.state == if m.payload.ToEnd? then BodyIdentityEof else if Persists(m) then FirstState(c.kind) else Dead
  }

  /** The fields behind the start line. */
  ghost predicate StartDone(c: Core, m: Message, d: Core)
    requires IsVersion(m.version)
  {
    && CoreOk(d) && d.state.HeaderFieldStart? && d.flags == NO_FLAGS && d.contentLength == NO_LENGTH && d.kind == c.kind
    && d.verb == VerbOf(m, c) && d.major == Major(m.version) && d.minor == Minor(m.version)
    && (m.Answering? ==> d.statusCode == m.status) && d.upgrade == c.upgrade
  }

  lemma StartRead(c: Core, m: Message) returns (d: Core)
    requires Expects(c, m) && IsStart(m)
    ensures StartDone(c, m, d) && Micros(c, StartText(m)) == Moved(d, StartEvents(m))
  {
    hide Micros, CoreOk, IsTarget, IsReason, RequestLineOf, StatusLineOf;
    if m.Asking? {
      d := RequestLineRead(c, m.verb, m.target, m.version);
    } else {
      d := StatusLineRead(c, m.version, m.status, m.reason);
    }
  }

  /** What the header lines leave is framed as announced. */
  lemma FramedAs(d: Core, m: Message, e: Core)
    requires d.flags == NO_FLAGS && d.contentLength == NO_LENGTH && HeadRead(d, m.headers, e)
    requires d.kind == (if m.Asking? then HttpTypes.Request else HttpTypes.Response) && (m.Answering? ==> d.statusCode == m.status)
    requires d.verb != CONNECT && Announced(m) && !AsksUpgrade(m)
    ensures Lengths(m.headers) != [] ==> LengthOk(Lengths(m.headers)[0])
    ensures EndsPlainly(e) && e.contentLength == LengthField(m.headers) && Flagged(e) == Wanted(m.headers)
    ensures BlankEvents(e) == [HeadersComplete(e.verb, e.contentLength)] + if m.payload.Nothing? then [MessageComplete] else []
    ensures var f := HeadLeft(e);
            && (m.payload.Nothing? ==> f == Left(e.(upgrade := false)))
            && (m.payload.Sized? ==> f == e.(upgrade := false, state := BodyIdentity) && f.contentLength == |m.payload.data|)
            && (m.payload.Chunks? ==> f == e.(upgrade := false, state := ChunkSizeStart) && f.flags.chunked && !f.flags.contentLength)
            && (m.payload.ToEnd? ==> f == e.(upgrade := false, state := BodyIdentityEof))
  {
    hide SaysChunked, Values, Nonempty, Wanted, Decimal, Left;
  }

  lemma NotRefused(m: Message)
    requires Announced(m)
    ensures !Refuses(false, Lengths(m.headers))
  {
    hide SaysChunked, Values, Nonempty, Decimal;
  }

  lemma TrailersStart(trailers: seq<Header>)
    requires Headers(trailers)
    ensures StartsLine(CRLF) && StartsLine(Lines(trailers) + CRLF)
  {
    LinesStart(trailers, CRLF);
  }

  /** What the trailer leaves of the fields. */
  ghost predicate Trailed(c: Core, trailers: seq<Header>, d: Core) {
    CoreOk(d) && d == c.(state := d.state, hstate := d.hstate, index := d.index, flags := d.flags, contentLength := d.contentLength)
    && d.state == if IsKept(c.major, c.minor, Union(Flagged(c), Wanted(trailers))) then FirstState(c.kind) else Dead
  }

  /** The last chunk and the trailer. */
  lemma TrailerRead(c: Core, trailers: seq<Header>) returns (d: Core)
    requires CoreOk(c) && c.state.ChunkSizeStart? && c.flags.chunked && !c.flags.contentLength && !c.flags.skipBody && !c.upgrade
    requires Headers(trailers) && !Refuses(false, Lengths(trailers))
    ensures Trailed(c, trailers, d)
    ensures Micros(c, SizeText(0, []) + (Lines(trailers) + CRLF)) ==
            Moved(d, [ChunkHeader(0)] + (LinesEvents(trailers) + [ChunkComplete, MessageComplete]))
  {
    hide Micros, CoreOk, SizeText, Refuses, Wanted, HeadRead, LengthOk, NewMessage, Left;
    SizeRead(c, 0, []);
    var a := AfterSize(c, 0);
    TrailersStart(trailers);
    var b := AllLines(a, trailers, CRLF);
    TrailerFields(a, trailers, b);
    LastMicros(b);
    EndsIn(b);
    d := Left(b);
    LeftFlags(b);
    LengthOkIn(b);
    LeftOk(b, LF);
    var end := [ChunkComplete, MessageComplete];
    Then(c, SizeText(0, []), a, [ChunkHeader(0)], Lines(trailers) + CRLF, d, LinesEvents(trailers) + end);
  }

  lemma TrailerFields(a: Core, trailers: seq<Header>, b: Core)
    requires HeadRead(a, trailers, b) && a.flags.chunked && a.flags.trailing && !a.flags.skipBody
    ensures b.state.HeaderFieldStart? && b.flags.chunked && b.flags.trailing && !b.flags.skipBody && HasEnd(b)
    ensures b == a.(hstate := b.hstate, index := b.index, flags := b.flags, contentLength := b.contentLength)
    ensures Flagged(b) == Union(Flagged(a), Wanted(trailers))
  {
    hide Values, Nonempty, Wanted, SaysChunked, Decimal;
  }

  /** The parser is behind the head, and the payload is due. */
  ghost predicate BodyDue(f: Core, m: Message) {
    && CoreOk(f) && !f.upgrade && !f.flags.skipBody && Flagged(f) == Wanted(m.headers)
    && (m.payload.Nothing? ==> f.state == if IsKept(f.major, f.minor, Wanted(m.headers)) then FirstState(f.kind) else Dead)
    && (m.payload.Sized? ==> f.state.BodyIdentity? && f.contentLength == |m.payload.data|)
    && (m.payload.Chunks? ==> f.state.ChunkSizeStart? && f.flags.chunked && !f.flags.contentLength)
    && (m.payload.ToEnd? ==> f.state.BodyIdentityEof?)
  }

  /** What a whole payload leaves. */
  lemma PayloadRead(f: Core, m: Message) returns (d: Core)
    requires BodyDue(f, m) && IsPayload(m.payload) && Announced(m)
    ensures CoreOk(d) && Micros(f, PayloadText(m.payload)) == Moved(d, PayloadEvents(m.payload))
    ensures d == f.(state := d.state, hstate := d.hstate, index := d.index, flags := d.flags, contentLength := d.contentLength)
    ensures d.state == if m.payload.ToEnd? then BodyIdentityEof
                       else if IsKept(f.major, f.minor, Options(m)) then FirstState(f.kind) else Dead
  {
    hide Micros, CoreOk, Wanted, CodeView, IsChunk, SizeText, Refuses, TextEvents, Left, IsKept;
    match m.payload
    case Nothing =>
      d := f;
      MicrosEmpty(f);
    case Sized(data) =>
      SizedRead(f, data);
      d := Left(f.(contentLength := 0));
      LeftFlags(f.(contentLength := 0));
    case Chunks(chunks, trailers) =>
      ChunksRead(f, chunks);
      var a := if chunks == [] then f else f.(contentLength := 0);
      d := TrailerRead(a, trailers);
      Then(f, ChunksText(chunks), a, ChunksEvents(chunks), SizeText(0, []) + (Lines(trailers) + CRLF), d,
           [ChunkHeader(0)] + (LinesEvents(trailers) + [ChunkComplete, MessageComplete]));
    case ToEnd(data) =>
      ToEndRead(f, data);
      d := f;
  }

  /** Header lines and the blank line. */
  lemma HeadersRead(c: Core, m: Message, d: Core) returns (f: Core)
    requires Expects(c, m) && IsMessage(m) && StartDone(c, m, d)
    ensures BodyDue(f, m) && Micros(d, Lines(m.headers) + CRLF) == Moved(f, LinesEvents(m.headers) + HeadCallbacks(m, VerbOf(m, c)))
    ensures f == d.(state := f.state, hstate := f.hstate, index := f.index, flags := f.flags, contentLength := f.contentLength, upgrade := false)
  {
    hide Micros, CoreOk, IsHeader, Refuses, Wanted, HeadRead, Announced, AsksUpgrade, IsStart, IsPayload, Left, IsKept, HeadLeft, BlankEvents, EndsPlainly;
    NotRefused(m);
    TrailersStart(m.headers);
    var e := AllLines(d, m.headers, CRLF);
    assert d.verb != CONNECT by { NoConnect(c, m); }
    FramedAs(d, m, e);
    HeadLines(d, m.headers, e);
    BlankRead(e);
    f := HeadLeft(e);
    LeftFlags(e.(upgrade := false));
  }

  lemma NoConnect(c: Core, m: Message)
    requires Expects(c, m) && IsMessage(m)
    ensures VerbOf(m, c) != CONNECT
  {
  }

  lemma HeadLines(d: Core, headers: seq<Header>, e: Core)
    requires HeadRead(d, headers, e)
    ensures e.state.HeaderFieldStart? && e.flags.skipBody == d.flags.skipBody
    ensures e == d.(hstate := e.hstate, index := e.index, flags := e.flags, contentLength := e.contentLength)
  {
    hide Values, Nonempty, Wanted, SaysChunked, Decimal;
  }

  /** Behind the head: the fields of the message, with the payload due. */
  ghost predicate HeadDone(c: Core, m: Message, f: Core)
    requires IsVersion(m.version)
  {
    && BodyDue(f, m) && f.kind == c.kind && f.verb == VerbOf(m, c)
    && f.major == Major(m.version) && f.minor == Minor(m.version) && (m.Answering? ==> f.statusCode == m.status)
  }

  lemma HeadTextRead(c: Core, m: Message) returns (f: Core)
    requires Expects(c, m) && IsMessage(m)
    ensures IsVersion(m.version) && HeadDone(c, m, f)
    ensures Micros(c, MessageHead(m)) == Moved(f, StartEvents(m) + (LinesEvents(m.headers) + HeadCallbacks(m, VerbOf(m, c))))
  {
    hide Micros, CoreOk, Expects, Announced, AsksUpgrade, IsStart, IsPayload, IsKept, StartText, StartEvents, Headers, HeadCallbacks;
    KindOf(c, m);
    var a := StartRead(c, m);
    f := HeadersRead(c, m, a);
    Then(c, StartText(m), a, StartEvents(m), Lines(m.headers) + CRLF, f, LinesEvents(m.headers) + HeadCallbacks(m, VerbOf(m, c)));
  }

  /**
   Any message that is framed as it says and asks for no upgrade is read to its end, with exactly
   its callbacks. Then the parser is where the next message of its kind may start if the
   connection persists, or it takes no more; a body without an end goes on.
   */
  lemma MessageRead(c: Core, m: Message) returns (d: Core)
    requires Expects(c, m) && IsMessage(m)
    ensures Done(c, m, d) && Micros(c, MessageText(m)) == Moved(d, MessageEvents(m, VerbOf(m, c)))
  {
    hide Micros, CoreOk, Expects, Announced, AsksUpgrade, IsStart, IsPayload, IsKept, MessageHead, PayloadText, StartEvents, PayloadEvents, Headers, HeadCallbacks;
    KindOf(c, m);
    var f := HeadTextRead(c, m);
    d := PayloadRead(f, m);
    var head := StartEvents(m) + (LinesEvents(m.headers) + HeadCallbacks(m, VerbOf(m, c)));
    Then(c, MessageHead(m), f, head, PayloadText(m.payload), d, PayloadEvents(m.payload));
  }

  lemma KindOf(c: Core, m: Message)
    requires Expects(c, m) && IsMessage(m)
    ensures CoreOk(c) && c.kind == (if m.Asking? then HttpTypes.Request else HttpTypes.Response) && IsVersion(m.version)
  {
  }

  // -------------------------------------------------------------------- one message after the other

  function StreamText(ms: seq<Message>): seq<char> {
    if ms == [] then [] else MessageText(ms[0]) + StreamText(ms[1..])
  }

  function StreamEvents(ms: seq<Message>, verb: Method): seq<Event> {
    if ms == [] then [] else MessageEvents(ms[0], if ms[0].Asking? then ms[0].verb else verb) + StreamEvents(ms[1..], verb)
  }

  /** Messages of one kind, on a connection that persists after all but perhaps the last. */
  ghost predicate IsStream(kind: Kind, ms: seq<Message>) {
    forall i :: 0 <= i < |ms| ==>
      && IsMessage(ms[i]) && (i < |ms| - 1 ==> Persists(ms[i]))
      && kind == if ms[i].Asking? then HttpTypes.Request else HttpTypes.Response
  }

  /** The parser is where the first message of a stream may start. */
  ghost predicate StreamStart(c: Core) {
    CoreOk(c) && c.kind != HttpTypes.Both && c.state == FirstState(c.kind) && (c.kind == HttpTypes.Response ==> c.verb != CONNECT)
  }

  lemma StreamSplits(kind: Kind, ms: seq<Message>)
    requires ms != [] && IsStream(kind, ms)
    ensures IsStream(kind, ms[1..]) && IsMessage(ms[0]) && (|ms| > 1 ==> Persists(ms[0]))
    ensures kind == if ms[0].Asking? then HttpTypes.Request else HttpTypes.Response
  {
    hide IsMessage, Persists;
    forall i | 0 <= i < |ms[1..]|
      ensures IsMessage(ms[1..][i]) && (i < |ms[1..]| - 1 ==> Persists(ms[1..][i]))
      ensures kind == if ms[1..][i].Asking? then HttpTypes.Request else HttpTypes.Response
    {
      assert ms[1..][i] == ms[i + 1];
    }
  }

  /** Any stream of messages: each is read with its own callbacks, in order. */
  lemma {:induction false} StreamRead(c: Core, ms: seq<Message>) returns (d: Core)
    requires StreamStart(c) && IsStream(c.kind, ms) && ms != []
    ensures Micros(c, StreamText(ms)) == Moved(d, StreamEvents(ms, c.verb))
    ensures CoreOk(d) && d.kind == c.kind && !d.upgrade
    ensures var m := ms[|ms| - 1];
            IsVersion(m.version) && d.state == if m.payload.ToEnd? then BodyIdentityEof else if Persists(m) then FirstState(c.kind) else Dead
    decreases |ms|
  {
    hide Micros, CoreOk, IsMessage, Persists, MessageText, MessageEvents;
    StreamSplits(c.kind, ms);
    var m, rest := ms[0], ms[1..];
    d := MessageRead(c, m);
    KindOf(c, m);
    var ev := MessageEvents(m, VerbOf(m, c));
    if rest == [] {
      MicrosEmpty(d);
      Then(c, MessageText(m), d, ev, [], d, []);
      assert StreamText(ms) == MessageText(m) + [] && StreamEvents(ms, c.verb) == ev + [];
    } else {
      var e := d;
      StillNoEnd(m);
      d := StreamRead(e, rest);
      SameVerb(rest, c.kind, e.verb, c.verb);
      Then(c, MessageText(m), e, ev, StreamText(rest), d, StreamEvents(rest, e.verb));
      assert ms[|ms| - 1] == rest[|rest| - 1];
    }
  }

  lemma StillNoEnd(m: Message)
    requires Persists(m)
    ensures !m.payload.ToEnd?
  {
  }

  /** Requests report their own methods. */
  lemma {:induction false} SameVerb(ms: seq<Message>, kind: Kind, v: Method, w: Method)
    requires forall i :: 0 <= i < |ms| ==> kind == if ms[i].Asking? then HttpTypes.Request else HttpTypes.Response
    requires kind == HttpTypes.Request || v == w
    ensures StreamEvents(ms, v) == StreamEvents(ms, w)
    decreases |ms|
  {
    hide MessageEvents;
    if ms != [] {
      SameVerb(ms[1..], kind, v, w);
    }
  }
}
