/** Streams of messages on one connection, in any calls. */
module HttpStreams {
  import opened HttpTypes
  import opened HttpSwitch
  import opened HttpInvariant
  import opened HttpCall
  import opened HttpSplit
  import opened HttpExecute
  import opened HttpMicro
  import opened HttpLengths
  import opened HttpHeaders
  import opened HttpChunked
  import opened HttpResponse
  import opened HttpText
  import opened HttpConnection
  import opened HttpRequestLine
  import opened HttpHead
  import opened HttpFraming
  import opened HttpMessages
  import opened HttpRoom

  // ------------------------------------------------------------------ header bytes of a message

  /** The head without its last byte. */
  function HeadButLf(m: Message): seq<char> { StartText(m) + (Lines(m.headers) + [CR]) }

  lemma HeadIs(m: Message)
    ensures MessageHead(m) == HeadButLf(m) + [LF]
  {
    hide StartText, Lines;
  }

  /** At the line feed of the blank line nothing but the start line and the header lines has been reported. */
  lemma HeadButLfRead(c: Core, m: Message) returns (g: Core)
    requires Expects(c, m) && IsMessage(m)
    ensures CoreOk(c) && CoreOk(g) && g.state.HeadersAlmostDone? && EndsPlainly(g)
    ensures Micros(c, HeadButLf(m)) == Moved(g, StartEvents(m) + LinesEvents(m.headers))
  {
    hide Micros, CoreOk, Refuses, HeadRead, Announced, AsksUpgrade, IsStart, IsPayload, StartText, IsHeader, Expects, EndsPlainly, StartEvents;
    KindOf(c, m);
    var d := StartRead(c, m);
    NotRefused(m);
    assert StartsLine([CR]);
    var e := AllLines(d, m.headers, [CR]);
    NoConnect(c, m);
    FramedAs(d, m, e);
    HeadLines(d, m.headers, e);
    g := e.(state := HeadersAlmostDone);
    AlmostDone(e, g);
    PlainOn(e, g);
    assert LinesEvents(m.headers) + [] == LinesEvents(m.headers);
    Then(c, StartText(m), d, StartEvents(m), Lines(m.headers) + [CR], g, LinesEvents(m.headers));
  }

  /** The line feed of the blank line resets the count. */
  lemma HeadTally(c: Core, m: Message, n: nat)
    requires Expects(c, m) && IsMessage(m)
    ensures CoreOk(c) && Micros(c, MessageHead(m)).Moved?
    ensures Tally(c, n, MessageHead(m)) == 0 && Peak(c, n, MessageHead(m)) <= n + |MessageHead(m)|
  {
    hide Micros, CoreOk, Tally, Peak, IsMessage, Expects, EndsPlainly, MessageHead, HeadButLf;
    var f := HeadTextRead(c, m);
    var g := HeadButLfRead(c, m);
    HeadIs(m);
    TallyConcat(c, n, HeadButLf(m), [LF]);
    MicrosSplit(c, HeadButLf(m), [LF]);
    LfResets(g, Tally(c, n, HeadButLf(m)));
    TallyBound(c, n, MessageHead(m));
  }

  lemma PlainOn(e: Core, g: Core)
    requires EndsPlainly(e) && g == e.(state := HeadersAlmostDone)
    ensures EndsPlainly(g)
  {
  }

  lemma LfResets(g: Core, n: nat)
    requires CoreOk(g) && g.state.HeadersAlmostDone? && EndsPlainly(g) && Micros(g, [LF]).Moved?
    ensures Tally(g, n, [LF]) == 0
  {
    HeadersEnd(g);
    hide CoreOk, Switch, EndsPlainly, HeadLeft, MicroStep;
    MicrosOne(g, LF);
    TallyOne(g, n, LF);
  }

  // -------------------------------------------------------------------------------- of the body

  /** Bytes of a body are not counted. */
  lemma {:induction false} Uncounted(c: Core, n: nat, s: seq<char>)
    requires CoreOk(c) && (c.state.BodyIdentity? || c.state.ChunkData? || c.state.BodyIdentityEof?) && !c.upgrade && !c.flags.skipBody
    requires c.state.BodyIdentityEof? || |s| <= c.contentLength
    ensures Tally(c, n, s) == n && Peak(c, n, s) == n
    decreases |s|
  {
    hide MicroStep, CoreOk, NextTally, Left;
    if s != [] {
      BodyNext(c, s[0], n);
      var d := MicroStep(c, s[0]).core;
      MicroStepOk(c, s[0]);
      if |s| > 1 {
        LongerBody(c, s[0]);
        Uncounted(d, n, s[1..]);
      } else {
        assert Tally(d, n, s[1..]) == n && Peak(d, n, s[1..]) == n;
      }
    }
  }

  lemma BodyNext(c: Core, ch: char, n: nat)
    requires CoreOk(c) && (c.state.BodyIdentity? || c.state.ChunkData? || c.state.BodyIdentityEof?) && !c.upgrade && !c.flags.skipBody
    ensures MicroStep(c, ch).Moved? && NextTally(c, n, ch) == n
  {
    hide MicroStep, NewMessage;
    BodyMicro(c, ch);
    assert Switch(c, ch) == BodyByte(c, ch) by { IsBody(c, ch); }
    hide Switch;
  }

  lemma IsBody(c: Core, ch: char)
    requires CoreOk(c) && IsBodyState(c.state)
    ensures Switch(c, ch) == BodyByte(c, ch)
  {
    hide BodyByte, CoreOk;
  }

  lemma LongerBody(c: Core, ch: char)
    requires CoreOk(c) && (c.state.BodyIdentity? || c.state.ChunkData? || c.state.BodyIdentityEof?) && !c.upgrade && !c.flags.skipBody
    requires c.state.BodyIdentityEof? || c.contentLength > 1
    ensures MicroStep(c, ch).core == if c.state.BodyIdentityEof? then c else c.(contentLength := c.contentLength - 1)
  {
    hide MicroStep, NewMessage;
    BodyMicro(c, ch);
  }

  /** A size line ends with a reset. */
  lemma SizeTally(c: Core, n: nat, k: nat, ext: seq<char>)
    requires CoreOk(c) && c.state.ChunkSizeStart? && k <= MAX_HEX && IsExt(ext)
    ensures Micros(c, SizeText(k, ext)) == Moved(AfterSize(c, k), [ChunkHeader(k)]) && CoreOk(AfterSize(c, k))
    ensures Tally(c, n, SizeText(k, ext)) == 0 && Peak(c, n, SizeText(k, ext)) <= n + |SizeText(k, ext)|
  {
    hide Micros, ToHex, AfterSize, Tally, Peak, IsExt;
    SizeRead(c, k, ext);
    TallyBound(c, n, SizeText(k, ext));
    var x := ToHex(k) + (ext + [CR]);
    assert SizeText(k, ext) == x + [LF];
    MicrosSplit(c, x, [LF]);
    TallyConcat(c, n, x, [LF]);
    var e := SizeCr(c, k, ext);
    SizeLf(e, Tally(c, n, x));
  }

  lemma SizeCr(c: Core, k: nat, ext: seq<char>) returns (e: Core)
    requires CoreOk(c) && c.state.ChunkSizeStart? && k <= MAX_HEX && IsExt(ext)
    ensures CoreOk(e) && e.state.ChunkSizeAlmostDone? && Micros(c, ToHex(k) + (ext + [CR])) == Moved(e, [])
  {
    hide Micros, ToHex;
    HexRoundTrip(k);
    ChunkSizeExact(c, ToHex(k));
    var d := c.(contentLength := k, state := ChunkSize);
    assert CoreOk(d);
    ExtRead(d, ext);
    var f := if ext == [] then d else d.(state := ChunkParameters);
    e := f.(state := ChunkSizeAlmostDone);
    assert CoreOk(e);
    SizeEndSteps(f, e);
    MicrosOne(f, CR);
    hide CoreOk, IsExt, MicroStep;
    Then(d, ext, f, [], [CR], e, []);
    Then(c, ToHex(k), d, [], ext + [CR], e, []);
  }

  lemma SizeLf(e: Core, n: nat)
    requires CoreOk(e) && e.state.ChunkSizeAlmostDone? && Micros(e, [LF]).Moved?
    ensures Tally(e, n, [LF]) == 0
  {
    hide MicroStep, Tally, Micros;
    MicrosOne(e, LF);
    TallyOne(e, n, LF);
    IsBody(e, LF);
    hide Switch;
  }

  /** The line end behind the data of a chunk is not counted, and resets as well. */
  lemma DataEndTally(c: Core, n: nat)
    requires CoreOk(c) && c.state.ChunkDataAlmostDone?
    ensures Tally(c, n, CRLF) == 0 && Peak(c, n, CRLF) == n
  {
    hide MicroStep, Tally, Peak, Micros;
    var d := c.(state := ChunkDataDone);
    assert CoreOk(d);
    DataEndSteps(c, d);
    MicrosOne(c, CR);
    IsBody(c, CR);
    IsBody(d, LF);
    assert CRLF == [CR] + [LF];
    TallyConcat(c, n, [CR], [LF]);
    TallyOne(c, n, CR);
    TallyOne(d, n, LF);
    hide Switch;
    PeakOne(c, n, CR);
    PeakOne(d, n, LF);
  }

  lemma PeakOne(c: Core, n: nat, ch: char)
    requires CoreOk(c) && MicroStep(c, ch).Moved?
    ensures Peak(c, n, [ch]) == Max(n, NextTally(c, n, ch))
  {
    hide MicroStep, CoreOk, NextTally;
    assert [ch][1..] == [];
    MicroStepOk(c, ch);
    var d, k := MicroStep(c, ch).core, NextTally(c, n, ch);
    assert Peak(d, k, []) == k;
  }

  lemma ChunkTally(c: Core, n: nat, k: Chunk)
    requires CoreOk(c) && c.state.ChunkSizeStart? && IsChunk(k) && !c.upgrade && !c.flags.skipBody
    ensures Tally(c, n, ChunkText(k)) == 0 && Peak(c, n, ChunkText(k)) <= n + |SizeText(|k.data|, k.ext)|
  {
    hide Micros, SizeText, Tally, Peak, IsExt;
    var size := |k.data|;
    SizeTally(c, n, size, k.ext);
    var a := AfterSize(c, size);
    ChunkRead(a, k.data);
    Uncounted(a, 0, k.data);
    var b := a.(contentLength := 0, state := ChunkDataAlmostDone);
    assert CoreOk(b);
    hide CoreOk;
    DataEndTally(b, 0);
    TallyConcat(a, 0, k.data, CRLF);
    TallyConcat(c, n, SizeText(size, k.ext), k.data + CRLF);
  }

  /** Every size line fits into `room`. */
  predicate SizesFit(chunks: seq<Chunk>, room: nat) {
    forall i :: 0 <= i < |chunks| ==> |SizeText(|chunks[i].data|, chunks[i].ext)| <= room
  }

  lemma {:induction false} ChunksTally(c: Core, chunks: seq<Chunk>, room: nat)
    requires CoreOk(c) && c.state.ChunkSizeStart? && !c.upgrade && !c.flags.skipBody
    requires (forall i :: 0 <= i < |chunks| ==> IsChunk(chunks[i])) && SizesFit(chunks, room)
    ensures Tally(c, 0, ChunksText(chunks)) == 0 && Peak(c, 0, ChunksText(chunks)) <= room
    decreases |chunks|
  {
    hide Micros, CoreOk, IsChunk, ChunkText, ChunkEvents, SizeText, Tally, Peak;
    if chunks == [] {
      NothingTallied(c);
    } else {
      ChunkTally(c, 0, chunks[0]);
      ChunkMicros(c, chunks[0]);
      var d := c.(contentLength := 0);
      ChunksTally(d, chunks[1..], room);
      TallyConcat(c, 0, ChunkText(chunks[0]), ChunksText(chunks[1..]));
    }
  }

  lemma NothingTallied(c: Core)
    requires CoreOk(c)
    ensures Tally(c, 0, []) == 0 && Peak(c, 0, []) == 0
  {
  }

  /** Header bytes the trailer of a message leaves counted for the next one. */
  function Carry(m: Message): nat {
    if m.payload.Chunks? then |Lines(m.payload.trailers)| + 2 else 0
  }

  /** Head, size lines and trailer fit into `room`, with n bytes counted before. */
  predicate MessageFits(m: Message, n: nat, room: nat) {
    && n + |MessageHead(m)| <= room && Carry(m) <= room
    && (m.payload.Chunks? ==> SizesFit(m.payload.chunks, room) && |SizeText(0, [])| <= room)
  }

  lemma PayloadTally(f: Core, m: Message, room: nat)
    requires BodyDue(f, m) && IsPayload(m.payload) && Announced(m) && MessageFits(m, 0, room)
    ensures Tally(f, 0, PayloadText(m.payload)) <= Carry(m) && Peak(f, 0, PayloadText(m.payload)) <= room
  {
    hide Micros, CoreOk, Wanted, CodeView, IsChunk, SizeText, Refuses, Tally, Peak, MessageHead, SizesFit, IsKept;
    match m.payload
    case Nothing => NothingTallied(f);
    case Sized(data) => Uncounted(f, 0, data);
    case Chunks(chunks, trailers) =>
      ChunksTally(f, chunks, room);
      ChunksRead(f, chunks);
      var a := if chunks == [] then f else f.(contentLength := 0);
      var end := Lines(trailers) + CRLF;
      NoExt();
      SizeTally(a, 0, 0, []);
      TallyConcat(a, 0, SizeText(0, []), end);
      TallyBound(AfterSize(a, 0), 0, end);
      TallyConcat(f, 0, ChunksText(chunks), SizeText(0, []) + end);
    case ToEnd(data) => Uncounted(f, 0, data);
  }

  lemma NoExt()
    ensures IsExt([])
  {
  }

  lemma MessageTally(c: Core, m: Message, n: nat, room: nat)
    requires Expects(c, m) && IsMessage(m) && MessageFits(m, n, room)
    ensures Tally(c, n, MessageText(m)) <= Carry(m) && Peak(c, n, MessageText(m)) <= room
  {
    hide Micros, CoreOk, Tally, Peak, Expects, IsStart, Announced, AsksUpgrade, Headers, MessageHead, PayloadText, BodyDue, SizesFit, Carry;
    KindOf(c, m);
    HeadTally(c, m, n);
    var f := HeadTextRead(c, m);
    PayloadTally(f, m, room);
    DueOk(f, m);
    TallyConcat(c, n, MessageHead(m), PayloadText(m.payload));
  }

  lemma DueOk(f: Core, m: Message)
    requires BodyDue(f, m)
    ensures CoreOk(f)
  {
  }

  /** Every message fits, behind what the one before has left. */
  predicate StreamFits(ms: seq<Message>, n: nat, room: nat) {
    ms != [] ==> MessageFits(ms[0], n, room) && StreamFits(ms[1..], Carry(ms[0]), room)
  }

  lemma {:induction false} StreamTally(c: Core, ms: seq<Message>, n: nat, room: nat)
    requires StreamStart(c) && IsStream(c.kind, ms) && StreamFits(ms, n, room) && n <= room
    ensures Peak(c, n, StreamText(ms)) <= room
    decreases |ms|
  {
    hide Micros, CoreOk, IsMessage, Persists, MessageText, Tally, Peak, MessageFits;
    if ms == [] {
      EmptyPeak(c, n);
    } else {
      StreamSplits(c.kind, ms);
      var m := ms[0];
      MessageTally(c, m, n, room);
      var d := MessageRead(c, m);
      TallyConcat(c, n, MessageText(m), StreamText(ms[1..]));
      var t := Tally(c, n, MessageText(m));
      CarryFits(m, n, room);
      if ms[1..] != [] {
        StillNoEnd(m);
        StreamTally(d, ms[1..], Carry(m), room);
        PeakMono(d, t, Carry(m), StreamText(ms[1..]));
      } else {
        TallyBound(d, t, []);
      }
    }
  }

  lemma CarryFits(m: Message, n: nat, room: nat)
    requires MessageFits(m, n, room)
    ensures Carry(m) <= room
  {
  }

  lemma EmptyPeak(c: Core, n: nat)
    requires CoreOk(c)
    ensures Peak(c, n, []) == n
  {
  }

  // ---------------------------------------------------------------------------------- the theorems

  /** Where a stream ends, by its last message. */
  ghost predicate EndsAs(kind: Kind, m: Message, c: Call) {
    && Ready(c) && c.core.kind == kind && !c.core.upgrade
    && c.core.state == if m.payload.ToEnd? then BodyIdentityEof else if Persists(m) then FirstState(kind) else Dead
  }

  lemma Fresh(kind: Kind)
    requires kind != HttpTypes.Both
    ensures StreamStart(InitCore(kind)) && Ready(Init(kind)) && Init(kind).core == InitCore(kind) && Init(kind).nread == 0 && Init(kind).log == []
  {
  }

  /**
   Any stream of messages on a connection that is kept after all but perhaps the last, from a
   fresh parser and in any calls: either the header limit is exceeded, or every message is reported
   with exactly its own callbacks, in order, and the parser is left where the last message says:
   waiting for another, taking no more, or inside a body that the connection ends.
   */
  lemma StreamDelivered(kind: Kind, ms: seq<Message>, pieces: seq<seq<char>>)
    requires kind != HttpTypes.Both && IsStream(kind, ms) && ms != []
    requires Flatten(pieces) == StreamText(ms) && forall i :: 0 <= i < |pieces| ==> pieces[i] != []
    ensures var r := FeedAll(Init(kind), pieces);
            r == Failed(HeaderOverflow) || (EndsAs(kind, ms[|ms| - 1], r) && r.log == StreamEvents(ms, DELETE))
  {
    hide Micros, CoreOk, IsStream, StreamText, StreamEvents, FeedAll, Flatten, Init, InitCore, StreamStart, Persists, Ready, EndsAs, Follows;
    Fresh(kind);
    InitVerb(kind);
    var d := StreamRead(InitCore(kind), ms);
    CallsAgree(Init(kind), pieces);
    var r := FeedAll(Init(kind), pieces);
    if r != Failed(HeaderOverflow) {
      EndsThere(kind, ms[|ms| - 1], d, StreamEvents(ms, DELETE), r);
    }
  }

  lemma EndsThere(kind: Kind, m: Message, d: Core, ev: seq<Event>, r: Call)
    requires Ready(r) && Follows(Init(kind), Moved(d, ev), r) && d.kind == kind && !d.upgrade
    requires d.state == if m.payload.ToEnd? then BodyIdentityEof else if Persists(m) then FirstState(kind) else Dead
    ensures EndsAs(kind, m, r) && r.log == ev
  {
    hide Persists, CoreOk;
    assert [] + ev == ev;
  }

  lemma InitVerb(kind: Kind)
    ensures InitCore(kind).verb == DELETE && InitCore(kind).kind == kind
  {
  }

  /**
   The limit is not exceeded if every head, size line and trailer, and one byte for each call that
   ends inside a header name or value, are below it.
   */
  lemma StreamAccepted(kind: Kind, ms: seq<Message>, pieces: seq<seq<char>>, room: nat)
    requires kind != HttpTypes.Both && IsStream(kind, ms) && ms != []
    requires Flatten(pieces) == StreamText(ms) && forall i :: 0 <= i < |pieces| ==> pieces[i] != []
    requires StreamFits(ms, 0, room) && CoreOk(InitCore(kind)) && room + CallsInside(InitCore(kind), pieces) < MAX_HEADER_SIZE
    ensures FeedAll(Init(kind), pieces).Live? && FeedAll(Init(kind), pieces).nread < MAX_HEADER_SIZE
  {
    hide Micros, CoreOk, IsStream, StreamText, StreamEvents, FeedAll, Flatten, InitCore, StreamStart, StreamFits, Peak, CallsInside;
    Fresh(kind);
    InitVerb(kind);
    StreamTally(InitCore(kind), ms, 0, room);
    var d := StreamRead(InitCore(kind), ms);
    CallsRoom(Init(kind), pieces);
  }

  /** Where a connection is not kept, the first byte that is no line end is an error, whatever follows it. */
  lemma NothingAfterClose(r: Call, ch: char, s: seq<char>)
    requires Ready(r) && r.core.state.Dead? && !IsNewline(ch)
    ensures Feed(r, [ch] + s) == Failed(if r.nread < MAX_HEADER_SIZE then ClosedConnection else HeaderOverflow)
  {
    hide CoreOk;
    var data := [ch] + s;
    assert data[0] == ch && Begin(r) == r;
    assert Steps(r, data, 0) == r;
    assert Steps(r, data, 1) == Step(r, ch);
    assert Steps(r, data, 1).Failed?;
    hide Step, Steps;
    Stays(r, data, 1, |data|);
  }

  /** Line ends after the last message are taken, on a connection that is kept or not. */
  lemma LineEndBetween(r: Call, ch: char)
    requires Ready(r) && IsNewline(ch) && r.nread < MAX_HEADER_SIZE && (r.core.state.Dead? || r.core.state.StartReq?)
    ensures Feed(r, [ch]) == r.(nread := r.nread + 1)
  {
    hide CoreOk;
    assert Begin(r) == r && Steps(r, [ch], 0) == r && Steps(r, [ch], 1) == Step(r, ch);
    hide Steps, Step;
    LineEndTaken(r, ch);
  }

  lemma LineEndTaken(r: Call, ch: char)
    requires Ready(r) && IsNewline(ch) && r.nread < MAX_HEADER_SIZE && (r.core.state.Dead? || r.core.state.StartReq?)
    ensures Step(r, ch) == r.(nread := r.nread + 1)
  {
    hide CoreOk, Switch;
    LineEndIgnored(r.core, ch);
    assert Text(r.core.state, ch) == [];
    assert r.log + [] + [] == r.log;
  }

  lemma LineEndIgnored(c: Core, ch: char)
    requires CoreOk(c) && IsNewline(ch) && (c.state.Dead? || c.state.StartReq?)
    ensures Switch(c, ch) == Go(c)
  {
    hide CoreOk;
  }

  /** The end of the input: it ends a body without an end, is fine between messages, and an error anywhere else. */
  lemma EndOfInput(r: Call)
    requires Ready(r)
    ensures var s := r.core.state;
            Feed(r, []) == if s.BodyIdentityEof? then r.(log := r.log + [MessageComplete])
                           else if s.StartReq? || s.StartRes? || s.StartReqOrRes? || s.Dead? then r
                           else Failed(InvalidEofState)
  {
    hide CoreOk;
    assert Begin(r) == r;
  }

  /** A stream, and what comes after it: the end of the input, or another byte. */
  lemma StreamEnds(kind: Kind, m: Message, r: Call, ch: char, s: seq<char>)
    requires EndsAs(kind, m, r) && kind != HttpTypes.Both
    ensures Feed(r, []) == if m.payload.ToEnd? then r.(log := r.log + [MessageComplete]) else r
    ensures !m.payload.ToEnd? && !Persists(m) && !IsNewline(ch) && r.nread < MAX_HEADER_SIZE ==>
              Feed(r, [ch] + s) == Failed(ClosedConnection)
  {
    hide Feed, CoreOk, Persists;
    EndOfInput(r);
    if r.core.state.Dead? && !IsNewline(ch) {
      NothingAfterClose(r, ch, s);
    }
  }
}
