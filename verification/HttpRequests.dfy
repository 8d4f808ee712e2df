/** One request on an HTTP connection, of any method and in any pieces: which recv() yields what. */
module HttpRequests {
  import opened HttpTypes
  import opened HttpSwitch
  import opened HttpInvariant
  import opened HttpCall
  import opened HttpSplit
  import opened HttpExecute
  import opened HttpMicro
  import opened HttpLengths
  import opened HttpNames
  import opened HttpHeaders
  import opened HttpChunked
  import opened HttpResponse
  import opened HttpText
  import opened HttpConn
  import opened HttpConnection
  import HttpUrlGrammar
  import opened HttpRequestLine
  import opened HttpHead
  import opened HttpFraming
  import opened HttpMessages
  import opened HttpRoom
  import opened HttpStreams

  // ---------------------------------------------------------------------------- the callbacks

  /** No package comes of these callbacks, and no refusal. */
  predicate Calm(log: seq<Event>) {
    forall i :: 0 <= i < |log| ==>
      !log[i].BodyFinal? && (log[i].HeadersComplete? ==> log[i].verb != GET && !(log[i].verb == POST && log[i].length == 0))
  }

  lemma {:induction false} CalmFold(log: seq<Event>)
    requires Calm(log)
    ensures !OnEvents(EMPTY, log).isFinal && !OnEvents(EMPTY, log).refused
    decreases |log|
  {
    if log != [] {
      CalmFold(log[..|log| - 1]);
    }
  }

  lemma CalmConcat(a: seq<Event>, b: seq<Event>)
    ensures Calm(a + b) <==> Calm(a) && Calm(b)
  {
    if Calm(a + b) {
      assert forall i :: 0 <= i < |a| ==> a[i] == (a + b)[i];
      assert forall i :: 0 <= i < |b| ==> b[i] == (a + b)[|a| + i];
    }
  }

  lemma {:induction false} CalmLines(headers: seq<Header>)
    ensures Calm(LinesEvents(headers))
    decreases |headers|
  {
    if headers != [] {
      CalmLines(headers[1..]);
      CalmConcat(LineEvents(headers[0].name, headers[0].value), LinesEvents(headers[1..]));
    }
  }

  lemma CalmStart(m: Message)
    ensures Calm(StartEvents(m)) && forall s: seq<char> :: Calm(TextEvents(BodyText, s))
  {
  }

  lemma {:induction false} CalmChunks(chunks: seq<Chunk>)
    ensures Calm(ChunksEvents(chunks))
    decreases |chunks|
  {
    if chunks != [] {
      CalmChunks(chunks[1..]);
      CalmConcat(ChunkEvents(chunks[0].data), ChunksEvents(chunks[1..]));
    }
  }

  // ------------------------------------------------------------------------------ what is promised

  /** The request is one the connection understands: a GET has no body. */
  ghost predicate IsRequest(m: Message) {
    IsMessage(m) && m.Asking? && (m.verb == GET ==> m.payload.Nothing?)
  }

  /** What the last recv() yields. */
  function Outcome(m: Message, service: seq<char>, name: seq<char>): Verdict
    requires m.Asking?
  {
    if m.verb == GET then Emitted(Package(service, name, []))
    else if m.payload.Sized? then Emitted(Package(service, name, m.payload.data))
    else if m.payload.Nothing? && m.verb == POST && LengthField(m.headers) == 0 then Rejected
    else More
  }

  /** The request without its last byte, if that makes a difference. */
  function Early(m: Message): seq<char> {
    if m.payload.Nothing? then HeadButLf(m)
    else if m.payload.Sized? && m.payload.data != [] then MessageHead(m) + m.payload.data[..|m.payload.data| - 1]
    else MessageText(m)
  }

  lemma LengthIs(m: Message)
    requires IsRequest(m)
    ensures m.payload.Sized? ==> m.payload.data != [] && LengthField(m.headers) == |m.payload.data|
    ensures m.payload.Chunks? ==> LengthField(m.headers) == NO_LENGTH
    ensures !m.payload.ToEnd? && m.verb != CONNECT
  {
    hide Values, Nonempty, SaysChunked, Decimal, IsTarget, Wanted, Mentions;
  }

  /** Part of a sized body. */
  lemma {:induction false} PartOfBody(c: Core, s: seq<char>)
    requires CoreOk(c) && c.state.BodyIdentity? && !c.upgrade && !c.flags.skipBody && |s| < c.contentLength
    ensures Micros(c, s).Moved? && Micros(c, s).events == TextEvents(BodyText, s)
    decreases |s|
  {
    hide MicroStep, CoreOk, Left;
    if s != [] {
      SizedByte(c, s[0]);
      BodyCons(s);
      PartOfBody(c.(contentLength := c.contentLength - 1), s[1..]);
    }
  }

  /** Before its last byte a request comes to nothing. */
  lemma EarlyIsCalm(m: Message)
    requires IsRequest(m)
    ensures CoreOk(InitCore(HttpTypes.Request))
    ensures Micros(InitCore(HttpTypes.Request), Early(m)).Moved? && Calm(Micros(InitCore(HttpTypes.Request), Early(m)).events)
  {
    hide Micros, CoreOk, IsMessage, MessageHead, HeadButLf, PayloadText, StartEvents, LinesEvents, TextEvents, Calm, InitCore, BodyDue, Announced;
    var c := InitCore(HttpTypes.Request);
    StartsHere(m);
    KindOf(c, m);
    LengthIs(m);
    CalmStart(m);
    CalmLines(m.headers);
    CalmConcat(StartEvents(m), LinesEvents(m.headers));
    if m.payload.Nothing? {
      var g := HeadButLfRead(c, m);
    } else {
      var f := HeadTextRead(c, m);
      var hc := HeadCallbacks(m, m.verb);
      CalmHead(m);
      CalmConcat(LinesEvents(m.headers), hc);
      CalmConcat(StartEvents(m), LinesEvents(m.headers) + hc);
      if m.payload.Sized? {
        var t := m.payload.data[..|m.payload.data| - 1];
        DueBody(f, m);
        PartOfBody(f, t);
        MicrosConcat(c, MessageHead(m), t);
        CalmConcat(StartEvents(m) + (LinesEvents(m.headers) + hc), TextEvents(BodyText, t));
      } else {
        var d := MessageRead(c, m);
        CalmPayload(m);
        CalmConcat(StartEvents(m) + (LinesEvents(m.headers) + hc), PayloadEvents(m.payload));
      }
    }
  }

  lemma DueBody(f: Core, m: Message)
    requires BodyDue(f, m)
    ensures CoreOk(f) && !f.upgrade && !f.flags.skipBody && (m.payload.Sized? ==> f.state.BodyIdentity? && f.contentLength == |m.payload.data|)
  {
  }

  lemma CalmHead(m: Message)
    requires !m.payload.Nothing? && m.Asking? && m.verb != GET && LengthField(m.headers) != 0
    ensures Calm(HeadCallbacks(m, m.verb))
  {
  }

  lemma CalmPayload(m: Message)
    requires m.payload.Chunks?
    ensures Calm(PayloadEvents(m.payload))
  {
    hide LinesEvents, ChunksEvents;
    var end := [ChunkComplete, MessageComplete];
    assert Calm(end) && Calm([ChunkHeader(0)]);
    CalmChunks(m.payload.chunks);
    CalmLines(m.payload.trailers);
    hide Calm;
    CalmConcat(LinesEvents(m.payload.trailers), end);
    CalmConcat([ChunkHeader(0)], LinesEvents(m.payload.trailers) + end);
    CalmConcat(ChunksEvents(m.payload.chunks), [ChunkHeader(0)] + (LinesEvents(m.payload.trailers) + end));
  }

  lemma StartsHere(m: Message)
    requires m.Asking?
    ensures Expects(InitCore(HttpTypes.Request), m)
  {
  }

  lemma {:induction false} HeaderFold(x: Inbox, log: seq<Event>)
    requires IsHeaderText(log)
    ensures OnEvents(x, log) == x
    decreases |log|
  {
    if log != [] {
      HeaderFold(x, log[..|log| - 1]);
    }
  }

  lemma {:induction false} UrlFold(x: Inbox, url: seq<char>)
    ensures OnEvents(x, UrlEvents(url)) == x.(url := x.url + url)
    decreases |url|
  {
    if url != [] {
      var t := url[..|url| - 1];
      assert UrlEvents(url)[..|url| - 1] == UrlEvents(t);
      UrlFold(x, t);
      assert x.url + t + [url[|url| - 1]] == x.url + url;
    }
  }

  /** What all the callbacks of the request leave in the inbox. */
  ghost function InboxOf(m: Message): Inbox
    requires m.Asking?
  {
    OnEvents(EMPTY, MessageEvents(m, m.verb))
  }

  lemma LinesFold(x: Inbox, headers: seq<Header>)
    ensures OnEvents(x, LinesEvents(headers)) == x
  {
    HeaderText(headers);
    HeaderFold(x, LinesEvents(headers));
  }

  lemma StartFold(m: Message)
    requires m.Asking?
    ensures OnEvents(EMPTY, StartEvents(m)) == EMPTY.(url := m.target)
  {
    var begin := [MessageBegin];
    assert begin[..0] == [] && OnEvents(EMPTY, begin) == EMPTY;
    UrlFold(EMPTY, m.target);
    OnEventsConcat(EMPTY, begin, UrlEvents(m.target));
    assert [] + m.target == m.target;
  }

  lemma HeadFoldOn(x: Inbox, m: Message)
    requires m.Asking?
    ensures OnEvents(x, HeadCallbacks(m, m.verb)) ==
            x.(isFinal := x.isFinal || m.verb == GET, refused := x.refused || (m.verb == POST && LengthField(m.headers) == 0))
  {
    var hc := HeadersComplete(m.verb, LengthField(m.headers));
    assert [hc][..0] == [] && [hc, MessageComplete][..1] == [hc];
    assert [hc] + [] == [hc] && [hc] + [MessageComplete] == [hc, MessageComplete];
    assert OnEvents(x, [hc]) == OnEvent(OnEvents(x, []), hc);
  }

  lemma {:induction false} ChunksFold(x: Inbox, chunks: seq<Chunk>)
    requires !x.isFinal
    ensures var y := OnEvents(x, ChunksEvents(chunks)); !y.isFinal && y.refused == x.refused && y.url == x.url
    decreases |chunks|
  {
    if chunks == [] {
      assert OnEvents(x, []) == x;
    } else {
      var k := chunks[0];
      ChunkFold(x, k.data);
      var y := OnEvents(x, ChunkEvents(k.data));
      ChunksFold(y, chunks[1..]);
      OnEventsConcat(x, ChunkEvents(k.data), ChunksEvents(chunks[1..]));
    }
  }

  lemma ChunkFold(x: Inbox, data: seq<char>)
    requires !x.isFinal
    ensures var y := OnEvents(x, ChunkEvents(data)); !y.isFinal && y.refused == x.refused && y.url == x.url
  {
    var a, t, z := [ChunkHeader(|data|)], TextEvents(BodyText, data), [ChunkComplete];
    assert a[..0] == [] && z[..0] == [];
    OnEventsConcat(x, a + t, z);
    OnEventsConcat(x, a, t);
    BodyFold(x, data);
    hide TextEvents;
    assert OnEvents(x, a) == x;
    var y := OnEvents(x, t);
    assert OnEvents(y, z) == y;
  }

  lemma TrailerFold(x: Inbox, trailers: seq<Header>)
    ensures OnEvents(x, [ChunkHeader(0)] + (LinesEvents(trailers) + [ChunkComplete, MessageComplete])) == x
  {
    var a, z := [ChunkHeader(0)], [ChunkComplete, MessageComplete];
    assert a[..0] == [] && z[..1] == [ChunkComplete] && [ChunkComplete][..0] == [];
    assert OnEvents(x, a) == x;
    assert OnEvents(x, [ChunkComplete]) == x;
    assert OnEvents(x, z) == x;
    LinesFold(x, trailers);
    hide OnEvents, LinesEvents;
    OnEventsConcat(x, LinesEvents(trailers), z);
    OnEventsConcat(x, a, LinesEvents(trailers) + z);
  }

  /** A request whose body has no length comes to nothing, as no on_body call is its last. */
  lemma ChunksComeToNothing(x: Inbox, m: Message)
    requires m.payload.Chunks? && !x.isFinal
    ensures var y := OnEvents(x, PayloadEvents(m.payload)); !y.isFinal && y.refused == x.refused && y.url == x.url
  {
    hide OnEvents, ChunksEvents, LinesEvents;
    var end := [ChunkHeader(0)] + (LinesEvents(m.payload.trailers) + [ChunkComplete, MessageComplete]);
    ChunksFold(x, m.payload.chunks);
    OnEventsConcat(x, ChunksEvents(m.payload.chunks), end);
    TrailerFold(OnEvents(x, ChunksEvents(m.payload.chunks)), m.payload.trailers);
  }

  lemma SizedFold(x: Inbox, data: seq<char>)
    requires data != []
    ensures OnEvents(x, TextEvents(BodyText, data) + [BodyFinal, MessageComplete]) == x.(body := x.body + data, isFinal := true)
  {
    var z := [BodyFinal, MessageComplete];
    var y := OnEvents(x, TextEvents(BodyText, data));
    assert z[..1] == [BodyFinal] && [BodyFinal][..0] == [];
    assert OnEvents(y, [BodyFinal]) == y.(isFinal := true);
    assert OnEvents(y, z) == y.(isFinal := true);
    BodyFold(x, data);
    hide OnEvents, TextEvents;
    OnEventsConcat(x, TextEvents(BodyText, data), z);
  }

  /** What the whole request leaves, by its method and payload. */
  lemma WholeFold(m: Message)
    requires IsRequest(m)
    ensures var x := InboxOf(m);
            && x.url == m.target
            && x.refused == (m.verb == POST && LengthField(m.headers) == 0)
            && x.isFinal == (m.verb == GET || m.payload.Sized?)
            && (!m.payload.Chunks? ==> x.body == if m.payload.Sized? then m.payload.data else [])
  {
    hide OnEvents, StartEvents, LinesEvents, HeadCallbacks, LengthField, IsMessage, PayloadEvents;
    LengthIs(m);
    var a, b, h, p := StartEvents(m), LinesEvents(m.headers), HeadCallbacks(m, m.verb), PayloadEvents(m.payload);
    OnEventsConcat(EMPTY, a + (b + h), p);
    OnEventsConcat(EMPTY, a, b + h);
    StartFold(m);
    var x := EMPTY.(url := m.target);
    OnEventsConcat(x, b, h);
    LinesFold(x, m.headers);
    HeadFoldOn(x, m);
    PayloadFold(OnEvents(x, h), m);
  }

  lemma PayloadFold(x: Inbox, m: Message)
    requires m.payload.Sized? ==> m.payload.data != []
    requires m.payload.Chunks? ==> !x.isFinal
    requires !m.payload.ToEnd?
    ensures var y := OnEvents(x, PayloadEvents(m.payload));
            && (m.payload.Nothing? ==> y == x)
            && (m.payload.Sized? ==> y == x.(body := x.body + m.payload.data, isFinal := true))
            && (m.payload.Chunks? ==> !y.isFinal && y.refused == x.refused && y.url == x.url)
  {
    if m.payload.Sized? {
      SizedFold(x, m.payload.data);
    } else if m.payload.Chunks? {
      ChunksComeToNothing(x, m);
    }
  }

  // ------------------------------------------------------------------------- on the connection

  /** Reading a first part of the request in one call, when the whole of it is fine. */
  lemma PartRead(m: Message, p: seq<char>)
    requires IsRequest(m) && p <= MessageText(m) && Fine(Read(MessageText(m)))
    ensures var r := Read(p);
            && Fine(r) && !r.core.upgrade
            && (p != MessageText(m) ==> !OnEvents(EMPTY, r.log).isFinal && !OnEvents(EMPTY, r.log).refused)
            && (p == MessageText(m) ==> r.log == MessageEvents(m, m.verb))
  {
    hide Read, Micros, IsMessage, MessageText, MessageEvents, OnEvents, Early, Calm, CoreOk;
    var w := MessageText(m);
    var rest := w[|p|..];
    assert w == p + rest;
    ReadOn(p, rest);
    WholeLog(m);
    PartLog(m, p);
    NoUpgradeYet(m, p);
    if p != w {
      CalmFold(Read(p).log);
    }
  }

  lemma WholeLog(m: Message)
    requires IsRequest(m) && Fine(Read(MessageText(m)))
    ensures var r := Read(MessageText(m)); r.log == MessageEvents(m, m.verb) && !r.core.upgrade
  {
    hide Micros, IsMessage, MessageText, MessageEvents, CoreOk, Steps;
    var c, w := Init(HttpTypes.Request), MessageText(m);
    StartsHere(m);
    KindOf(c.core, m);
    var d := MessageRead(c.core, m);
    assert w[..|w|] == w;
    StepsAgree(c, w, |w|);
    assert [] + MessageEvents(m, m.verb) == MessageEvents(m, m.verb);
  }

  /** A proper part has only callbacks that come to nothing. */
  lemma PartLog(m: Message, p: seq<char>)
    requires IsRequest(m) && p <= MessageText(m) && Fine(Read(p))
    ensures p != MessageText(m) ==> Calm(Read(p).log)
  {
    hide Micros, IsMessage, MessageText, CoreOk, Steps, Early, Calm;
    var c := Init(HttpTypes.Request);
    if p != MessageText(m) {
      EarlyIsCalm(m);
      EarlyIsMost(m, p);
      var e := Early(m);
      assert e == p + e[|p|..];
      MicrosSplit(c.core, p, e[|p|..]);
      assert p[..|p|] == p;
      StepsAgree(c, p, |p|);
      var ev := Micros(c.core, p).events;
      assert [] + ev == ev;
      CalmConcat(ev, Micros(Micros(c.core, p).core, e[|p|..]).events);
    }
  }

  lemma EarlyIsMost(m: Message, p: seq<char>)
    requires IsRequest(m) && p <= MessageText(m) && p != MessageText(m)
    ensures p <= Early(m)
  {
    hide IsMessage, MessageHead, HeadButLf, PayloadText;
    LengthIs(m);
    HeadIs(m);
    var w := MessageText(m);
    if m.payload.Nothing? {
      assert PayloadText(m.payload) == [] by { NoText(m); }
      assert w == HeadButLf(m) + [LF];
    } else if m.payload.Sized? {
      var d := m.payload.data;
      assert PayloadText(m.payload) == d by { NoText(m); }
      assert w == Early(m) + [d[|d| - 1]];
    }
  }

  lemma NoText(m: Message)
    ensures m.payload.Nothing? ==> PayloadText(m.payload) == []
    ensures m.payload.Sized? ==> PayloadText(m.payload) == m.payload.data
  {
  }

  /** An upgrade is decided at the end of a head only, and not for this one. */
  lemma NoUpgradeYet(m: Message, p: seq<char>)
    requires IsRequest(m) && p <= MessageText(m) && Fine(Read(MessageText(m))) && Fine(Read(p))
    requires HttpConn.After(Init(HttpTypes.Request), Read(p)) && HttpConn.After(Read(p), Read(MessageText(m)))
    ensures !Read(p).core.upgrade
  {
    hide Read, IsMessage, MessageText;
    WholeLog(m);
    OneHead(m);
  }

  /** The headers are reported once. */
  lemma OneHead(m: Message)
    ensures var log := MessageEvents(m, if m.Asking? then m.verb else DELETE);
            forall i, j :: 0 <= i < j < |log| && log[i].HeadersComplete? ==> !log[j].HeadersComplete?
  {
    hide StartEvents, LinesEvents, PayloadEvents;
    var a, b, h, p := StartEvents(m), LinesEvents(m.headers), HeadCallbacks(m, if m.Asking? then m.verb else DELETE), PayloadEvents(m.payload);
    HeadFree(m);
    var log := a + (b + h) + p;
    var at := |a| + |b|;
    assert log[at] == h[0];
    forall i | 0 <= i < |log| && i != at
      ensures !log[i].HeadersComplete?
    {
      if i < |a| {
        assert log[i] == a[i];
      } else if i < at {
        assert log[i] == b[i - |a|];
      } else if i < at + |h| {
        assert log[i] == h[i - at];
      } else {
        assert log[i] == p[i - at - |h|];
      }
    }
  }

  predicate NoHeads(log: seq<Event>) { forall i :: 0 <= i < |log| ==> !log[i].HeadersComplete? }

  lemma HeadFree(m: Message)
    ensures NoHeads(StartEvents(m)) && NoHeads(LinesEvents(m.headers)) && NoHeads(PayloadEvents(m.payload))
  {
    hide LinesEvents, ChunksEvents;
    LinesFree(m.headers);
    if m.payload.Chunks? {
      LinesFree(m.payload.trailers);
      ChunksFree(m.payload.chunks);
    }
  }

  lemma LinesFree(headers: seq<Header>)
    ensures NoHeads(LinesEvents(headers))
  {
    HeaderText(headers);
    hide LinesEvents;
  }

  lemma {:induction false} ChunksFree(chunks: seq<Chunk>)
    ensures NoHeads(ChunksEvents(chunks))
    decreases |chunks|
  {
    if chunks != [] {
      ChunksFree(chunks[1..]);
    }
  }

  /** What the connection has come to after the first k pieces. */
  ghost predicate CameTo(m: Message, pieces: seq<seq<char>>, k: nat, service: seq<char>, name: seq<char>)
    requires k <= |pieces| && m.Asking?
  {
    var q := pieces[..k];
    if k < |pieces| then InStep(q) && ReceiveAll(q) == (Holding(q), More) else ReceiveAll(q).1 == Outcome(m, service, name)
  }

  /** A piece that gets the request refused. */
  lemma RefusedNext(q: seq<seq<char>>, piece: seq<char>)
    requires piece != [] && InStep(q) && InStep(q + [piece]) && ReceiveAll(q) == (Holding(q), More)
    requires OnEvents(EMPTY, Fed(q + [piece]).log).refused
    ensures ReceiveAll(q + [piece]).1.Rejected?
  {
    hide CallOk, ReceiveAll, OnEvents, Feed, Collect, Read, Fed, Flatten;
    PieceIn(q, piece);
  }

  /** The flags after the whole request, and what is made of them. */
  lemma WholeJudged(m: Message, service: seq<char>, name: seq<char>)
    requires IsRequest(m) && m.target == "/" + service + "/" + name && '/' !in service
    ensures var x := InboxOf(m);
            && (x.refused ==> Outcome(m, service, name) == Rejected)
            && (!x.refused && !x.isFinal ==> Outcome(m, service, name) == More)
            && (!x.refused && x.isFinal ==> x.url != [] && Outcome(m, service, name) == Emitted(PackageOf(x)))
  {
    hide InboxOf, IsMessage, LengthField;
    WholeFold(m);
    LengthIs(m);
    SplitUrl(InboxOf(m), service, name);
    var x := InboxOf(m);
    assert x.url[0] == '/';
  }

  lemma NextPieceIn(m: Message, pieces: seq<seq<char>>, k: nat, service: seq<char>, name: seq<char>)
    requires IsRequest(m) && m.target == "/" + service + "/" + name && '/' !in service
    requires Flatten(pieces) == MessageText(m) && 0 < k <= |pieces| && forall i :: 0 <= i < |pieces| ==> pieces[i] != []
    requires Fine(Fed(pieces)) && Fine(Read(MessageText(m))) && CameTo(m, pieces, k - 1, service, name)
    ensures CameTo(m, pieces, k, service, name)
  {
    hide CallOk, Flatten, FeedAll, ReceiveAll, OnEvents, Feed, Read, Fed, Holding, IsMessage, MessageText, MessageEvents, Outcome;
    var q, piece := pieces[..k - 1], pieces[k - 1];
    assert pieces[..k] == q + [piece];
    PartOfStream(pieces, k);
    PartRead(m, Flatten(pieces[..k]));
    PiecesIn(pieces, k);
    InStepSays(pieces[..k]);
    WholeJudged(m, service, name);
    if OnEvents(EMPTY, Fed(q + [piece]).log).refused {
      RefusedNext(q, piece);
    } else {
      ReceivesNext(q, piece);
    }
  }

  lemma InStepSays(pieces: seq<seq<char>>)
    requires InStep(pieces)
    ensures var f, r := Fed(pieces), Read(Flatten(pieces)); f.Live? && r.Live? && f.log == r.log && f.core == r.core
  {
  }

  lemma {:induction false} RequestReceived(m: Message, pieces: seq<seq<char>>, k: nat, service: seq<char>, name: seq<char>)
    requires IsRequest(m) && m.target == "/" + service + "/" + name && '/' !in service
    requires Flatten(pieces) == MessageText(m) && k <= |pieces| && forall i :: 0 <= i < |pieces| ==> pieces[i] != []
    requires Fine(Fed(pieces)) && Fine(Read(MessageText(m)))
    ensures CameTo(m, pieces, k, service, name)
    decreases k
  {
    hide Flatten, Fed, IsRequest, MessageText, Read;
    if k == 0 {
      NothingYet(m, pieces, service, name);
    } else {
      hide CameTo;
      RequestReceived(m, pieces, k - 1, service, name);
      NextPieceIn(m, pieces, k, service, name);
    }
  }

  lemma NothingYet(m: Message, pieces: seq<seq<char>>, service: seq<char>, name: seq<char>)
    requires IsRequest(m) && Flatten(pieces) == MessageText(m)
    ensures CameTo(m, pieces, 0, service, name)
  {
    hide IsMessage, MessageText;
    SomeText(m);
    assert pieces != [];
    assert pieces[..0] == [] && Flatten([]) == [];
    StepsNothing(Init(HttpTypes.Request));
    hide CallOk;
  }

  lemma SomeText(m: Message)
    ensures MessageText(m) != []
  {
    HeadIs(m);
    hide HeadButLf, PayloadText, MessageHead;
  }

  /**
   One request on a fresh connection, of any method, with any header lines and in any pieces in which the
   parser does not exceed its header limit: every recv() but the last leaves getRequest waiting.
   The last one yields a package for a GET, or for a body of known length: for "/" + s + "/" + n
   with no slash in s it is service s, method n and exactly that body. A POST whose length is 0 is refused
   by it, and anything else is left waiting.
   */
  lemma OneRequest(m: Message, pieces: seq<seq<char>>, k: nat, service: seq<char>, name: seq<char>)
    requires IsRequest(m) && m.target == "/" + service + "/" + name && '/' !in service
    requires Flatten(pieces) == MessageText(m) && k <= |pieces| && forall i :: 0 <= i < |pieces| ==> pieces[i] != []
    ensures FeedAll(Init(HttpTypes.Request), pieces) == Failed(HeaderOverflow) ||
            ReceiveAll(pieces[..k]).1 == if k < |pieces| then More else Outcome(m, service, name)
  {
    hide Micros, CoreOk, IsMessage, MessageText, MessageEvents, Flatten, FeedAll, ReceiveAll, Outcome, Read;
    var c := Init(HttpTypes.Request);
    StartsHere(m);
    KindOf(c.core, m);
    var d := MessageRead(c.core, m);
    CallsAgree(c, pieces);
    if FeedAll(c, pieces).Live? {
      PiecesIn(pieces, |pieces|);
      assert pieces[..|pieces|] == pieces;
      FineRead(pieces);
      RequestReceived(m, pieces, k, service, name);
    }
  }

  lemma FineRead(pieces: seq<seq<char>>)
    requires InStep(pieces) && Fine(Fed(pieces))
    ensures Fine(Read(Flatten(pieces)))
  {
    hide Read, Fed;
  }

  // ------------------------------------------------------------------------- a GET with a body

  /** The head of a GET and a first part of its body. */
  lemma PartOfGet(m: Message, part: seq<char>)
    requires IsMessage(m) && m.Asking? && m.verb == GET && m.payload.Sized? && part <= m.payload.data && part != m.payload.data
    ensures CoreOk(InitCore(HttpTypes.Request))
    ensures var r := Micros(InitCore(HttpTypes.Request), MessageHead(m) + part);
            && r.Moved? && !r.core.upgrade
            && r.events == StartEvents(m) + (LinesEvents(m.headers) + HeadCallbacks(m, GET)) + TextEvents(BodyText, part)
  {
    hide Micros, CoreOk, IsMessage, MessageHead, StartEvents, LinesEvents, TextEvents, InitCore, BodyDue;
    var c := InitCore(HttpTypes.Request);
    StartsHere(m);
    KindOf(c, m);
    var f := HeadTextRead(c, m);
    DueBody(f, m);
    PartOfBody(f, part);
    PartKeeps(f, part);
    MicrosConcat(c, MessageHead(m), part);
  }

  lemma {:induction false} PartKeeps(c: Core, s: seq<char>)
    requires CoreOk(c) && c.state.BodyIdentity? && !c.upgrade && !c.flags.skipBody && |s| < c.contentLength
    ensures Micros(c, s).Moved? && !Micros(c, s).core.upgrade
    decreases |s|
  {
    hide MicroStep, CoreOk, Left;
    if s != [] {
      SizedByte(c, s[0]);
      PartKeeps(c.(contentLength := c.contentLength - 1), s[1..]);
    }
  }

  lemma PartFold(m: Message, part: seq<char>)
    requires m.Asking? && m.verb == GET
    ensures OnEvents(EMPTY, StartEvents(m) + (LinesEvents(m.headers) + HeadCallbacks(m, GET)) + TextEvents(BodyText, part)) ==
            Inbox(m.target, part, part == [], false)
  {
    hide OnEvents, StartEvents, LinesEvents, HeadCallbacks, TextEvents, LengthField;
    var a, b, h := StartEvents(m), LinesEvents(m.headers), HeadCallbacks(m, GET);
    OnEventsConcat(EMPTY, a + (b + h), TextEvents(BodyText, part));
    OnEventsConcat(EMPTY, a, b + h);
    StartFold(m);
    var x := EMPTY.(url := m.target);
    OnEventsConcat(x, b, h);
    LinesFold(x, m.headers);
    HeadFoldOn(x, m);
    BodyFold(OnEvents(x, h), part);
    assert [] + part == part;
  }

  /**
   A GET with a body is not treated as a request with a body: a recv() that ends with its head
   yields the package at once, with no body, while one that ends inside the body waits.
   */
  lemma GetWithBody(m: Message, part: seq<char>, service: seq<char>, name: seq<char>)
    requires IsMessage(m) && m.Asking? && m.verb == GET && m.payload.Sized? && part <= m.payload.data && part != m.payload.data
    requires m.target == "/" + service + "/" + name && '/' !in service
    ensures var piece := MessageHead(m) + part;
            Feed(Init(HttpTypes.Request), piece) == Failed(HeaderOverflow) ||
            Receive(Conn(Init(HttpTypes.Request), EMPTY), piece).1 == if part == [] then Emitted(Package(service, name, [])) else More
  {
    hide Micros, CoreOk, IsMessage, MessageHead, StartEvents, LinesEvents, HeadCallbacks, TextEvents, OnEvents, Feed;
    var c, piece := Init(HttpTypes.Request), MessageHead(m) + part;
    PartOfGet(m, part);
    PartFold(m, part);
    Fresh(HttpTypes.Request);
    HeadIs(m);
    assert piece != [];
    FeedAgrees(c, piece);
    var log := Micros(c.core, piece).events;
    assert [] + log == log && log[0..] == log;
    SplitUrl(Inbox(m.target, part, part == [], false), service, name);
    assert m.target[0] == '/';
  }

  // ---------------------------------------------------------------------------------- upgrades

  /** The last byte of a head that is taken. */
  lemma LastOfHead(c: Call, x: seq<char>, g: Core)
    requires Ready(c) && c.nread == 0 && |x| + 2 <= MAX_HEADER_SIZE && CoreOk(g) && g.state.HeadersAlmostDone?
    requires Micros(c.core, x).Moved? && Micros(c.core, x).core == g && Switch(g, LF).Next?
    ensures Feed(c, x + [LF]).Live? && Feed(c, x + [LF]).core == Switch(g, LF).core
  {
    hide Micros, CoreOk, Switch, Tally, Peak, MicroStep, Step;
    var data := x + [LF];
    assert data[..|x|] == x && Begin(c) == c;
    TallyBound(c.core, 0, x);
    StepsRoom(c, data, |x|);
    var d := Steps(c, data, |x|);
    UsedIs(d);
    LfStep(d);
    assert Steps(c, data, |x| + 1) == Step(d, LF);
    hide Steps;
  }

  lemma LfStep(d: Call)
    requires CallOk(d) && d.Live? && !d.exit && d.core.state.HeadersAlmostDone? && d.nread + 1 <= MAX_HEADER_SIZE && Switch(d.core, LF).Next?
    ensures Step(d, LF).Live? && Step(d, LF).core == Switch(d.core, LF).core && Step(d, LF).run == 0 && Step(d, LF).nread <= MAX_HEADER_SIZE
  {
    hide CoreOk, Switch, Text;
  }

  /** A request head that asks for an upgrade, or is a CONNECT, is refused by the recv() that brings it. */
  lemma UpgradeRefused(verb: Method, url: seq<char>, headers: seq<Header>)
    requires IsTarget(verb, url) && Headers(headers) && CodeView(true, verb == CONNECT, 0, headers) != Refused
    requires AsksToUpgrade(true, verb == CONNECT, 0, headers)
    requires |AnyRequestLine(verb, url) + Head(headers)| + 2 <= MAX_HEADER_SIZE
    ensures Receive(Conn(Init(HttpTypes.Request), EMPTY), AnyRequestLine(verb, url) + Head(headers) + [LF]).1.Rejected?
  {
    hide Micros, CoreOk, CodeView, AsksToUpgrade, IsTarget, AnyRequestLine, Head, Switch, Feed, OnEvents;
    var c := Init(HttpTypes.Request);
    Fresh(HttpTypes.Request);
    assert c.core.state.StartReq?;
    var d := RequestRead(c.core, verb, url);
    assert d.statusCode == 0 && d.kind == HttpTypes.Request;
    UpgradeExact(d, headers);
    MicrosConcat(c.core, AnyRequestLine(verb, url), Head(headers));
    LastOfHead(c, AnyRequestLine(verb, url) + Head(headers), Micros(d, Head(headers)).core);
  }
}
