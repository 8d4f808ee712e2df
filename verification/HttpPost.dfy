/** GET and POST requests as a client prints them, and what the connection makes of every one of them. */
module HttpPost {
  import opened HttpTypes
  import opened HttpSwitch
  import opened HttpInvariant
  import opened HttpCall
  import opened HttpSplit
  import opened HttpMicro
  import opened HttpLengths
  import opened HttpNames
  import opened HttpHeaders
  import opened HttpChunked
  import opened HttpResponse
  import opened HttpText
  import opened HttpConn
  import opened HttpConnection
  import HttpUrlGrammar
  import opened HttpRequestLine
  import opened HttpHead
  import opened HttpFraming
  import opened HttpMessages
  import opened HttpRoom
  import opened HttpStreams
  import opened HttpRequests

  // --------------------------------------------------------------------------- printed requests

  ghost predicate AllPlain(headers: seq<Header>) { forall i :: 0 <= i < |headers| ==> IsPlainHeader(headers[i]) }

  lemma {:induction false} PlainValues(headers: seq<Header>)
    requires AllPlain(headers)
    ensures Values(headers, "content-length") == [] && Values(headers, "transfer-encoding") == [] && Values(headers, "upgrade") == []
    ensures Wanted(headers) == NO_OPTIONS && Headers(headers)
    decreases |headers|
  {
    hide IsPlain, LowerName, IsName, Listed;
    if headers != [] {
      assert IsPlainHeader(headers[0]);
      PlainValues(headers[1..]);
      assert forall i :: 0 <= i < |headers| - 1 ==> headers[1..][i] == headers[i + 1];
    }
  }

  /** "/" + s + "/" + n, of characters a path may have. */
  ghost predicate IsServicePath(s: seq<char>, n: seq<char>) { IsPath("/" + s + "/" + n) && '/' !in s }

  lemma {:induction false} PathRun(w: seq<char>)
    requires forall i :: 0 <= i < |w| ==> IsUrlChar(w[i])
    ensures HttpUrlGrammar.Run(ReqPath, w) == ReqPath
    decreases |w|
  {
    hide IsUrlChar, UrlChar;
    if w != [] {
      HttpUrlGrammar.PathByte(w[0]);
      PathRun(w[1..]);
    }
  }

  lemma PathIsTarget(m: Method, url: seq<char>)
    requires IsPath(url) && m != CONNECT
    ensures IsTarget(m, url)
  {
    hide IsUrlChar;
    HttpUrlGrammar.SchemeByte(url[0]);
    PathRun(url[1..]);
    hide UrlChar;
  }

  /** A request without a body, as a client prints it. */
  function Bare(verb: Method, url: seq<char>, headers: seq<Header>): Message { Asking(verb, url, HTTP11, headers, Nothing) }

  lemma BareIsRequest(verb: Method, url: seq<char>, headers: seq<Header>)
    requires IsPath(url) && AllPlain(headers) && verb != CONNECT
    ensures IsRequest(Bare(verb, url, headers)) && Persists(Bare(verb, url, headers)) && LengthField(headers) == NO_LENGTH
  {
    hide IsPath, AllPlain, Headers;
    PlainValues(headers);
    PathIsTarget(verb, url);
    hide IsTarget, Values, Wanted, Decimal;
    NothingIn();
    assert Nonempty([]) == [];
  }

  function Counted(n: nat): Header { Header("Content-Length", ToDecimal(n)) }

  /** A POST with a Content-Length. */
  function PostMessage(url: seq<char>, headers: seq<Header>, body: seq<char>): Message {
    Asking(POST, url, HTTP11, headers + [Counted(|body|)], if body == [] then Nothing else Sized(body))
  }

  lemma {:induction false} CountedValues(headers: seq<Header>, n: nat)
    requires AllPlain(headers)
    ensures var h := headers + [Counted(n)];
            && Values(h, "content-length") == [ToDecimal(n)] && Values(h, "transfer-encoding") == [] && Values(h, "upgrade") == []
            && Wanted(h) == NO_OPTIONS && Headers(h)
    decreases |headers|
  {
    hide IsPlain, LowerName, IsName, Listed, ToDecimal;
    var h := headers + [Counted(n)];
    if headers == [] {
      CountedHeader(n);
      assert h == [Counted(n)] && [Counted(n)][1..] == [];
    } else {
      assert IsPlainHeader(headers[0]);
      CountedValues(headers[1..], n);
      assert h[1..] == headers[1..] + [Counted(n)] && h[0] == headers[0];
      assert forall i :: 0 <= i < |h| - 1 ==> h[1..][i] == h[i + 1];
    }
  }

  lemma CountedHeader(n: nat)
    ensures var h := Counted(n);
            IsHeader(h) && Key(h) == "content-length" && Key(h) != "transfer-encoding" && Key(h) != "upgrade" && !IsConnection(Key(h))
  {
    FramingNames();
    hide ToDecimal;
    assert |Key(Counted(n))| == 14;
  }

  lemma CountedLength(n: nat)
    requires n <= MAX_DECIMAL
    ensures LengthOk(ToDecimal(n)) && Decimal(0, ToDecimal(n)) == n && Nonempty([ToDecimal(n)]) == [ToDecimal(n)]
  {
    DecimalRoundTrip(n);
    OneLength(ToDecimal(n));
    hide ToDecimal, Decimal;
  }

  lemma PostIsRequest(url: seq<char>, headers: seq<Header>, body: seq<char>)
    requires IsPath(url) && AllPlain(headers) && |body| <= MAX_DECIMAL
    ensures IsRequest(PostMessage(url, headers, body)) && LengthField(headers + [Counted(|body|)]) == |body|
  {
    hide IsPath, AllPlain, Headers, ToDecimal;
    CountedValues(headers, |body|);
    PathIsTarget(POST, url);
    CountedLength(|body|);
    hide IsTarget, Values, Wanted, Decimal, Nonempty;
    NothingIn();
    NoUpgradeIn(headers + [Counted(|body|)]);
  }

  lemma NoUpgradeIn(headers: seq<Header>)
    requires Wanted(headers) == NO_OPTIONS
    ensures !Wanted(headers).upgrade
  {
  }

  // ------------------------------------------------------------------------------- room for them

  /** How many of the pieces end before the first n bytes do. */
  function EndsBefore(pieces: seq<seq<char>>, n: nat): nat
    decreases |pieces|
  {
    if pieces == [] || |pieces[0]| >= n then 0 else 1 + EndsBefore(pieces[1..], n - |pieces[0]|)
  }

  lemma FlattenHead(pieces: seq<seq<char>>)
    requires pieces != []
    ensures Flatten(pieces) == pieces[0] + Flatten(pieces[1..])
  {
  }

  lemma Overlap(p: seq<char>, q: seq<char>, a: seq<char>, b: seq<char>)
    requires p + q == a + b
    ensures |p| < |a| ==> a == p + a[|p|..] && q == a[|p|..] + b
    ensures |p| >= |a| ==> p == a + p[|a|..] && b == p[|a|..] + q
  {
    var w := p + q;
    if |p| < |a| {
      assert a == w[..|a|] && p == w[..|p|] && q == w[|p|..];
    } else {
      assert a == w[..|a|] && p == w[..|p|] && b == w[|a|..];
    }
  }

  /** After a head the next bytes are a body that is not longer than announced, or there are none. */
  ghost predicate OnlyBody(f: Core, b: seq<char>) {
    if f.state.BodyIdentity? then !f.upgrade && !f.flags.skipBody && |b| <= f.contentLength else b == [] && !InNameOrValue(f.state)
  }

  /** Inside a body, and after the whole of it, the parser is not inside a name or value. */
  lemma {:induction false} BodyEnds(f: Core, b: seq<char>, rest: seq<char>)
    requires CoreOk(f) && OnlyBody(f, b + rest)
    ensures Micros(f, b).Moved? && OnlyBody(Micros(f, b).core, rest) && !InNameOrValue(Micros(f, b).core.state)
    decreases |b|
  {
    hide MicroStep, CoreOk, Left;
    if b == [] {
      assert b + rest == rest;
    } else {
      SizedByte(f, b[0]) by { BodyStarts(f); }
      if f.contentLength > 1 {
        assert (b + rest)[1..] == b[1..] + rest;
        BodyEnds(f.(contentLength := f.contentLength - 1), b[1..], rest);
      } else {
        assert b == [b[0]] && rest == [];
        MicrosOne(f, b[0]);
        LeftFlags(f.(contentLength := 0));
      }
    }
  }

  lemma {:induction false} NoneInBody(f: Core, pieces: seq<seq<char>>)
    requires CoreOk(f) && OnlyBody(f, Flatten(pieces))
    ensures CallsInside(f, pieces) == 0
    decreases |pieces|
  {
    hide Micros, CoreOk, Flatten;
    if pieces != [] {
      FlattenHead(pieces);
      BodyEnds(f, pieces[0], Flatten(pieces[1..]));
      NoneInBody(Micros(f, pieces[0]).core, pieces[1..]);
    }
  }

  /** Only pieces that end before the head does can end inside a header name or value. */
  lemma {:induction false} InsideHeadOnly(c: Core, a: seq<char>, b: seq<char>, pieces: seq<seq<char>>)
    requires CoreOk(c) && Micros(c, a).Moved? && Flatten(pieces) == a + b && OnlyBody(Micros(c, a).core, b)
    ensures CallsInside(c, pieces) <= EndsBefore(pieces, |a|)
    decreases |pieces|
  {
    hide Micros, CoreOk, Flatten, OnlyBody;
    if pieces != [] {
      var p, rest := pieces[0], pieces[1..];
      FlattenHead(pieces);
      Overlap(p, Flatten(rest), a, b);
      if |p| < |a| {
        MicrosSplit(c, p, a[|p|..]);
        InsideHeadOnly(Micros(c, p).core, a[|p|..], b, rest);
      } else {
        BodyEnds(Micros(c, a).core, p[|a|..], Flatten(rest));
        MicrosConcat(c, a, p[|a|..]);
        NoneInBody(Micros(c, p).core, rest);
      }
    }
  }

  /** In any pieces a message whose head and one byte for each piece that ends inside it are below the limit is accepted. */
  lemma HeadAccepted(kind: Kind, m: Message, pieces: seq<seq<char>>)
    requires kind == (if m.Asking? then HttpTypes.Request else HttpTypes.Response) && IsMessage(m) && (m.payload.Nothing? || m.payload.Sized?)
    requires Flatten(pieces) == MessageText(m) && forall i :: 0 <= i < |pieces| ==> pieces[i] != []
    requires |MessageHead(m)| + EndsBefore(pieces, |MessageHead(m)|) < MAX_HEADER_SIZE
    ensures FeedAll(Init(kind), pieces).Live? && FeedAll(Init(kind), pieces).nread < MAX_HEADER_SIZE
  {
    hide Micros, CoreOk, IsMessage, FeedAll, Flatten, CallsInside, InitCore, MessageHead, MessageText, EndsBefore, IsStream, StreamFits, StreamText;
    StreamOfOne(kind, m);
    HeadCalls(kind, m, pieces);
    StreamAccepted(kind, [m], pieces, |MessageHead(m)|);
  }

  lemma StreamOfOne(kind: Kind, m: Message)
    requires kind == (if m.Asking? then HttpTypes.Request else HttpTypes.Response) && IsMessage(m) && (m.payload.Nothing? || m.payload.Sized?)
    ensures IsStream(kind, [m]) && StreamText([m]) == MessageText(m) && StreamFits([m], 0, |MessageHead(m)|)
  {
    hide IsMessage, MessageHead, MessageText;
    var ms := [m];
    assert ms[1..] == [] && StreamText([]) == [];
    assert StreamText(ms) == MessageText(m) + [];
    assert StreamFits([], Carry(m), |MessageHead(m)|);
  }

  /** Calls that end inside a name or value end inside the head. */
  lemma HeadCalls(kind: Kind, m: Message, pieces: seq<seq<char>>)
    requires kind == (if m.Asking? then HttpTypes.Request else HttpTypes.Response) && IsMessage(m) && (m.payload.Nothing? || m.payload.Sized?)
    requires Flatten(pieces) == MessageText(m) && forall i :: 0 <= i < |pieces| ==> pieces[i] != []
    ensures CoreOk(InitCore(kind)) && CallsInside(InitCore(kind), pieces) <= EndsBefore(pieces, |MessageHead(m)|)
  {
    hide Micros, CoreOk, IsMessage, Flatten, CallsInside, InitCore, MessageHead, BodyDue, EndsBefore, Expects, StartEvents, LinesEvents, HeadCallbacks;
    Fresh(kind);
    var c := InitCore(kind);
    StartsAnyway(kind, m);
    KindOf(c, m);
    var f := HeadTextRead(c, m);
    DueOnly(f, m);
    InsideHeadOnly(c, MessageHead(m), PayloadText(m.payload), pieces);
  }

  lemma StartsAnyway(kind: Kind, m: Message)
    requires kind == if m.Asking? then HttpTypes.Request else HttpTypes.Response
    ensures Expects(InitCore(kind), m)
  {
  }

  lemma DueOnly(f: Core, m: Message)
    requires BodyDue(f, m) && (m.payload.Nothing? || m.payload.Sized?)
    ensures OnlyBody(f, PayloadText(m.payload))
  {
  }

  // -------------------------------------------------------------------------- what comes of them

  /**
   A printed GET for "/" + s + "/" + n, in any pieces, if its head and one byte for each piece that
   ends inside it are below the limit: the last recv(), and no other, yields a package, for
   service s and method n and with no body.
   */
  lemma PrintedGet(s: seq<char>, n: seq<char>, headers: seq<Header>, pieces: seq<seq<char>>, k: nat)
    requires IsServicePath(s, n) && AllPlain(headers)
    requires var m := Bare(GET, "/" + s + "/" + n, headers);
             Flatten(pieces) == MessageText(m) && |MessageHead(m)| + EndsBefore(pieces, |MessageHead(m)|) < MAX_HEADER_SIZE
    requires k <= |pieces| && forall i :: 0 <= i < |pieces| ==> pieces[i] != []
    ensures ReceiveAll(pieces[..k]).1 == if k < |pieces| then More else Emitted(Package(s, n, []))
  {
    hide IsPath, AllPlain, MessageText, MessageHead, IsMessage, ReceiveAll, FeedAll, Flatten, EndsBefore;
    var m := Bare(GET, "/" + s + "/" + n, headers);
    BareIsRequest(GET, m.target, headers);
    HeadAccepted(HttpTypes.Request, m, pieces);
    OneRequest(m, pieces, k, s, n);
  }

  /** A printed POST with a Content-Length of 0 is refused by the last recv(), and by no other. */
  lemma EmptyPostRefused(s: seq<char>, n: seq<char>, headers: seq<Header>, pieces: seq<seq<char>>, k: nat)
    requires IsServicePath(s, n) && AllPlain(headers)
    requires var m := PostMessage("/" + s + "/" + n, headers, []);
             Flatten(pieces) == MessageText(m) && |MessageHead(m)| + EndsBefore(pieces, |MessageHead(m)|) < MAX_HEADER_SIZE
    requires k <= |pieces| && forall i :: 0 <= i < |pieces| ==> pieces[i] != []
    ensures ReceiveAll(pieces[..k]).1 == if k < |pieces| then More else Rejected
  {
    hide IsPath, AllPlain, MessageText, MessageHead, IsMessage, ReceiveAll, FeedAll, Flatten, EndsBefore, LengthField;
    var m := PostMessage("/" + s + "/" + n, headers, []);
    PostIsRequest(m.target, headers, []);
    HeadAccepted(HttpTypes.Request, m, pieces);
    OneRequest(m, pieces, k, s, n);
  }

  function PostHead(url: seq<char>, headers: seq<Header>, body: seq<char>): seq<char> { MessageHead(PostMessage(url, headers, body)) }

  /** Every printed POST within the header limit is one that SinglePost is about. */
  lemma PrintedPostAccepted(url: seq<char>, headers: seq<Header>, body: seq<char>)
    requires IsPath(url) && 0 < |body| <= MAX_DECIMAL && AllPlain(headers) && |PostHead(url, headers, body)| < MAX_HEADER_SIZE
    ensures AcceptsPost(PostHead(url, headers, body), |body|) && UrlOf(PostHead(url, headers, body)) == url
  {
    hide Micros, MessageHead, IsPath, AllPlain, CoreOk, Steps, IsMessage, StartEvents, LinesEvents, OnEvents, Headers, LengthField, HeadCallbacks, IsHead, PostMessage;
    var m := PostMessage(url, headers, body);
    PostIsRequest(url, headers, body);
    PostParts(url, headers, body);
    var f := HeadRun(m);
    var log := StartEvents(m) + (LinesEvents(m.headers) + HeadCallbacks(m, POST));
    PostFold(m, log);
    PathIsSome(url);
  }

  lemma PostParts(url: seq<char>, headers: seq<Header>, body: seq<char>)
    requires 0 < |body| <= MAX_DECIMAL
    ensures var m := PostMessage(url, headers, body);
            m.Asking? && m.verb == POST && m.payload == Sized(body) && m.target == url && m.headers == headers + [Counted(|body|)]
  {
  }

  /** A printed head below the limit, in one go. */
  lemma HeadRun(m: Message) returns (f: Core)
    requires m.Asking? && IsMessage(m) && m.payload.Sized? && |m.payload.data| > 0 && |MessageHead(m)| < MAX_HEADER_SIZE
    ensures var h := Read(MessageHead(m));
            && Fine(h) && h.core == f && f.state.BodyIdentity? && f.contentLength == |m.payload.data| && !f.upgrade
            && h.log == StartEvents(m) + (LinesEvents(m.headers) + HeadCallbacks(m, m.verb))
  {
    hide Micros, MessageHead, CoreOk, Steps, IsMessage, StartEvents, LinesEvents, BodyDue, Tally, Peak, Headers, HeadCallbacks, Expects;
    var c, head := Init(HttpTypes.Request), MessageHead(m);
    StartsHere(m);
    KindOf(c.core, m);
    f := HeadTextRead(c.core, m);
    DueBody(f, m);
    TallyBound(c.core, 0, head);
    assert head[..|head|] == head;
    StepsRoom(c, head, |head|);
    var log := StartEvents(m) + (LinesEvents(m.headers) + HeadCallbacks(m, m.verb));
    assert [] + log == log;
  }

  lemma PathIsSome(url: seq<char>)
    requires IsPath(url)
    ensures url != []
  {
  }

  lemma PostFold(m: Message, log: seq<Event>)
    requires m.Asking? && m.verb == POST && m.payload.Sized? && log == StartEvents(m) + (LinesEvents(m.headers) + HeadCallbacks(m, POST))
    ensures log != [] && IsHead(log[..|log| - 1]) && log[|log| - 1] == HeadersComplete(POST, LengthField(m.headers))
    ensures OnEvents(EMPTY, log).url == m.target
  {
    hide OnEvents, LinesEvents, LengthField;
    var a, b, h := StartEvents(m), LinesEvents(m.headers), HeadCallbacks(m, POST);
    assert |h| == 1 && log[..|log| - 1] == a + b;
    HeaderText(m.headers);
    assert IsHead(a) && IsHead(b);
    OnEventsConcat(EMPTY, a, b + h);
    StartFold(m);
    var x := EMPTY.(url := m.target);
    OnEventsConcat(x, b, h);
    LinesFold(x, m.headers);
    HeadFoldOn(x, m);
  }

  /** A printed POST goes through in any pieces, if its head and one byte for each piece that ends inside it are below the limit. */
  lemma PrintedPostFed(url: seq<char>, headers: seq<Header>, body: seq<char>, pieces: seq<seq<char>>)
    requires IsPath(url) && 0 < |body| <= MAX_DECIMAL && AllPlain(headers)
    requires var head := PostHead(url, headers, body);
             && |head| + EndsBefore(pieces, |head|) < MAX_HEADER_SIZE
             && Flatten(pieces) == head + body && forall i :: 0 <= i < |pieces| ==> pieces[i] != []
    ensures Fine(FeedAll(Init(HttpTypes.Request), pieces))
  {
    hide Micros, MessageHead, IsPath, AllPlain, CoreOk, Flatten, FeedAll, EndsBefore, IsMessage;
    var m := PostMessage(url, headers, body);
    PostIsRequest(url, headers, body);
    HeadAccepted(HttpTypes.Request, m, pieces);
    StartsHere(m);
    KindOf(InitCore(HttpTypes.Request), m);
    var d := MessageRead(InitCore(HttpTypes.Request), m);
    CallsAgree(Init(HttpTypes.Request), pieces);
  }

  /**
   A printed POST to "/" + s + "/" + n, delivered in any pieces: the last recv(), and no other,
   yields a package, and it is for service s and method n with exactly the body's bytes.
   */
  lemma PrintedPost(s: seq<char>, n: seq<char>, headers: seq<Header>, body: seq<char>, pieces: seq<seq<char>>, k: nat)
    requires IsServicePath(s, n) && 0 < |body| <= MAX_DECIMAL && AllPlain(headers)
    requires var head := PostHead("/" + s + "/" + n, headers, body);
             |head| + EndsBefore(pieces, |head|) < MAX_HEADER_SIZE && Flatten(pieces) == head + body
    requires k <= |pieces| && forall i :: 0 <= i < |pieces| ==> pieces[i] != []
    ensures ReceiveAll(pieces[..k]).1 == if k < |pieces| then More else Emitted(Package(s, n, body))
  {
    hide AcceptsPost, PostHead, UrlOf, ReceiveAll, IsPath, AllPlain, Flatten, FeedAll, EndsBefore;
    PrintedPostAccepted("/" + s + "/" + n, headers, body);
    PrintedPostFed("/" + s + "/" + n, headers, body, pieces);
    SinglePost(PostHead("/" + s + "/" + n, headers, body), body, pieces, s, n, k);
  }
}
