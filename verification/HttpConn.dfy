/** The server's HTTP connection: what the parser's callbacks collect, and the package made of it. */
module HttpConn {
  import opened Options
  import opened HttpTypes
  import opened HttpSwitch
  import opened HttpInvariant
  import opened HttpCall
  import opened HttpSplit
  import opened HttpExecute
  import opened HttpMicro
  import opened HttpChunked
  import opened HttpResponse

  // ------------------------------------------------------------------------- callbacks

  /** What the callbacks write: the URL, the body, and whether a package is due or the request is refused. */
  datatype Inbox = Inbox(url: seq<char>, body: seq<char>, isFinal: bool, refused: bool)

  const EMPTY := Inbox([], [], false, false)

  function OnEvent(x: Inbox, e: Event): Inbox {
    match e
    case Url(b) => x.(url := x.url + [b])
    case Body(b) => x.(body := x.body + [b], isFinal := false)
    case BodyFinal => x.(isFinal := true)
    case HeadersComplete(verb, length) =>
      x.(isFinal := x.isFinal || verb == GET, refused := x.refused || (verb == POST && length == 0))
    case _ => x
  }

  function OnEvents(x: Inbox, log: seq<Event>): Inbox {
    if log == [] then x else OnEvent(OnEvents(x, log[..|log| - 1]), log[|log| - 1])
  }

  lemma {:induction false} OnEventsConcat(x: Inbox, a: seq<Event>, b: seq<Event>)
    ensures OnEvents(x, a + b) == OnEvents(OnEvents(x, a), b)
    decreases |b|
  {
    if b == [] {
      assert a + b == a;
    } else {
      assert (a + b)[..|a + b| - 1] == a + b[..|b| - 1];
      OnEventsConcat(x, a, b[..|b| - 1]);
      hide OnEvent;
    }
  }

  // ------------------------------------------------------------------- service and method

  /** string::find('/', from): the length if there is none. */
  function FindSlash(url: seq<char>, from: nat): (n: nat)
    requires from <= |url|
    ensures from <= n <= |url| && (n < |url| ==> url[n] == '/')
    ensures forall i :: from <= i < n ==> url[i] != '/'
    decreases |url| - from
  {
    if from == |url| || url[from] == '/' then from else FindSlash(url, from + 1)
  }

  datatype Package = Package(service: seq<char>, method_name: seq<char>, body: seq<char>)

  /** With no second slash, find() gives npos: the service is the rest and the method the whole URL. */
  function PackageOf(x: Inbox): Package
    requires x.url != []
  {
    var pos := FindSlash(x.url, 1);
    if pos == |x.url| then Package(x.url[1..], x.url, x.body) else Package(x.url[1..pos], x.url[pos + 1..], x.body)
  }

  /** For "/" + s + "/" + m the service is s and the method m, if s has no slash. */
  lemma SplitUrl(x: Inbox, s: seq<char>, m: seq<char>)
    requires x.url == "/" + s + "/" + m && '/' !in s
    ensures PackageOf(x) == Package(s, m, x.body)
  {
    var pos := FindSlash(x.url, 1);
    assert x.url[1 + |s|] == '/';
    assert forall i :: 1 <= i < 1 + |s| ==> x.url[i] == s[i - 1];
    assert pos == 1 + |s|;
  }

  /** With no second slash the service is what follows the first, and the method the whole URL. */
  lemma OneSlash(x: Inbox, s: seq<char>)
    requires x.url == "/" + s && '/' !in s
    ensures PackageOf(x) == Package(s, "/" + s, x.body)
  {
    var pos := FindSlash(x.url, 1);
    assert forall i :: 1 <= i < |x.url| ==> x.url[i] == s[i - 1];
  }

  // ------------------------------------------------------------------- one recv() at a time

  datatype Verdict = Rejected | More | Emitted(pkg: Package)

  /** The connection between two calls of getRequest. */
  datatype Conn = Conn(call: Call, inbox: Inbox)

  /** What the callbacks have collected after a call that has not failed. */
  ghost function Collect(c: Conn, d: Call): Inbox
    requires c.call.Live? && d.Live?
  {
    OnEvents(c.inbox, if |c.call.log| <= |d.log| then d.log[|c.call.log|..] else [])
  }

  /** What getRequest makes of the flags once the parser has taken the whole piece. */
  function Judge(upgrade: bool, x: Inbox): Verdict {
    if upgrade || x.refused then Rejected
    else if x.isFinal && x.url != [] then Emitted(PackageOf(x))
    else More
  }

  /** getRequest when recv() delivers `piece`. */
  ghost function Receive(c: Conn, piece: seq<char>): (r: (Conn, Verdict))
    requires CallOk(c.call) && c.call.Live?
    ensures CallOk(r.0.call)
  {
    var d := Feed(c.call, piece);
    if d.Failed? then (Conn(d, c.inbox), Rejected)
    else
      var x := Collect(c, d);
      var o := Judge(d.core.upgrade || d.exit, x);
      (Conn(d, if o.Emitted? then x.(isFinal := false) else x), o)
  }

  /** The outcome of the last recv() of a series; a refused connection is closed. */
  ghost function ReceiveAll(pieces: seq<seq<char>>): (r: (Conn, Verdict))
    ensures CallOk(r.0.call) && (!r.1.Rejected? ==> r.0.call.Live?)
    decreases |pieces|
  {
    if pieces == [] then (Conn(Init(Request), EMPTY), More)
    else
      var p := ReceiveAll(pieces[..|pieces| - 1]);
      if p.1.Rejected? then p else Receive(p.0, pieces[|pieces| - 1])
  }

  // ------------------------------------------------------------ the log only grows

  ghost predicate IsHead(log: seq<Event>) {
    forall i :: 0 <= i < |log| ==> log[i].MessageBegin? || log[i].Url? || log[i].Field? || log[i].Value?
  }

  /** `d` comes after `c`: it has logged more, and an upgrade is decided only at the end of a head. */
  ghost predicate After(c: Call, d: Call) {
    && c.Live? && d.Live? && c.log <= d.log
    && (d.core.upgrade == c.core.upgrade || exists i :: |c.log| <= i < |d.log| && d.log[i].HeadersComplete?)
    && (d.exit ==> d.core.upgrade)
  }

  lemma AfterAfter(a: Call, b: Call, c: Call)
    requires After(a, b) && After(b, c) && !b.exit
    ensures After(a, c)
  {
    assert forall i :: 0 <= i < |b.log| ==> c.log[i] == b.log[i];
  }

  /** An upgrade is decided at the end of a head, and only an upgrade ends a call early. */
  ghost predicate OutAfter(c: Core, o: Out) {
    o.Next? ==>
      && (o.core.upgrade == c.upgrade || (o.events != [] && o.events[0].HeadersComplete?))
      && (o.exit ==> o.core.upgrade)
  }

  lemma RequestLineAfter(c: Core, ch: char)
    requires IsRequestLineState(c.state)
    ensures OutAfter(c, RequestLineByte(c, ch))
  {
  }

  lemma ResponseLineAfter(c: Core, ch: char)
    requires IsResponseLineState(c.state)
    ensures OutAfter(c, ResponseLineByte(c, ch))
  {
  }

  lemma HeadersEndAfter(c: Core, ch: char)
    ensures OutAfter(c, HeadersEndByte(c, ch))
  {
    hide NewMessage, NeedsEof;
  }

  lemma FieldStartAfter(c: Core, ch: char)
    ensures OutAfter(c, FieldStartByte(c, ch))
  {
    HeadersEndAfter(c, ch);
    hide HeadersEndByte;
  }

  lemma HeaderAfter(c: Core, ch: char)
    requires IsHeaderState(c.state) && CoreOk(c)
    ensures OutAfter(c, HeaderByte(c, ch))
  {
    hide HeadersEndByte, FieldStartByte, NewMessage, NeedsEof, GuardOk;
    HeadersEndAfter(c, ch);
    FieldStartAfter(c, ch);
    FieldStartAfter(ApplyHeader(c).(state := HeaderFieldStart), ch);
  }

  lemma SwitchAfter(c: Core, ch: char)
    requires CoreOk(c) && !c.state.HeaderField? && !c.state.HeaderValue?
    ensures OutAfter(c, Switch(c, ch))
  {
    hide OutAfter;
    if IsStartState(c.state) {
      StartAfter(c, ch);
    } else if IsResponseLineState(c.state) {
      ResponseLineAfter(c, ch);
    } else if IsRequestLineState(c.state) {
      RequestLineAfter(c, ch);
    } else if IsHeaderState(c.state) {
      HeaderAfter(c, ch);
    } else {
      BodyAfter(c, ch);
    }
    hide StartByte, ResponseLineByte, RequestLineByte, HeaderByte, BodyByte, OutAfter, CoreOk;
  }

  lemma StartAfter(c: Core, ch: char)
    requires IsStartState(c.state) && CoreOk(c)
    ensures OutAfter(c, StartByte(c, ch))
  {
  }

  lemma BodyAfter(c: Core, ch: char)
    requires IsBodyState(c.state) && CoreOk(c)
    ensures OutAfter(c, BodyByte(c, ch))
  {
    hide NewMessage, NeedsEof, GuardOk;
  }

  lemma StepAfter(c: Call, ch: char)
    requires CallOk(c) && c.Live? && !c.exit && Step(c, ch).Live?
    ensures After(c, Step(c, ch))
  {
    hide Switch, CoreOk, IsToken, IsHeaderChar, Text;
    var d := Enter(c);
    if d.core.state.HeaderField? {
    } else if d.core.state.HeaderValue? {
    } else {
      SwitchAfter(d.core, ch);
      var o := Switch(d.core, ch);
      var r := Step(c, ch);
      assert r.log == c.log + o.events + Text(o.core.state, ch);
      assert o.events != [] ==> r.log[|c.log|] == o.events[0];
    }
  }

  lemma {:induction false} StepsAfter(c: Call, data: seq<char>, n: nat)
    requires CallOk(c) && c.Live? && n <= |data| && Steps(c, data, n).Live?
    requires n == 0 || !c.exit
    ensures n > 0 ==> After(c, Steps(c, data, n))
    ensures c.log <= Steps(c, data, n).log
  {
    hide Step, CallOk, After;
    if n > 0 {
      StepsLive(c, data, n - 1, n);
      var d := Steps(c, data, n - 1);
      StepsAfter(c, data, n - 1);
      LastAfter(c, d, data[n - 1], n == 1);
    }
  }

  lemma LastAfter(c: Call, d: Call, ch: char, first: bool)
    requires CallOk(d) && d.Live? && c.Live? && !c.exit && Step(d, ch).Live?
    requires if first then d == c else After(c, d)
    ensures After(c, Step(d, ch)) && c.log <= Step(d, ch).log
  {
    if d.exit {
      assert Step(d, ch) == d;
    } else {
      StepAfter(d, ch);
      hide Step, CallOk;
      if !first {
        AfterAfter(c, d, Step(d, ch));
      }
    }
  }

  lemma FeedAfter(c: Call, data: seq<char>)
    requires Ready(c) && data != [] && Feed(c, data).Live?
    ensures After(c, Feed(c, data))
  {
    hide Step;
    assert Begin(c) == c;
    StepsAfter(c, data, |data|);
    hide Steps, CoreOk;
    var d := Steps(c, data, |data|);
    assert Count(d) == d.(nread := Count(d).nread, run := 0, skip := false);
  }

  lemma SelfAfter(c: Call)
    requires c.Live? && !c.exit
    ensures After(c, c)
  {
  }

  // --------------------------------------------------------------------- a single POST

  /** The parser after reading `s` in one call, short of the accounting at its end. */
  ghost function Read(s: seq<char>): (r: Call)
    ensures CallOk(r)
  {
    Steps(Init(Request), s, |s|)
  }

  /**
   The head is that of one POST with a body of `n` bytes: reading it, the parser calls
   on_headers_complete once, at its end, and then waits for the body.
   */
  ghost predicate AcceptsPost(head: seq<char>, n: nat) {
    var h := Read(head);
    && Fine(h) && h.core.state.BodyIdentity? && h.core.contentLength == n && !h.core.upgrade
    && h.log != [] && IsHead(h.log[..|h.log| - 1]) && h.log[|h.log| - 1] == HeadersComplete(POST, n)
    && UrlOf(head) != []
  }

  ghost function UrlOf(head: seq<char>): seq<char> {
    var h := Read(head);
    if h.Live? then OnEvents(EMPTY, h.log).url else []
  }

  lemma {:induction false} HeadFold(log: seq<Event>)
    requires IsHead(log)
    ensures OnEvents(EMPTY, log) == EMPTY.(url := OnEvents(EMPTY, log).url)
    decreases |log|
  {
    if log != [] {
      HeadFold(log[..|log| - 1]);
      hide OnEvents;
    }
  }

  lemma {:induction false} BodyFold(x: Inbox, b: seq<char>)
    ensures OnEvents(x, TextEvents(BodyText, b)) == x.(body := x.body + b, isFinal := b == [] && x.isFinal)
    decreases |b|
  {
    if b != [] {
      var t, ch := b[..|b| - 1], b[|b| - 1];
      assert TextEvents(BodyText, b)[..|b| - 1] == TextEvents(BodyText, t);
      assert TextEvents(BodyText, b)[|b| - 1] == Body(ch);
      BodyFold(x, t);
      assert x.body + t + [ch] == x.body + b;
    }
  }

  /** The inbox when the head is in: the URL, and nothing else yet. */
  lemma HeadIn(head: seq<char>, n: nat)
    requires AcceptsPost(head, n) && n > 0
    ensures OnEvents(EMPTY, Read(head).log) == EMPTY.(url := UrlOf(head))
  {
    hide Read, IsHead;
    var log := Read(head).log;
    HeadFold(log[..|log| - 1]);
  }

  /** A call that is fine after more bytes was fine before, and has logged more since. */
  lemma ReadOn(p: seq<char>, rest: seq<char>)
    requires Fine(Read(p + rest))
    ensures Fine(Read(p)) && After(Init(Request), Read(p)) && After(Read(p), Read(p + rest))
  {
    hide Step, CoreOk, After;
    var c, s := Init(Request), p + rest;
    StepsPrefix(c, p, s, |p|);
    StepsLive(c, s, |p|, |s|);
    if Read(p).exit {
      Stays(c, s, |p|, |s|);
    }
    SelfAfter(c);
    SelfAfter(Read(p));
    StepsAfter(c, p, |p|);
    StepsConcat(c, p, rest, |rest|);
    StepsAfter(Read(p), rest, |rest|);
  }

  /** Inside the head: no upgrade, nothing final, nothing refused. */
  lemma InsideHead(head: seq<char>, n: nat, p: seq<char>)
    requires AcceptsPost(head, n) && n > 0 && p <= head
    ensures var r := Read(p);
            && Fine(r) && !r.core.upgrade
            && !OnEvents(EMPTY, r.log).isFinal && !OnEvents(EMPTY, r.log).refused
  {
    hide Read, OnEvents;
    var rest := head[|p|..];
    assert head == p + rest;
    ReadOn(p, rest);
    HeadIn(head, n);
    var r, h := Read(p), Read(head);
    if |r.log| < |h.log| {
      assert r.log == h.log[..|h.log| - 1][..|r.log|];
      assert IsHead(r.log);
      HeadFold(r.log);
    } else {
      assert r.log == h.log;
    }
  }

  /** Inside the body and at its end. */
  lemma InsideBody(head: seq<char>, body: seq<char>, b: seq<char>)
    requires AcceptsPost(head, |body|) && b <= body && body != []
    ensures var r := Read(head + b);
            && Fine(r) && !r.core.upgrade
            && OnEvents(EMPTY, r.log) == Inbox(UrlOf(head), b, b == body, false)
  {
    hide CallOk, OnEvents, TextEvents, UrlOf, NewMessage;
    HeadIn(head, |body|);
    BodyRead(head, body, b);
    var text, x := TextEvents(BodyText, b), EMPTY.(url := UrlOf(head));
    OnEventsConcat(EMPTY, Read(head).log, text);
    BodyFold(x, b);
    assert [] + b == b;
    EndFold(Read(head).log + text, x.(body := b));
    hide Read;
  }

  lemma BodyRead(head: seq<char>, body: seq<char>, b: seq<char>)
    requires Fine(Read(head)) && Read(head).core.state.BodyIdentity? && Read(head).core.contentLength == |body|
    requires !Read(head).core.upgrade && b <= body && body != []
    ensures var h, r := Read(head), Read(head + b);
            var log := h.log + TextEvents(BodyText, b);
            && Fine(r) && !r.core.upgrade && r.log == if b == body then log + [BodyFinal, MessageComplete] else log
  {
    hide CoreOk, TextEvents, NewMessage, Step;
    var c, s := Init(Request), head + b;
    StepsPrefix(c, head, s, |head|);
    assert s[|head|..|s|] == b;
    if |b| < |body| {
      BodyRun(c, s, |head|, |s|);
    } else {
      BodyJump(c, s, |head|, |s|);
    }
    hide Steps;
  }

  lemma EndFold(log: seq<Event>, x: Inbox)
    requires OnEvents(EMPTY, log) == x
    ensures OnEvents(EMPTY, log + [BodyFinal, MessageComplete]) == x.(isFinal := true)
  {
    var l := log + [BodyFinal, MessageComplete];
    assert l[..|l| - 1] == log + [BodyFinal];
    assert (log + [BodyFinal])[..|log|] == log;
  }

  /** What the parser and the callbacks have after any first part of the stream. */
  ghost predicate PartGood(head: seq<char>, body: seq<char>, p: seq<char>) {
    var r := Read(p);
    && Fine(r) && !r.core.upgrade && !OnEvents(EMPTY, r.log).refused
    && (if p == head + body then UrlOf(head) != [] && OnEvents(EMPTY, r.log) == Inbox(UrlOf(head), body, true, false)
        else !OnEvents(EMPTY, r.log).isFinal)
  }

  lemma PartRead(head: seq<char>, body: seq<char>, p: seq<char>)
    requires AcceptsPost(head, |body|) && body != [] && p <= head + body
    ensures PartGood(head, body, p)
  {
    assert UrlOf(head) != [];
    hide AcceptsPost, Read, OnEvents, UrlOf;
    if |p| <= |head| {
      assert p == head[..|p|];
      InsideHead(head, |body|, p);
    } else {
      var b := body[..|p| - |head|];
      assert p == head + b;
      InsideBody(head, body, b);
    }
  }

  lemma {:induction false} FlattenSplit(pieces: seq<seq<char>>, k: nat)
    requires k <= |pieces|
    ensures Flatten(pieces) == Flatten(pieces[..k]) + Flatten(pieces[k..])
    decreases k
  {
    if k > 0 {
      assert pieces[..k][0] == pieces[0] && pieces[..k][1..] == pieces[1..][..k - 1] && pieces[1..][k - 1..] == pieces[k..];
      FlattenSplit(pieces[1..], k - 1);
    } else {
      assert pieces[..0] == [] && pieces[0..] == pieces;
    }
  }

  ghost function Fed(pieces: seq<seq<char>>): (r: Call)
    ensures CallOk(r)
  {
    FeedAll(Init(Request), pieces)
  }

  /** Fed in pieces, the parser is where it is in one call. */
  ghost predicate InStep(pieces: seq<seq<char>>) {
    var f, r := Fed(pieces), Read(Flatten(pieces));
    f.Live? && r.Live? && !f.exit && !r.exit && f.run == 0 && !f.skip && f.log == r.log && f.core == r.core
  }

  /** What is fine to the end is fine on the way, and in step with one call. */
  lemma PiecesIn(pieces: seq<seq<char>>, k: nat)
    requires k <= |pieces| && forall i :: 0 <= i < |pieces| ==> pieces[i] != []
    requires Fine(Fed(pieces))
    ensures InStep(pieces[..k])
  {
    hide Feed, CallOk;
    var c := Init(Request);
    assert pieces == pieces[..k] + pieces[k..];
    FeedAllConcat(c, pieces[..k], pieces[k..]);
    var f := Fed(pieces[..k]);
    assert !Fine(f) ==> FeedAll(f, pieces[k..]) == f;
    if k == 0 {
      assert pieces[..k] == [] && Flatten([]) == [];
      StepsNothing(c);
    } else {
      FlattenInvariance(c, pieces[..k]);
      NotEmpty(pieces[..k]);
      FedAtOnce(Flatten(pieces[..k]));
    }
  }

  lemma StepsNothing(c: Call)
    requires CallOk(c)
    ensures Steps(c, [], 0) == c
  {
  }

  lemma FedAtOnce(s: seq<char>)
    requires s != [] && Feed(Init(Request), s).Live?
    ensures var d, r := Feed(Init(Request), s), Read(s); r.Live? && r.log == d.log && r.core == d.core && r.exit == d.exit
  {
    hide Step, CoreOk, Steps;
    assert Begin(Init(Request)) == Init(Request);
  }

  /** The first k pieces are a first part of the stream, and all of it only when they are all the pieces. */
  lemma PartOfStream(pieces: seq<seq<char>>, k: nat)
    requires k <= |pieces| && forall i :: 0 <= i < |pieces| ==> pieces[i] != []
    ensures Flatten(pieces[..k]) <= Flatten(pieces)
    ensures k < |pieces| <==> Flatten(pieces[..k]) != Flatten(pieces)
  {
    FlattenSplit(pieces, k);
    if k < |pieces| {
      assert pieces[k..][0] == pieces[k];
    } else {
      assert pieces[k..] == [];
    }
  }

  /** What the connection holds after a series of pieces that leaves it waiting. */
  ghost function Holding(pieces: seq<seq<char>>): Conn
    requires Fed(pieces).Live?
  {
    Conn(Fed(pieces), OnEvents(EMPTY, Fed(pieces).log))
  }

  /** One more piece. */
  lemma PieceIn(pieces: seq<seq<char>>, piece: seq<char>)
    requires piece != [] && InStep(pieces) && InStep(pieces + [piece])
    requires ReceiveAll(pieces) == (Holding(pieces), More)
    ensures ReceiveAll(pieces + [piece]) == Receive(Holding(pieces), piece)
    ensures Fed(pieces + [piece]) == Feed(Fed(pieces), piece) && Collect(Holding(pieces), Fed(pieces + [piece])) == OnEvents(EMPTY, Fed(pieces + [piece]).log)
  {
    var f, d := Fed(pieces), Fed(pieces + [piece]);
    hide Feed, CallOk, OnEvents, Receive, Flatten, Read;
    FeedAllConcat(Init(Request), pieces, [piece]);
    assert [piece][0] == piece && [piece][1..] == [];
    assert FeedAll(f, [piece]) == FeedAll(Feed(f, piece), []) == Feed(f, piece);
    assert Ready(f);
    FeedAfter(f, piece);
    var more := d.log[|f.log|..];
    assert d.log == f.log + more;
    OnEventsConcat(EMPTY, f.log, more);
    assert (pieces + [piece])[..|pieces|] == pieces;
  }

  /** The outcome the specification promises after the first k pieces. */
  ghost predicate Promised(head: seq<char>, body: seq<char>, pieces: seq<seq<char>>, k: nat)
    requires k <= |pieces|
  {
    var q := pieces[..k];
    if k < |pieces| then InStep(q) && ReceiveAll(q) == (Holding(q), More)
    else UrlOf(head) != [] && ReceiveAll(q).1 == Emitted(PackageOf(Inbox(UrlOf(head), body, true, false)))
  }

  lemma Decide(c: Conn, piece: seq<char>, d: Call, x: Inbox)
    requires CallOk(c.call) && c.call.Live? && d == Feed(c.call, piece) && d.Live? && x == Collect(c, d)
    requires !d.core.upgrade && !d.exit && !x.refused
    ensures !x.isFinal ==> Receive(c, piece) == (Conn(d, x), More)
    ensures x.isFinal && x.url != [] ==> Receive(c, piece).1 == Emitted(PackageOf(x))
  {
    hide Feed, CallOk, Collect;
  }

  lemma ReceivesNext(q: seq<seq<char>>, piece: seq<char>)
    requires piece != [] && InStep(q) && InStep(q + [piece]) && ReceiveAll(q) == (Holding(q), More)
    requires var f := Fed(q + [piece]); !f.core.upgrade && !OnEvents(EMPTY, f.log).refused
    ensures var x := OnEvents(EMPTY, Fed(q + [piece]).log);
            && (!x.isFinal ==> ReceiveAll(q + [piece]) == (Holding(q + [piece]), More))
            && (x.isFinal && x.url != [] ==> ReceiveAll(q + [piece]).1 == Emitted(PackageOf(x)))
  {
    hide CallOk, ReceiveAll, OnEvents, Feed, Collect, Receive, Read, Fed, Flatten;
    PieceIn(q, piece);
    Decide(Holding(q), piece, Fed(q + [piece]), OnEvents(EMPTY, Fed(q + [piece]).log));
  }

  lemma NextPiece(head: seq<char>, body: seq<char>, pieces: seq<seq<char>>, k: nat)
    requires AcceptsPost(head, |body|) && body != [] && Flatten(pieces) == head + body && 0 < k <= |pieces|
    requires forall i :: 0 <= i < |pieces| ==> pieces[i] != []
    requires Fine(Fed(pieces)) && Promised(head, body, pieces, k - 1)
    ensures Promised(head, body, pieces, k)
  {
    hide AcceptsPost, CallOk, Flatten, FeedAll, ReceiveAll, OnEvents, UrlOf, Feed, Collect, Receive;
    hide PartGood, Read, Fed, Holding, InStep;
    var q, piece := pieces[..k - 1], pieces[k - 1];
    assert pieces[..k] == q + [piece];
    PartOfStream(pieces, k);
    PartRead(head, body, Flatten(pieces[..k]));
    PiecesIn(pieces, k);
    PartSays(head, body, pieces[..k]);
    ReceivesNext(q, piece);
  }

  lemma PartSays(head: seq<char>, body: seq<char>, pieces: seq<seq<char>>)
    requires PartGood(head, body, Flatten(pieces)) && InStep(pieces)
    ensures var f := Fed(pieces);
            && Fine(f) && !f.core.upgrade && !OnEvents(EMPTY, f.log).refused
            && (if Flatten(pieces) == head + body then UrlOf(head) != [] && OnEvents(EMPTY, f.log) == Inbox(UrlOf(head), body, true, false)
                else !OnEvents(EMPTY, f.log).isFinal)
  {
    hide Read, Fed, OnEvents, UrlOf, Flatten;
  }

  lemma {:induction false} Receives(head: seq<char>, body: seq<char>, pieces: seq<seq<char>>, k: nat)
    requires AcceptsPost(head, |body|) && body != [] && Flatten(pieces) == head + body && k <= |pieces|
    requires Fine(Fed(pieces)) && forall i :: 0 <= i < |pieces| ==> pieces[i] != []
    ensures Promised(head, body, pieces, k)
    decreases k
  {
    hide AcceptsPost, Flatten, Fed;
    if k == 0 {
      Nothing(head, body, pieces);
    } else {
      hide Promised;
      Receives(head, body, pieces, k - 1);
      NextPiece(head, body, pieces, k);
    }
  }

  lemma Nothing(head: seq<char>, body: seq<char>, pieces: seq<seq<char>>)
    requires body != [] && Flatten(pieces) == head + body
    ensures Promised(head, body, pieces, 0)
  {
    assert pieces != [];
    assert pieces[..0] == [] && Flatten([]) == [];
    StepsNothing(Init(Request));
    hide CallOk;
  }

  /**
   A single POST over a connection, in whatever pieces it is delivered and accepted: every
   recv() but the last leaves getRequest waiting, and the last one yields one package with
   exactly the body's bytes and, for the URL "/" + s + "/" + m with no slash in s, service s
   and method m.
   */
  lemma SinglePost(head: seq<char>, body: seq<char>, pieces: seq<seq<char>>, s: seq<char>, m: seq<char>, k: nat)
    requires AcceptsPost(head, |body|) && body != [] && Flatten(pieces) == head + body
    requires forall i :: 0 <= i < |pieces| ==> pieces[i] != []
    requires Fine(FeedAll(Init(Request), pieces))
    requires UrlOf(head) == "/" + s + "/" + m && '/' !in s
    requires k <= |pieces|
    ensures ReceiveAll(pieces[..k]).1 == if k < |pieces| then More else Emitted(Package(s, m, body))
  {
    hide ReceiveAll, AcceptsPost;
    Receives(head, body, pieces, k);
    SplitUrl(Inbox(UrlOf(head), body, true, false), s, m);
  }
}
