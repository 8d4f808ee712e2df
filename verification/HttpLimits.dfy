/** Runs from a fresh parser that end at the header limit. */
module HttpLimits {
  import opened HttpTypes
  import opened HttpSwitch
  import opened HttpInvariant
  import opened HttpCall
  import opened HttpSplit
  import opened HttpSplitExact
  import opened HttpSplitLimits
  import opened HttpMicro
  import opened HttpNames
  import opened HttpHeaders
  import opened HttpText
  import opened HttpRequestLine
  import opened HttpRoom
  import opened HttpConn
  import opened HttpServerConn

  // ----------------------------------------------------------------------------- a long value

  /** Inside a plain header value. */
  ghost predicate InPlainValue(c: Call) { Ready(c) && c.core.state.HeaderValue? && c.core.hstate.HGeneral? }

  predicate AllOf(s: seq<char>, ch: char) { forall i :: 0 <= i < |s| ==> s[i] == ch }

  lemma {:induction false} ValueSteps(c: Call, s: seq<char>, n: nat)
    requires InPlainValue(c) && AllOf(s, 'c') && 0 < n <= |s| && c.nread + 1 <= MAX_HEADER_SIZE
    ensures var r := Steps(c, s, n);
            r.Live? && !r.exit && r.core == c.core && r.nread == c.nread + 1 && r.run == n && r.skip
  {
    hide CoreOk;
    if n > 1 {
      ValueSteps(c, s, n - 1);
    } else {
      assert Steps(c, s, 0) == c;
    }
    assert IsHeaderChar('c') && !IsNewline('c');
  }

  /** A call inside a plain value counts its bytes and one more. */
  lemma ValueFed(c: Call, s: seq<char>)
    requires InPlainValue(c) && AllOf(s, 'c') && s != [] && c.nread + |s| + 1 <= MAX_HEADER_SIZE
    ensures InPlainValue(Feed(c, s)) && Feed(c, s).nread == c.nread + |s| + 1
  {
    hide CoreOk, Steps, AllOf;
    ValueSteps(c, s, |s|);
    assert Begin(c) == c;
  }

  lemma Opened()
    ensures InPlainValue(Feed(Init(Request), Opening())) && Feed(Init(Request), Opening()).nread <= 42
  {
    hide Micros, CoreOk, Feed;
    var c, h := Init(Request), Opening();
    var e := OpeningMicros();
    assert |h| <= 40 && h != [];
    hide Opening;
    TallyBound(c.core, 0, h);
    FeedRoom(c, h);
  }

  /**
   From a fresh parser: a request with a value as long as the limit allows. The next two bytes
   are accepted in one call, and overflow the limit in two.
   */
  lemma OverflowsInPieces() returns (s: seq<char>)
    ensures s != [] && AllOf(s, 'c')
    ensures var c := FeedAll(Init(Request), [Opening(), s]);
            && Ready(c) && Feed(c, "cc").Live?
            && Feed(c, "c").Live? && Feed(Feed(c, "c"), "c") == Failed(HeaderOverflow)
  {
    hide CoreOk, Opening, Feed, AllOf, FeedAll;
    Opened();
    var d := Feed(Init(Request), Opening());
    var n: nat := MAX_HEADER_SIZE - 4 - d.nread;
    s := seq(n, _ => 'c');
    AllAre(n, 'c');
    ValueFed(d, s);
    TwoCalls(Init(Request), Opening(), s);
    PlainChar();
    SplitOverflows(Feed(d, s), 'c', 'c');
  }

  lemma PlainChar()
    ensures IsHeaderChar('c') && !IsNewline('c') && "cc" == ['c', 'c'] && "c" == ['c']
  {
  }

  lemma TwoCalls(c: Call, x: seq<char>, y: seq<char>)
    requires CallOk(c) && c.Live? && !c.exit && Feed(c, x).Live? && !Feed(c, x).exit
    ensures FeedAll(c, [x, y]) == Feed(Feed(c, x), y)
  {
    hide CoreOk, Feed;
    var d := Feed(c, x);
    assert [x, y][1..] == [y] && [y][1..] == [];
    assert FeedAll(d, [y]) == FeedAll(Feed(d, y), []);
  }

  lemma AllAre(n: nat, ch: char)
    ensures AllOf(seq(n, _ => ch), ch)
  {
  }

  // ------------------------------------------------------------------------------ a long name

  /** Inside a header name that is none of those looked for, with nothing decided yet. */
  ghost predicate InPlainName(k: Conn) {
    && Ready(k.call) && k.call.core.state.HeaderField? && k.call.core.hstate.HGeneral? && !k.call.core.upgrade
    && !k.inbox.refused && !k.inbox.isFinal
  }

  lemma {:induction false} NameSteps(c: Call, s: seq<char>, n: nat)
    requires Ready(c) && c.core.state.HeaderField? && c.core.hstate.HGeneral?
    requires AllOf(s, 'a') && 0 < n <= |s| && c.nread + 1 <= MAX_HEADER_SIZE
    ensures Steps(c, s, n) == c.(nread := c.nread + 1, run := n, log := c.log + FieldEvents(s[..n]))
  {
    hide CoreOk;
    if n > 1 {
      NameSteps(c, s, n - 1);
      assert (c.log + FieldEvents(s[..n - 1])) + [Field('a')] == c.log + FieldEvents(s[..n]);
    } else {
      assert Steps(c, s, 0) == c;
      assert [Field('a')] == FieldEvents(s[..1]);
    }
    assert IsToken('a');
  }

  lemma FieldsOnly(x: Inbox, s: seq<char>)
    ensures OnEvents(x, FieldEvents(s)) == x
  {
    HeaderTextOnly(x, [], FieldEvents(s));
    assert [] + FieldEvents(s) == FieldEvents(s);
  }

  /** A recv() inside such a name: the connection waits for more. */
  lemma NameReceived(k: Conn, s: seq<char>)
    requires InPlainName(k) && AllOf(s, 'a') && s != [] && k.call.nread + |s| + 1 <= MAX_HEADER_SIZE
    ensures var r := Receive(k, s);
            r.1.More? && InPlainName(r.0) && r.0.inbox == k.inbox && r.0.call.nread == k.call.nread + |s| + 1
  {
    hide CoreOk, Steps, AllOf, OnEvents;
    var c := k.call;
    NameSteps(c, s, |s|);
    assert Begin(c) == c && s[..|s|] == s;
    FieldsOnly(k.inbox, s);
    var d := Feed(c, s);
    assert d == c.(nread := c.nread + |s| + 1, log := c.log + FieldEvents(s));
    assert d.log[|c.log|..] == FieldEvents(s);
  }

  /** One more recv(). */
  lemma ReceivedOneMore(pieces: seq<seq<char>>, s: seq<char>)
    requires !ReceiveAll(pieces).1.Rejected?
    ensures ReceiveAll(pieces + [s]) == Receive(ReceiveAll(pieces).0, s)
  {
    hide Receive;
    assert (pieces + [s])[..|pieces|] == pieces;
  }

  /** By recv()s of a size that fits the buffer, any number of counted bytes can be reached. */
  lemma {:induction false} Fill(pieces: seq<seq<char>>, target: nat) returns (more: seq<seq<char>>)
    requires Waits(pieces) && ReceiveAll(pieces).0.call.nread + 2 <= target <= MAX_HEADER_SIZE
    ensures Waits(more) && ReceiveAll(more).0.call.nread == target
    decreases target - ReceiveAll(pieces).0.call.nread
  {
    var k := ReceiveAll(pieces).0;
    var left: nat := target - k.call.nread;
    var n: nat := if left <= BUFFER then left - 1 else 2000;
    var s := seq(n, _ => 'a');
    AllAre(n, 'a');
    hide AllOf, Receive, ReceiveAll, InPlainName;
    NameReceived(k, s);
    ReceivedOneMore(pieces, s);
    more := pieces + [s];
    if left > BUFFER {
      more := Fill(more, target);
    }
  }

  /** The recv()s fit the buffer, and the connection waits inside a plain header name. */
  ghost predicate Waits(pieces: seq<seq<char>>) {
    && (forall i :: 0 <= i < |pieces| ==> 0 < |pieces[i]| <= BUFFER)
    && ReceiveAll(pieces).1.More? && InPlainName(ReceiveAll(pieces).0)
  }

  /** The last byte below the limit, in a call of its own: no byte is rejected and the call fails. */
  lemma LastByte(k: Conn)
    requires InPlainName(k) && k.call.nread + 1 == MAX_HEADER_SIZE
    ensures var s := Steps(k.call, "a", 1);
            && Feed(k.call, "a") == Failed(HeaderOverflow) && s.Live? && k.call.log <= s.log
            && Judge(s.core.upgrade, OnEvents(k.inbox, s.log[|k.call.log|..])) == More
  {
    hide CoreOk, OnEvents, Steps;
    var c := k.call;
    NameSteps(c, "a", 1);
    FieldsOnly(k.inbox, "a");
    assert Begin(c) == c && "a"[..1] == "a";
    var s := Steps(c, "a", 1);
    assert s.log[|c.log|..] == FieldEvents("a");
  }

  function NameOpening(): seq<char> { AnyRequestLine(POST, "/") + "A" }

  /** A request up to the first byte of a header name. */
  lemma NameMicros() returns (d: Core)
    ensures CoreOk(InitCore(Request)) && CoreOk(d) && d.state.HeaderField? && d.hstate.HGeneral? && !d.upgrade
    ensures Micros(InitCore(Request), NameOpening()) == Moved(d, [MessageBegin] + UrlEvents("/") + [Field('A')])
  {
    hide Micros, CoreOk, RequestLineOf;
    StartsOk();
    SlashIsTarget();
    var c := InitCore(Request);
    var r := RequestLineRead(c, POST, "/", HTTP11);
    d := FirstOfName(r);
    Then(c, AnyRequestLine(POST, "/"), r, [MessageBegin] + UrlEvents("/"), "A", d, [Field('A')]);
  }

  lemma FirstOfName(r: Core) returns (d: Core)
    requires CoreOk(r) && r.state.HeaderFieldStart?
    ensures CoreOk(d) && Micros(r, "A") == Moved(d, [Field('A')]) && d == r.(state := HeaderField, hstate := HGeneral, index := 0)
  {
    hide Micros, HeadersEndByte;
    d := r.(state := HeaderField, hstate := HGeneral, index := 0);
    assert CoreOk(d);
    HeaderStep(r, 'A');
    assert HeaderByte(r, 'A') == Go(d);
    hide MicroStep, HeaderByte, CoreOk;
    MicrosOne(r, 'A');
    assert [] + [Field('A')] == [Field('A')];
  }

  lemma ShortOpening()
    ensures NameOpening() != [] && |NameOpening()| <= 40
  {
  }

  lemma NameOpened()
    ensures Waits([NameOpening()]) && ReceiveAll([NameOpening()]).0.call.nread <= 42
  {
    hide Micros, CoreOk, Feed, NameOpening, OnEvents, UrlEvents;
    var h := NameOpening();
    ShortOpening();
    NameFed();
    var log := [MessageBegin] + UrlEvents("/") + [Field('A')];
    assert log[0..] == log;
    NameFold(log);
    assert ReceiveAll([h]) == Receive(Conn(Init(Request), EMPTY), h) by {
      hide Receive;
      assert [h][..0] == [] && [h] == [] + [h];
    }
  }

  lemma NameFed()
    ensures var r := Feed(Init(Request), NameOpening());
            && Ready(r) && r.core.state.HeaderField? && r.core.hstate.HGeneral? && !r.core.upgrade && r.nread <= 42
            && r.log == [MessageBegin] + UrlEvents("/") + [Field('A')]
  {
    hide Micros, CoreOk, Feed, NameOpening, UrlEvents;
    var c, h := Init(Request), NameOpening();
    ShortOpening();
    var e := NameMicros();
    TallyBound(c.core, 0, h);
    FeedRoom(c, h);
    var log := [MessageBegin] + UrlEvents("/") + [Field('A')];
    assert [] + log == log;
  }

  lemma NameFold(log: seq<Event>)
    requires log == [MessageBegin] + UrlEvents("/") + [Field('A')]
    ensures OnEvents(EMPTY, log) == EMPTY.(url := OnEvents(EMPTY, log).url)
  {
    hide OnEvents;
    HeadFold(log);
  }

  /**
   A connection that fails and is not refused: after these recv()s, each of which fits the buffer,
   the parser fails on the next byte, and the connection waits for more all the same.
   */
  lemma FailsUnnoticed() returns (pieces: seq<seq<char>>)
    ensures forall i :: 0 <= i < |pieces| ==> 0 < |pieces[i]| <= BUFFER
    ensures ReceiveAll(pieces).1.More?
    ensures var k := ReceiveAll(pieces).0;
            && CallOk(k.call) && k.call.Live? && Feed(k.call, "a") == Failed(HeaderOverflow)
            && var s := Steps(k.call, "a", 1);
               && s.Live? && k.call.log <= s.log
               && Judge(s.core.upgrade, OnEvents(k.inbox, s.log[|k.call.log|..])) == More
  {
    hide CoreOk, OnEvents, Steps, Feed, Judge, NameOpening, Receive;
    NameOpened();
    pieces := Fill([NameOpening()], MAX_HEADER_SIZE - 1);
    LastByte(ReceiveAll(pieces).0);
  }
}
