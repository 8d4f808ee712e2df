/** What the broker prints, a response parser reads back. */
module HttpReplies {
  import opened HttpTypes
  import opened HttpSwitch
  import opened HttpInvariant
  import opened HttpCall
  import opened HttpSplit
  import opened HttpExecute
  import opened HttpMicro
  import opened HttpLengths
  import opened HttpNames
  import opened HttpHeaders
  import opened HttpChunked
  import opened HttpResponse
  import opened HttpText
  import opened HttpConnection
  import opened HttpRequestLine
  import opened HttpStatusLine
  import opened HttpHead
  import opened HttpFraming
  import opened HttpMessages
  import opened HttpRoom
  import opened HttpStreams
  import opened HttpPost

  lemma Names()
    ensures IsName("Content-Type") && LowerName("Content-Type") == "content-type"
    ensures IsName("Content-Length") && LowerName("Content-Length") == "content-length"
    ensures IsName("Connection") && LowerName("Connection") == "connection"
  {
  }

  lemma Plain()
    ensures IsPlain("text/html")
    ensures !IsSpecial("content-type")
  {
    var s := "content-type";
    assert |s| == 12 && s[8] == 't';
  }

  /** No body and no end of message among these events. */
  ghost predicate Silent(log: seq<Event>) { BodyOf(log) == [] && CountOf(log, MessageComplete) == 0 }

  lemma SilentConcat(a: seq<Event>, b: seq<Event>)
    ensures BodyOf(a + b) == BodyOf(a) + BodyOf(b)
    ensures CountOf(a + b, MessageComplete) == CountOf(a, MessageComplete) + CountOf(b, MessageComplete)
  {
    BodyOfConcat(a, b);
    CountConcat(a, b, MessageComplete);
  }

  lemma {:induction false} SilentText(log: seq<Event>)
    requires forall i :: 0 <= i < |log| ==> log[i].Field? || log[i].Value?
    ensures Silent(log)
    decreases |log|
  {
    if log != [] {
      SilentText(log[1..]);
    }
  }

  const TYPE := Header("Content-Type", "text/html")
  const CLOSING := Header("Connection", "close")

  /** The broker's response as a message. */
  function Reply(status: nat, resp: seq<char>): Message {
    Answering(HTTP11, status, [], [TYPE, Counted(|resp|), CLOSING], if resp == [] then Nothing else Sized(resp))
  }

  /** It is printed as the broker prints it. */
  lemma ReplyText(status: nat, resp: seq<char>)
    ensures MessageText(Reply(status, resp)) == HttpPackage(status, resp) && MessageHead(Reply(status, resp)) == HttpHeader(status, |resp|)
  {
    hide ToDecimal, StatusLine, StatusLineOf;
    PrintedStatusLine(status);
    ThreeLines(TYPE, Counted(|resp|), CLOSING);
    var l := "Content-Type" + ": " + "text/html" + CRLF + ("Content-Length" + ": " + ToDecimal(|resp|) + CRLF) + ("Connection" + ": " + "close" + CRLF);
    assert StatusLine(status) + (l + CRLF) == HttpHeader(status, |resp|);
  }

  lemma ThreeLines(a: Header, b: Header, c: Header)
    ensures Lines([a, b, c]) ==
            (a.name + ": " + a.value + CRLF) + (b.name + ": " + b.value + CRLF) + (c.name + ": " + c.value + CRLF)
  {
    assert [a, b, c][1..] == [b, c] && [b, c][1..] == [c] && [c][1..] == [];
    assert Lines([c]) == c.name + ": " + c.value + CRLF + Lines([]);
    assert Lines([b, c]) == b.name + ": " + b.value + CRLF + Lines([c]);
  }

  lemma ThreeValues(a: Header, b: Header, c: Header, key: seq<char>)
    ensures Values([a, b, c], key) ==
            (if Key(a) == key then [a.value] else []) + (if Key(b) == key then [b.value] else []) + (if Key(c) == key then [c.value] else [])
    ensures IsConnection(Key(c)) && !IsConnection(Key(a)) && !IsConnection(Key(b)) ==> Wanted([a, b, c]) == Listed(c.value, true)
  {
    hide Key, Listed, IsConnection;
    assert [a, b, c][1..] == [b, c] && [b, c][1..] == [c] && [c][1..] == [];
    assert Values([c], key) == (if Key(c) == key then [c.value] else []) + Values([], key);
    assert Values([b, c], key) == (if Key(b) == key then [b.value] else []) + Values([c], key);
    assert Wanted([]) == NO_OPTIONS && Wanted([c]) == Union(if IsConnection(Key(c)) then Listed(c.value, true) else NO_OPTIONS, Wanted([]));
    assert Wanted([b, c]) == Union(if IsConnection(Key(b)) then Listed(b.value, true) else NO_OPTIONS, Wanted([c]));
  }

  lemma ReplyKeys(n: nat)
    ensures Key(TYPE) == "content-type" && Key(Counted(n)) == "content-length" && Key(CLOSING) == "connection"
    ensures IsHeader(TYPE) && IsHeader(Counted(n)) && IsHeader(CLOSING)
  {
    Names();
    Plain();
    CountedHeader(n);
    hide LowerName, ToDecimal, IsName;
  }

  lemma Different()
    ensures "content-type" != "content-length" && "content-type" != "transfer-encoding" && "content-length" != "transfer-encoding"
    ensures "connection" != "content-length" && "connection" != "transfer-encoding"
    ensures !IsConnection("content-type") && !IsConnection("content-length") && IsConnection("connection")
    ensures "content-type" != "upgrade" && "content-length" != "upgrade" && "connection" != "upgrade"
  {
    assert |"content-type"| == 12 && |"content-length"| == 14 && |"transfer-encoding"| == 17 && |"connection"| == 10 && |"upgrade"| == 7;
  }

  lemma ClosingListed()
    ensures Listed("close", true) == NO_OPTIONS.(close := true)
  {
    hide Named, Unfinished, Comma;
    CommaAt("close", 5);
    Spelled();
    assert [] + "close"[..5] == "close";
  }

  lemma ReplyIsMessage(status: nat, resp: seq<char>)
    requires 100 <= status <= 999 && |resp| <= MAX_DECIMAL
    ensures IsMessage(Reply(status, resp)) && !Persists(Reply(status, resp)) && LengthField(Reply(status, resp).headers) == |resp|
  {
    hide ToDecimal, Listed, Key, IsHeader;
    var n := |resp|;
    ReplyKeys(n);
    Different();
    ThreeValues(TYPE, Counted(n), CLOSING, "content-length");
    ThreeValues(TYPE, Counted(n), CLOSING, "transfer-encoding");
    ThreeValues(TYPE, Counted(n), CLOSING, "upgrade");
    ClosingListed();
    CountedLength(n);
    hide Values, Wanted, Decimal, Nonempty;
    NothingIn();
  }

  lemma HttpHeaderIsShort(status: nat, len: nat)
    requires 100 <= status <= 999 && len <= MAX_DECIMAL
    ensures |HttpHeader(status, len)| <= 120
  {
    CodeDigits(status);
    DecimalShort(len);
    hide ToDecimal;
  }

  lemma {:induction false} FewBefore(pieces: seq<seq<char>>, n: nat)
    requires forall i :: 0 <= i < |pieces| ==> pieces[i] != []
    ensures EndsBefore(pieces, n) <= n
    decreases |pieces|
  {
    if pieces != [] && |pieces[0]| < n {
      FewBefore(pieces[1..], n - |pieces[0]|);
    }
  }

  lemma ReplyHolds(status: nat, resp: seq<char>)
    ensures var log := MessageEvents(Reply(status, resp), DELETE); BodyOf(log) == resp && CountOf(log, MessageComplete) == 1
  {
    hide LinesEvents, TextEvents, BodyOf, CountOf, LengthField;
    var m := Reply(status, resp);
    var a, b, h, p := StartEvents(m), LinesEvents(m.headers), HeadCallbacks(m, DELETE), PayloadEvents(m.payload);
    HeaderText(m.headers);
    SilentText(b);
    Few(m);
    BodyOfText(resp);
    SilentConcat(a + (b + h), p);
    SilentConcat(a, b + h);
    SilentConcat(b, h);
    SilentConcat(TextEvents(BodyText, resp), [BodyFinal, MessageComplete]);
    assert resp + [] == resp;
  }

  lemma Few(m: Message)
    requires m.Answering? && m.reason == []
    ensures Silent(StartEvents(m)) && BodyOf(HeadCallbacks(m, DELETE)) == []
    ensures CountOf(HeadCallbacks(m, DELETE), MessageComplete) == if m.payload.Nothing? then 1 else 0
    ensures BodyOf([BodyFinal, MessageComplete]) == [] && CountOf([BodyFinal, MessageComplete], MessageComplete) == 1
    ensures BodyOf([]) == [] && CountOf([], MessageComplete) == 0
  {
    var begin, hc, last := [MessageBegin], HeadersComplete(DELETE, LengthField(m.headers)), [MessageComplete];
    hide LengthField;
    assert StartEvents(m) == begin && begin[1..] == [] && last[1..] == [] && [hc][1..] == [];
    assert [hc] + [] == [hc] && [hc] + last == [hc, MessageComplete];
    assert [hc, MessageComplete][1..] == last && [BodyFinal, MessageComplete][1..] == last;
  }

  /**
   The printer and the parser undo each other: a response with a three-digit status and
   any body, cut into calls in any way, gives a response parser that status, that body,
   one message_complete, and the dead state that follows "Connection: close".
   */
  lemma ResponseRoundTrip(status: nat, resp: seq<char>, pieces: seq<seq<char>>)
    requires 100 <= status <= 999 && |resp| <= MAX_DECIMAL
    requires Flatten(pieces) == HttpPackage(status, resp) && forall i :: 0 <= i < |pieces| ==> pieces[i] != []
    ensures var r := FeedAll(Init(Response), pieces);
            && Ready(r) && r.core.statusCode == status && r.core.state.Dead?
            && BodyOf(r.log) == resp && CountOf(r.log, MessageComplete) == 1
  {
    hide Micros, CoreOk, IsMessage, Persists, MessageText, MessageHead, MessageEvents, FeedAll, Flatten, HttpPackage, HttpHeader, EndsBefore, BodyOf, CountOf, InitCore;
    var m := Reply(status, resp);
    ReplyText(status, resp);
    ReplyIsMessage(status, resp);
    HttpHeaderIsShort(status, |resp|);
    FewBefore(pieces, |MessageHead(m)|);
    HeadAccepted(Response, m, pieces);
    Fresh(Response);
    var d := ReplyRead(m);
    hide Reply;
    CallsAgree(Init(Response), pieces);
    ReplyHolds(status, resp);
    assert [] + MessageEvents(m, DELETE) == MessageEvents(m, DELETE);
  }

  /** A reply that is not followed by another, from a fresh parser. */
  lemma ReplyRead(m: Message) returns (d: Core)
    requires m.Answering? && (m.payload.Nothing? || m.payload.Sized?) && IsMessage(m) && !Persists(m)
    ensures CoreOk(InitCore(Response)) && CoreOk(d) && d.state.Dead? && d.statusCode == m.status
    ensures Micros(InitCore(Response), MessageText(m)) == Moved(d, MessageEvents(m, DELETE))
  {
    hide Micros, CoreOk, IsMessage, Persists, MessageText, MessageEvents, InitCore;
    Fresh(Response);
    StartsAnyway(Response, m);
    InitVerb(Response);
    KindOf(InitCore(Response), m);
    d := MessageRead(InitCore(Response), m);
  }
}
