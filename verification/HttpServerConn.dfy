/** The HTTP connection as an object: recv() into a buffer, the parser, its callbacks, a package. */
module HttpServerConn {
  import opened Options
  import opened Octets
  import Sockets
  import opened HttpTypes
  import opened HttpCall
  import opened HttpSplit
  import opened HttpExecute
  import opened HttpMicro
  import opened HttpConn

  const BUFFER := 4096

  /**
   A failing piece: an error below its end is a byte that is rejected. At its end it is a header
   overflow, no byte is rejected, and all callbacks but those of an open header text have run.
   */
  lemma WhereItFails(e: Errno, at: nat, told: nat, core: Core, log: seq<Event>, c: Call, piece: seq<char>, x: Inbox)
    requires CallOk(c) && c.Live? && c.log <= log && piece != [] && |piece| <= BUFFER && Breaks(e, at, told, core, log, c, piece)
    ensures at <= |piece| && (at < |piece| <==> Steps(c, piece, |piece|).Failed?)
    ensures var s := Steps(c, piece, |piece|);
            s.Live? ==> e.HeaderOverflow? && c.log <= s.log && core == s.core && OnEvents(x, log[|c.log|..]) == OnEvents(x, s.log[|c.log|..])
  {
    hide CallOk, Step, Steps, IsText, OnEvents;
    var s := Steps(c, piece, |piece|);
    if at < |piece| {
      assert Steps(c, piece, at + 1).Failed? by { StepsOne(c, piece, at); }
      Stays(c, piece, at + 1, |piece|);
    } else {
      var t :| s.log == log + TextEvents(FieldText, t) || s.log == log + TextEvents(ValueText, t);
      assert s.log[|c.log|..] == log[|c.log|..] + s.log[|log|..];
      HeaderTextOnly(x, log[|c.log|..], s.log[|log|..]);
    }
  }

  lemma StepsOne(c: Call, data: seq<char>, n: nat)
    requires CallOk(c) && n < |data|
    ensures Steps(c, data, n + 1) == Step(Steps(c, data, n), data[n])
  {
    hide Step, CallOk;
  }

  /** Header text changes nothing in the inbox. */
  lemma {:induction false} HeaderTextOnly(x: Inbox, log: seq<Event>, text: seq<Event>)
    requires forall i :: 0 <= i < |text| ==> text[i].Field? || text[i].Value?
    ensures OnEvents(x, log + text) == OnEvents(x, log)
    decreases |text|
  {
    if text == [] {
      assert log + text == log;
    } else {
      var most := text[..|text| - 1];
      assert (log + text)[..|log + text| - 1] == log + most;
      HeaderTextOnly(x, log, most);
    }
  }

  class RpcServerHttpConn {
    const sock: Sockets.Socket
    const parser: HttpParser
    var connected: bool
    var url: seq<char>
    var body: seq<char>
    var isBodyFinal: bool
    var parseFail: bool

    ghost predicate Valid()
      reads this, parser
    {
      parser.Valid()
    }

    ghost function State(): Conn
      reads this, parser
    {
      Conn(parser.Abs(), Inbox(url, body, isBodyFinal, parseFail))
    }

    constructor (s: Sockets.Socket)
      ensures Valid() && sock == s && connected && fresh(parser) && State() == Conn(Init(Request), EMPTY)
    {
      sock := s;
      var p := new HttpParser(Request);
      parser := p;
      connected, url, body, isBodyFinal, parseFail := true, [], [], false, false;
    }

    /** The callback of one event. */
    method RunCallback(e: Event)
      modifies this
      ensures connected == old(connected)
      ensures Inbox(url, body, isBodyFinal, parseFail) == OnEvent(old(Inbox(url, body, isBodyFinal, parseFail)), e)
    {
      match e
      case Url(b) => url := url + [b];
      case Body(b) => body, isBodyFinal := body + [b], false;
      case BodyFinal => isBodyFinal := true;
      case HeadersComplete(verb, length) =>
        if verb == GET {
          isBodyFinal := true;
        }
        if verb == POST && length == 0 {
          parseFail := true;
        }
      case _ =>
    }

    /** Run the callbacks of the events logged from `from` on. */
    method RunCallbacks(from: nat)
      requires from <= |parser.log|
      modifies this
      ensures connected == old(connected)
      ensures Inbox(url, body, isBodyFinal, parseFail) ==
              OnEvents(old(Inbox(url, body, isBodyFinal, parseFail)), parser.log[from..])
    {
      hide CallOk, OnEvent;
      ghost var x := Inbox(url, body, isBodyFinal, parseFail);
      for i := from to |parser.log|
        invariant connected == old(connected)
        invariant Inbox(url, body, isBodyFinal, parseFail) == OnEvents(x, parser.log[from..i])
      {
        RunCallback(parser.log[i]);
        assert parser.log[from..i + 1][..i - from] == parser.log[from..i];
      }
      assert parser.log[from..|parser.log|] == parser.log[from..];
    }

    /**
     One call of getRequest. `piece` is what recv() delivered. While the parser has not
     failed, the outcome and the new state are those of Receive. When it fails, the piece is
     refused at once if the parser rejects one of its bytes. If it rejects none, the error is a
     header overflow found at the end of the piece: the return value looks like success, and the
     piece is judged by its callbacks as if nothing had happened; the next one is refused.
     */
    method GetRequest() returns (o: Verdict, ghost piece: Bytes)
      requires Valid()
      modifies this, parser, sock
      ensures Valid() && connected == old(connected)
      ensures sock.received == old(sock.received) + piece
      ensures var r := Sockets.Result(old(sock.tape), Sockets.Min(BUFFER, |old(sock.incoming)|));
              piece == if connected && r.Moved? then old(sock.incoming)[..r.n] else []
      ensures !connected ==> o.Rejected?
      ensures piece == [] ==> o.Rejected? || (o.More? && State() == old(State()))
      ensures connected && piece == [] && !sock.broken ==> o.More?
      ensures piece != [] && old(State()).call.Failed? ==> o.Rejected?
      ensures piece != [] && old(State()).call.Live? ==>
                var c, r := old(State()).call, Receive(old(State()), piece);
                var s := Steps(c, piece, |piece|);
                && (r.0.call.Live? ==> o == r.1 && (!o.Rejected? ==> State() == r.0))
                && (r.0.call.Failed? ==>
                      && State().call == r.0.call
                      && (s.Failed? ==> o.Rejected?)
                      && (s.Live? ==>
                            && r.0.call == Failed(HeaderOverflow) && c.log <= s.log
                            && o == Judge(s.core.upgrade, OnEvents(old(State()).inbox, s.log[|c.log|..]))))
    {
      hide Feed, CallOk, OnEvents, Breaks, Steps;
      piece := [];
      if !connected {
        return Rejected, piece;
      }
      var data := new Octet[BUFFER](_ => '0');
      ghost var input := sock.incoming;
      var r := sock.Recv(data, 0, BUFFER);
      match r
      case EAGAIN => return More, piece;
      case EINTR => return More, piece;
      case ERROR => return Rejected, piece;
      case CLOSED =>
        var _ := parser.Execute([]);
        return Rejected, piece;
      case Moved(n) =>
        piece := input[..n];
        assert data[..n] == piece;
        var seen := |parser.log|;
        ghost var c := State();
        var parsed := parser.Execute(data[..n]);
        ghost var d := Feed(c.call, piece);
        if d.Live? {
          FeedAfter(c.call, piece);
        } else if c.call.Live? {
          ghost var told :| Breaks(parser.errno.value, parsed, told, parser.core, parser.log, c.call, piece);
          WhereItFails(parser.errno.value, parsed, told, parser.core, parser.log, c.call, piece, c.inbox);
        }
        RunCallbacks(seen);
        if parser.core.upgrade {
          return Rejected, piece;
        } else if parsed != n {
          return Rejected, piece;
        }
        if parseFail {
          return Rejected, piece;
        }
        if isBodyFinal && url != [] {
          o := Emitted(PackageOf(Inbox(url, body, isBodyFinal, parseFail)));
          isBodyFinal := false;
          return o, piece;
        }
        return More, piece;
    }
  }
}
