/** A server connection's sending side: one package in flight, sent piece by piece. */
module ServerConn {
  import opened Options
  import opened Octets
  import opened RpcDefs
  import opened Queues
  import opened Sockets
  import opened ResponsePath

  lemma MoreToSend(c: Conn)
    requires ConnOk(c) && c.current.Some? && c.current.value != []
    ensures c.sent < |c.current.value|
  {
  }

  /** Popping the next package and then sending is what sending from the queue is. */
  lemma TakenUp(c: Conn, o: SendOutcome)
    requires Pending(c) && Possible(TakeUp(c), o)
    ensures Possible(c, o) && SendResponse(TakeUp(c), o) == SendResponse(c, o)
  {
  }

  lemma NothingPending(c: Conn)
    requires !Pending(c)
    ensures Possible(c, SendOutcome.Again) && SendResponse(c, SendOutcome.Again) == (c, NODATA)
  {
  }

  /** What the result of send() means for the connection. */
  function Effect(r: Moved): SendOutcome {
    match r
    case Moved(n) => Wrote(n)
    case EAGAIN => SendOutcome.Again
    case EINTR => SendOutcome.Again
    case CLOSED => Broken
    case ERROR => Broken
  }

  /** The package in flight, or the next one, and how much of it is out. */
  function InFlight(c: Conn): (Bytes, nat)
    requires Pending(c)
  {
    if c.current.Some? then (c.current.value, c.sent) else (c.queue[0], 0)
  }

  /** How much is offered to send(). */
  function Offered(c: Conn): int
    requires Pending(c)
  {
    |InFlight(c).0| - InFlight(c).1
  }

  /**
   What sending a pending package comes to, by the first result of send() that is not an
   interruption: bytes written are the next ones of the package, which is complete with its last
   one; a full socket leaves the package where it is; any other result is a failure.
   */
  ghost predicate Answers(c: Conn, r: Moved, d: Conn, st: PkgIOStatus)
    requires Pending(c)
  {
    var (pkg, from) := InFlight(c);
    var out := if r.Moved? then from + r.n else from;
    && from <= out <= |pkg|
    && d.armed == c.armed && d.pushed == c.pushed && d.queue == (if c.current.Some? then c.queue else c.queue[1..])
    && d.wire == c.wire + pkg[from..out]
    && (st == FULL <==> r.Moved? && out == |pkg|)
    && (st == PARTIAL <==> r.EAGAIN? || (r.Moved? && out < |pkg|))
    && (st == FAIL <==> r.CLOSED? || r.ERROR?)
    && d.done == (if st == FULL then c.done + [pkg] else c.done)
    && (if st == FULL then d.current.None? else d.current == Some(pkg) && d.sent == out)
  }

  lemma EffectAnswers(c: Conn, r: Moved)
    requires Pending(c) && !r.EINTR? && InFlight(c).1 <= |InFlight(c).0| && (r.Moved? ==> 1 <= r.n <= Offered(c))
    ensures Possible(c, Effect(r))
    ensures var (d, st) := SendResponse(c, Effect(r)); Answers(c, r, d, st)
  {
    var (pkg, from) := InFlight(c);
    assert pkg[from..from] == [];
  }

  lemma AnswersTakenUp(c: Conn, r: Moved, d: Conn, st: PkgIOStatus)
    requires Pending(c) && Answers(TakeUp(c), r, d, st)
    ensures Answers(c, r, d, st)
  {
  }

  class RpcServerConn {
    const sock: Socket
    const responseQ: Queue<Bytes>
    var sentPkg: Option<Bytes>
    var sentLen: nat
    var connected: bool
    /** The connection's EPOLLOUT interest, kept by the epoll thread. */
    var armed: bool
    ghost var done: seq<Bytes>

    /** The connection as the response path sees it. */
    ghost function Abs(): Conn
      reads this, sock, responseQ
    {
      Conn(responseQ.items, sentPkg, sentLen, armed, responseQ.accepted, done, sock.written)
    }

    /** Queued packages are never empty, and sending is where the response path says it is. */
    ghost predicate Valid()
      reads this, sock, responseQ
    {
      && responseQ.Valid() && !responseQ.dropOld && ConnOk(Abs())
      && (forall i :: 0 <= i < |responseQ.items| ==> responseQ.items[i] != [])
      && (sentPkg.Some? ==> sentPkg.value != [])
    }

    constructor (s: Socket, q: Queue<Bytes>)
      requires s.written == [] && q.Valid() && q.accepted == [] && !q.dropOld
      ensures Valid() && sock == s && responseQ == q && connected && Abs() == NEW_CONN
    {
      sock, responseQ := s, q;
      sentPkg, sentLen, connected, armed, done := None, 0, true, false, [];
    }

    /** Queue a response, unless the queue is full. */
    method PushResponse(pkg: Bytes) returns (ok: bool)
      requires Valid() && pkg != []
      modifies responseQ
      ensures Valid() && ok == (old(|responseQ.items|) < responseQ.maxLen) && responseQ.maxLen == old(responseQ.maxLen)
      ensures Abs() == if ok then old(Abs()).(queue := old(Abs()).queue + [pkg], pushed := old(Abs()).pushed + [pkg]) else old(Abs())
    {
      hide ConnOk;
      QueueKeeps(Abs(), pkg);
      ok := responseQ.Push(pkg);
    }

    method IsSending() returns (r: bool)
      ensures r == Abs().current.Some?
    {
      r := sentPkg.Some?;
    }

    /** The send() loop of sendData: an interrupted call is tried again. */
    method SendRetrying() returns (r: Moved)
      requires sentPkg.Some? && sentLen < |sentPkg.value|
      modifies sock
      ensures r == Retried(old(sock.tape), |sentPkg.value| - sentLen)
      ensures sock.written == if r.Moved? then old(sock.written) + sentPkg.value[sentLen..sentLen + r.n] else old(sock.written)
    {
      r := EINTR;
      while r.EINTR?
        invariant Retried(old(sock.tape), |sentPkg.value| - sentLen) ==
                  if r.EINTR? then Retried(sock.tape, |sentPkg.value| - sentLen) else r
        invariant sock.written == if r.Moved? then old(sock.written) + sentPkg.value[sentLen..sentLen + r.n] else old(sock.written)
        decreases |sock.tape|, if r.EINTR? then 1 else 0
      {
        r := sock.Send(sentPkg.value[sentLen..]);
        assert r.Moved? ==> sentPkg.value[sentLen..][..r.n] == sentPkg.value[sentLen..sentLen + r.n];
      }
    }

    /** Send one piece of the package in flight. */
    method SendData() returns (st: PkgIOStatus, ghost o: SendOutcome)
      requires Valid() && sentPkg.Some? && armed
      modifies this, sock
      ensures Valid() && responseQ.items == old(responseQ.items) && connected == old(connected) && armed
      ensures Possible(old(Abs()), o) && (Abs(), st) == SendResponse(old(Abs()), o)
      ensures o == Effect(Retried(old(sock.tape), |old(sentPkg).value| - old(sentLen)))
      ensures Answers(old(Abs()), Retried(old(sock.tape), |old(sentPkg).value| - old(sentLen)), Abs(), st)
    {
      hide ConnOk, Answers;
      ghost var c := Abs();
      MoreToSend(c);
      var r := SendRetrying();
      EffectAnswers(c, r);
      if r.CLOSED? || r.ERROR? {
        o := Broken;
        return FAIL, o;
      }
      if r.EAGAIN? {
        o := SendOutcome.Again;
        return PARTIAL, o;
      }
      o := Wrote(r.n);
      PieceKeeps(c, r.n);
      sentLen := sentLen + r.n;
      if sentLen == |sentPkg.value| {
        done := done + [sentPkg.value];
        sentPkg, sentLen := None, 0;
        st := FULL;
      } else {
        st := PARTIAL;
      }
      assert (Abs(), st) == SendPiece(c, r.n);
    }

    /** Take up the next package if none is in flight, and send a piece. */
    method SendNext() returns (st: PkgIOStatus, ghost o: SendOutcome)
      requires Valid() && armed
      modifies this, sock, responseQ
      ensures Valid() && connected == old(connected) && armed && responseQ.maxLen == old(responseQ.maxLen)
      ensures !connected ==> st == FAIL && Abs() == old(Abs())
      ensures connected ==> Possible(old(Abs()), o) && (Abs(), st) == SendResponse(old(Abs()), o)
      ensures connected && Pending(old(Abs())) ==>
                var c := TakeUp(old(Abs())); o == Effect(Retried(old(sock.tape), |c.current.value| - c.sent))
      ensures connected && Pending(old(Abs())) ==>
                Answers(old(Abs()), Retried(old(sock.tape), Offered(old(Abs()))), Abs(), st)
      ensures connected && !Pending(old(Abs())) ==> st == NODATA && Abs() == old(Abs())
    {
      hide ConnOk, SendResponse, Possible, Answers;
      if !connected {
        o := Broken;
        return FAIL, o;
      }
      if sentPkg.Some? {
        st, o := SendData();
        return;
      }
      ghost var c := Abs();
      var pkg := responseQ.Pop();
      if pkg.Some? {
        TakeUpKeeps(c);
        sentLen := 0;
        sentPkg := pkg;
        assert Abs() == TakeUp(c);
        st, o := SendData();
        TakenUp(c, o);
        AnswersTakenUp(c, Retried(old(sock.tape), Offered(c)), Abs(), st);
        return;
      }
      NothingPending(c);
      st, o := NODATA, SendOutcome.Again;
    }
  }
}
