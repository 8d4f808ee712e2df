/**
 The server's response path: worker threads push responses and wake the epoll thread
 through a token queue and a semaphore eventfd; the epoll thread arms EPOLLOUT, sends,
 checks the queue and disarms. Every access to shared state is one action, and actions
 of the threads interleave freely. The connection lock is what it is in the source: a
 pusher holds it shared from finding the connection to writing the event, so adding and
 removing connections waits for pushers.
 */
module ResponsePath {
  import opened Options
  import opened Octets
  import opened RpcDefs

  type Id = nat

  /** A connection. `pushed`, `done` and `wire` record its history: every response queued,
      every response fully sent, every byte handed to the socket. */
  datatype Conn = Conn(
    queue: seq<Bytes>, current: Option<Bytes>, sent: nat, armed: bool,
    pushed: seq<Bytes>, done: seq<Bytes>, wire: Bytes)

  const NEW_CONN := Conn([], None, 0, false, [], [], [])

  /** Where a worker thread is inside pushResp. */
  datatype Pusher = Idle | Queued(id: Id) | Tokened(id: Id)

  /** Where the epoll thread is. */
  datatype Loop =
    | Waiting                 // in epoll_wait, or between two events
    | EventRead               // onDataOutEvent, after eventfd_read
    | Popped(id: Id)          // onDataOutEvent, after popping a token
    | SentFull(id: Id)        // onDataOut, sendResponse returned FULL
    | Disarming(id: Id)       // onDataOut, about to remove EPOLLOUT
    | Removing(id: Id)        // onDataOut, sendResponse returned FAIL

  datatype Server = Server(
    conns: map<Id, Conn>, tokens: seq<Id>, events: nat, pushers: seq<Pusher>, loop: Loop, maxQueue: nat)

  /** What send() does with the bytes offered. */
  datatype SendOutcome = Wrote(n: nat) | Again | Broken

  // --------------------------------------------------------- sending on one connection

  function Flatten(pkgs: seq<Bytes>): Bytes {
    if pkgs == [] then [] else Flatten(pkgs[..|pkgs| - 1]) + pkgs[|pkgs| - 1]
  }

  /** send() writes at least one byte and at most what is offered; with nothing to offer it returns 0. */
  predicate Possible(c: Conn, o: SendOutcome) {
    o.Wrote? ==> var pkg := if c.current.Some? then c.current else if c.queue != [] then Some(c.queue[0]) else None;
                 pkg.Some? ==> 1 <= o.n <= |pkg.value| - (if c.current.Some? then c.sent else 0)
  }

  predicate Pending(c: Conn) { c.current.Some? || c.queue != [] }

  /** The package in flight: the current one, or else the head of the queue. */
  function TakeUp(c: Conn): Conn
    requires Pending(c)
  {
    if c.current.Some? then c else c.(current := Some(c.queue[0]), queue := c.queue[1..], sent := 0)
  }

  /** sendData after one send() of `n` bytes. */
  function SendPiece(c: Conn, n: nat): (Conn, PkgIOStatus)
    requires c.current.Some? && n <= |c.current.value| - c.sent
  {
    var pkg := c.current.value;
    var d := c.(sent := c.sent + n, wire := c.wire + pkg[c.sent..c.sent + n]);
    if d.sent == |pkg| then (d.(current := None, sent := 0, done := d.done + [pkg]), FULL) else (d, PARTIAL)
  }

  /** sendResponse: pop a package if none is in flight, then send one piece of it. */
  function SendResponse(c: Conn, o: SendOutcome): (Conn, PkgIOStatus)
    requires Possible(c, o)
  {
    if !Pending(c) then (c, NODATA)
    else
      match o
      case Broken => (TakeUp(c), FAIL)
      case Again => (TakeUp(c), PARTIAL)
      case Wrote(n) => SendPiece(TakeUp(c), n)
  }

  /** What is on the wire and what is still to come, in queue order. */
  predicate ConnOk(c: Conn) {
    && (c.current.Some? ==> c.sent <= |c.current.value| && (c.sent == 0 || c.sent < |c.current.value|) && c.armed)
    && c.pushed == c.done + (if c.current.Some? then [c.current.value] else []) + c.queue
    && c.wire == Flatten(c.done) + (if c.current.Some? then c.current.value[..c.sent] else [])
  }

  lemma FlattenSnoc(pkgs: seq<Bytes>, p: Bytes)
    ensures Flatten(pkgs + [p]) == Flatten(pkgs) + p
  {
    assert (pkgs + [p])[..|pkgs|] == pkgs;
  }

  lemma TakeUpKeeps(c: Conn)
    requires ConnOk(c) && c.armed && Pending(c)
    ensures ConnOk(TakeUp(c))
  {
    if c.current.None? {
      assert [c.queue[0]] + c.queue[1..] == c.queue;
      assert c.queue[0][..0] == [];
      assert c.done + [] + c.queue == c.done + [c.queue[0]] + c.queue[1..];
    }
  }

  lemma PieceKeeps(c: Conn, n: nat)
    requires ConnOk(c) && c.current.Some? && 1 <= n <= |c.current.value| - c.sent
    ensures ConnOk(SendPiece(c, n).0)
  {
    var pkg := c.current.value;
    assert pkg[..c.sent] + pkg[c.sent..c.sent + n] == pkg[..c.sent + n];
    if c.sent + n == |pkg| {
      FlattenSnoc(c.done, pkg);
      assert pkg[..|pkg|] == pkg;
      assert c.done + [pkg] + c.queue == (c.done + [pkg]) + [] + c.queue;
    }
    hide Flatten;
  }

  /** Sending keeps the bytes on the wire in queue order. */
  lemma SendKeeps(c: Conn, o: SendOutcome)
    requires ConnOk(c) && c.armed && Possible(c, o)
    ensures var (d, st) := SendResponse(c, o);
            && ConnOk(d) && d.armed && d.pushed == c.pushed
            && (st == FULL || st == NODATA ==> d.current.None?)
            && (st == NODATA ==> d == c && c.queue == [])
  {
    hide ConnOk;
    if Pending(c) {
      TakeUpKeeps(c);
      if o.Wrote? {
        PieceKeeps(TakeUp(c), o.n);
      }
    }
  }

  // -------------------------------------------------------------------------- actions

  datatype Action =
    | AddConnection(id: Id)
    | PushResponse(t: nat, id: Id, pkg: Bytes)
    | PushToken(t: nat)
    | WriteEvent(t: nat)
    | ReadEvent
    | PopToken
    | Arm
    | Send(id: Id, o: SendOutcome)
    | CheckSize
    | Disarm
    | Remove
    | Disconnect(id: Id)

  /** No worker thread holds the connection lock. */
  predicate LockFree(s: Server) { forall t :: 0 <= t < |s.pushers| ==> s.pushers[t].Idle? }

  /** One action of one thread; None if it cannot happen now. */
  function Perform(s: Server, a: Action): Option<Server>
  {
    match a
    case AddConnection(id) =>
      if s.loop.Waiting? && id !in s.conns && LockFree(s) then Some(s.(conns := s.conns[id := NEW_CONN])) else None
    case PushResponse(t, id, pkg) =>
      if !(t < |s.pushers| && s.pushers[t].Idle?) then None
      else if id !in s.conns || |s.conns[id].queue| >= s.maxQueue then Some(s)   // dropped
      else
        var c := s.conns[id];
        Some(s.(conns := s.conns[id := c.(queue := c.queue + [pkg], pushed := c.pushed + [pkg])],
                pushers := s.pushers[t := Queued(id)]))
    case PushToken(t) =>
      if t < |s.pushers| && s.pushers[t].Queued? then
        Some(s.(tokens := s.tokens + [s.pushers[t].id], pushers := s.pushers[t := Tokened(s.pushers[t].id)]))
      else None
    case WriteEvent(t) =>
      if t < |s.pushers| && s.pushers[t].Tokened? then Some(s.(events := s.events + 1, pushers := s.pushers[t := Idle]))
      else None
    case ReadEvent =>
      if s.loop.Waiting? && s.events > 0 then Some(s.(events := s.events - 1, loop := EventRead)) else None
    case PopToken =>
      if !s.loop.EventRead? then None
      else if s.tokens == [] then Some(s.(loop := Waiting))
      else Some(s.(tokens := s.tokens[1..], loop := Popped(s.tokens[0])))
    case Arm =>
      if !s.loop.Popped? then None
      else if s.loop.id in s.conns && s.conns[s.loop.id].current.None? then
        Some(s.(conns := s.conns[s.loop.id := s.conns[s.loop.id].(armed := true)], loop := Waiting))
      else Some(s.(loop := Waiting))
    case Send(id, o) =>
      if s.loop.Waiting? && id in s.conns && s.conns[id].armed && Possible(s.conns[id], o) then
        var (c, st) := SendResponse(s.conns[id], o);
        Some(s.(conns := s.conns[id := c],
                loop := match st
                        case FULL => SentFull(id)
                        case PARTIAL => Waiting
                        case NODATA => Disarming(id)
                        case FAIL => Removing(id)))
      else None
    case CheckSize =>
      if s.loop.SentFull? && s.loop.id in s.conns then
        Some(s.(loop := if s.conns[s.loop.id].queue == [] then Disarming(s.loop.id) else Waiting))
      else None
    case Disarm =>
      if s.loop.Disarming? && s.loop.id in s.conns then
        Some(s.(conns := s.conns[s.loop.id := s.conns[s.loop.id].(armed := false)], loop := Waiting))
      else None
    case Remove =>
      if s.loop.Removing? && LockFree(s) then Some(s.(conns := s.conns - {s.loop.id}, loop := Waiting)) else None
    case Disconnect(id) =>
      if s.loop.Waiting? && LockFree(s) then Some(s.(conns := s.conns - {id})) else None
  }

  /** A server with `n` worker threads and no connections. */
  function Start(n: nat, maxQueue: nat): Server {
    Server(map[], [], 0, seq(n, _ => Idle), Waiting, maxQueue)
  }

  function Run(s: Server, actions: seq<Action>): Option<Server> {
    if actions == [] then Some(s)
    else
      var r := Run(s, actions[..|actions| - 1]);
      if r.None? then None else Perform(r.value, actions[|actions| - 1])
  }

  // ------------------------------------------------------------------------ invariant

  /** Worker threads that have pushed a token and not yet written the event. */
  function Unwritten(p: seq<Pusher>): nat {
    if p == [] then 0 else Unwritten(p[..|p| - 1]) + (if p[|p| - 1].Tokened? then 1 else 0)
  }

  ghost predicate BeingPushed(s: Server, id: Id) { exists t :: 0 <= t < |s.pushers| && s.pushers[t] == Queued(id) }

  /** A wakeup for the connection is on its way. */
  ghost predicate Announced(s: Server, id: Id) { id in s.tokens || BeingPushed(s, id) }

  ghost predicate Awake(s: Server, id: Id)
    requires id in s.conns
  {
    s.conns[id].armed || Announced(s, id) || s.loop == Popped(id)
  }

  ghost predicate Inv(s: Server) {
    && (forall id :: id in s.conns ==> ConnOk(s.conns[id]))
    && (forall id :: id in s.conns && Pending(s.conns[id]) ==> Awake(s, id))
    && (forall t :: 0 <= t < |s.pushers| && !s.pushers[t].Idle? ==> s.pushers[t].id in s.conns)
    && |s.tokens| == s.events + Unwritten(s.pushers) + (if s.loop.EventRead? then 1 else 0)
    && (s.loop.SentFull? || s.loop.Disarming? ==> s.loop.id in s.conns && s.conns[s.loop.id].current.None?)
    && (s.loop.Disarming? && s.conns[s.loop.id].queue != [] ==> Announced(s, s.loop.id))
  }

  lemma {:induction false} UnwrittenUpdate(p: seq<Pusher>, t: nat, x: Pusher)
    requires t < |p|
    ensures Unwritten(p[t := x]) == Unwritten(p) - (if p[t].Tokened? then 1 else 0) + (if x.Tokened? then 1 else 0)
    decreases |p|
  {
    var q := p[t := x];
    if t == |p| - 1 {
      assert q[..|p| - 1] == p[..|p| - 1];
    } else {
      assert q[..|p| - 1] == p[..|p| - 1][t := x];
      UnwrittenUpdate(p[..|p| - 1], t, x);
    }
  }

  lemma {:induction false} UnwrittenIdle(p: seq<Pusher>)
    requires forall t :: 0 <= t < |p| ==> p[t].Idle?
    ensures Unwritten(p) == 0
  {
    if p != [] {
      UnwrittenIdle(p[..|p| - 1]);
    }
  }

  // -------------------------------------------------------- every action keeps the invariant

  lemma QueueKeeps(c: Conn, pkg: Bytes)
    requires ConnOk(c)
    ensures ConnOk(c.(queue := c.queue + [pkg], pushed := c.pushed + [pkg]))
  {
    var flight := if c.current.Some? then [c.current.value] else [];
    assert c.done + flight + (c.queue + [pkg]) == c.done + flight + c.queue + [pkg];
  }

  lemma PushResponseKeeps(s: Server, a: Action)
    requires Inv(s) && a.PushResponse? && Perform(s, a).Some?
    ensures Inv(Perform(s, a).value)
  {
    var r := Perform(s, a).value;
    if r != s {
      UnwrittenUpdate(s.pushers, a.t, Queued(a.id));
      assert r.pushers[a.t] == Queued(a.id);
      QueueKeeps(s.conns[a.id], a.pkg);
      forall id | id in s.conns
        ensures Announced(s, id) ==> Announced(r, id)
      {
        if BeingPushed(s, id) {
          var t :| 0 <= t < |s.pushers| && s.pushers[t] == Queued(id);
          assert r.pushers[t] == Queued(id);
        }
      }
      hide ConnOk;
    }
  }

  lemma PushTokenKeeps(s: Server, a: Action)
    requires Inv(s) && (a.PushToken? || a.WriteEvent?) && Perform(s, a).Some?
    ensures Inv(Perform(s, a).value)
  {
    hide ConnOk;
    var r := Perform(s, a).value;
    UnwrittenUpdate(s.pushers, a.t, r.pushers[a.t]);
    forall id | id in s.conns
      ensures Announced(s, id) ==> Announced(r, id)
    {
      if id in s.tokens {
        assert id in r.tokens;
      } else if BeingPushed(s, id) {
        var t :| 0 <= t < |s.pushers| && s.pushers[t] == Queued(id);
        if t == a.t {
          assert r.tokens[|s.tokens|] == id;
        } else {
          assert r.pushers[t] == Queued(id);
        }
      }
    }
  }

  lemma PopTokenKeeps(s: Server, a: Action)
    requires Inv(s) && (a.ReadEvent? || a.PopToken? || a.Arm?) && Perform(s, a).Some?
    ensures Inv(Perform(s, a).value)
  {
    assert forall id :: id in s.conns && s.conns[id].current.Some? ==> ConnOk(s.conns[id]) && s.conns[id].armed;
    hide ConnOk;
    var r := Perform(s, a).value;
    if a.PopToken? {
      forall id | id in s.tokens
        ensures id in r.tokens || r.loop == Popped(id)
      {
        var i :| 0 <= i < |s.tokens| && s.tokens[i] == id;
        if i > 0 {
          assert r.tokens[i - 1] == id;
        }
      }
      assert forall id :: BeingPushed(s, id) ==> BeingPushed(r, id);
    } else if a.Arm? && s.loop.id in s.conns {
      ArmKeeps(s.conns[s.loop.id]);
    }
    assert forall id :: BeingPushed(s, id) <==> BeingPushed(r, id);
  }

  lemma ArmKeeps(c: Conn)
    requires ConnOk(c)
    ensures ConnOk(c.(armed := true)) && (c.current.None? ==> ConnOk(c.(armed := false)))
  {
  }

  lemma SendActionKeeps(s: Server, a: Action)
    requires Inv(s) && (a.Send? || a.CheckSize? || a.Disarm?) && Perform(s, a).Some?
    ensures Inv(Perform(s, a).value)
  {
    hide ConnOk, SendResponse;
    var r := Perform(s, a).value;
    if a.Send? {
      SendKeeps(s.conns[a.id], a.o);
    } else if a.Disarm? {
      ArmKeeps(s.conns[s.loop.id]);
    }
    assert forall id :: Announced(s, id) <==> Announced(r, id);
  }

  lemma ConnectionsKeep(s: Server, a: Action)
    requires Inv(s) && (a.AddConnection? || a.Remove? || a.Disconnect?) && Perform(s, a).Some?
    ensures Inv(Perform(s, a).value)
  {
    assert ConnOk(NEW_CONN);
    hide ConnOk;
    var r := Perform(s, a).value;
    assert forall id :: Announced(s, id) <==> Announced(r, id);
  }

  lemma ActionKeeps(s: Server, a: Action)
    requires Inv(s) && Perform(s, a).Some?
    ensures Inv(Perform(s, a).value)
  {
    hide Inv, Perform;
    match a
    case PushResponse(_, _, _) => PushResponseKeeps(s, a);
    case PushToken(_) => PushTokenKeeps(s, a);
    case WriteEvent(_) => PushTokenKeeps(s, a);
    case ReadEvent => PopTokenKeeps(s, a);
    case PopToken => PopTokenKeeps(s, a);
    case Arm => PopTokenKeeps(s, a);
    case Send(_, _) => SendActionKeeps(s, a);
    case CheckSize => SendActionKeeps(s, a);
    case Disarm => SendActionKeeps(s, a);
    case _ => ConnectionsKeep(s, a);
  }

  lemma {:induction false} RunKeeps(n: nat, maxQueue: nat, actions: seq<Action>)
    requires Run(Start(n, maxQueue), actions).Some?
    ensures Inv(Run(Start(n, maxQueue), actions).value)
    decreases |actions|
  {
    if actions == [] {
      UnwrittenIdle(Start(n, maxQueue).pushers);
    } else {
      hide Perform, Inv;
      RunKeeps(n, maxQueue, actions[..|actions| - 1]);
      ActionKeeps(Run(Start(n, maxQueue), actions[..|actions| - 1]).value, actions[|actions| - 1]);
    }
  }

  /**
   No lost wakeup, in every run: a live connection with a queued or half-sent response is
   armed, or has a token in the queue, or a worker is between queueing and announcing it, or
   the epoll thread is about to arm it; a package in flight is always armed; and every token
   is matched by a pending event, an event not yet written or an event already read.
   */
  lemma NoLostWakeup(n: nat, maxQueue: nat, actions: seq<Action>, id: Id)
    requires Run(Start(n, maxQueue), actions).Some?
    requires var s := Run(Start(n, maxQueue), actions).value; id in s.conns
    ensures var s := Run(Start(n, maxQueue), actions).value;
            && (Pending(s.conns[id]) ==> s.conns[id].armed || id in s.tokens || BeingPushed(s, id) || s.loop == Popped(id))
            && (s.conns[id].current.Some? ==> s.conns[id].armed)
            && |s.tokens| == s.events + Unwritten(s.pushers) + (if s.loop.EventRead? then 1 else 0)
  {
    RunKeeps(n, maxQueue, actions);
    hide Run, Perform;
  }

  /** When the epoll thread sleeps with no event to read and no push is under way, everything pending is armed. */
  lemma AsleepMeansArmed(n: nat, maxQueue: nat, actions: seq<Action>, id: Id)
    requires Run(Start(n, maxQueue), actions).Some?
    requires var s := Run(Start(n, maxQueue), actions).value;
             id in s.conns && Pending(s.conns[id]) && s.loop.Waiting? && s.events == 0 && LockFree(s)
    ensures Run(Start(n, maxQueue), actions).value.conns[id].armed
  {
    RunKeeps(n, maxQueue, actions);
    UnwrittenIdle(Run(Start(n, maxQueue), actions).value.pushers);
    hide Run, Perform;
  }

  /**
   Wire order, in every run: the bytes on the wire of a connection are the fully sent
   responses in queue order followed by the first `sent` bytes of the current one, and what
   was queued is what was sent, the current one and what is still queued, in that order.
   */
  lemma WireOrder(n: nat, maxQueue: nat, actions: seq<Action>, id: Id)
    requires Run(Start(n, maxQueue), actions).Some?
    requires id in Run(Start(n, maxQueue), actions).value.conns
    ensures var c := Run(Start(n, maxQueue), actions).value.conns[id];
            && (c.current.Some? ==> c.sent <= |c.current.value| && (c.sent == 0 || c.sent < |c.current.value|))
            && c.pushed == c.done + (if c.current.Some? then [c.current.value] else []) + c.queue
            && c.wire == Flatten(c.done) + (if c.current.Some? then c.current.value[..c.sent] else [])
  {
    RunKeeps(n, maxQueue, actions);
    hide Run, Perform;
  }
}
