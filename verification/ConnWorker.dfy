/**
 The connection worker as an object. Each method is a function of the source run without
 interruption, and is proved to be the sequence of actions that ResponsePath interleaves.
 */
module ConnWorker {
  import opened Options
  import opened Octets
  import opened RpcDefs
  import opened Sockets
  import opened Queues
  import opened ServerConn
  import opened ResponsePath

  /** Actions one after the other. */
  function Performs(s: Server, actions: seq<Action>): Option<Server>
    decreases |actions|
  {
    if actions == [] then Some(s)
    else
      var r := Perform(s, actions[0]);
      if r.None? then None else Performs(r.value, actions[1..])
  }

  lemma Two(s: Server, a: Action, b: Action, m: Server)
    requires Perform(s, a) == Some(m)
    ensures Performs(s, [a, b]) == Perform(m, b)
  {
    hide Perform;
    assert [a, b][1..] == [b] && [b][1..] == [];
    if Perform(m, b).Some? {
      assert Performs(Perform(m, b).value, []) == Perform(m, b);
    }
  }

  lemma Three(s: Server, a: Action, b: Action, c: Action, m: Server, n: Server)
    requires Perform(s, a) == Some(m) && Perform(m, b) == Some(n)
    ensures Performs(s, [a, b, c]) == Perform(n, c)
  {
    hide Perform;
    assert [a, b, c][1..] == [b, c];
    Two(m, b, c, n);
  }

  lemma One(s: Server, a: Action)
    ensures Performs(s, [a]) == Perform(s, a)
  {
    hide Perform;
    assert [a][1..] == [];
    if Perform(s, a).Some? {
      assert Performs(Perform(s, a).value, []) == Perform(s, a);
    }
  }

  /** Queueing a response, pushing the token and writing the event. */
  lemma Announce(s: Server, t: nat, id: Id, pkg: Bytes, r: Server)
    requires t < |s.pushers| && s.pushers[t].Idle? && id in s.conns && |s.conns[id].queue| < s.maxQueue
    requires var c := s.conns[id];
             r == s.(conns := s.conns[id := c.(queue := c.queue + [pkg], pushed := c.pushed + [pkg])],
                     tokens := s.tokens + [id], events := s.events + 1)
    ensures Performs(s, [PushResponse(t, id, pkg), PushToken(t), WriteEvent(t)]) == Some(r)
  {
    var m := s.(conns := r.conns, pushers := s.pushers[t := Queued(id)]);
    var n := m.(tokens := r.tokens, pushers := s.pushers[t := Tokened(id)]);
    assert m.pushers[t := Tokened(id)] == n.pushers && n.pushers[t := Idle] == r.pushers;
    Three(s, PushResponse(t, id, pkg), PushToken(t), WriteEvent(t), m, n);
  }

  /** A response for a connection that is gone or has a full queue. */
  lemma Dropped(s: Server, t: nat, id: Id, pkg: Bytes)
    requires t < |s.pushers| && s.pushers[t].Idle? && (id !in s.conns || |s.conns[id].queue| >= s.maxQueue)
    ensures Performs(s, [PushResponse(t, id, pkg)]) == Some(s)
  {
    One(s, PushResponse(t, id, pkg));
  }

  /** After a whole package or with nothing to send, none is in flight. */
  lemma AfterSend(c: Conn, o: SendOutcome)
    requires ConnOk(c) && c.armed && Possible(c, o)
    ensures var (d, st) := SendResponse(c, o); st == FULL || st == NODATA ==> d.current.None?
  {
    SendKeeps(c, o);
  }

  /** The actions of onDataOut, by what sendResponse returned and whether more is queued. */
  function OutActions(id: Id, o: SendOutcome, st: PkgIOStatus, more: bool): seq<Action> {
    match st
    case FAIL => [Send(id, o), Remove]
    case PARTIAL => [Send(id, o)]
    case NODATA => [Send(id, o), Disarm]
    case FULL => if more then [Send(id, o), CheckSize] else [Send(id, o), CheckSize, Disarm]
  }

  /** What onDataOut leaves of the connections. */
  function AfterOut(conns: map<Id, Conn>, id: Id, c: Conn, st: PkgIOStatus): map<Id, Conn> {
    match st
    case FAIL => conns - {id}
    case PARTIAL => conns[id := c]
    case NODATA => conns[id := c.(armed := false)]
    case FULL => conns[id := if c.queue == [] then c.(armed := false) else c]
  }

  lemma Outs(s: Server, id: Id, o: SendOutcome, r: Server)
    requires s.loop.Waiting? && LockFree(s) && id in s.conns && s.conns[id].armed && Possible(s.conns[id], o)
    requires var (c, st) := SendResponse(s.conns[id], o); r == s.(conns := AfterOut(s.conns, id, c, st))
    ensures var (c, st) := SendResponse(s.conns[id], o); Performs(s, OutActions(id, o, st, c.queue != [])) == Some(r)
  {
    hide SendResponse, Possible;
    var (c, st) := SendResponse(s.conns[id], o);
    var m := s.(conns := s.conns[id := c]);
    match st
    case FAIL =>
      assert s.conns[id := c] - {id} == s.conns - {id};
      Two(s, Send(id, o), Remove, m.(loop := Removing(id)));
    case PARTIAL =>
      One(s, Send(id, o));
    case NODATA =>
      assert m.conns[id := c.(armed := false)] == r.conns;
      Two(s, Send(id, o), Disarm, m.(loop := Disarming(id)));
    case FULL =>
      if c.queue == [] {
        assert m.conns[id := c.(armed := false)] == r.conns;
        Three(s, Send(id, o), CheckSize, Disarm, m.(loop := SentFull(id)), m.(loop := Disarming(id)));
      } else {
        Two(s, Send(id, o), CheckSize, m.(loop := SentFull(id)));
      }
  }

  /** What the outcome says about the connection and its interest in sending. */
  lemma Settled(c: Conn, r: Moved, d: Conn, st: PkgIOStatus)
    requires c.armed && !r.EINTR?
    ensures Pending(c) && Answers(c, r, d, st) ==>
              && st != NODATA && d.armed && d.(armed := true) == d && (st == FAIL <==> r.CLOSED? || r.ERROR?)
              && (st == FAIL ==> d.wire == c.wire) && d.(armed := false).(armed := true) == d
  {
    if Pending(c) {
      var (pkg, from) := InFlight(c);
      assert from <= |pkg| ==> pkg[from..from] == [];
    }
  }

  /** Two connections have nothing in common. */
  predicate Apart(c: RpcServerConn, d: RpcServerConn) { c != d && c.sock != d.sock && c.responseQ != d.responseQ }

  class RpcServerConnWorker {
    var connSet: map<Id, RpcServerConn>
    var respConnQ: seq<Id>
    var respEvents: nat            // the semaphore count of the eventfd
    const maxQueue: nat
    const workers: nat

    ghost function Socks(): set<Socket>
      reads this`connSet
    {
      set id | id in connSet :: connSet[id].sock
    }

    ghost function Queues(): set<Queue<Bytes>>
      reads this`connSet
    {
      set id | id in connSet :: connSet[id].responseQ
    }

    /** A live connection whose object is sound and has the worker's queue length. */
    ghost predicate Sound(id: Id)
      requires id in connSet
      reads this`connSet, connSet.Values, Socks(), Queues()
    {
      && connSet[id].sock in Socks() && connSet[id].responseQ in Queues()
      && connSet[id].Valid() && connSet[id].connected && connSet[id].responseQ.maxLen == maxQueue
    }

    ghost predicate Valid()
      reads this`connSet, connSet.Values, Socks(), Queues()
    {
      && (forall id :: id in connSet ==> Sound(id))
      && forall i, j :: i in connSet && j in connSet && i != j ==> Apart(connSet[i], connSet[j])
    }

    ghost function Conns(): map<Id, Conn>
      requires Valid()
      reads this`connSet, connSet.Values, Socks(), Queues()
    {
      map id | id in connSet :: assert Sound(id); connSet[id].Abs()
    }

    /** Between two functions every thread is at rest. */
    ghost function Abs(): Server
      requires Valid()
      reads this, connSet.Values, Socks(), Queues()
    {
      Server(Conns(), respConnQ, respEvents, seq(workers, _ => Idle), Waiting, maxQueue)
    }

    constructor (n: nat, max: nat)
      ensures Valid() && Abs() == Start(n, max) && workers == n && maxQueue == max && connSet == map[]
    {
      connSet, respConnQ, respEvents, maxQueue, workers := map[], [], 0, max, n;
    }

    lemma IsSound(id: Id)
      requires id in connSet && connSet[id].Valid() && connSet[id].connected && connSet[id].responseQ.maxLen == maxQueue
      ensures Sound(id)
    {
    }

    /** A connection whose objects have not changed. */
    twostate lemma Kept(j: Id)
      requires j in connSet && j in old(connSet) && connSet[j] == old(connSet)[j] && old(Sound(j)) && Untouched(connSet[j])
      ensures Sound(j) && connSet[j].Abs() == old(connSet[j].Abs())
    {
      hide ConnOk, RpcServerConn.Valid, RpcServerConn.Abs;
      StaysSound(connSet[j]);
    }

    /** A step that changes one connection's objects and nothing else. */
    twostate lemma OnlyOne(id: Id)
      requires id in connSet && old(Valid()) && connSet == old(connSet)
      requires connSet[id].Valid() && connSet[id].connected && connSet[id].responseQ.maxLen == maxQueue
      requires forall j :: j in connSet && j != id ==> Untouched(connSet[j])
      ensures Valid() && Conns() == old(Conns())[id := connSet[id].Abs()]
    {
      hide ConnOk, RpcServerConn.Valid, RpcServerConn.Abs, Untouched, Sound, Apart;
      IsSound(id);
      forall j | j in connSet && j != id
        ensures Sound(j) && connSet[j].Abs() == old(connSet[j].Abs())
      {
        Kept(j);
      }
    }

    /** Nothing happens to any connection. */
    twostate lemma NoneTouched()
      requires old(Valid()) && connSet == old(connSet) && forall j :: j in connSet ==> Untouched(connSet[j])
      ensures Valid() && Conns() == old(Conns())
    {
      hide ConnOk, RpcServerConn.Valid, RpcServerConn.Abs, Untouched, Sound, Apart;
      forall j | j in connSet
        ensures Sound(j) && connSet[j].Abs() == old(connSet[j].Abs())
      {
        Kept(j);
      }
    }

    /** One connection goes. */
    twostate lemma Without(id: Id)
      requires old(Valid()) && connSet == old(connSet) - {id}
      requires forall j :: j in connSet ==> Untouched(connSet[j])
      ensures Valid() && Conns() == old(Conns()) - {id}
    {
      hide ConnOk, RpcServerConn.Valid, RpcServerConn.Abs, Untouched, Sound, Apart;
      forall j | j in connSet
        ensures Sound(j) && connSet[j].Abs() == old(connSet[j].Abs())
      {
        Kept(j);
      }
    }

    /** One connection comes. */
    twostate lemma With(id: Id)
      requires old(Valid()) && id in connSet && id !in old(connSet) && connSet == old(connSet)[id := connSet[id]]
      requires connSet[id].Valid() && connSet[id].connected && connSet[id].responseQ.maxLen == maxQueue
      requires forall j :: j in old(connSet) ==>
                 Untouched(connSet[j]) && Apart(connSet[j], connSet[id]) && Apart(connSet[id], connSet[j])
      ensures Valid() && Conns() == old(Conns())[id := connSet[id].Abs()]
    {
      hide ConnOk, RpcServerConn.Valid, RpcServerConn.Abs, Untouched, Sound, Apart;
      IsSound(id);
      forall j | j in old(connSet)
        ensures Sound(j) && connSet[j].Abs() == old(connSet[j].Abs())
      {
        Kept(j);
      }
    }

    method AddConnection(id: Id, c: RpcServerConn)
      requires Valid() && id !in connSet
      requires c.Valid() && c.connected && c.responseQ.maxLen == maxQueue && c.Abs() == NEW_CONN
      requires forall j :: j in connSet ==> Apart(connSet[j], c)
      modifies this
      ensures Valid() && Performs(old(Abs()), [Action.AddConnection(id)]) == Some(Abs())
    {
      hide ConnOk, RpcServerConn.Valid, RpcServerConn.Abs;
      One(Abs(), Action.AddConnection(id));
      connSet := connSet[id := c];
      With(id);
    }

    method RemoveConnection(id: Id)
      requires Valid()
      modifies this
      ensures Valid() && Performs(old(Abs()), [Disconnect(id)]) == Some(Abs())
    {
      hide ConnOk, RpcServerConn.Valid, RpcServerConn.Abs;
      One(Abs(), Disconnect(id));
      connSet := connSet - {id};
      Without(id);
    }

    lemma SameIds()
      requires Valid()
      ensures Conns().Keys == connSet.Keys
    {
      hide Sound, Apart;
    }

    lemma Alive(id: Id)
      requires Valid() && id in connSet
      ensures connSet[id].Valid() && connSet[id].connected && connSet[id].responseQ.maxLen == maxQueue
      ensures id in Conns() && Conns()[id] == connSet[id].Abs() && Conns()[id].queue == connSet[id].responseQ.items
      ensures forall j :: j in connSet && j != id ==> Apart(connSet[j], connSet[id])
    {
      assert Sound(id);
      hide ConnOk, RpcServerConn.Valid;
    }

    /** Queue a response on one connection. */
    method Enqueue(id: Id, pkg: Bytes) returns (ok: bool)
      requires Valid() && id in connSet && pkg != []
      modifies connSet[id].responseQ
      ensures Valid() && ok == (|old(Conns())[id].queue| < maxQueue)
      ensures var c := old(Conns())[id];
              Conns() == if ok then old(Conns())[id := c.(queue := c.queue + [pkg], pushed := c.pushed + [pkg])] else old(Conns())
    {
      hide ConnOk, RpcServerConn.Valid, RpcServerConn.Abs, Sound, Valid, Conns;
      Alive(id);
      ghost var all := Conns();
      ok := connSet[id].PushResponse(pkg);
      OnlyOne(id);
      assert all[id := all[id]] == all;
    }

    /** pushResp: queue the response, push a token, write the event; or drop the response. */
    method PushResp(t: nat, id: Id, pkg: Bytes) returns (queued: bool)
      requires Valid() && t < workers && pkg != []
      modifies this, if id in connSet then {connSet[id].responseQ} else {}
      ensures Valid() && connSet == old(connSet)
      ensures queued == (id in old(Conns()) && |old(Conns())[id].queue| < maxQueue)
      ensures Performs(old(Abs()), if queued then [PushResponse(t, id, pkg), PushToken(t), WriteEvent(t)] else [PushResponse(t, id, pkg)]) == Some(Abs())
      ensures respConnQ == (if queued then old(respConnQ) + [id] else old(respConnQ))
      ensures respEvents == old(respEvents) + if queued then 1 else 0
    {
      hide Perform, Sound, Valid, Conns;
      ghost var s := Abs();
      SameIds();
      if id !in connSet {
        Dropped(s, t, id, pkg);
        return false;
      }
      queued := Enqueue(id, pkg);
      if !queued {
        Dropped(s, t, id, pkg);
        return;
      }
      label Queued:
      respConnQ := respConnQ + [id];
      respEvents := respEvents + 1;
      NoneTouched@Queued();
      Announce(s, t, id, pkg, Abs());
    }

    /** EPOLLOUT of one connection. */
    method SetArmed(id: Id, on: bool)
      requires Valid() && id in connSet && connSet[id].sentPkg.None?
      modifies connSet[id]
      ensures Valid() && connSet[id].sentPkg.None?
      ensures Conns() == old(Conns())[id := old(Conns())[id].(armed := on)]
    {
      hide Sound, Valid, Conns;
      Alive(id);
      connSet[id].armed := on;
      OnlyOne(id);
    }

    method ArmIfIdle(id: Id, sending: bool)
      requires Valid() && (id in connSet ==> sending == connSet[id].sentPkg.Some?)
      modifies connSet.Values
      ensures Valid() && connSet == old(connSet)
      ensures var all := old(Conns());
              Conns() == if id in all && all[id].current.None? then all[id := all[id].(armed := true)] else all
    {
      hide Sound, Valid, Conns;
      SameIds();
      if id in connSet {
        Alive(id);
        if !sending {
          SetArmed(id, true);
        }
      }
    }

    /** onDataOutEvent: read the event, pop a token if there is one, arm the connection unless it is sending. */
    method OnDataOutEvent()
      requires Valid() && respEvents > 0
      modifies this, connSet.Values
      ensures Valid() && connSet == old(connSet)
      ensures Performs(old(Abs()), if old(respConnQ) == [] then [ReadEvent, PopToken] else [ReadEvent, PopToken, Arm]) == Some(Abs())
      ensures respEvents == old(respEvents) - 1 && respConnQ == if old(respConnQ) == [] then [] else old(respConnQ)[1..]
    {
      hide Sound, Valid, Conns;
      ghost var s := Abs();
      respEvents := respEvents - 1;
      ghost var m := s.(events := respEvents, loop := EventRead);
      if respConnQ == [] {
        NoneTouched();
        Two(s, ReadEvent, PopToken, m);
        return;
      }
      var id := respConnQ[0];
      respConnQ := respConnQ[1..];
      ghost var n := m.(tokens := respConnQ, loop := Popped(id));
      Three(s, ReadEvent, PopToken, Arm, m, n);
      var sending := true;
      if id in connSet {
        sending := connSet[id].IsSending();
      }
      NoneTouched();
      ArmIfIdle(id, sending);
    }

    /** Send a piece on one connection. */
    method SendOn(id: Id) returns (st: PkgIOStatus, ghost o: SendOutcome)
      requires Valid() && id in connSet && connSet[id].armed
      modifies connSet[id], connSet[id].sock, connSet[id].responseQ
      ensures Valid() && (st == FULL || st == NODATA ==> connSet[id].sentPkg.None?)
      ensures var c := old(Conns())[id];
              && Possible(c, o) && st == SendResponse(c, o).1 && Conns() == old(Conns())[id := SendResponse(c, o).0]
              && connSet[id].responseQ.items == SendResponse(c, o).0.queue
      ensures var c := old(Conns())[id];
              Pending(c) ==> o == Effect(Retried(old(connSet[id].sock.tape), |TakeUp(c).current.value| - TakeUp(c).sent))
      ensures var c := old(Conns())[id];
              if Pending(c) then Answers(c, Retried(old(connSet[id].sock.tape), Offered(c)), Conns()[id], st)
              else st == NODATA && Conns()[id] == c
      ensures st == FAIL ==> connSet[id].sock.written == old(connSet[id].sock.written)
      ensures var c, d := old(Conns())[id], Conns()[id];
              Pending(c) ==>
                && st != NODATA && d.armed && d.(armed := true) == d && d.(armed := false).(armed := true) == d
                && (st == FAIL <==> var r := Retried(old(connSet[id].sock.tape), Offered(c)); r.CLOSED? || r.ERROR?)
    {
      hide Sound, Valid, Conns, ConnOk, SendResponse, Possible, TakeUp, Answers;
      WireIs(id);
      Alive(id);
      ghost var c := Conns()[id];
      WholeConn(id);
      st, o := connSet[id].SendNext();
      OnlyOne(id);
      AfterSend(c, o);
      WireIs(id);
      if Pending(c) {
        Settled(c, Retried(old(connSet[id].sock.tape), Offered(c)), Conns()[id], st);
      }
    }

    lemma WireIs(id: Id)
      requires Valid() && id in connSet
      ensures connSet[id].sock.written == Conns()[id].wire
    {
      assert Sound(id);
    }

    /** The state the response path sees, field by field. */
    lemma WholeConn(id: Id)
      requires Valid() && id in connSet
      ensures ConnOk(Conns()[id]) && Conns()[id].armed == connSet[id].armed
      ensures Pending(Conns()[id]) ==> Offered(Conns()[id]) >= 0
    {
      assert Sound(id);
    }

    /** onDataOut: send a piece; on failure remove the connection; with nothing left disarm it. */
    method OnDataOut(id: Id) returns (ok: bool, st: PkgIOStatus, ghost o: SendOutcome)
      requires Valid() && id in connSet && connSet[id].armed
      modifies this, connSet[id], connSet[id].sock, connSet[id].responseQ
      ensures Valid() && ok == (st != FAIL)
      ensures var c := old(Conns())[id];
              && Possible(c, o) && st == SendResponse(c, o).1
              && (Pending(c) ==> o == Effect(Retried(old(connSet[id].sock.tape), |TakeUp(c).current.value| - TakeUp(c).sent)))
              && Performs(old(Abs()), OutActions(id, o, st, SendResponse(c, o).0.queue != [])) == Some(Abs())
      ensures connSet == if st == FAIL then old(connSet) - {id} else old(connSet)
      ensures var c := old(Conns())[id];
              if !Pending(c) then st == NODATA && Conns()[id] == c.(armed := false)
              else
                var r := Retried(old(connSet[id].sock.tape), Offered(c));
                && (st == FAIL <==> r.CLOSED? || r.ERROR?)
                && (st == FAIL ==> old(connSet)[id].sock.written == old(connSet[id].sock.written))
                && (st != FAIL ==>
                      && Answers(c, r, Conns()[id].(armed := true), st)
                      && (Conns()[id].armed <==> !(st == FULL && Conns()[id].queue == [])))
    {
      hide Sound, Valid, Conns, ConnOk, SendResponse, Possible, TakeUp, OutActions, Performs, Answers, InFlight, Offered;
      ghost var s := Abs();
      WholeConn(id);
      SameIds();
      st, o := SendOn(id);
      ghost var c := SendResponse(s.conns[id], o).0;
      ok := st != FAIL;
      if st == FAIL {
        label Sent:
        connSet := connSet - {id};
        Without@Sent(id);
      } else if st == NODATA || (st == FULL && connSet[id].responseQ.items == []) {
        SetArmed(id, false);
      }
      Outs(s, id, o, Abs());
    }
  }

  twostate predicate Untouched(c: RpcServerConn)
    reads c, c.sock, c.responseQ
  {
    unchanged(c) && unchanged(c.sock) && unchanged(c.responseQ)
  }

  twostate lemma StaysSound(c: RpcServerConn)
    requires Untouched(c)
    ensures c.Valid() == old(c.Valid()) && c.Abs() == old(c.Abs()) && c.connected == old(c.connected)
    ensures c.responseQ.maxLen == old(c.responseQ.maxLen)
  {
  }
}
