/**
 Whatever the scheduler does: once nothing new is pushed, the threads take a bounded number of
 steps in any order, sends that find the socket full aside, and when only such sends are left
 every response has been delivered.
 */
module ResponseSchedule {
  import opened Options
  import opened Octets
  import opened RpcDefs
  import opened ResponsePath
  import opened ResponseProgress

  // -------------------------------------------------------------------- a sum over a map

  ghost function Sum(m: map<Id, nat>): nat {
    if m == map[] then 0
    else
      var id :| id in m;
      m[id] + Sum(m - {id})
  }

  lemma {:induction false} SumPick(m: map<Id, nat>, id: Id)
    requires id in m
    ensures Sum(m) == m[id] + Sum(m - {id})
    decreases |m|
  {
    var x :| x in m && Sum(m) == m[x] + Sum(m - {x});
    if x != id {
      SumPick(m - {x}, id);
      SumPick(m - {id}, x);
      assert (m - {x}) - {id} == (m - {id}) - {x};
    }
  }

  /** One entry changes, the others stay. */
  lemma SumUpdate(m: map<Id, nat>, w: map<Id, nat>, id: Id)
    requires id in m && id in w && m - {id} == w - {id}
    ensures Sum(w) + m[id] == Sum(m) + w[id]
  {
    SumPick(m, id);
    SumPick(w, id);
  }

  // ----------------------------------------------------------------------- what is left to do

  function QueueBytes(q: seq<Bytes>): nat {
    if q == [] then 0 else |q[0]| + QueueBytes(q[1..])
  }

  /** Bytes still to be sent. */
  function BytesLeft(c: Conn): int {
    QueueBytes(c.queue) + if c.current.Some? then |c.current.value| - c.sent else 0
  }

  /** A connection's share; an armed one has a look at an empty queue and a disarming or a removal ahead of it. */
  function Share(c: Conn, leaving: bool): nat {
    (if BytesLeft(c) > 0 then 4 * BytesLeft(c) else 0) + if c.armed && !leaving then 2 else 0
  }

  /** The epoll thread is about to disarm or remove the connection. */
  predicate Leaving(l: Loop, id: Id) { l == Disarming(id) || l == Removing(id) }

  function Shares(s: Server): map<Id, nat> {
    map id | id in s.conns :: Share(s.conns[id], Leaving(s.loop, id))
  }

  function PusherSteps(p: seq<Pusher>): nat {
    if p == [] then 0
    else PusherSteps(p[..|p| - 1]) + (match p[|p| - 1] case Idle => 0 case Queued(_) => 7 case Tokened(_) => 6)
  }

  function LoopSteps(l: Loop): nat {
    match l
    case Waiting => 0
    case EventRead => 4
    case Popped(_) => 3
    case SentFull(_) => 2
    case Disarming(_) => 1
    case Removing(_) => 1
  }

  ghost function Measure(s: Server): nat {
    PusherSteps(s.pushers) + 5 * s.events + LoopSteps(s.loop) + Sum(Shares(s))
  }

  // -------------------------------------------------------------- every step brings it closer

  lemma {:induction false} StepsUpdate(p: seq<Pusher>, t: nat, x: Pusher)
    requires t < |p|
    ensures PusherSteps(p[t := x]) - PusherSteps([x]) == PusherSteps(p) - PusherSteps([p[t]])
    decreases |p|
  {
    var q := p[t := x];
    assert [x][..0] == [] && [p[t]][..0] == [];
    if t == |p| - 1 {
      assert q[..|p| - 1] == p[..|p| - 1];
    } else {
      assert q[..|p| - 1] == p[..|p| - 1][t := x];
      StepsUpdate(p[..|p| - 1], t, x);
    }
  }

  lemma PusherStep(s: Server, a: Action)
    requires (a.PushToken? || a.WriteEvent?) && Perform(s, a).Some?
    ensures Measure(Perform(s, a).value) < Measure(s)
  {
    var r := Perform(s, a).value;
    var x, y := s.pushers[a.t], r.pushers[a.t];
    StepsUpdate(s.pushers, a.t, y);
    assert [x][..0] == [] && [y][..0] == [];
    assert Shares(r) == Shares(s);
  }

  /** Sending a piece leaves that many bytes fewer. */
  lemma PieceLeaves(c: Conn, n: nat)
    requires c.current.Some? && 1 <= n <= |c.current.value| - c.sent
    ensures BytesLeft(SendPiece(c, n).0) == BytesLeft(c) - n && BytesLeft(c) > 0
  {
  }

  lemma TakeUpLeaves(c: Conn)
    requires Pending(c)
    ensures BytesLeft(TakeUp(c)) == BytesLeft(c)
  {
  }

  /** What sending does to the connection's share, by outcome. */
  lemma SendShare(c: Conn, o: SendOutcome)
    requires ConnOk(c) && c.armed && Possible(c, o)
    ensures var (d, st) := SendResponse(c, o);
            var left := Share(d, st == NODATA || st == FAIL) + if st == FULL then 2 else if st == NODATA || st == FAIL then 1 else 0;
            left < Share(c, false) || (o.Again? && left == Share(c, false))
  {
    hide ConnOk, BytesLeft;
    if Pending(c) {
      TakeUpLeaves(c);
      if o.Wrote? {
        PieceLeaves(TakeUp(c), o.n);
      }
    }
  }

  /** One connection and the loop change; nothing else does. */
  lemma OneConn(s: Server, r: Server, id: Id, c: Conn)
    requires id in s.conns && r == s.(conns := s.conns[id := c], loop := r.loop)
    requires s.loop.Disarming? || s.loop.Removing? ==> s.loop.id == id
    requires r.loop.Disarming? || r.loop.Removing? ==> r.loop.id == id
    ensures Measure(r) - LoopSteps(r.loop) - Share(c, Leaving(r.loop, id)) ==
            Measure(s) - LoopSteps(s.loop) - Share(s.conns[id], Leaving(s.loop, id))
  {
    hide Share;
    assert Shares(s) - {id} == Shares(r) - {id};
    SumUpdate(Shares(s), Shares(r), id);
  }

  lemma SendStep(s: Server, a: Action)
    requires Inv(s) && a.Send? && Perform(s, a).Some?
    ensures Measure(Perform(s, a).value) < Measure(s) || (a.o.Again? && Measure(Perform(s, a).value) == Measure(s))
  {
    hide ConnOk, Awake, SendResponse, Share, Measure, Possible;
    var r := Perform(s, a).value;
    SendShare(s.conns[a.id], a.o);
    OneConn(s, r, a.id, SendResponse(s.conns[a.id], a.o).0);
  }

  lemma LoopStep(s: Server, a: Action)
    requires Inv(s) && (a.Arm? || a.CheckSize? || a.Disarm?) && Perform(s, a).Some?
    ensures Measure(Perform(s, a).value) < Measure(s)
  {
    hide ConnOk, Awake, Measure, BytesLeft;
    var r, id := Perform(s, a).value, s.loop.id;
    if id in s.conns {
      var c := s.conns[id];
      ShareSame(c);
      assert s.conns[id := c] == s.conns;
      OneConn(s, r, id, r.conns[id]);
      hide Share;
    } else {
      assert Shares(s) == Shares(r);
      SameShares(s, r);
    }
  }

  lemma SameShares(s: Server, r: Server)
    requires Shares(s) == Shares(r) && s.pushers == r.pushers && s.events == r.events
    ensures Measure(r) - LoopSteps(r.loop) == Measure(s) - LoopSteps(s.loop)
  {
  }

  lemma ShareSame(c: Conn)
    ensures Share(c.(armed := false), false) == Share(c, true) <= Share(c, false) <= Share(c.(armed := true), false) <= Share(c, false) + 2
    ensures Share(c.(armed := true), false) <= Share(c.(armed := false), true) + 2
  {
    assert BytesLeft(c.(armed := true)) == BytesLeft(c) && BytesLeft(c.(armed := false)) == BytesLeft(c);
  }

  lemma EventStep(s: Server, a: Action)
    requires (a.ReadEvent? || a.PopToken?) && Perform(s, a).Some?
    ensures Measure(Perform(s, a).value) < Measure(s)
  {
    assert Shares(Perform(s, a).value) == Shares(s);
  }

  lemma RemoveStep(s: Server, a: Action)
    requires a.Remove? && Perform(s, a).Some?
    ensures Measure(Perform(s, a).value) < Measure(s)
  {
    var r, id := Perform(s, a).value, s.loop.id;
    if id in s.conns {
      assert Shares(s) - {id} == Shares(r);
      SumPick(Shares(s), id);
    } else {
      assert Shares(s) == Shares(r);
    }
  }

  /** The steps of the threads that push nothing new, failing sends included. */
  predicate PushesNothing(a: Action) { !a.PushResponse? && !a.AddConnection? && !a.Disconnect? }

  /** A send that finds the socket full; it can happen any number of times. */
  predicate FindsFull(a: Action) { a.Send? && a.o.Again? }

  lemma FinishingStep(s: Server, a: Action)
    requires Inv(s) && PushesNothing(a) && Perform(s, a).Some?
    ensures Measure(Perform(s, a).value) < Measure(s) || (FindsFull(a) && Measure(Perform(s, a).value) == Measure(s))
  {
    hide Inv, Perform, Measure;
    match a
    case PushToken(_) => PusherStep(s, a);
    case WriteEvent(_) => PusherStep(s, a);
    case ReadEvent => EventStep(s, a);
    case PopToken => EventStep(s, a);
    case Remove => RemoveStep(s, a);
    case Send(_, _) => SendStep(s, a);
    case _ => LoopStep(s, a);
  }

  // ------------------------------------------------------------------------- any schedule

  function Count(more: seq<Action>): nat {
    if more == [] then 0 else Count(more[..|more| - 1]) + if FindsFull(more[|more| - 1]) then 0 else 1
  }

  /** No thread can do anything but push something new, change the connections, or send without success. */
  ghost predicate AtRest(s: Server) {
    forall a :: Finishing(a) ==> Perform(s, a).None?
  }

  lemma {:induction false} Bounded(n: nat, maxQueue: nat, actions: seq<Action>, more: seq<Action>)
    requires Run(Start(n, maxQueue), actions + more).Some? && forall i :: 0 <= i < |more| ==> PushesNothing(more[i])
    ensures Run(Start(n, maxQueue), actions).Some?
    ensures Count(more) + Measure(Run(Start(n, maxQueue), actions + more).value) <= Measure(Run(Start(n, maxQueue), actions).value)
    decreases |more|
  {
    hide Perform, Measure, Inv;
    if more == [] {
      assert actions + more == actions;
    } else {
      var before, a := more[..|more| - 1], more[|more| - 1];
      assert (actions + more)[..|actions + more| - 1] == actions + before;
      Bounded(n, maxQueue, actions, before);
      RunKeeps(n, maxQueue, actions + before);
      FinishingStep(Run(Start(n, maxQueue), actions + before).value, a);
    }
  }

  /** While something is left to do for a connection, some thread can do something. */
  lemma SomeoneCan(s: Server, id: Id) returns (a: Action)
    requires Inv(s) && id in s.conns && NonEmpty(s.conns[id]) && Work(s, id) > 0
    ensures Finishing(a) && Perform(s, a).Some?
  {
    hide Inv, NonEmpty;
    if s.loop == Removing(id) {
      if t :| 0 <= t < |s.pushers| && !s.pushers[t].Idle? {
        a := if s.pushers[t].Queued? then PushToken(t) else WriteEvent(t);
      } else {
        a := Remove;
      }
    } else {
      a := NextAction(s, id);
    }
  }

  /** At rest nothing is left to do for any connection. */
  lemma RestIsDone(s: Server, id: Id)
    requires Inv(s) && AtRest(s) && id in s.conns && NonEmpty(s.conns[id])
    ensures Work(s, id) == 0
  {
    hide Inv, NonEmpty, Perform;
    if Work(s, id) > 0 {
      var a := SomeoneCan(s, id);
    }
  }

  /**
   Delivery under any schedule, from any reachable state: the threads can take only so many
   steps that push nothing new, whichever they choose, failing sends included and sends that
   find the socket full not counted. When nothing but such sends is left, every response ever
   queued on a live connection is on the wire, in order and whole.
   */
  lemma EveryScheduleDelivers(n: nat, maxQueue: nat, actions: seq<Action>, more: seq<Action>)
    requires Run(Start(n, maxQueue), actions + more).Some? && forall i :: 0 <= i < |more| ==> PushesNothing(more[i])
    ensures Run(Start(n, maxQueue), actions).Some? && Count(more) <= Measure(Run(Start(n, maxQueue), actions).value)
    ensures var s := Run(Start(n, maxQueue), actions + more).value;
            AtRest(s) ==> forall id :: id in s.conns && (forall p :: p in s.conns[id].pushed ==> p != []) ==>
              s.conns[id].wire == Flatten(s.conns[id].pushed)
  {
    hide Perform, Measure, Run, AtRest;
    Bounded(n, maxQueue, actions, more);
    RunKeeps(n, maxQueue, actions + more);
    var s := Run(Start(n, maxQueue), actions + more).value;
    if AtRest(s) {
      forall id | id in s.conns && forall p :: p in s.conns[id].pushed ==> p != []
        ensures s.conns[id].wire == Flatten(s.conns[id].pushed)
      {
        NothingEmpty(s.conns[id]);
        RestIsDone(s, id);
        AllSent(s.conns[id]);
      }
    }
  }

  /** Why those are not counted: with a package in flight, a full socket leaves everything as it is. */
  lemma FullAgain(s: Server, id: Id)
    requires s.loop.Waiting? && id in s.conns && s.conns[id].armed && s.conns[id].current.Some?
    ensures Perform(s, Send(id, Again)) == Some(s)
  {
    assert s.conns[id := s.conns[id]] == s.conns;
  }

  lemma NothingEmpty(c: Conn)
    requires ConnOk(c) && forall p :: p in c.pushed ==> p != []
    ensures NonEmpty(c)
  {
    hide Flatten;
    var flight := if c.current.Some? then [c.current.value] else [];
    assert c.pushed == c.done + flight + c.queue;
    if c.current.Some? {
      assert c.pushed[|c.done|] == c.current.value;
      assert c.current.value in c.pushed;
    }
    forall i | 0 <= i < |c.queue|
      ensures c.queue[i] != []
    {
      assert c.pushed[|c.done + flight| + i] == c.queue[i];
      assert c.queue[i] in c.pushed;
    }
  }

  lemma AllSent(c: Conn)
    requires ConnOk(c) && Backlog(c) == 0
    ensures c.wire == Flatten(c.pushed)
  {
    assert c.queue == [] && c.done + [] + [] == c.done && Flatten(c.done) + [] == Flatten(c.done);
  }
}
