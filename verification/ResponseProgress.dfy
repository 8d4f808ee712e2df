/**
 Nothing gets stuck: from every reachable state the threads can finish what is under way and
 deliver every response queued on a live connection, without any further response being pushed.
 */
module ResponseProgress {
  import opened Options
  import opened Octets
  import opened ResponsePath

  /** Actions that finish what is under way: nothing new is pushed, no connection comes or goes by itself, no send fails. */
  predicate Finishing(a: Action) {
    !a.PushResponse? && !a.AddConnection? && !a.Disconnect? && (a.Send? ==> a.o.Wrote?)
  }

  /** Steps the worker threads still have to take; the event they write is read later. */
  function PusherWork(p: seq<Pusher>): nat {
    if p == [] then 0
    else PusherWork(p[..|p| - 1]) + (match p[|p| - 1] case Idle => 0 case Queued(_) => 6 case Tokened(_) => 5)
  }

  function LoopWork(l: Loop): nat {
    match l
    case Waiting => 0
    case EventRead => 2
    case Popped(_) => 1
    case SentFull(_) => 2
    case Disarming(_) => 1
    case Removing(_) => 1
  }

  function Backlog(c: Conn): nat { |c.queue| + if c.current.Some? then 1 else 0 }

  function Work(s: Server, id: Id): nat
    requires id in s.conns
  {
    PusherWork(s.pushers) + 4 * s.events + LoopWork(s.loop) + 4 * Backlog(s.conns[id])
  }

  ghost predicate NonEmpty(c: Conn) {
    (c.current.Some? ==> c.current.value != []) && forall i :: 0 <= i < |c.queue| ==> c.queue[i] != []
  }

  lemma {:induction false} WorkUpdate(p: seq<Pusher>, t: nat, x: Pusher)
    requires t < |p|
    ensures PusherWork(p[t := x]) - PusherWork([x]) == PusherWork(p) - PusherWork([p[t]])
    decreases |p|
  {
    var q := p[t := x];
    assert [x][..0] == [] && [p[t]][..0] == [];
    if t == |p| - 1 {
      assert q[..|p| - 1] == p[..|p| - 1];
    } else {
      assert q[..|p| - 1] == p[..|p| - 1][t := x];
      WorkUpdate(p[..|p| - 1], t, x);
    }
  }

  /** A state in which the connection is alive and nobody is about to remove it. */
  ghost predicate Alive(s: Server, id: Id) {
    Inv(s) && id in s.conns && s.loop != Removing(id) && NonEmpty(s.conns[id])
  }

  /** One step closer: the action can happen, and leaves less to do. */
  ghost predicate Closer(s: Server, id: Id, a: Action)
    requires id in s.conns
  {
    && Finishing(a) && Perform(s, a).Some?
    && var r := Perform(s, a).value;
       && id in r.conns && r.loop != Removing(id) && NonEmpty(r.conns[id]) && Work(r, id) < Work(s, id)
       && r.conns[id].pushed == s.conns[id].pushed
  }

  lemma PusherMoves(s: Server, id: Id, t: nat) returns (a: Action)
    requires Alive(s, id) && t < |s.pushers| && !s.pushers[t].Idle?
    ensures Closer(s, id, a)
  {
    hide Inv;
    var p := s.pushers[t];
    a := if p.Queued? then PushToken(t) else WriteEvent(t);
    var x := if p.Queued? then Tokened(p.id) else Idle;
    WorkUpdate(s.pushers, t, x);
    assert PusherWork([p]) - PusherWork([x]) == if p.Queued? then 1 else 5 by { assert [p][..0] == [] && [x][..0] == []; }
  }

  lemma LoopMoves(s: Server, id: Id) returns (a: Action)
    requires Alive(s, id) && LockFree(s) && (!s.loop.Waiting? || s.events > 0)
    ensures Closer(s, id, a)
  {
    hide ConnOk, Awake;
    match s.loop
    case Waiting => a := ReadEvent;
    case EventRead => a := PopToken;
    case Popped(_) => a := Arm;
    case SentFull(_) => a := CheckSize;
    case Disarming(_) => a := Disarm;
    case Removing(_) => a := Remove;
  }

  /** With everything else at rest, a connection with a backlog is armed and can send a whole package. */
  lemma Sends(s: Server, id: Id) returns (a: Action)
    requires Alive(s, id) && LockFree(s) && s.loop.Waiting? && s.events == 0 && Pending(s.conns[id])
    ensures Closer(s, id, a)
  {
    UnwrittenIdle(s.pushers);
    var c := s.conns[id];
    assert c.armed;
    var d := TakeUp(c);
    var n := |d.current.value| - d.sent;
    a := Send(id, Wrote(n));
    hide Inv;
    assert SendResponse(c, Wrote(n)) == SendPiece(d, n);
  }

  lemma NextAction(s: Server, id: Id) returns (a: Action)
    requires Alive(s, id) && Work(s, id) > 0
    ensures Closer(s, id, a)
  {
    hide Inv, NonEmpty;
    if t :| 0 <= t < |s.pushers| && !s.pushers[t].Idle? {
      a := PusherMoves(s, id, t);
    } else if !s.loop.Waiting? || s.events > 0 {
      a := LoopMoves(s, id);
    } else {
      NoPusherWork(s.pushers);
      a := Sends(s, id);
    }
  }

  lemma {:induction false} NoPusherWork(p: seq<Pusher>)
    requires forall t :: 0 <= t < |p| ==> p[t].Idle?
    ensures PusherWork(p) == 0
  {
    if p != [] {
      NoPusherWork(p[..|p| - 1]);
    }
  }

  lemma {:induction false} Drain(s0: Server, actions: seq<Action>, id: Id) returns (more: seq<Action>)
    requires Run(s0, actions).Some? && Alive(Run(s0, actions).value, id)
    ensures forall i :: 0 <= i < |more| ==> Finishing(more[i])
    ensures Run(s0, actions + more).Some? && Alive(Run(s0, actions + more).value, id)
    ensures var r := Run(s0, actions + more).value; Work(r, id) == 0 && r.conns[id].pushed == Run(s0, actions).value.conns[id].pushed
    decreases Work(Run(s0, actions).value, id)
  {
    hide Inv, NonEmpty, Work, Perform;
    var s := Run(s0, actions).value;
    if Work(s, id) == 0 {
      more := [];
      assert actions + more == actions;
    } else {
      var a := NextAction(s, id);
      ActionKeeps(s, a);
      assert (actions + [a])[..|actions|] == actions;
      var rest := Drain(s0, actions + [a], id);
      more := [a] + rest;
      assert actions + more == actions + [a] + rest;
    }
  }

  /**
   Every response can be delivered: in every reachable state, for every live connection nobody
   is removing, the threads have a way to go on, pushing nothing new, after which every response
   ever queued on it is on the wire, in order and whole.
   */
  lemma EveryResponseCanArrive(n: nat, maxQueue: nat, actions: seq<Action>, id: Id) returns (more: seq<Action>)
    requires Run(Start(n, maxQueue), actions).Some?
    requires var s := Run(Start(n, maxQueue), actions).value; id in s.conns && s.loop != Removing(id) && NonEmpty(s.conns[id])
    ensures forall i :: 0 <= i < |more| ==> Finishing(more[i])
    ensures Run(Start(n, maxQueue), actions + more).Some? && id in Run(Start(n, maxQueue), actions + more).value.conns
    ensures var c := Run(Start(n, maxQueue), actions + more).value.conns[id];
            c.pushed == Run(Start(n, maxQueue), actions).value.conns[id].pushed && c.wire == Flatten(c.pushed)
  {
    RunKeeps(n, maxQueue, actions);
    more := Drain(Start(n, maxQueue), actions, id);
    hide Run, Perform;
    var c := Run(Start(n, maxQueue), actions + more).value.conns[id];
    assert ConnOk(c) && c.queue == [] && c.current.None?;
    assert c.done + [] + [] == c.done && Flatten(c.done) + [] == Flatten(c.done);
  }
}
