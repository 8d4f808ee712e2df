/** Two runs that show where the registry's guarantees end. */
module CallbackLimits {
  import opened Options
  import opened Octets
  import opened RpcDefs
  import opened Registry
  import opened Callbacks

  lemma RunSnoc(n: nat, actions: seq<Action>, a: Action)
    requires Run(n, actions).Some?
    ensures Run(n, actions + [a]) == Perform(Run(n, actions).value, a)
  {
    assert (actions + [a])[..|actions|] == actions;
  }

  /** Run one more action. */
  lemma Then(n: nat, actions: seq<Action>, s: Looper, a: Action, r: Looper)
    requires Run(n, actions) == Some(s) && Perform(s, a) == Some(r)
    ensures Run(n, actions + [a]) == Some(r)
  {
    RunSnoc(n, actions, a);
  }

  /** What one thread does from making a request with a timeout of 5 seconds at time 0 to having it ready to send. */
  function Prepare(t: nat, shared: bool): seq<Action> {
    [Begin(t, 3, 0, false, 5, false, shared), InsertCb(t), InsertTimeout(t, 0)]
  }

  function Waiting(id: ReqId, shared: bool): Req { Req(id, false, 5, false, shared, false, [], Some(5), false) }

  lemma PrepareRuns(n: nat, actions: seq<Action>, s: Looper, t: nat, shared: bool)
    requires Run(n, actions) == Some(s) && At(s, t).Idle? && t < |s.threads|
    requires ReqId(t, 3, 0, s.sh.seqid) !in s.sh.idCb
    ensures var id, k := ReqId(t, 3, 0, s.sh.seqid), |s.sh.reqs|;
            var sh := s.sh.(reqs := s.sh.reqs + [Waiting(id, shared)], idCb := s.sh.idCb[id := k], timers := InsertTimer(s.sh.timers, Timer(5, id)));
            Run(n, actions + Prepare(t, shared)) == Some(Looper(sh, s.threads[t := Ready(k)]))
  {
    hide InsertTimer;
    var acts := Prepare(t, shared);
    var id, k := ReqId(t, 3, 0, s.sh.seqid), |s.sh.reqs|;
    var q := NewReq(s.sh, t, 3, 0, false, 5, false, shared);
    var a := Looper(s.sh.(reqs := s.sh.reqs + [q]), s.threads[t := Generated(k)]);
    assert Perform(s, acts[0]) == Some(a);
    var b := Looper(a.sh.(idCb := s.sh.idCb[id := k]), s.threads[t := Registered(k)]);
    assert a.threads[t := Registered(k)] == b.threads;
    assert Perform(a, acts[1]) == Some(b);
    var c := Looper(AddTimer(b.sh, k, 0), s.threads[t := Ready(k)]);
    assert b.threads[t := Ready(k)] == c.threads;
    assert Perform(b, acts[2]) == Some(c);
    assert c.sh.reqs == s.sh.reqs + [Waiting(id, shared)];
    hide Run, Perform;
    Then(n, actions, s, acts[0], a);
    Then(n, actions + [acts[0]], a, acts[1], b);
    Then(n, actions + [acts[0]] + [acts[1]], b, acts[2], c);
    assert actions + [acts[0]] + [acts[1]] + [acts[2]] == actions + acts;
  }

  const R0 := ReqId(0, 3, 0, 0)
  const R1 := ReqId(1, 3, 0, 1)

  /** One request made and sent by thread 0 of two. */
  function OneSent(shared: bool): Looper {
    Looper(Shared(map[R0 := 0], [Timer(5, R0)], 1, [Waiting(R0, shared)], 1), [Idle, Idle])
  }

  lemma SendOne(shared: bool)
    ensures Run(2, Prepare(0, shared) + [Send(0, SEND_OK)]) == Some(OneSent(shared))
  {
    var s := Start(2);
    assert s.threads == [Idle, Idle];
    PrepareRuns(2, [], s, 0, shared);
    assert [] + Prepare(0, shared) == Prepare(0, shared);
    var a := Looper(Shared(map[R0 := 0], [Timer(5, R0)], 0, [Waiting(R0, shared)], 0), [Ready(0), Idle]);
    assert s.threads[0 := Ready(0)] == a.threads;
    var sh := s.sh.(reqs := s.sh.reqs + [Waiting(R0, shared)], idCb := s.sh.idCb[R0 := 0], timers := InsertTimer(s.sh.timers, Timer(5, R0)));
    assert sh.timers == a.sh.timers;
    assert sh.idCb == a.sh.idCb;
    assert sh.reqs == a.sh.reqs;
    assert sh == a.sh;
    assert Run(2, Prepare(0, shared)) == Some(a);
    assert a.threads[0 := Idle] == OneSent(shared).threads;
    hide Run, Prepare;
    Then(2, Prepare(0, shared), a, Send(0, SEND_OK), OneSent(shared));
  }

  function FailingSend(): seq<Action> {
    Prepare(0, false) + [Send(0, SEND_OK)] + Prepare(1, false) + [Send(1, SEND_FAIL)] + [Abandon(1)]
  }

  /**
   A failed send takes other requests' timers with it: here a request waits in the id map
   with a timeout of 5 seconds and no timer, and no scan ever times it out.
   */
  lemma FailedSendErasesOthers(now: int)
    ensures Run(2, FailingSend()).Some?
    ensures var sh := Run(2, FailingSend()).value.sh;
            Live(sh, 0) && sh.reqs[0].expiry == Some(5) && sh.reqs[0].lost && sh.timers == [] && Live(Scan(sh, now), 0)
  {
    hide Run, Prepare, InsertTimer, EraseKey;
    SendOne(false);
    var before := Prepare(0, false) + [Send(0, SEND_OK)];
    var b := TwoMade();
    MakeSecond(before);
    var c := Looper(b.sh.(seqid := 2, sends := 2), [Idle, Failed(1, SEND_FAIL)]);
    assert b.threads[1 := Failed(1, SEND_FAIL)] == c.threads;
    Then(2, before + Prepare(1, false), b, Send(1, SEND_FAIL), c);
    Abandoned();
    var d := Looper(CleanUp(c.sh, 1, SEND_FAIL), [Idle, Idle]);
    assert c.threads[1 := Idle] == d.threads;
    Then(2, before + Prepare(1, false) + [Send(1, SEND_FAIL)], c, Abandon(1), d);
  }

  /** Thread 1 has made a second request with the same expiry. */
  function TwoMade(): Looper {
    var waiting := [Waiting(R0, false), Waiting(R1, false)];
    Looper(Shared(map[R0 := 0, R1 := 1], [Timer(5, R0), Timer(5, R1)], 1, waiting, 1), [Idle, Ready(1)])
  }

  lemma MakeSecond(before: seq<Action>)
    requires Run(2, before) == Some(OneSent(false))
    ensures Run(2, before + Prepare(1, false)) == Some(TwoMade())
  {
    hide Run, Prepare;
    var a, b := OneSent(false), TwoMade();
    PrepareRuns(2, before, a, 1, false);
    assert [Timer(5, R0)][1..] == [];
    assert InsertTimer([Timer(5, R0)], Timer(5, R1)) == b.sh.timers;
    assert a.threads[1 := Ready(1)] == b.threads;
    assert a.sh.reqs + [Waiting(R1, false)] == b.sh.reqs;
    assert a.sh.idCb[R1 := 1] == b.sh.idCb;
  }

  lemma Abandoned()
    ensures var sh := CleanUp(TwoMade().sh.(seqid := 2, sends := 2), 1, SEND_FAIL);
            sh.timers == [] && Live(sh, 0) && sh.reqs[0] == Waiting(R0, false).(lost := true)
  {
    assert [Timer(5, R0), Timer(5, R1)][1..] == [Timer(5, R1)];
    assert [Timer(5, R1)][1..] == [];
  }

  function SharedCallback(): seq<Action> {
    Prepare(0, true) + [Send(0, SEND_OK)] + [GetCb(1, R0, SERVER_OK)] + [DealTimeouts(6)] + [RunCallback(1)]
  }

  /** A callback object marked shared can run twice for one request: with the timeout and with the response. */
  lemma SharedRunsTwice()
    ensures Run(2, SharedCallback()).Some?
    ensures Run(2, SharedCallback()).value.sh.reqs[..] == [Waiting(R0, true).(results := [CB_TIMEOUT, SERVER_OK])]
  {
    hide Run, Prepare, InsertTimer;
    SendOne(true);
    var a := OneSent(true);
    var before := Prepare(0, true) + [Send(0, SEND_OK)];
    var late, twice := Waiting(R0, true).(results := [CB_TIMEOUT]), Waiting(R0, true).(results := [CB_TIMEOUT, SERVER_OK]);
    var b := a.(threads := [Idle, Fetched(0, SERVER_OK)]);
    assert a.threads[1 := Fetched(0, SERVER_OK)] == b.threads;
    Then(2, before, a, GetCb(1, R0, SERVER_OK), b);
    var c := b.(sh := b.sh.(timers := [], idCb := map[], reqs := [late]));
    ScanFires(b.sh, c.sh);
    Then(2, before + [GetCb(1, R0, SERVER_OK)], b, DealTimeouts(6), c);
    var d := Looper(c.sh.(reqs := [twice]), [Idle, Called(0)]);
    assert Fire(late, SERVER_OK) == twice by {
      assert [CB_TIMEOUT] + [SERVER_OK] == [CB_TIMEOUT, SERVER_OK];
    }
    assert c.sh.reqs[0 := twice] == d.sh.reqs && c.threads[1 := Called(0)] == d.threads;
    Then(2, before + [GetCb(1, R0, SERVER_OK)] + [DealTimeouts(6)], c, RunCallback(1), d);
  }

  lemma ScanFires(sh: Shared, r: Shared)
    requires sh == OneSent(true).sh
    requires r == sh.(timers := [], idCb := map[], reqs := [Waiting(R0, true).(results := [CB_TIMEOUT])])
    ensures Scan(sh, 6) == r
  {
    assert [Timer(5, R0)][1..] == [];
    assert map[R0 := 0] - {R0} == map[];
    assert [] + [CB_TIMEOUT] == [CB_TIMEOUT];
    assert sh.reqs[0 := Fire(sh.reqs[0], CB_TIMEOUT)] == r.reqs;
    var n := ScanStep(sh, 6);
    assert n == r;
    assert Scan(sh, 6) == Scan(n, 6);
  }
}
