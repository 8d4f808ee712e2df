/** Whose callback is called with what: dispatch of responses, failed sends and the stop, in any run. */
module CallbackLaws {
  import opened Options
  import opened Octets
  import opened RpcDefs
  import opened Registry
  import opened Callbacks

  /** The run after its first `i` actions. */
  function After(n: nat, actions: seq<Action>, i: nat): Looper
    requires i <= |actions| && Run(n, actions[..i]).Some?
  {
    Run(n, actions[..i]).value
  }

  /** The thread that acts, if it is one of the numbered threads. */
  predicate Acts(a: Action, t: nat) {
    !a.DealTimeouts? && !a.Stop? && a.t == t
  }

  lemma {:induction false} RunPrefix(n: nat, actions: seq<Action>, i: nat)
    requires Run(n, actions).Some? && i <= |actions|
    ensures Run(n, actions[..i]).Some? && Run(n, actions[..i]).value.sh.sends <= Run(n, actions).value.sh.sends
    decreases |actions|
  {
    hide Perform;
    if i < |actions| {
      var before := actions[..|actions| - 1];
      SendsGrow(Run(n, before).value, actions[|actions| - 1]);
      RunPrefix(n, before, i);
      assert before[..i] == actions[..i];
    } else {
      assert actions[..i] == actions;
    }
  }

  lemma NextAction(n: nat, actions: seq<Action>, i: nat)
    requires Run(n, actions).Some? && i < |actions|
    ensures Run(n, actions[..i]).Some? && Run(n, actions[..i + 1]).Some?
    ensures Perform(After(n, actions, i), actions[i]) == Some(After(n, actions, i + 1))
  {
    hide Perform;
    RunPrefix(n, actions, i);
    RunPrefix(n, actions, i + 1);
    assert actions[..i + 1][..i] == actions[..i];
  }

  /** Requests keep their ids. */
  ghost predicate KeepsIds(a: seq<Req>, b: seq<Req>) {
    |a| <= |b| && forall k :: 0 <= k < |a| ==> b[k].id == a[k].id
  }

  lemma {:induction false} ScanIds(sh: Shared, now: int)
    ensures KeepsIds(sh.reqs, Scan(sh, now).reqs)
    decreases |sh.timers|
  {
    hide FireAt;
    if sh.timers != [] && !(sh.timers[0].id in sh.idCb && now <= sh.timers[0].tm) {
      assert Scan(sh, now) == Scan(ScanStep(sh, now), now);
      ScanIds(ScanStep(sh, now), now);
      FireTimes(sh.reqs, if sh.timers[0].id in sh.idCb then sh.idCb[sh.timers[0].id] else 0, CB_TIMEOUT);
      hide Scan;
    }
  }

  /** What others do: they leave a thread where it is. */
  lemma OthersAct(s: Looper, a: Action, t: nat)
    requires Perform(s, a).Some? && t < |s.threads| && !Acts(a, t)
    ensures var r := Perform(s, a).value; |r.threads| == |s.threads| && r.threads[t] == s.threads[t]
  {
    hide InsertTimer, EraseKey, CleanUp, Scan, RemoveAll, FireAt;
  }

  lemma IdsStay(s: Looper, a: Action)
    requires Perform(s, a).Some?
    ensures KeepsIds(s.sh.reqs, Perform(s, a).value.sh.reqs)
  {
    hide InsertTimer, EraseKey, Scan, FireAt;
    if a.DealTimeouts? {
      ScanIds(s.sh, a.now);
    } else if a.Abandon? && At(s, a.t).Failed? && At(s, a.t).k < |s.sh.reqs| {
      CleanUpTimes(s.sh, At(s, a.t).k, At(s, a.t).st);
      hide CleanUp;
    } else if a.RunCallback? && At(s, a.t).Fetched? {
      FireTimes(s.sh.reqs, At(s, a.t).k, At(s, a.t).st);
    }
  }

  /** Between two actions of a thread: it stays where it is and requests keep their ids. */
  lemma {:induction false} Meanwhile(n: nat, actions: seq<Action>, i: nat, j: nat, t: nat)
    requires Run(n, actions).Some? && i <= j <= |actions|
    requires forall x :: i <= x < j ==> !Acts(actions[x], t)
    requires Run(n, actions[..i]).Some? && t < |After(n, actions, i).threads|
    ensures Run(n, actions[..j]).Some?
    ensures var s, r := After(n, actions, i), After(n, actions, j);
            |r.threads| == |s.threads| && r.threads[t] == s.threads[t] && KeepsIds(s.sh.reqs, r.sh.reqs)
    decreases j
  {
    hide Perform, Run;
    if i < j {
      Meanwhile(n, actions, i, j - 1, t);
      NextAction(n, actions, j - 1);
      OthersAct(After(n, actions, j - 1), actions[j - 1], t);
      IdsStay(After(n, actions, j - 1), actions[j - 1]);
    }
  }

  /** A response worker's three actions, with any actions of others in between. */
  ghost predicate Dispatches(actions: seq<Action>, i: nat, j: nat, l: nat, t: nat, id: ReqId, st: RpcStatus) {
    && i < j < l < |actions|
    && actions[i] == GetCb(t, id, st) && actions[j] == RunCallback(t) && actions[l] == RemoveCb(t)
    && forall x :: i < x < l && x != j ==> !Acts(actions[x], t)
  }

  /** Exactly one request has the id. */
  ghost predicate Owns(sh: Shared, k: nat, id: ReqId) {
    k < |sh.reqs| && sh.reqs[k].id == id && forall j :: 0 <= j < |sh.reqs| && sh.reqs[j].id == id ==> j == k
  }

  /**
   Dispatch, in every run: when a worker finds the id of a response in the map, exactly one request
   has that id; it is its callback, and no other, that the worker then calls, with the status of
   the response, and its id, and no other, that it takes out of the map. Nothing else changes in its three actions.
   */
  lemma ResponseDispatched(n: nat, actions: seq<Action>, i: nat, j: nat, l: nat, t: nat, id: ReqId, st: RpcStatus) returns (k: nat)
    requires Run(n, actions).Some? && Run(n, actions).value.sh.sends < TWO32 && Dispatches(actions, i, j, l, t, id, st)
    requires Run(n, actions[..i]).Some? && id in After(n, actions, i).sh.idCb
    ensures forall x :: 0 <= x <= |actions| ==> Run(n, actions[..x]).Some?
    ensures Owns(After(n, actions, i).sh, k, id) && After(n, actions, i + 1).sh == After(n, actions, i).sh
    ensures var sh, r := After(n, actions, j).sh, After(n, actions, j + 1).sh;
            && k < |sh.reqs| && sh.reqs[k].id == id && |r.reqs| == |sh.reqs|
            && r == sh.(reqs := sh.reqs[k := r.reqs[k]]) && Notified(sh.reqs[k], r.reqs[k], st)
    ensures After(n, actions, l + 1).sh == After(n, actions, l).sh.(idCb := After(n, actions, l).sh.idCb - {id})
  {
    hide Run, Perform, Good, FireAt, Dispatches, Notified;
    Order(actions, i, j, l, t, id, st);
    forall x | 0 <= x <= |actions| ensures Run(n, actions[..x]).Some? {
      RunPrefix(n, actions, x);
    }
    var s := After(n, actions, i);
    RunPrefix(n, actions, i);
    RunKeeps(n, actions[..i]);
    NextAction(n, actions, i);
    NextAction(n, actions, j);
    NextAction(n, actions, l);
    k := FetchesOwner(s, t, id, st);
    Meanwhile(n, actions, i + 1, j, t);
    CallsFetched(After(n, actions, j), t, k, st);
    Meanwhile(n, actions, j + 1, l, t);
    RemovesCalled(After(n, actions, l), t, k);
  }

  lemma Order(actions: seq<Action>, i: nat, j: nat, l: nat, t: nat, id: ReqId, st: RpcStatus)
    requires Dispatches(actions, i, j, l, t, id, st)
    ensures i < j < l < |actions| && actions[i] == GetCb(t, id, st) && actions[j] == RunCallback(t) && actions[l] == RemoveCb(t)
    ensures forall x :: i + 1 <= x < j || j + 1 <= x < l ==> !Acts(actions[x], t)
  {
  }

  lemma FetchesOwner(s: Looper, t: nat, id: ReqId, st: RpcStatus) returns (k: nat)
    requires Good(s) && Perform(s, GetCb(t, id, st)).Some? && id in s.sh.idCb
    ensures Owns(s.sh, k, id)
    ensures var r := Perform(s, GetCb(t, id, st)).value;
            r.sh == s.sh && t < |r.threads| == |s.threads| && r.threads[t] == Fetched(k, st)
  {
    hide Numbered, Placed, CallbackOk, ThreadOk, TimersOk;
    k := s.sh.idCb[id];
  }

  lemma CallsFetched(s: Looper, t: nat, k: nat, st: RpcStatus)
    requires t < |s.threads| && s.threads[t] == Fetched(k, st) && k < |s.sh.reqs| && Perform(s, RunCallback(t)).Some?
    ensures var r := Perform(s, RunCallback(t)).value;
            && |r.threads| == |s.threads| && r.threads[t] == Called(k) && |r.sh.reqs| == |s.sh.reqs| && r.sh.reqs[k].id == s.sh.reqs[k].id
            && r.sh == s.sh.(reqs := s.sh.reqs[k := r.sh.reqs[k]]) && Notified(s.sh.reqs[k], r.sh.reqs[k], st)
  {
    FireNotifies(s.sh.reqs[k], st);
    hide Fire;
  }

  lemma RemovesCalled(s: Looper, t: nat, k: nat)
    requires t < |s.threads| && s.threads[t] == Called(k) && k < |s.sh.reqs| && Perform(s, RemoveCb(t)).Some?
    ensures Perform(s, RemoveCb(t)).value.sh == s.sh.(idCb := s.sh.idCb - {s.sh.reqs[k].id})
  {
  }

  /** The stop, in every run: whoever is waiting is told that it is disconnected, and nobody else is told anything. */
  lemma StopTells(n: nat, actions: seq<Action>)
    requires Run(n, actions).Some?
    ensures Run(n, actions + [Stop]).Some?
    ensures AllTold(Run(n, actions).value.sh, Run(n, actions + [Stop]).value.sh)
    ensures Run(n, actions + [Stop]).value.threads == Run(n, actions).value.threads
  {
    hide AllTold, RemoveAll;
    assert (actions + [Stop])[..|actions|] == actions;
    RemoveAllTells(Run(n, actions).value.sh);
  }

  /** A failed send, in every run: one callback is called, one id goes, and the timers under one key. */
  lemma FailedSendGivesUp(n: nat, actions: seq<Action>, t: nat)
    requires Run(n, actions + [Abandon(t)]).Some? && Run(n, actions + [Abandon(t)]).value.sh.sends < TWO32
    ensures Run(n, actions).Some?
    ensures var s, r := Run(n, actions).value, Run(n, actions + [Abandon(t)]).value;
            && At(s, t).Failed? && At(s, t).k < |s.sh.reqs| && GivenUp(s.sh, r.sh, At(s, t).k, At(s, t).st)
  {
    hide GivenUp, CleanUp, Good;
    assert (actions + [Abandon(t)])[..|actions|] == actions;
    var s := Run(n, actions).value;
    SendsGrow(s, Abandon(t));
    RunKeeps(n, actions);
    assert Sorted(s.sh.timers) by { SortedIn(s); }
    CleanUpGivesUp(s.sh, At(s, t).k, At(s, t).st);
  }

  lemma SortedIn(s: Looper)
    requires Good(s)
    ensures Sorted(s.sh.timers)
  {
    hide Inv;
    SortedOf(s);
  }

  /** A thread sends, and its next action comes later, with any actions of others in between. */
  ghost predicate SendsThen(actions: seq<Action>, i: nat, j: nat, t: nat, st: RpcStatus) {
    i < j < |actions| && actions[i] == Send(t, st) && (actions[j] == Abandon(t) || actions[j] == RemoveCb(t))
    && forall x :: i < x < j ==> !Acts(actions[x], t)
  }

  /**
   What becomes of a send, in every run: it changes nothing but the counters, and what the sending
   thread does next concerns the request it has sent. After a failure that request's callback, and
   no other, is called with the status of the send; after the wait of a synchronous call its id,
   and no other, leaves the map, and no callback is called.
   */
  lemma SendSettled(n: nat, actions: seq<Action>, i: nat, j: nat, t: nat, st: RpcStatus) returns (k: nat)
    requires Run(n, actions).Some? && Run(n, actions).value.sh.sends < TWO32 && SendsThen(actions, i, j, t, st)
    ensures forall x :: 0 <= x <= |actions| ==> Run(n, actions[..x]).Some?
    ensures var s, r := After(n, actions, i).sh, After(n, actions, i + 1).sh;
            && r == s.(seqid := (s.seqid + 1) % TWO32, sends := s.sends + 1)
            && k < |s.reqs| && s.reqs[k].id.thread == t && !s.reqs[k].oneWay
    ensures var s, r := After(n, actions, j).sh, After(n, actions, j + 1).sh;
            && k < |s.reqs| && s.reqs[k].id == After(n, actions, i).sh.reqs[k].id
            && (actions[j].Abandon? ==> st != SEND_OK && GivenUp(s, r, k, st))
            && (actions[j].RemoveCb? ==> st == SEND_OK && r == s.(idCb := s.idCb - {s.reqs[k].id}))
  {
    hide Run, Perform, Good, GivenUp;
    forall x | 0 <= x <= |actions| ensures Run(n, actions[..x]).Some? {
      RunPrefix(n, actions, x);
    }
    RunPrefix(n, actions, i);
    RunPrefix(n, actions, j);
    RunKeeps(n, actions[..i]);
    RunKeeps(n, actions[..j]);
    NextAction(n, actions, i);
    NextAction(n, actions, j);
    var s, r := After(n, actions, i), After(n, actions, i + 1);
    k := SendMoves(s, t, st);
    Meanwhile(n, actions, i + 1, j, t);
    var v := After(n, actions, j);
    SettlesOwn(s, v, t, k, st, actions[j]);
  }

  lemma SendMoves(s: Looper, t: nat, st: RpcStatus) returns (k: nat)
    requires Good(s) && Perform(s, Send(t, st)).Some?
    ensures t < |s.threads| && k < |s.sh.reqs| && s.sh.reqs[k].id.thread == t
    ensures var r := Perform(s, Send(t, st)).value;
            && r.sh == s.sh.(seqid := (s.sh.seqid + 1) % TWO32, sends := s.sh.sends + 1) && |r.threads| == |s.threads|
            && r.threads[t] == if s.sh.reqs[k].oneWay then Idle else if st != SEND_OK then Failed(k, st) else if s.sh.reqs[k].sync then Blocked(k) else Idle
  {
    hide Numbered, Distinct, CallbacksOk, TimersOk;
    k := s.threads[t].k;
  }

  lemma SettlesOwn(s: Looper, v: Looper, t: nat, k: nat, st: RpcStatus, a: Action)
    requires Good(v) && t < |v.threads| && k < |s.sh.reqs| && KeepsIds(s.sh.reqs, v.sh.reqs) && (a == Abandon(t) || a == RemoveCb(t))
    requires v.threads[t] == if s.sh.reqs[k].oneWay then Idle else if st != SEND_OK then Failed(k, st) else if s.sh.reqs[k].sync then Blocked(k) else Idle
    requires Perform(v, a).Some?
    ensures !s.sh.reqs[k].oneWay && k < |v.sh.reqs| && v.sh.reqs[k].id == s.sh.reqs[k].id
    ensures a.Abandon? ==> st != SEND_OK && GivenUp(v.sh, Perform(v, a).value.sh, k, st)
    ensures a.RemoveCb? ==> st == SEND_OK && Perform(v, a).value.sh == v.sh.(idCb := v.sh.idCb - {v.sh.reqs[k].id})
  {
    hide GivenUp, CleanUp, Good;
    if a.Abandon? {
      SortedIn(v);
      CleanUpGivesUp(v.sh, k, st);
    }
  }
}
