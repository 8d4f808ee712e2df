/** The event looper's critical sections, each changing the registry in place. */
module EventLooper {
  import opened Options
  import opened Octets
  import opened RpcDefs
  import opened Registry
  import Callbacks

  /** A callback object: its own mutex makes the test, the call and the mark one step. */
  class RpcClientCallBack {
    var isDone: bool
    var isShared: bool
    /** The statuses `callback` has been called with. */
    var results: seq<RpcStatus>

    constructor (shared: bool)
      ensures !isDone && isShared == shared && results == []
    {
      isDone, isShared, results := false, shared, [];
    }

    /** A callback object used by one request only runs once, whatever comes first. */
    method CallbackSafe(st: RpcStatus)
      modifies this
      ensures isShared == old(isShared)
      ensures !isShared ==> isDone && results == if old(isDone) then old(results) else old(results) + [st]
      ensures isShared ==> isDone == old(isDone) && results == old(results) + [st]
      ensures forall r: Req :: r.shared == isShared && r.isDone == old(isDone) && r.results == old(results) ==>
                Fire(r, st).isDone == isDone && Fire(r, st).results == results
    {
      if isShared {
        results := results + [st];
      } else {
        if !isDone {
          results := results + [st];
          isDone := true;
        }
      }
    }
  }

  class RpcEventLooper {
    var idCb: map<ReqId, nat>
    var timers: seq<Timer>
    var reqSeqid: nat
    var reqs: seq<Req>
    ghost var sends: nat

    ghost function Abs(): Shared
      reads this
    {
      Shared(idCb, timers, reqSeqid, reqs, sends)
    }

    constructor ()
      ensures Abs() == Shared(map[], [], 0, [], 0)
    {
      idCb, timers, reqSeqid, reqs, sends := map[], [], 0, [], 0;
    }

    /** The first part of sendReq: a request with an id, read without the lock. */
    method GenReqID(thread: nat, fd: int, time: nat, oneWay: bool, timeout: nat, sync: bool, shared: bool) returns (k: nat)
      modifies this
      ensures k == old(|reqs|)
      ensures Abs() == old(Abs()).(reqs := old(reqs) + [NewReq(old(Abs()), thread, fd, time, oneWay, timeout, sync, shared)])
      ensures var q := reqs[k];
              && q.id == ReqId(thread, fd, time, old(reqSeqid)) && q.oneWay == oneWay && q.results == [] && !q.isDone
              && (!oneWay ==> q.timeout == timeout && q.sync == sync && q.shared == shared)
    {
      k := |reqs|;
      reqs := reqs + [Req(ReqId(thread, fd, time, reqSeqid), oneWay, if oneWay then 0 else timeout,
                          sync && !oneWay, shared && !oneWay, false, [], None, false)];
    }

    method InsertCb(k: nat)
      requires k < |reqs|
      modifies this
      ensures Abs() == Register(old(Abs()), k)
      ensures reqs == old(reqs) && timers == old(timers)
      ensures idCb == if reqs[k].id in old(idCb) then old(idCb) else old(idCb)[reqs[k].id := k]
    {
      if reqs[k].id !in idCb {
        idCb := idCb[reqs[k].id := k];
      }
    }

    method InsertTimeout(k: nat, now: int)
      requires k < |reqs|
      modifies this
      ensures Abs() == AddTimer(old(Abs()), k, now)
      ensures var t := Timer(now + old(reqs)[k].timeout, old(reqs)[k].id);
              && reqs == old(reqs)[k := old(reqs)[k].(expiry := Some(t.tm))] && idCb == old(idCb)
              && exists i :: 0 <= i <= |old(timers)| && timers == old(timers)[..i] + [t] + old(timers)[i..]
                   && (forall j :: 0 <= j < i ==> old(timers)[j].tm <= t.tm) && (i < |old(timers)| ==> t.tm < old(timers)[i].tm)
    {
      var t := Timer(now + reqs[k].timeout, reqs[k].id);
      var i := 0;
      while i < |timers| && timers[i].tm <= t.tm
        invariant 0 <= i <= |timers| && forall j :: 0 <= j < i ==> timers[j].tm <= t.tm
      {
        i := i + 1;
      }
      InsertAt(timers, t, i);
      timers := timers[..i] + [t] + timers[i..];
      reqs := reqs[k := reqs[k].(expiry := Some(t.tm))];
    }

    method CountSent()
      modifies this
      ensures Abs() == CountSend(old(Abs()))
    {
      reqSeqid := (reqSeqid + 1) % TWO32;
      sends := sends + 1;
    }

    /** multimap::erase(key). */
    method EraseTimers(tm: int)
      modifies this`timers
      ensures timers == EraseKey(old(timers), tm)
    {
      var kept: seq<Timer> := [];
      for i := 0 to |timers|
        invariant timers == old(timers)
        invariant EraseKey(timers, tm) == kept + EraseKey(timers[i..], tm)
      {
        assert timers[i..][1..] == timers[i + 1..];
        if timers[i].tm != tm {
          kept := kept + [timers[i]];
        }
      }
      timers := kept;
    }

    /** What sendReq does when the send has failed. */
    method HandleSendFailure(k: nat, st: RpcStatus)
      requires k < |reqs|
      modifies this
      ensures Abs() == CleanUp(old(Abs()), k, st)
      ensures old(Sorted(timers)) ==> GivenUp(old(Abs()), Abs(), k, st)
    {
      hide Notified, GivenUp;
      if Sorted(timers) {
        CleanUpGivesUp(Abs(), k, st);
      }
      if reqs[k].timeout > 0 && reqs[k].expiry.Some? {
        EraseTimers(reqs[k].expiry.value);
        reqs := MarkLost(reqs, reqs[k].expiry.value);
      }
      idCb := idCb - {reqs[k].id};
      reqs := FireAt(reqs, k, st);
    }

    /**
     sendReq from the id on, run without interruption, when the connection answers `st`: it is
     what the sending thread's actions do one after the other.
     */
    method SendReq(thread: nat, fd: int, time: nat, now: int, oneWay: bool, timeout: nat, sync: bool, shared: bool, st: RpcStatus)
        returns (k: nat)
      modifies this
      ensures k == old(|reqs|)
      ensures Abs() == Sending(old(Abs()), NewReq(old(Abs()), thread, fd, time, oneWay, timeout, sync, shared), now, st)
      ensures oneWay ==>
                && idCb == old(idCb) && timers == old(timers) && reqs[..k] == old(reqs) && |reqs| == k + 1
                && reqs[k].results == [] && sends == old(sends) + 1 && reqSeqid == (old(reqSeqid) + 1) % TWO32
    {
      k := GenReqID(thread, fd, time, oneWay, timeout, sync, shared);
      if !oneWay {
        InsertCb(k);
        if reqs[k].timeout > 0 {
          InsertTimeout(k, now);
        }
      }
      CountSent();
      if st != SEND_OK && !oneWay {
        HandleSendFailure(k, st);
      }
    }

    method GetCb(id: ReqId) returns (cb: Option<nat>)
      ensures cb.Some? <==> id in idCb
      ensures cb.Some? ==> cb.value == idCb[id]
      ensures forall s: Callbacks.Looper, t: nat, st ::
                s.sh == Abs() && t < |s.threads| && s.threads[t].Idle? ==>
                  Callbacks.Perform(s, Callbacks.GetCb(t, id, st)) ==
                  Some(if cb.Some? then s.(threads := s.threads[t := Callbacks.Fetched(cb.value, st)]) else s)
    {
      cb := if id in idCb then Some(idCb[id]) else None;
    }

    method RemoveCb(id: ReqId)
      modifies this
      ensures Abs() == old(Abs()).(idCb := old(idCb) - {id})
      ensures forall s: Callbacks.Looper, t: nat ::
                s.sh == old(Abs()) && t < |s.threads| && s.threads[t].Called? && s.threads[t].k < |reqs| && reqs[s.threads[t].k].id == id ==>
                  Callbacks.Perform(s, Callbacks.RemoveCb(t)) == Some(Callbacks.Looper(Abs(), s.threads[t := Callbacks.Idle]))
    {
      idCb := idCb - {id};
    }

    /**
     What a response worker does with a response for `id` that carries `st`, run without
     interruption: the callback of the request with that id is called with that status, and the id goes.
     */
    method RunResponse(id: ReqId, st: RpcStatus)
      requires Linked(Abs())
      modifies this
      ensures id !in old(idCb) ==> Abs() == old(Abs())
      ensures id in old(idCb) ==>
                var k := old(idCb)[id];
                && k < |old(reqs)| == |reqs| && old(reqs)[k].id == id && Notified(old(reqs)[k], reqs[k], st)
                && (forall j :: 0 <= j < |reqs| && j != k ==> reqs[j] == old(reqs)[j])
                && idCb == old(idCb) - {id} && timers == old(timers) && reqSeqid == old(reqSeqid) && sends == old(sends)
    {
      var cb := GetCb(id);
      if cb.Some? {
        FireNotifies(reqs[cb.value], st);
        reqs := FireAt(reqs, cb.value, st);
        RemoveCb(id);
      }
    }

    /** The timeout scan erases as it walks, and stops at the first live timer that is not due. */
    method DealTimeoutCb(now: int)
      modifies this
      ensures Abs() == Scan(old(Abs()), now)
    {
      while timers != []
        invariant Scan(Abs(), now) == Scan(old(Abs()), now)
        decreases |timers|
      {
        var cur := timers[0];
        if cur.id in idCb {
          if now > cur.tm {
            reqs := FireAt(reqs, idCb[cur.id], CB_TIMEOUT);
            idCb := idCb - {cur.id};
          } else {
            break;
          }
        }
        timers := timers[1..];
      }
    }

    /** Everyone still waiting is told, whatever order the map is walked in. */
    method RemoveAllConnections()
      requires Linked(Abs())
      modifies this
      ensures Abs() == RemoveAll(old(Abs()))
      ensures AllTold(old(Abs()), Abs())
    {
      hide AllTold;
      RemoveAllTells(Abs());
      var left := idCb.Keys;
      while left != {}
        invariant left <= idCb.Keys && idCb == old(idCb) && timers == old(timers) && reqSeqid == old(reqSeqid)
        invariant sends == old(sends) && |reqs| == |old(reqs)|
        invariant forall k :: 0 <= k < |reqs| ==>
                    reqs[k] == if Live(old(Abs()), k) && old(reqs)[k].id !in left then Fire(old(reqs)[k], DISCONNECTED) else old(reqs)[k]
        decreases left
      {
        var id :| id in left;
        reqs := FireAt(reqs, idCb[id], DISCONNECTED);
        left := left - {id};
      }
      idCb, timers := map[], [];
      assert reqs == RemoveAll(old(Abs())).reqs;
    }
  }
}
