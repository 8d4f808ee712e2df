/**
 The client's callback registry: the id map, the timer multimap and the sequence number,
 changed by sending threads, response workers and the event thread. Every critical section of
 the registry's mutex is one action, and so is every access made outside it.
 */
module Registry {
  import opened Options
  import opened Octets
  import opened RpcDefs

  /** What distinguishes one request id of a client from another; see ReqIdText for how it is written. */
  datatype ReqId = ReqId(thread: nat, fd: int, time: nat, seqid: nat)

  datatype Timer = Timer(tm: int, id: ReqId)

  /**
   A request and its callback object; a one-way request has none. `results` are the statuses
   the callback has run with, `expiry` is the key its timer went in under, and `lost` says that
   timers under that key have since been erased because a send failed.
   */
  datatype Req = Req(
    id: ReqId, oneWay: bool, timeout: nat, sync: bool, shared: bool,
    isDone: bool, results: seq<RpcStatus>, expiry: Option<int>, lost: bool)

  /** What the mutex protects, and the requests made so far, a request being known by its number. */
  datatype Shared = Shared(
    idCb: map<ReqId, nat>, timers: seq<Timer>, seqid: nat, reqs: seq<Req>,
    sends: nat)                // requests handed to a connection so far

  // -------------------------------------------------------------- operations on the maps

  /** callback_safe. */
  function Fire(r: Req, st: RpcStatus): Req {
    if r.shared then r.(results := r.results + [st])
    else if r.isDone then r
    else r.(results := r.results + [st], isDone := true)
  }

  function FireAt(reqs: seq<Req>, k: nat, st: RpcStatus): (r: seq<Req>)
    ensures |r| == |reqs|
  {
    if k < |reqs| then reqs[k := Fire(reqs[k], st)] else reqs
  }

  /** Insertion into a multimap: after everything with the same key or a smaller one. */
  function InsertTimer(timers: seq<Timer>, t: Timer): seq<Timer> {
    if timers == [] || t.tm < timers[0].tm then [t] + timers else [timers[0]] + InsertTimer(timers[1..], t)
  }

  /** Erasing a key: every timer under it goes. */
  function EraseKey(timers: seq<Timer>, tm: int): seq<Timer> {
    if timers == [] then []
    else if timers[0].tm == tm then EraseKey(timers[1..], tm)
    else [timers[0]] + EraseKey(timers[1..], tm)
  }

  /** The walk of dealTimeoutCb over the timers in key order, which stops at the first live one not due. */
  function Scan(sh: Shared, now: int): Shared
    decreases |sh.timers|
  {
    if sh.timers == [] then sh
    else
      var t, rest := sh.timers[0], sh.timers[1..];
      if t.id !in sh.idCb then Scan(sh.(timers := rest), now)
      else if now > t.tm then
        Scan(sh.(timers := rest, idCb := sh.idCb - {t.id}, reqs := FireAt(sh.reqs, sh.idCb[t.id], CB_TIMEOUT)), now)
      else sh
  }

  predicate Live(sh: Shared, k: nat) {
    k < |sh.reqs| && sh.reqs[k].id in sh.idCb && sh.idCb[sh.reqs[k].id] == k
  }

  /** removeAllConnections. */
  function RemoveAll(sh: Shared): Shared {
    sh.(idCb := map[], timers := [],
        reqs := seq(|sh.reqs|, k requires 0 <= k < |sh.reqs| => if Live(sh, k) then Fire(sh.reqs[k], DISCONNECTED) else sh.reqs[k]))
  }

  /** GenReqID, and the callback object that goes with the id, if there is one. */
  function NewReq(sh: Shared, t: nat, fd: int, time: nat, oneWay: bool, timeout: nat, sync: bool, shared: bool): Req {
    Req(ReqId(t, fd, time, sh.seqid), oneWay, if oneWay then 0 else timeout, sync && !oneWay, shared && !oneWay, false, [], None, false)
  }

  /** The timers under a key are gone: whoever has that expiry has lost its timer. */
  function MarkLost(reqs: seq<Req>, tm: int): (r: seq<Req>)
    ensures |r| == |reqs|
  {
    seq(|reqs|, k requires 0 <= k < |reqs| => if reqs[k].expiry == Some(tm) then reqs[k].(lost := true) else reqs[k])
  }

  /** The id goes into the map; insert() leaves an id that is already there alone. */
  function Register(sh: Shared, k: nat): Shared
    requires k < |sh.reqs|
  {
    if sh.reqs[k].id in sh.idCb then sh else sh.(idCb := sh.idCb[sh.reqs[k].id := k])
  }

  function AddTimer(sh: Shared, k: nat, now: int): Shared
    requires k < |sh.reqs|
  {
    var tm := now + sh.reqs[k].timeout;
    sh.(timers := InsertTimer(sh.timers, Timer(tm, sh.reqs[k].id)), reqs := sh.reqs[k := sh.reqs[k].(expiry := Some(tm))])
  }

  /** The sequence number is 32 bits wide. */
  function CountSend(sh: Shared): Shared {
    sh.(seqid := (sh.seqid + 1) % TWO32, sends := sh.sends + 1)
  }

  /** What sendReq does after a failed send: erase by key, erase the id, run the callback. */
  function CleanUp(sh: Shared, k: nat, st: RpcStatus): Shared
    requires k < |sh.reqs|
  {
    var r := sh.reqs[k];
    var erased := if r.timeout > 0 && r.expiry.Some? then
                    sh.(timers := EraseKey(sh.timers, r.expiry.value), reqs := MarkLost(sh.reqs, r.expiry.value))
                  else sh;
    erased.(idCb := sh.idCb - {r.id}, reqs := FireAt(erased.reqs, k, st))
  }

  /** sendReq of a new request, one step after the other. */
  function Sending(sh: Shared, r: Req, now: int, st: RpcStatus): Shared {
    var k := |sh.reqs|;
    var a := sh.(reqs := sh.reqs + [r]);
    var b := if r.oneWay then a else Register(a, k);
    var c := if !r.oneWay && r.timeout > 0 then AddTimer(b, k, now) else b;
    var d := CountSend(c);
    if st != SEND_OK && !r.oneWay then CleanUp(d, k, st) else d
  }

  // ----------------------------------------------------------------- the scan is a filter

  ghost predicate Sorted(timers: seq<Timer>) {
    forall i, j :: 0 <= i < j < |timers| ==> timers[i].tm <= timers[j].tm
  }

  /** Some timer of the id is earlier than now. */
  ghost predicate Due(timers: seq<Timer>, id: ReqId, now: int) {
    exists i :: 0 <= i < |timers| && timers[i].id == id && timers[i].tm < now
  }

  /** The map points at requests with the id they are under. */
  ghost predicate Linked(sh: Shared) {
    forall id :: id in sh.idCb ==> sh.idCb[id] < |sh.reqs| && sh.reqs[sh.idCb[id]].id == id
  }

  lemma DueHead(timers: seq<Timer>, id: ReqId, now: int)
    requires timers != []
    ensures Due(timers, id, now) <==> (timers[0].id == id && timers[0].tm < now) || Due(timers[1..], id, now)
  {
    if Due(timers, id, now) && !(timers[0].id == id && timers[0].tm < now) {
      var i :| 0 <= i < |timers| && timers[i].id == id && timers[i].tm < now;
      assert timers[1..][i - 1] == timers[i];
    }
    if Due(timers[1..], id, now) {
      var i :| 0 <= i < |timers[1..]| && timers[1..][i].id == id && timers[1..][i].tm < now;
      assert timers[i + 1] == timers[1..][i];
    }
  }

  /** What a scan leaves of the id map: the ids with no timer due. */
  ghost predicate Kept(sh: Shared, r: Shared, now: int) {
    && (forall id :: id in r.idCb <==> id in sh.idCb && !Due(sh.timers, id, now))
    && (forall id :: id in r.idCb ==> r.idCb[id] == sh.idCb[id])
  }

  /** What a scan does to the requests: it runs the callbacks of the live ones that are due, and of no other. */
  ghost predicate Fired(sh: Shared, r: Shared, now: int) {
    && |r.reqs| == |sh.reqs|
    && forall k :: 0 <= k < |sh.reqs| ==>
         r.reqs[k] == if Live(sh, k) && Due(sh.timers, sh.reqs[k].id, now) then Fire(sh.reqs[k], CB_TIMEOUT) else sh.reqs[k]
  }

  /** What a scan leaves of the timers: the last ones, and among them every timer not yet due of a live id. */
  ghost predicate Remaining(sh: Shared, r: Shared, now: int) {
    && |r.timers| <= |sh.timers| && r.timers == sh.timers[|sh.timers| - |r.timers|..]
    && forall i :: 0 <= i < |sh.timers| && sh.timers[i].tm >= now && sh.timers[i].id in r.idCb ==> i >= |sh.timers| - |r.timers|
  }

  /** One step of the walk: the first timer goes, with its id and callback if it is live and due. */
  function ScanStep(sh: Shared, now: int): Shared
    requires sh.timers != []
  {
    var t := sh.timers[0];
    if t.id in sh.idCb && now > t.tm then
      sh.(timers := sh.timers[1..], idCb := sh.idCb - {t.id}, reqs := FireAt(sh.reqs, sh.idCb[t.id], CB_TIMEOUT))
    else sh.(timers := sh.timers[1..])
  }

  /**
   The early-exit walk is a full filter: it runs the callbacks of exactly the live requests
   with a timer earlier than now, takes exactly their ids out of the map, and keeps every
   timer not yet due of the ids that stay.
   */
  lemma {:induction false} ScanIsFilter(sh: Shared, now: int)
    requires Sorted(sh.timers) && Linked(sh)
    ensures var r := Scan(sh, now);
            && Kept(sh, r, now) && Fired(sh, r, now) && Remaining(sh, r, now)
            && r.seqid == sh.seqid && r.sends == sh.sends
    decreases |sh.timers|
  {
    if sh.timers == [] {
    } else {
      var t := sh.timers[0];
      if t.id in sh.idCb && now <= t.tm {
        assert forall id :: !Due(sh.timers, id, now);
      } else {
        var n := ScanStep(sh, now);
        ScanIsFilter(n, now);
        var r := Scan(n, now);
        assert r == Scan(sh, now);
        hide Scan, Due, ScanStep;
        KeptStep(sh, n, r, now);
        FiredStep(sh, n, r, now);
        RemainingStep(sh, n, r, now);
      }
    }
  }

  lemma KeptStep(sh: Shared, n: Shared, r: Shared, now: int)
    requires sh.timers != [] && n == ScanStep(sh, now) && Kept(n, r, now)
    requires sh.timers[0].id in sh.idCb ==> now > sh.timers[0].tm
    ensures Kept(sh, r, now)
  {
    forall id ensures Due(sh.timers, id, now) <==> (sh.timers[0].id == id && sh.timers[0].tm < now) || Due(n.timers, id, now) {
      DueHead(sh.timers, id, now);
    }
    hide Due, FireAt;
  }

  lemma FiredStep(sh: Shared, n: Shared, r: Shared, now: int)
    requires sh.timers != [] && n == ScanStep(sh, now) && Fired(n, r, now) && Linked(sh)
    requires sh.timers[0].id in sh.idCb ==> now > sh.timers[0].tm
    ensures Fired(sh, r, now)
  {
    forall k | 0 <= k < |sh.reqs|
      ensures r.reqs[k] == if Live(sh, k) && Due(sh.timers, sh.reqs[k].id, now) then Fire(sh.reqs[k], CB_TIMEOUT) else sh.reqs[k]
    {
      FiredOne(sh, n, r, now, k);
    }
  }

  lemma FiredOne(sh: Shared, n: Shared, r: Shared, now: int, k: nat)
    requires sh.timers != [] && n == ScanStep(sh, now) && Fired(n, r, now) && Linked(sh) && k < |sh.reqs|
    requires sh.timers[0].id in sh.idCb ==> now > sh.timers[0].tm
    ensures |r.reqs| == |sh.reqs|
    ensures r.reqs[k] == if Live(sh, k) && Due(sh.timers, sh.reqs[k].id, now) then Fire(sh.reqs[k], CB_TIMEOUT) else sh.reqs[k]
  {
    hide Due, Fire;
    DueHead(sh.timers, sh.reqs[k].id, now);
    assert n.timers == sh.timers[1..] && n.reqs[k].id == sh.reqs[k].id by { FireKeepsId(sh.reqs[k]); }
  }

  lemma FireKeepsId(r: Req)
    ensures Fire(r, CB_TIMEOUT).id == r.id
  {
  }

  lemma RemainingStep(sh: Shared, n: Shared, r: Shared, now: int)
    requires sh.timers != [] && n == ScanStep(sh, now) && Remaining(n, r, now) && Kept(n, r, now)
    requires sh.timers[0].id in sh.idCb ==> now > sh.timers[0].tm
    ensures Remaining(sh, r, now)
  {
    hide Due, FireAt;
    forall i | 0 <= i < |sh.timers| && sh.timers[i].tm >= now && sh.timers[i].id in r.idCb
      ensures i >= |sh.timers| - |r.timers|
    {
      if i > 0 {
        assert n.timers[i - 1] == sh.timers[i];
      }
    }
  }

  // ------------------------------------------------------------------ timers and their order

  lemma {:induction false} InsertContents(timers: seq<Timer>, t: Timer)
    ensures multiset(InsertTimer(timers, t)) == multiset(timers) + multiset{t}
    ensures forall x :: x in InsertTimer(timers, t) <==> x == t || x in timers
    decreases |timers|
  {
    if timers == [] || t.tm < timers[0].tm {
    } else {
      InsertContents(timers[1..], t);
      assert timers == [timers[0]] + timers[1..];
      assert multiset(timers) == multiset{timers[0]} + multiset(timers[1..]);
    }
  }

  lemma {:induction false} InsertKeeps(timers: seq<Timer>, t: Timer)
    requires Sorted(timers)
    ensures Sorted(InsertTimer(timers, t))
    decreases |timers|
  {
    if timers == [] || t.tm < timers[0].tm {
    } else {
      InsertKeeps(timers[1..], t);
      InsertContents(timers[1..], t);
      var rest := InsertTimer(timers[1..], t);
      assert forall i :: 0 <= i < |rest| ==> rest[i] in rest;
      assert forall x :: x in timers[1..] ==> timers[0].tm <= x.tm;
    }
  }

  lemma {:induction false} EraseKeeps(timers: seq<Timer>, tm: int)
    requires Sorted(timers)
    ensures Sorted(EraseKey(timers, tm))
    ensures forall x :: x in EraseKey(timers, tm) <==> x in timers && x.tm != tm
    decreases |timers|
  {
    if timers != [] {
      EraseKeeps(timers[1..], tm);
      var rest := EraseKey(timers[1..], tm);
      assert timers == [timers[0]] + timers[1..];
      assert forall i :: 0 <= i < |rest| ==> rest[i] in rest && rest[i] in timers[1..];
    }
  }

  /** Where an insertion goes: after the timers that are not later, before the first that is. */
  lemma {:induction false} InsertAt(timers: seq<Timer>, t: Timer, i: nat)
    requires i <= |timers| && forall j :: 0 <= j < i ==> timers[j].tm <= t.tm
    requires i < |timers| ==> t.tm < timers[i].tm
    ensures InsertTimer(timers, t) == timers[..i] + [t] + timers[i..]
    decreases i
  {
    if i > 0 {
      InsertAt(timers[1..], t, i - 1);
      assert InsertTimer(timers, t) == [timers[0]] + InsertTimer(timers[1..], t);
      hide InsertTimer;
      OneFurther(timers, t, i);
    } else {
      assert timers[..0] == [] && timers[0..] == timers;
    }
  }

  lemma OneFurther(timers: seq<Timer>, t: Timer, i: nat)
    requires 0 < i <= |timers|
    ensures [timers[0]] + (timers[1..][..i - 1] + [t] + timers[1..][i - 1..]) == timers[..i] + [t] + timers[i..]
  {
    assert timers[1..][i - 1..] == timers[i..];
    assert timers[..i] == [timers[0]] + timers[1..][..i - 1];
  }

  /** Erasing a key from a sequence with one more timer. */
  lemma {:induction false} EraseConcat(a: seq<Timer>, b: seq<Timer>, tm: int)
    ensures EraseKey(a + b, tm) == EraseKey(a, tm) + EraseKey(b, tm)
    decreases |a|
  {
    if a == [] {
      assert a + b == b;
    } else {
      assert (a + b)[1..] == a[1..] + b;
      EraseConcat(a[1..], b, tm);
    }
  }

  // ------------------------------------------------------------- what happens to callbacks

  /** Between the two the callback was called with `st`: a callback of one's own only if it had not run before. */
  predicate Notified(a: Req, b: Req, st: RpcStatus) {
    && b == a.(results := b.results, isDone := b.isDone)
    && b.results == (if a.shared || !a.isDone then a.results + [st] else a.results)
    && b.isDone == (a.isDone || !a.shared)
  }

  lemma FireNotifies(r: Req, st: RpcStatus)
    ensures Notified(r, Fire(r, st), st)
  {
  }

  /** The stop: every live request is told that it is disconnected, no other is touched, and both maps end empty. */
  ghost predicate AllTold(sh: Shared, r: Shared) {
    && |r.reqs| == |sh.reqs|
    && (forall k :: 0 <= k < |sh.reqs| ==>
          if Live(sh, k) then Notified(sh.reqs[k], r.reqs[k], DISCONNECTED) else r.reqs[k] == sh.reqs[k])
    && r.idCb == map[] && r.timers == [] && r.seqid == sh.seqid && r.sends == sh.sends
  }

  lemma RemoveAllTells(sh: Shared)
    ensures AllTold(sh, RemoveAll(sh))
  {
    hide Live;
  }

  /** Whose timer goes with a failed send. */
  function Losing(q: Req, tm: int): Req { if q.expiry == Some(tm) then q.(lost := true) else q }

  /** What a failed send does: nothing but one callback, one id, and the timers under one key. */
  ghost predicate GivenUp(sh: Shared, r: Shared, k: nat, st: RpcStatus)
    requires k < |sh.reqs|
  {
    var q := sh.reqs[k];
    && r.idCb == sh.idCb - {q.id} && r.seqid == sh.seqid && r.sends == sh.sends && |r.reqs| == |sh.reqs|
    && (if q.timeout > 0 && q.expiry.Some? then
          && (forall x :: x in r.timers <==> x in sh.timers && x.tm != q.expiry.value)
          && (forall j :: 0 <= j < |sh.reqs| && j != k ==> r.reqs[j] == Losing(sh.reqs[j], q.expiry.value))
          && Notified(Losing(q, q.expiry.value), r.reqs[k], st)
        else
          && r.timers == sh.timers && (forall j :: 0 <= j < |sh.reqs| && j != k ==> r.reqs[j] == sh.reqs[j])
          && Notified(q, r.reqs[k], st))
  }

  lemma CleanUpGivesUp(sh: Shared, k: nat, st: RpcStatus)
    requires k < |sh.reqs| && Sorted(sh.timers)
    ensures GivenUp(sh, CleanUp(sh, k, st), k, st)
  {
    hide EraseKey, Sorted, Notified;
    var q := sh.reqs[k];
    if q.timeout > 0 && q.expiry.Some? {
      EraseKeeps(sh.timers, q.expiry.value);
      FireNotifies(Losing(q, q.expiry.value), st);
    } else {
      FireNotifies(q, st);
    }
    hide Fire;
  }

  /** What a whole sendReq of the request does. */
  ghost predicate SentAs(sh: Shared, d: Shared, r: Req, now: int, st: RpcStatus) {
    var k, tm := |sh.reqs|, now + r.timeout;
    var timed, failed := !r.oneWay && r.timeout > 0, !r.oneWay && st != SEND_OK;
    && |d.reqs| == k + 1 && d.sends == sh.sends + 1 && d.seqid == (sh.seqid + 1) % TWO32
    && (forall j :: 0 <= j < k ==> d.reqs[j] == if timed && failed then Losing(sh.reqs[j], tm) else sh.reqs[j])
    && d.idCb == (if r.oneWay || failed then sh.idCb else sh.idCb[r.id := k])
    && d.reqs[k].id == r.id && d.reqs[k].results == (if failed then [st] else [])
    && d.reqs[k].expiry == (if timed then Some(tm) else None)
    && (if !timed then d.timers == sh.timers
        else if failed then forall x :: x in d.timers <==> x in sh.timers && x.tm != tm
        else Sorted(d.timers) && multiset(d.timers) == multiset(sh.timers) + multiset{Timer(tm, r.id)})
  }

  lemma FailedSend(sh: Shared, r: Req, now: int, st: RpcStatus)
    requires Sorted(sh.timers) && r.id !in sh.idCb && r.results == [] && !r.isDone && !r.lost && r.expiry.None?
    requires !r.oneWay && st != SEND_OK
    ensures SentAs(sh, Sending(sh, r, now, st), r, now, st)
  {
    hide InsertTimer, EraseKey, Sorted;
    if r.timeout > 0 {
      var t := Timer(now + r.timeout, r.id);
      InsertKeeps(sh.timers, t);
      InsertContents(sh.timers, t);
      EraseKeeps(InsertTimer(sh.timers, t), now + r.timeout);
    }
    assert sh.idCb[r.id := |sh.reqs|] - {r.id} == sh.idCb;
  }

  /**
   A whole sendReq of a fresh request. With a callback: if the connection takes it, it waits in
   the map with its timer; if not, its callback has run once with that status, the map is as
   before, and every timer under its key is gone. Without one neither map changes. Nothing else does.
   */
  lemma SendingRegisters(sh: Shared, r: Req, now: int, st: RpcStatus)
    requires Sorted(sh.timers) && r.id !in sh.idCb && r.results == [] && !r.isDone && !r.lost && r.expiry.None?
    ensures SentAs(sh, Sending(sh, r, now, st), r, now, st)
  {
    hide InsertTimer, EraseKey, CleanUp, Sorted;
    if !r.oneWay && st != SEND_OK {
      FailedSend(sh, r, now, st);
    } else if !r.oneWay && r.timeout > 0 {
      var t := Timer(now + r.timeout, r.id);
      InsertKeeps(sh.timers, t);
      InsertContents(sh.timers, t);
    }
  }
}
