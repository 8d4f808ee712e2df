/**
 Sending threads, response workers and the event thread interleaving over the callback
 registry. Any thread may act at any time; a response may name any request.
 */
module Callbacks {
  import opened Options
  import opened Octets
  import opened RpcDefs
  import opened Registry

  /** Where a thread is; `k` is the number of the request it is at. */
  datatype Thread =
    | Idle
    | Generated(k: nat)                 // sendReq: has an id, not in the map yet
    | Registered(k: nat)                // sendReq: id in the map, timer still to come
    | Ready(k: nat)                     // sendReq: about to send
    | Failed(k: nat, st: RpcStatus)     // sendReq: the send has failed
    | Blocked(k: nat)                   // call: waiting, removes the id when it returns
    | Fetched(k: nat, st: RpcStatus)    // response worker: has the callback
    | Called(k: nat)                    // response worker: has run the callback

  datatype Looper = Looper(sh: Shared, threads: seq<Thread>)

  datatype Action =
    | Begin(t: nat, fd: int, time: nat, oneWay: bool, timeout: nat, sync: bool, shared: bool)
    | InsertCb(t: nat)
    | InsertTimeout(t: nat, now: int)
    | Send(t: nat, st: RpcStatus)
    | Abandon(t: nat)
    | GetCb(t: nat, id: ReqId, st: RpcStatus)
    | RunCallback(t: nat)
    | RemoveCb(t: nat)
    | DealTimeouts(now: int)
    | Stop

  function At(s: Looper, t: nat): Thread {
    if t < |s.threads| then s.threads[t] else Idle
  }

  function Goto(s: Looper, t: nat, pc: Thread, sh: Shared): Option<Looper>
    requires t < |s.threads|
  {
    Some(Looper(sh, s.threads[t := pc]))
  }

  /** One action of one thread; None if it cannot happen now. */
  function Perform(s: Looper, a: Action): Option<Looper> {
    var sh := s.sh;
    match a
    case Begin(t, fd, time, oneWay, timeout, sync, shared) =>
      if t < |s.threads| && s.threads[t].Idle? then
        Goto(s, t, if oneWay then Ready(|sh.reqs|) else Generated(|sh.reqs|),
             sh.(reqs := sh.reqs + [NewReq(sh, t, fd, time, oneWay, timeout, sync, shared)]))
      else None
    case InsertCb(t) =>
      if At(s, t).Generated? && At(s, t).k < |sh.reqs| then
        var k := At(s, t).k;
        Goto(s, t, if sh.reqs[k].timeout > 0 then Registered(k) else Ready(k), Register(sh, k))
      else None
    case InsertTimeout(t, now) =>
      if At(s, t).Registered? && At(s, t).k < |sh.reqs| then
        Goto(s, t, Ready(At(s, t).k), AddTimer(sh, At(s, t).k, now))
      else None
    case Send(t, st) =>
      if At(s, t).Ready? && At(s, t).k < |sh.reqs| then
        var k := At(s, t).k;
        Goto(s, t, if sh.reqs[k].oneWay then Idle else if st != SEND_OK then Failed(k, st) else if sh.reqs[k].sync then Blocked(k) else Idle,
             CountSend(sh))
      else None
    case Abandon(t) =>
      if At(s, t).Failed? && At(s, t).k < |sh.reqs| then
        var k := At(s, t).k;
        Goto(s, t, if sh.reqs[k].sync then Blocked(k) else Idle, CleanUp(sh, k, At(s, t).st))
      else None
    case GetCb(t, id, st) =>
      if t < |s.threads| && s.threads[t].Idle? then
        if id in sh.idCb then Goto(s, t, Fetched(sh.idCb[id], st), sh) else Some(s)
      else None
    case RunCallback(t) =>
      if At(s, t).Fetched? then
        Goto(s, t, Called(At(s, t).k), sh.(reqs := FireAt(sh.reqs, At(s, t).k, At(s, t).st)))
      else None
    case RemoveCb(t) =>
      if (At(s, t).Called? || At(s, t).Blocked?) && At(s, t).k < |sh.reqs| then
        Goto(s, t, Idle, sh.(idCb := sh.idCb - {sh.reqs[At(s, t).k].id}))
      else None
    case DealTimeouts(now) => Some(s.(sh := Scan(sh, now)))
    case Stop => Some(s.(sh := RemoveAll(sh)))
  }

  function Start(n: nat): Looper {
    Looper(Shared(map[], [], 0, [], 0), seq(n, _ => Idle))
  }

  function Run(n: nat, actions: seq<Action>): Option<Looper> {
    if actions == [] then Some(Start(n))
    else
      var r := Run(n, actions[..|actions| - 1]);
      if r.None? then None else Perform(r.value, actions[|actions| - 1])
  }

  // ------------------------------------------------------------------------- invariants

  /** The sending thread has the request's id and has not sent it yet. */
  predicate Unsent(s: Looper, k: nat) {
    k < |s.sh.reqs| && At(s, s.sh.reqs[k].id.thread) in {Generated(k), Registered(k), Ready(k)}
  }

  /** The request's id is not in the map yet, or never will be. */
  predicate Unregistered(s: Looper, k: nat) {
    k < |s.sh.reqs| && (s.sh.reqs[k].oneWay || At(s, s.sh.reqs[k].id.thread) == Generated(k))
  }

  /** Sequence numbers: every request sent has one below the number of sends. */
  ghost predicate Numbered(s: Looper) {
    && s.sh.seqid == s.sh.sends % TWO32
    && forall k :: 0 <= k < |s.sh.reqs| ==>
         && s.sh.reqs[k].id.thread < |s.threads| && s.sh.reqs[k].id.seqid <= s.sh.sends
         && (!Unsent(s, k) ==> s.sh.reqs[k].id.seqid < s.sh.sends)
  }

  ghost predicate Distinct(sh: Shared) {
    forall j, k :: 0 <= j < k < |sh.reqs| ==>
      sh.reqs[j].id.thread != sh.reqs[k].id.thread || sh.reqs[j].id.seqid != sh.reqs[k].id.seqid
  }

  /** Threads are at requests that exist, and a thread sends only its own. */
  ghost predicate Placed(s: Looper) {
    forall t :: 0 <= t < |s.threads| && !s.threads[t].Idle? ==>
      && s.threads[t].k < |s.sh.reqs|
      && (s.threads[t].Generated? || s.threads[t].Registered? || s.threads[t].Ready? ==> s.sh.reqs[s.threads[t].k].id.thread == t)
      && (s.threads[t].Generated? || s.threads[t].Registered? ==> !s.sh.reqs[s.threads[t].k].oneWay)
  }

  /** The history of one request's callback. */
  ghost predicate CallbackOk(s: Looper, k: nat)
    requires k < |s.sh.reqs|
  {
    var r := s.sh.reqs[k];
    && (!r.shared ==> |r.results| <= 1 && (r.isDone <==> r.results != []))
    && (Unregistered(s, k) ==> r.results == [] && !Live(s.sh, k))
    && (!Unregistered(s, k) && !r.sync ==> Live(s.sh, k) || r.results != [])
  }

  /** Threads that have or had a callback have one of a registered request. */
  ghost predicate ThreadOk(s: Looper, t: nat)
    requires t < |s.threads|
  {
    match s.threads[t]
    case Failed(k, _) => k < |s.sh.reqs| && !Unregistered(s, k)
    case Fetched(k, _) => k < |s.sh.reqs| && !Unregistered(s, k)
    case Called(k) => k < |s.sh.reqs| && !Unregistered(s, k) && s.sh.reqs[k].results != []
    case Blocked(k) => k < |s.sh.reqs| && !Unregistered(s, k) && s.sh.reqs[k].sync
    case _ => true
  }

  ghost predicate CallbacksOk(s: Looper) {
    && Linked(s.sh)
    && (forall k :: 0 <= k < |s.sh.reqs| ==> CallbackOk(s, k))
    && (forall t :: 0 <= t < |s.threads| ==> ThreadOk(s, t))
  }

  ghost predicate Inv(s: Looper) {
    Numbered(s) && Distinct(s.sh) && Placed(s) && CallbacksOk(s)
  }

  ghost predicate IdsOk(s: Looper) { Numbered(s) && Distinct(s.sh) && Placed(s) }

  // ----------------------------------------------------------------- what actions leave alone

  ghost predicate SameTimes(a: seq<Req>, b: seq<Req>) {
    |a| == |b| && forall k :: 0 <= k < |a| ==>
      b[k].id == a[k].id && b[k].timeout == a[k].timeout && b[k].expiry == a[k].expiry && (a[k].lost ==> b[k].lost)
      && (b[k].lost && !a[k].lost ==> b[k].expiry.Some?)
  }

  /** Running callbacks changes nothing else about requests. */
  lemma FireTimes(reqs: seq<Req>, k: nat, st: RpcStatus)
    ensures SameTimes(reqs, FireAt(reqs, k, st))
    ensures forall j :: 0 <= j < |reqs| ==> FireAt(reqs, k, st)[j].lost == reqs[j].lost && FireAt(reqs, k, st)[j].oneWay == reqs[j].oneWay
  {
  }

  lemma MarkTimes(reqs: seq<Req>, tm: int)
    ensures SameTimes(reqs, MarkLost(reqs, tm))
    ensures forall j :: 0 <= j < |reqs| ==>
              && MarkLost(reqs, tm)[j].oneWay == reqs[j].oneWay
              && (MarkLost(reqs, tm)[j].lost <==> reqs[j].lost || reqs[j].expiry == Some(tm))
  {
  }

  /** What the clean-up after a failed send does to expiries and losses. */
  lemma CleanUpTimes(sh: Shared, k: nat, st: RpcStatus)
    requires k < |sh.reqs|
    ensures var r, q := CleanUp(sh, k, st), sh.reqs[k];
            && SameTimes(sh.reqs, r.reqs)
            && forall j :: 0 <= j < |sh.reqs| ==>
                 && r.reqs[j].oneWay == sh.reqs[j].oneWay
                 && (r.reqs[j].lost <==> sh.reqs[j].lost || (q.timeout > 0 && q.expiry.Some? && sh.reqs[j].expiry == q.expiry))
  {
    hide EraseKey, FireAt, MarkLost;
    var q := sh.reqs[k];
    if q.timeout > 0 && q.expiry.Some? {
      MarkTimes(sh.reqs, q.expiry.value);
      FireTimes(MarkLost(sh.reqs, q.expiry.value), k, st);
    } else {
      FireTimes(sh.reqs, k, st);
    }
  }

  // -------------------------------------------------------------------- ids stay distinct

  ghost predicate SameIds(a: seq<Req>, b: seq<Req>) {
    |a| == |b| && forall k :: 0 <= k < |a| ==> b[k].id == a[k].id && b[k].oneWay == a[k].oneWay
  }

  /** A thread moves on within its request, or leaves it once it is sent. */
  lemma ThreadMoves(s: Looper, r: Looper, t: nat, pc: Thread)
    requires IdsOk(s) && t < |s.threads| && !s.threads[t].Idle? && r.threads == s.threads[t := pc]
    requires SameIds(s.sh.reqs, r.sh.reqs)
    requires pc.Idle? || pc.k == s.threads[t].k
    requires s.threads[t].Generated? || s.threads[t].Registered? || s.threads[t].Ready? || !(pc.Generated? || pc.Registered? || pc.Ready?)
    requires if s.threads[t].Ready? then r.sh.sends == s.sh.sends + 1 && r.sh.seqid == (s.sh.seqid + 1) % TWO32
             else r.sh.sends == s.sh.sends && r.sh.seqid == s.sh.seqid
    requires s.threads[t].Generated? || s.threads[t].Registered? ==> pc.Generated? || pc.Registered? || pc.Ready?
    requires pc.Generated? || pc.Registered? ==> s.threads[t].Generated? || s.threads[t].Registered?
    ensures IdsOk(r)
  {
    forall k | 0 <= k < |r.sh.reqs|
      ensures !Unsent(r, k) ==> r.sh.reqs[k].id.seqid < r.sh.sends
    {
      assert r.sh.reqs[k].id == s.sh.reqs[k].id;
    }
  }

  lemma BeginKeepsIds(s: Looper, a: Action)
    requires IdsOk(s) && s.sh.sends < TWO32 && a.Begin? && Perform(s, a).Some?
    ensures IdsOk(Perform(s, a).value)
  {
    var r := Perform(s, a).value;
    var n := |s.sh.reqs|;
    assert forall k :: 0 <= k < n ==> r.sh.reqs[k] == s.sh.reqs[k];
    forall k | 0 <= k < n
      ensures s.sh.reqs[k].id.thread != r.sh.reqs[n].id.thread || s.sh.reqs[k].id.seqid != r.sh.reqs[n].id.seqid
      ensures (!Unsent(r, k) ==> r.sh.reqs[k].id.seqid < r.sh.sends)
    {
      assert s.sh.reqs[k].id.thread == a.t ==> !Unsent(s, k);
    }
  }

  /** Actions that leave every thread where it is. */
  lemma StillKeepsIds(s: Looper, r: Looper)
    requires IdsOk(s) && r.threads == s.threads && SameIds(s.sh.reqs, r.sh.reqs)
    requires r.sh.sends == s.sh.sends && r.sh.seqid == s.sh.seqid
    ensures IdsOk(r)
  {
    assert forall k :: Unsent(r, k) <==> Unsent(s, k);
  }

  lemma GetCbKeepsIds(s: Looper, a: Action)
    requires IdsOk(s) && CallbacksOk(s) && a.GetCb? && Perform(s, a).Some?
    ensures IdsOk(Perform(s, a).value)
  {
    var r := Perform(s, a).value;
    assert forall k :: Unsent(r, k) <==> Unsent(s, k);
  }

  lemma ActionKeepsIds(s: Looper, a: Action)
    requires Inv(s) && s.sh.sends < TWO32 && Sorted(s.sh.timers) && Perform(s, a).Some?
    ensures IdsOk(Perform(s, a).value)
  {
    hide Numbered, Distinct, Placed, CallbackOk, ThreadOk;
    var r := Perform(s, a).value;
    match a
    case Begin(_, _, _, _, _, _, _) => BeginKeepsIds(s, a);
    case GetCb(_, _, _) => GetCbKeepsIds(s, a);
    case DealTimeouts(now) =>
      ScanIsFilter(s.sh, now);
      hide Scan, Due, Kept, Remaining;
      StillKeepsIds(s, r);
    case Stop => StillKeepsIds(s, r);
    case InsertCb(t) => ThreadMoves(s, r, t, r.threads[t]);
    case InsertTimeout(t, _) => hide InsertTimer; ThreadMoves(s, r, t, r.threads[t]);
    case Send(t, _) => ThreadMoves(s, r, t, r.threads[t]);
    case Abandon(t) => AbandonKeepsIds(s, t);
    case RunCallback(t) => ThreadMoves(s, r, t, r.threads[t]);
    case RemoveCb(t) => ThreadMoves(s, r, t, r.threads[t]);
  }

  lemma AbandonKeepsIds(s: Looper, t: nat)
    requires Inv(s) && s.sh.sends < TWO32 && Perform(s, Abandon(t)).Some?
    ensures IdsOk(Perform(s, Abandon(t)).value)
  {
    hide Numbered, Distinct, Placed, CallbackOk, ThreadOk;
    var r := Perform(s, Abandon(t)).value;
    CleanUpTimes(s.sh, s.threads[t].k, s.threads[t].st);
    hide CleanUp;
    ThreadMoves(s, r, t, r.threads[t]);
  }

  // ------------------------------------------------------- callbacks run when ids are removed

  lemma BeginKeepsCallbacks(s: Looper, a: Action)
    requires CallbacksOk(s) && Placed(s) && a.Begin? && Perform(s, a).Some?
    requires forall k :: 0 <= k < |s.sh.reqs| ==> s.sh.reqs[k].id.thread < |s.threads|
    ensures CallbacksOk(Perform(s, a).value)
  {
    var r := Perform(s, a).value;
    var n := |s.sh.reqs|;
    assert forall k :: 0 <= k < n ==> r.sh.reqs[k] == s.sh.reqs[k];
    assert forall k :: 0 <= k < n ==> (Unregistered(r, k) <==> Unregistered(s, k)) && (Live(r.sh, k) <==> Live(s.sh, k));
    assert CallbackOk(r, n);
    forall k | 0 <= k < n ensures CallbackOk(r, k) {
      assert CallbackOk(s, k);
    }
    forall t | 0 <= t < |r.threads| ensures ThreadOk(r, t) {
      assert ThreadOk(s, t);
    }
  }

  lemma InsertKeepsCallbacks(s: Looper, a: Action)
    requires Inv(s) && a.InsertCb? && Perform(s, a).Some?
    ensures CallbacksOk(Perform(s, a).value)
  {
    var r := Perform(s, a).value;
    var k := s.threads[a.t].k;
    assert Unregistered(s, k) && CallbackOk(s, k);
    assert s.sh.reqs[k].id !in s.sh.idCb;
    forall j | 0 <= j < |s.sh.reqs| ensures CallbackOk(r, j) {
      assert CallbackOk(s, j);
    }
    forall t | 0 <= t < |r.threads| ensures ThreadOk(r, t) {
      assert ThreadOk(s, t);
    }
  }

  /** What an action may do to a callback: nothing, or run it when its id has been in the map. */
  predicate RunOrNot(a: Req, b: Req) {
    && a.id == b.id && a.oneWay == b.oneWay && a.sync == b.sync && a.shared == b.shared
    && (|| (b.results == a.results && b.isDone == a.isDone)
        || (b.shared && b.results != [])
        || (!b.shared && !a.isDone && |b.results| == |a.results| + 1 && b.isDone))
  }

  lemma FireRuns(a: Req, st: RpcStatus)
    ensures RunOrNot(a, Fire(a, st))
    ensures a.shared || !a.isDone ==> Fire(a, st).results != []
  {
  }

  lemma CallbackKept(s: Looper, r: Looper, k: nat)
    requires k < |s.sh.reqs| && k < |r.sh.reqs| && CallbackOk(s, k)
    requires RunOrNot(s.sh.reqs[k], r.sh.reqs[k])
    requires Unregistered(s, k) <==> Unregistered(r, k)
    requires Unregistered(s, k) ==> !Live(r.sh, k) && r.sh.reqs[k].results == []
    requires Live(s.sh, k) && !Live(r.sh, k) ==> r.sh.reqs[k].results != [] || s.sh.reqs[k].sync
    ensures CallbackOk(r, k)
  {
    hide Live, Unregistered;
  }

  ghost predicate AllKept(s: Looper, r: Looper) {
    |s.sh.reqs| == |r.sh.reqs| && forall k :: 0 <= k < |s.sh.reqs| ==>
      && RunOrNot(s.sh.reqs[k], r.sh.reqs[k])
      && (Unregistered(s, k) <==> Unregistered(r, k))
      && (Unregistered(s, k) ==> !Live(r.sh, k) && r.sh.reqs[k].results == [])
      && (Live(s.sh, k) && !Live(r.sh, k) ==> r.sh.reqs[k].results != [] || s.sh.reqs[k].sync)
  }

  lemma CallbacksKept(s: Looper, r: Looper)
    requires CallbacksOk(s) && AllKept(s, r) && Linked(r.sh)
    requires |r.threads| == |s.threads|
    requires forall t :: 0 <= t < |s.threads| ==> r.threads[t] == s.threads[t] || ThreadOk(r, t)
    ensures CallbacksOk(r)
  {
    hide RunOrNot, Live, Unregistered;
    forall k | 0 <= k < |r.sh.reqs| ensures CallbackOk(r, k) {
      hide CallbackOk;
      CallbackKept(s, r, k);
    }
    forall t | 0 <= t < |r.threads| ensures ThreadOk(r, t) {
      hide CallbackOk;
      assert ThreadOk(s, t);
      ResultsKept(s, r);
    }
  }

  lemma ResultsKept(s: Looper, r: Looper)
    requires AllKept(s, r)
    ensures forall k :: 0 <= k < |s.sh.reqs| && s.sh.reqs[k].results != [] ==> r.sh.reqs[k].results != []
    ensures forall k :: 0 <= k < |s.sh.reqs| ==> s.sh.reqs[k].sync == r.sh.reqs[k].sync && (Unregistered(s, k) <==> Unregistered(r, k))
  {
    hide Live, Unregistered;
  }

  /** A thread whose request is registered stays at registered requests. */
  lemma RegisteredMoves(s: Looper, r: Looper, t: nat, pc: Thread)
    requires t < |s.threads| && !s.threads[t].Generated? && !pc.Generated? && r.threads == s.threads[t := pc]
    requires SameIds(s.sh.reqs, r.sh.reqs)
    ensures forall k :: 0 <= k < |s.sh.reqs| ==> (Unregistered(r, k) <==> Unregistered(s, k))
  {
  }

  lemma LiveWithout(a: Shared, b: Shared, id: ReqId)
    requires SameIds(a.reqs, b.reqs) && b.idCb == a.idCb - {id}
    ensures forall k :: 0 <= k < |a.reqs| ==> (Live(b, k) <==> Live(a, k) && a.reqs[k].id != id)
    ensures Linked(a) ==> Linked(b)
  {
  }

  lemma LiveSame(a: Shared, b: Shared)
    requires SameIds(a.reqs, b.reqs) && b.idCb == a.idCb
    ensures forall k :: 0 <= k < |a.reqs| ==> (Live(b, k) <==> Live(a, k))
    ensures Linked(a) ==> Linked(b)
  {
  }

  /** Moves of a sending thread after its id is in the map. */
  lemma SendKeepsCallbacks(s: Looper, a: Action)
    requires Inv(s) && (a.InsertTimeout? || a.Send?) && Perform(s, a).Some?
    ensures CallbacksOk(Perform(s, a).value)
  {
    hide InsertTimer, CallbackOk, Live, Unregistered, Linked, Numbered, Distinct;
    var r := Perform(s, a).value;
    RegisteredMoves(s, r, a.t, r.threads[a.t]);
    LiveSame(s.sh, r.sh);
    SentOk(s, a);
    UnregisteredIsNew(s);
    assert AllKept(s, r);
    CallbacksKept(s, r);
  }

  lemma SentOk(s: Looper, a: Action)
    requires Placed(s) && (a.InsertTimeout? || a.Send?) && Perform(s, a).Some?
    ensures ThreadOk(Perform(s, a).value, a.t)
  {
    hide InsertTimer;
  }

  lemma Others(sh: Shared, k: nat)
    requires Distinct(sh) && k < |sh.reqs|
    ensures forall j :: 0 <= j < |sh.reqs| && sh.reqs[j].id == sh.reqs[k].id ==> j == k
  {
  }

  lemma UnregisteredIsNew(s: Looper)
    requires CallbacksOk(s)
    ensures forall k :: 0 <= k < |s.sh.reqs| && Unregistered(s, k) ==> s.sh.reqs[k].results == [] && !Live(s.sh, k)
    ensures forall k :: 0 <= k < |s.sh.reqs| && !s.sh.reqs[k].shared ==> (s.sh.reqs[k].isDone <==> s.sh.reqs[k].results != [])
  {
    hide Live, Unregistered;
    forall k | 0 <= k < |s.sh.reqs|
      ensures Unregistered(s, k) ==> s.sh.reqs[k].results == [] && !Live(s.sh, k)
      ensures !s.sh.reqs[k].shared ==> (s.sh.reqs[k].isDone <==> s.sh.reqs[k].results != [])
    {
      assert CallbackOk(s, k);
    }
  }

  lemma FetchKeepsCallbacks(s: Looper, a: Action)
    requires Inv(s) && a.GetCb? && Perform(s, a).Some?
    ensures CallbacksOk(Perform(s, a).value)
  {
    hide CallbackOk, Live, Unregistered, Linked, Numbered, Distinct, Placed;
    var r := Perform(s, a).value;
    if a.id in s.sh.idCb {
      RegisteredMoves(s, r, a.t, r.threads[a.t]);
      LiveSame(s.sh, r.sh);
      UnregisteredIsNew(s);
      FetchedIsLive(s, a.id);
      assert AllKept(s, r);
      CallbacksKept(s, r);
    } else {
      assert r == s;
    }
  }

  lemma FetchedIsLive(s: Looper, id: ReqId)
    requires CallbacksOk(s) && id in s.sh.idCb
    ensures s.sh.idCb[id] < |s.sh.reqs| && !Unregistered(s, s.sh.idCb[id])
  {
    var k := s.sh.idCb[id];
    assert Live(s.sh, k);
    assert CallbackOk(s, k);
    hide CallbackOk, Unregistered, ThreadOk;
    UnregisteredIsNew(s);
  }

  /** Running a callback. */
  lemma RunKeepsCallbacks(s: Looper, a: Action)
    requires Inv(s) && a.RunCallback? && Perform(s, a).Some?
    ensures CallbacksOk(Perform(s, a).value)
  {
    hide CallbackOk, Live, Unregistered, Linked, Numbered, Distinct;
    var r := Perform(s, a).value;
    var k := s.threads[a.t].k;
    assert ThreadOk(s, a.t);
    FireRuns(s.sh.reqs[k], s.threads[a.t].st);
    hide Fire;
    UnregisteredIsNew(s);
    RegisteredMoves(s, r, a.t, r.threads[a.t]);
    LiveSame(s.sh, r.sh);
    assert AllKept(s, r);
    assert ThreadOk(r, a.t);
    CallbacksKept(s, r);
  }

  /** Taking an id away once its callback has run or nobody waits for it to. */
  lemma RemoveKeepsCallbacks(s: Looper, a: Action)
    requires Inv(s) && a.RemoveCb? && Perform(s, a).Some?
    ensures CallbacksOk(Perform(s, a).value)
  {
    hide CallbackOk, Live, Unregistered, Linked, Numbered, Distinct;
    var r := Perform(s, a).value;
    var k := s.threads[a.t].k;
    assert ThreadOk(s, a.t);
    UnregisteredIsNew(s);
    RegisteredMoves(s, r, a.t, r.threads[a.t]);
    LiveWithout(s.sh, r.sh, s.sh.reqs[k].id);
    Others(s.sh, k);
    assert AllKept(s, r);
    CallbacksKept(s, r);
  }

  lemma AbandonKeepsCallbacks(s: Looper, a: Action)
    requires Inv(s) && a.Abandon? && Perform(s, a).Some?
    ensures CallbacksOk(Perform(s, a).value)
  {
    hide EraseKey, CallbackOk, Live, Unregistered, Linked, Numbered, Distinct;
    var r := Perform(s, a).value;
    var k := s.threads[a.t].k;
    assert ThreadOk(s, a.t);
    FireRuns(s.sh.reqs[k], s.threads[a.t].st);
    hide Fire;
    UnregisteredIsNew(s);
    RegisteredMoves(s, r, a.t, r.threads[a.t]);
    LiveWithout(s.sh, r.sh, s.sh.reqs[k].id);
    Others(s.sh, k);
    assert AllKept(s, r);
    CallbacksKept(s, r);
  }

  /** The event thread's sweeps: whoever loses its id has had its callback run. */
  lemma SweepKeepsCallbacks(s: Looper, r: Looper, st: RpcStatus)
    requires Inv(s) && r.threads == s.threads && |r.sh.reqs| == |s.sh.reqs| && Linked(r.sh)
    requires forall k :: 0 <= k < |s.sh.reqs| ==>
               (if Live(s.sh, k) && !Live(r.sh, k) then r.sh.reqs[k] == Fire(s.sh.reqs[k], st) else r.sh.reqs[k] == s.sh.reqs[k])
    requires forall k :: 0 <= k < |s.sh.reqs| && Live(r.sh, k) ==> Live(s.sh, k)
    ensures CallbacksOk(r)
  {
    hide CallbackOk;
    UnregisteredIsNew(s);
    forall k | 0 <= k < |s.sh.reqs| ensures RunOrNot(s.sh.reqs[k], r.sh.reqs[k]) {
      FireRuns(s.sh.reqs[k], st);
    }
    forall k | 0 <= k < |s.sh.reqs| && Live(s.sh, k) && !Live(r.sh, k) ensures r.sh.reqs[k].results != [] {
      FireRuns(s.sh.reqs[k], st);
    }
    SameRegistered(s, r);
    hide RunOrNot, Fire, Live, Unregistered;
    assert AllKept(s, r);
    CallbacksKept(s, r);
  }

  lemma SameRegistered(s: Looper, r: Looper)
    requires r.threads == s.threads && |r.sh.reqs| == |s.sh.reqs|
    requires forall k :: 0 <= k < |s.sh.reqs| ==> r.sh.reqs[k].id == s.sh.reqs[k].id && r.sh.reqs[k].oneWay == s.sh.reqs[k].oneWay
    ensures forall k :: 0 <= k < |s.sh.reqs| ==> (Unregistered(r, k) <==> Unregistered(s, k))
  {
  }

  // -------------------------------------------------------------- every live request has its timer

  /** The request's timer has still to go in. */
  predicate Unarmed(s: Looper, k: nat) {
    k < |s.sh.reqs| && At(s, s.sh.reqs[k].id.thread) in {Generated(k), Registered(k)}
  }

  /** Every timer is some request's, under the key it expires at. */
  ghost predicate Owned(sh: Shared) {
    forall x :: x in sh.timers ==> exists k :: 0 <= k < |sh.reqs| && sh.reqs[k].id == x.id && sh.reqs[k].expiry == Some(x.tm)
  }

  /** Every live request has its timer, unless it was erased with someone else's. */
  ghost predicate Timed(sh: Shared) {
    forall k :: 0 <= k < |sh.reqs| && Live(sh, k) && sh.reqs[k].expiry.Some? ==>
      (Timer(sh.reqs[k].expiry.value, sh.reqs[k].id) in sh.timers <==> !sh.reqs[k].lost)
  }

  ghost predicate Armed(s: Looper) {
    forall k :: 0 <= k < |s.sh.reqs| ==>
      && (s.sh.reqs[k].expiry.Some? <==> s.sh.reqs[k].timeout > 0 && !Unarmed(s, k))
      && (s.sh.reqs[k].lost ==> s.sh.reqs[k].expiry.Some?)
      && (At(s, s.sh.reqs[k].id.thread) == Registered(k) ==> s.sh.reqs[k].timeout > 0)
  }

  ghost predicate TimersOk(s: Looper) { Sorted(s.sh.timers) && Owned(s.sh) && Timed(s.sh) && Armed(s) }

  /** Timers lost only with their ids. */
  lemma FewerTimers(s: Shared, r: Shared)
    requires Owned(s) && Timed(s) && SameTimes(s.reqs, r.reqs)
    requires forall k :: 0 <= k < |s.reqs| ==> r.reqs[k].lost == s.reqs[k].lost
    requires forall k: nat :: Live(r, k) ==> Live(s, k)
    requires forall x :: x in r.timers ==> x in s.timers
    requires forall x, k :: 0 <= k < |s.reqs| && x in s.timers && Live(r, k) && s.reqs[k].id == x.id ==> x in r.timers
    ensures Owned(r) && Timed(r)
  {
    hide Live;
    forall x | x in r.timers
      ensures exists k :: 0 <= k < |r.reqs| && r.reqs[k].id == x.id && r.reqs[k].expiry == Some(x.tm)
    {
      var k :| 0 <= k < |s.reqs| && s.reqs[k].id == x.id && s.reqs[k].expiry == Some(x.tm);
      assert r.reqs[k].id == x.id;
    }
  }

  /** A thread that is not about to insert a timer does not become so. */
  lemma ArmedMoves(s: Looper, r: Looper, t: nat, pc: Thread)
    requires Armed(s) && t < |s.threads| && r.threads == s.threads[t := pc] && SameTimes(s.sh.reqs, r.sh.reqs)
    requires !s.threads[t].Generated? && !s.threads[t].Registered? && !pc.Generated? && !pc.Registered?
    ensures Armed(r)
  {
    assert forall k :: 0 <= k < |s.sh.reqs| ==> (Unarmed(r, k) <==> Unarmed(s, k));
    hide Unarmed;
  }

  lemma BeginKeepsTimers(s: Looper, a: Action)
    requires TimersOk(s) && Linked(s.sh) && Placed(s) && Numbered(s) && a.Begin? && Perform(s, a).Some?
    ensures TimersOk(Perform(s, a).value)
  {
    var r := Perform(s, a).value;
    var n := |s.sh.reqs|;
    assert forall k :: 0 <= k < n ==> r.sh.reqs[k] == s.sh.reqs[k];
    assert forall k :: Live(r.sh, k) <==> Live(s.sh, k);
    assert forall k :: 0 <= k < n ==> (Unarmed(r, k) <==> Unarmed(s, k));
    forall x | x in r.sh.timers
      ensures exists k :: 0 <= k < |r.sh.reqs| && r.sh.reqs[k].id == x.id && r.sh.reqs[k].expiry == Some(x.tm)
    {
      var k :| 0 <= k < n && s.sh.reqs[k].id == x.id && s.sh.reqs[k].expiry == Some(x.tm);
      assert r.sh.reqs[k].id == x.id;
    }
    assert Unarmed(r, n) <==> !a.oneWay;
  }

  lemma InsertKeepsTimers(s: Looper, a: Action)
    requires TimersOk(s) && Inv(s) && a.InsertCb? && Perform(s, a).Some?
    ensures TimersOk(Perform(s, a).value)
  {
    hide CallbacksOk, Numbered;
    var r := Perform(s, a).value;
    var k := s.threads[a.t].k;
    assert Unarmed(s, k);
    assert forall j :: Live(r.sh, j) && j != k ==> Live(s.sh, j);
    assert Timed(r.sh);
    assert Owned(r.sh);
    assert forall j :: 0 <= j < |s.sh.reqs| && j != k ==> (Unarmed(r, j) <==> Unarmed(s, j));
    assert Unarmed(r, k) <==> s.sh.reqs[k].timeout > 0;
    hide Unarmed, Timed, Owned, Sorted, Live;
    forall j | 0 <= j < |r.sh.reqs|
      ensures r.sh.reqs[j].expiry.Some? <==> r.sh.reqs[j].timeout > 0 && !Unarmed(r, j)
      ensures At(r, r.sh.reqs[j].id.thread) == Registered(j) ==> r.sh.reqs[j].timeout > 0
    {
      assert r.sh.reqs[j] == s.sh.reqs[j];
    }
  }

  lemma AddTimerOk(sh: Shared, k: nat, now: int)
    requires Sorted(sh.timers) && Owned(sh) && Timed(sh) && Distinct(sh) && k < |sh.reqs| && sh.reqs[k].expiry.None? && !sh.reqs[k].lost
    ensures var r := AddTimer(sh, k, now); Sorted(r.timers) && Owned(r) && Timed(r)
  {
    hide InsertTimer;
    var r := AddTimer(sh, k, now);
    var t := Timer(now + sh.reqs[k].timeout, sh.reqs[k].id);
    InsertKeeps(sh.timers, t);
    InsertContents(sh.timers, t);
    LiveSame(sh, r);
    Others(sh, k);
    hide Live, Sorted, Distinct;
    forall x | x in r.timers
      ensures exists j :: 0 <= j < |r.reqs| && r.reqs[j].id == x.id && r.reqs[j].expiry == Some(x.tm)
    {
      if x == t {
        assert r.reqs[k].id == x.id;
      } else {
        var j :| 0 <= j < |sh.reqs| && sh.reqs[j].id == x.id && sh.reqs[j].expiry == Some(x.tm);
        assert r.reqs[j].id == x.id;
      }
    }
  }

  lemma TimeoutKeepsTimers(s: Looper, a: Action)
    requires TimersOk(s) && Placed(s) && Distinct(s.sh) && a.InsertTimeout? && Perform(s, a).Some?
    ensures TimersOk(Perform(s, a).value)
  {
    hide InsertTimer, Owned, Timed, Sorted;
    var r := Perform(s, a).value;
    var k := s.threads[a.t].k;
    assert Unarmed(s, k) && !Unarmed(r, k);
    assert forall j :: 0 <= j < |s.sh.reqs| && j != k ==> (Unarmed(r, j) <==> Unarmed(s, j));
    AddTimerOk(s.sh, k, a.now);
    hide Unarmed;
    forall j | 0 <= j < |r.sh.reqs|
      ensures r.sh.reqs[j].expiry.Some? <==> r.sh.reqs[j].timeout > 0 && !Unarmed(r, j)
      ensures At(r, r.sh.reqs[j].id.thread) == Registered(j) ==> r.sh.reqs[j].timeout > 0
    {
      assert j != k ==> r.sh.reqs[j] == s.sh.reqs[j];
    }
  }

  /** Actions that neither add nor erase timers. */
  lemma MoveKeepsTimers(s: Looper, a: Action)
    requires TimersOk(s) && (a.Send? || a.GetCb? || a.RunCallback? || a.RemoveCb?) && Perform(s, a).Some?
    ensures TimersOk(Perform(s, a).value)
  {
    hide Sorted, Armed;
    var r := Perform(s, a).value;
    assert forall k :: Live(r.sh, k) ==> Live(s.sh, k);
    FewerTimers(s.sh, r.sh);
    if r != s {
      ArmedMoves(s, r, a.t, r.threads[a.t]);
    }
  }

  /** The timers it leaves are those under other keys. */
  lemma CleanUpTimers(sh: Shared, k: nat, st: RpcStatus)
    requires k < |sh.reqs| && Sorted(sh.timers)
    ensures var r, q := CleanUp(sh, k, st), sh.reqs[k];
            && Sorted(r.timers) && (forall j: nat :: Live(r, j) ==> Live(sh, j))
            && forall x :: x in r.timers <==> x in sh.timers && !(q.timeout > 0 && q.expiry == Some(x.tm))
  {
    hide EraseKey, Sorted;
    var q := sh.reqs[k];
    if q.timeout > 0 && q.expiry.Some? {
      EraseKeeps(sh.timers, q.expiry.value);
    }
  }

  lemma AbandonKeepsTimers(s: Looper, a: Action)
    requires TimersOk(s) && a.Abandon? && Perform(s, a).Some?
    ensures TimersOk(Perform(s, a).value)
  {
    hide Sorted, Armed, CleanUp, Live, SameTimes;
    var r := Perform(s, a).value;
    var k := s.threads[a.t].k;
    CleanUpTimes(s.sh, k, s.threads[a.t].st);
    CleanUpTimers(s.sh, k, s.threads[a.t].st);
    StaysOwned(s.sh, r.sh, s.sh.reqs[k]);
    ArmedMoves(s, r, a.t, r.threads[a.t]);
  }

  lemma StaysOwned(s: Shared, r: Shared, q: Req)
    requires Owned(s) && Timed(s) && SameTimes(s.reqs, r.reqs)
    requires forall k: nat :: Live(r, k) ==> Live(s, k)
    requires forall x :: x in r.timers <==> x in s.timers && !(q.timeout > 0 && q.expiry == Some(x.tm))
    requires forall j :: 0 <= j < |s.reqs| ==>
               (r.reqs[j].lost <==> s.reqs[j].lost || (q.timeout > 0 && q.expiry.Some? && s.reqs[j].expiry == q.expiry))
    ensures Owned(r) && Timed(r)
  {
    hide Live;
    forall x | x in r.timers
      ensures exists k :: 0 <= k < |r.reqs| && r.reqs[k].id == x.id && r.reqs[k].expiry == Some(x.tm)
    {
      var k :| 0 <= k < |s.reqs| && s.reqs[k].id == x.id && s.reqs[k].expiry == Some(x.tm);
      assert r.reqs[k].id == x.id;
    }
  }

  lemma SuffixSorted(timers: seq<Timer>, rest: seq<Timer>)
    requires Sorted(timers) && |rest| <= |timers| && rest == timers[|timers| - |rest|..]
    ensures Sorted(rest) && forall x :: x in rest ==> x in timers
  {
    var d := |timers| - |rest|;
    forall i, j | 0 <= i < j < |rest|
      ensures rest[i].tm <= rest[j].tm
    {
      assert rest[i] == timers[d + i] && rest[j] == timers[d + j];
    }
  }

  lemma LiveTimerStays(sh: Shared, r: Shared, now: int, x: Timer, k: nat)
    requires Kept(sh, r, now) && Remaining(sh, r, now)
    requires x in sh.timers && Live(r, k) && r.reqs[k].id == x.id
    ensures x in r.timers
  {
    var i :| 0 <= i < |sh.timers| && sh.timers[i] == x;
    assert x.tm < now ==> Due(sh.timers, x.id, now);
    assert x.tm >= now && i >= |sh.timers| - |r.timers|;
    hide Due;
    assert r.timers[i - (|sh.timers| - |r.timers|)] == x;
  }

  lemma ScanLive(sh: Shared, r: Shared, now: int)
    requires Kept(sh, r, now) && Fired(sh, r, now)
    ensures SameTimes(sh.reqs, r.reqs) && forall k: nat :: Live(r, k) ==> Live(sh, k)
    ensures forall k :: 0 <= k < |sh.reqs| ==> r.reqs[k].lost == sh.reqs[k].lost
  {
    hide Due;
  }

  lemma ScanKeepsTimers(s: Looper, now: int)
    requires TimersOk(s) && Linked(s.sh)
    ensures TimersOk(s.(sh := Scan(s.sh, now)))
  {
    ScanIsFilter(s.sh, now);
    var r := Scan(s.sh, now);
    SuffixSorted(s.sh.timers, r.timers);
    ScanLive(s.sh, r, now);
    hide Scan, Sorted, Live, Due, Fired, Kept;
    forall x, k: nat | x in s.sh.timers && Live(r, k) && s.sh.reqs[k].id == x.id
      ensures x in r.timers
    {
      LiveTimerStays(s.sh, r, now, x, k);
    }
    FewerTimers(s.sh, r);
    assert forall k: nat :: Unarmed(s.(sh := r), k) <==> Unarmed(s, k);
  }

  lemma StopKeepsTimers(s: Looper)
    requires TimersOk(s)
    ensures TimersOk(s.(sh := RemoveAll(s.sh)))
  {
    var r := s.(sh := RemoveAll(s.sh));
    assert forall k :: Unarmed(r, k) <==> Unarmed(s, k);
  }

  // ------------------------------------------------------------------------- every run

  ghost predicate Good(s: Looper) { Inv(s) && TimersOk(s) }

  lemma SweepKeeps(s: Looper, a: Action)
    requires Good(s) && (a.DealTimeouts? || a.Stop?)
    ensures CallbacksOk(Perform(s, a).value) && TimersOk(Perform(s, a).value)
  {
    var r := Perform(s, a).value;
    hide Numbered, Placed, CallbackOk, ThreadOk, Owned, Timed, Armed;
    if a.Stop? {
      StopKeepsTimers(s);
      SweepKeepsCallbacks(s, r, DISCONNECTED);
    } else {
      ScanIsFilter(s.sh, a.now);
      ScanKeepsTimers(s, a.now);
      ScanSweeps(s.sh, r.sh, a.now);
      SweepKeepsCallbacks(s, r, CB_TIMEOUT);
    }
  }

  lemma ScanSweeps(sh: Shared, r: Shared, now: int)
    requires Linked(sh) && Kept(sh, r, now) && Fired(sh, r, now)
    ensures Linked(r) && |r.reqs| == |sh.reqs|
    ensures forall k :: 0 <= k < |sh.reqs| ==>
              && (if Live(sh, k) && !Live(r, k) then r.reqs[k] == Fire(sh.reqs[k], CB_TIMEOUT) else r.reqs[k] == sh.reqs[k])
              && (Live(r, k) ==> Live(sh, k))
              && (Live(sh, k) && !Live(r, k) <==> Live(sh, k) && Due(sh.timers, sh.reqs[k].id, now))
  {
    hide Due;
  }

  lemma ActionKeeps(s: Looper, a: Action)
    requires Good(s) && s.sh.sends < TWO32 && Perform(s, a).Some?
    ensures Good(Perform(s, a).value)
  {
    ActionKeepsIds(s, a) by { hide Perform, Owned, Timed, Armed; }
    hide Perform, Numbered, Distinct, Placed, CallbacksOk, TimersOk;
    match a
    case Begin(_, _, _, _, _, _, _) => BeginKeeps(s, a);
    case InsertCb(_) => InsertKeepsCallbacks(s, a); InsertKeepsTimers(s, a);
    case InsertTimeout(_, _) => SendKeepsCallbacks(s, a); TimeoutKeepsTimers(s, a);
    case Send(_, _) => SendKeepsCallbacks(s, a); MoveKeepsTimers(s, a);
    case Abandon(_) => AbandonKeepsCallbacks(s, a); AbandonKeepsTimers(s, a);
    case GetCb(_, _, _) => FetchKeepsCallbacks(s, a); MoveKeepsTimers(s, a);
    case RunCallback(_) => RunKeepsCallbacks(s, a); MoveKeepsTimers(s, a);
    case RemoveCb(_) => RemoveKeepsCallbacks(s, a); MoveKeepsTimers(s, a);
    case _ => SweepKeeps(s, a);
  }

  lemma BeginKeeps(s: Looper, a: Action)
    requires Good(s) && a.Begin? && Perform(s, a).Some?
    ensures CallbacksOk(Perform(s, a).value) && TimersOk(Perform(s, a).value)
  {
    hide Perform, Distinct, CallbackOk, ThreadOk, Placed, TimersOk;
    BeginKeepsCallbacks(s, a);
    BeginKeepsTimers(s, a);
  }

  lemma {:induction false} ScanSends(sh: Shared, now: int)
    ensures Scan(sh, now).sends == sh.sends
    decreases |sh.timers|
  {
    if sh.timers != [] && !(sh.timers[0].id in sh.idCb && now <= sh.timers[0].tm) {
      assert Scan(sh, now) == Scan(ScanStep(sh, now), now);
      ScanSends(ScanStep(sh, now), now);
      hide Scan;
    }
  }

  lemma SendsGrow(s: Looper, a: Action)
    requires Perform(s, a).Some?
    ensures s.sh.sends <= Perform(s, a).value.sh.sends
  {
    hide InsertTimer, EraseKey;
    if a.DealTimeouts? {
      ScanSends(s.sh, a.now);
    }
    hide Scan;
  }

  lemma {:induction false} RunKeeps(n: nat, actions: seq<Action>)
    requires Run(n, actions).Some? && Run(n, actions).value.sh.sends < TWO32
    ensures Good(Run(n, actions).value)
    decreases |actions|
  {
    if actions != [] {
      hide Perform, Good;
      var s, a := Run(n, actions[..|actions| - 1]).value, actions[|actions| - 1];
      SendsGrow(s, a);
      RunKeeps(n, actions[..|actions| - 1]);
      ActionKeeps(s, a);
    }
  }

  // ------------------------------------------------------------------------ main results

  predicate Gone(sh: Shared, k: nat) {
    k < |sh.reqs| && sh.reqs[k].id !in sh.idCb
  }

  /**
   Callbacks run exactly once. In every run with fewer than 2^32 sends, however senders,
   response workers, timeout scans and the stop interleave, a registered asynchronous request
   whose callback object is its own is either in the id map, its callback having run at most
   once, or gone from it, its callback having run exactly once.
   */
  lemma ExactlyOnce(n: nat, actions: seq<Action>, k: nat)
    requires Run(n, actions).Some? && Run(n, actions).value.sh.sends < TWO32
    requires var s := Run(n, actions).value;
             k < |s.sh.reqs| && !Unregistered(s, k) && !s.sh.reqs[k].sync && !s.sh.reqs[k].shared
    ensures var s := Run(n, actions).value;
            || (Live(s.sh, k) && |s.sh.reqs[k].results| <= 1)
            || (Gone(s.sh, k) && |s.sh.reqs[k].results| == 1)
  {
    RunKeeps(n, actions);
    var s := Run(n, actions).value;
    assert CallbackOk(s, k);
    hide Run, Perform, Numbered, Placed, TimersOk, ThreadOk;
  }

  /** No callback object that is not shared runs twice, and none runs before its id is in the map. */
  lemma AtMostOnce(n: nat, actions: seq<Action>, k: nat)
    requires Run(n, actions).Some? && Run(n, actions).value.sh.sends < TWO32
    requires k < |Run(n, actions).value.sh.reqs| && !Run(n, actions).value.sh.reqs[k].shared
    ensures var s := Run(n, actions).value;
            |s.sh.reqs[k].results| <= 1 && (Unregistered(s, k) ==> s.sh.reqs[k].results == [])
  {
    RunKeeps(n, actions);
    assert CallbackOk(Run(n, actions).value, k);
    hide Run, Perform, Numbered, Placed, TimersOk, ThreadOk;
  }

  /** Request ids are unique across all threads while there are fewer than 2^32 sends. */
  lemma UniqueIds(n: nat, actions: seq<Action>, j: nat, k: nat)
    requires Run(n, actions).Some? && Run(n, actions).value.sh.sends < TWO32
    requires j < |Run(n, actions).value.sh.reqs| && k < |Run(n, actions).value.sh.reqs| && j != k
    ensures var a, b := Run(n, actions).value.sh.reqs[j].id, Run(n, actions).value.sh.reqs[k].id;
            a.thread != b.thread || a.seqid != b.seqid
  {
    RunKeeps(n, actions);
    hide Perform, CallbacksOk, TimersOk;
    PairsDiffer(Run(n, actions).value, if j < k then j else k, if j < k then k else j);
  }

  lemma PairsDiffer(s: Looper, j: nat, k: nat)
    requires Distinct(s.sh) && j < k < |s.sh.reqs|
    ensures s.sh.reqs[j].id.thread != s.sh.reqs[k].id.thread || s.sh.reqs[j].id.seqid != s.sh.reqs[k].id.seqid
  {
  }

  /**
   Timers and scans, in every run: a live request has a timer if and only if it has an expiry
   and has not lost it, and a scan takes it out if and only if that timer is earlier than now,
   running its callback with the timeout status; nothing else runs.
   */
  lemma TimeoutsExact(n: nat, actions: seq<Action>, now: int, k: nat)
    requires Run(n, actions).Some? && Run(n, actions).value.sh.sends < TWO32
    requires Live(Run(n, actions).value.sh, k)
    ensures var sh := Run(n, actions).value.sh;
            var r, q := Scan(sh, now), sh.reqs[k];
            && |r.reqs| == |sh.reqs|
            && (q.expiry.Some? ==> (Timer(q.expiry.value, q.id) in sh.timers <==> !q.lost))
            && (forall x :: x in sh.timers && x.id == q.id ==> q.expiry == Some(x.tm))
            && (!Live(r, k) <==> q.expiry.Some? && q.expiry.value < now && !q.lost)
            && r.reqs[k] == if Live(r, k) then q else Fire(q, CB_TIMEOUT)
  {
    hide Run, Perform, Scan, Numbered, Placed, CallbackOk, ThreadOk, Armed, Owned, Timed, Sorted, Live;
    RunKeeps(n, actions);
    var s := Run(n, actions).value;
    ScanIsFilter(s.sh, now);
    ScanSweeps(s.sh, Scan(s.sh, now), now);
    DueIsExpired(s.sh, k, now);
  }

  lemma DueIsExpired(sh: Shared, k: nat, now: int)
    requires Live(sh, k) && Owned(sh) && Timed(sh) && Distinct(sh)
    ensures k < |sh.reqs|
    ensures var q := sh.reqs[k];
            && (Due(sh.timers, q.id, now) <==> q.expiry.Some? && q.expiry.value < now && !q.lost)
            && (q.expiry.Some? ==> (Timer(q.expiry.value, q.id) in sh.timers <==> !q.lost))
            && (forall x :: x in sh.timers && x.id == q.id ==> q.expiry == Some(x.tm))
  {
    var q := sh.reqs[k];
    forall x | x in sh.timers && x.id == q.id
      ensures q.expiry == Some(x.tm)
    {
      var j :| 0 <= j < |sh.reqs| && sh.reqs[j].id == x.id && sh.reqs[j].expiry == Some(x.tm);
      Others(sh, k);
    }
    if Due(sh.timers, q.id, now) {
      var i :| 0 <= i < |sh.timers| && sh.timers[i].id == q.id && sh.timers[i].tm < now;
      assert sh.timers[i] in sh.timers;
      assert sh.timers[i] == Timer(q.expiry.value, q.id);
    }
    if q.expiry.Some? && !q.lost {
      var i :| 0 <= i < |sh.timers| && sh.timers[i] == Timer(q.expiry.value, q.id);
    }
  }

  /** Who loses a timer: on a failed send, exactly the requests with the expiry of the one that failed; otherwise nobody. */
  lemma WhoLoses(s: Looper, a: Action, j: nat)
    requires Inv(s) && Sorted(s.sh.timers) && Perform(s, a).Some? && j < |s.sh.reqs|
    ensures var r := Perform(s, a).value;
            && j < |r.sh.reqs|
            && (r.sh.reqs[j].lost <==>
                  || s.sh.reqs[j].lost
                  || (a.Abandon? && var q := s.sh.reqs[At(s, a.t).k];
                        q.timeout > 0 && q.expiry.Some? && s.sh.reqs[j].expiry == q.expiry))
  {
    hide CallbackOk, ThreadOk, Numbered, Distinct, Placed, InsertTimer, EraseKey;
    if a.DealTimeouts? {
      ScanIsFilter(s.sh, a.now);
      hide Scan, Due, Kept, Remaining;
    } else {
      hide Scan;
    }
  }

  /** Fully registered with a timeout: the timer went in. */
  lemma TimerWentIn(n: nat, actions: seq<Action>, k: nat)
    requires Run(n, actions).Some? && Run(n, actions).value.sh.sends < TWO32
    requires k < |Run(n, actions).value.sh.reqs|
    ensures var s := Run(n, actions).value;
            s.sh.reqs[k].expiry.Some? <==> s.sh.reqs[k].timeout > 0 && !Unarmed(s, k)
  {
    RunKeeps(n, actions);
    hide Run, Perform, Inv, Owned, Timed, Sorted;
  }

  /** In a run where no send fails, nobody loses a timer. */
  lemma {:induction false} NothingLost(n: nat, actions: seq<Action>, j: nat)
    requires Run(n, actions).Some? && Run(n, actions).value.sh.sends < TWO32
    requires forall i :: 0 <= i < |actions| ==> !actions[i].Abandon?
    requires j < |Run(n, actions).value.sh.reqs|
    ensures !Run(n, actions).value.sh.reqs[j].lost
    decreases |actions|
  {
    if actions != [] {
      hide Perform, Inv, TimersOk;
      var before, a := actions[..|actions| - 1], actions[|actions| - 1];
      var s := Run(n, before).value;
      SendsGrow(s, a);
      RunKeeps(n, before);
      SortedOf(s);
      if j < |s.sh.reqs| {
        NothingLost(n, before, j);
        WhoLoses(s, a, j);
      } else {
        NewIsNotLost(s, a, j);
      }
    }
  }

  lemma SortedOf(s: Looper)
    requires TimersOk(s)
    ensures Sorted(s.sh.timers)
  {
    hide Owned, Timed, Armed;
  }

  lemma NewIsNotLost(s: Looper, a: Action, j: nat)
    requires Inv(s) && Sorted(s.sh.timers) && Perform(s, a).Some? && |s.sh.reqs| <= j < |Perform(s, a).value.sh.reqs|
    ensures !Perform(s, a).value.sh.reqs[j].lost
  {
    hide CallbackOk, ThreadOk, Numbered, Distinct, Placed, InsertTimer, EraseKey;
    if a.DealTimeouts? {
      ScanIsFilter(s.sh, a.now);
      hide Scan, Due, Kept, Remaining;
    } else {
      hide Scan;
    }
  }

  /**
   So in a run where no send fails no overdue request survives a scan: a request whose timer went
   in is in the map afterwards if and only if it was before and expires now or later, and if it
   goes, its callback runs with the timeout status.
   */
  lemma NoneOverdue(n: nat, actions: seq<Action>, now: int, k: nat)
    requires Run(n, actions).Some? && Run(n, actions).value.sh.sends < TWO32 && k < |Run(n, actions).value.sh.reqs|
    requires forall i :: 0 <= i < |actions| ==> !actions[i].Abandon?
    ensures Run(n, actions + [DealTimeouts(now)]).Some?
    ensures var s, r := Run(n, actions).value, Run(n, actions + [DealTimeouts(now)]).value;
            var q := s.sh.reqs[k];
            q.timeout > 0 && !Unarmed(s, k) ==>
              && q.expiry.Some? && k < |r.sh.reqs|
              && (Live(r.sh, k) <==> Live(s.sh, k) && now <= q.expiry.value)
              && r.sh.reqs[k] == if Live(s.sh, k) && !Live(r.sh, k) then Fire(q, CB_TIMEOUT) else q
  {
    hide Inv, Live, Unarmed, Scan;
    var s := Run(n, actions).value;
    assert (actions + [DealTimeouts(now)])[..|actions|] == actions;
    TimerWentIn(n, actions, k);
    NothingLost(n, actions, k);
    Swept(n, actions, now);
    if Live(s.sh, k) {
      TimeoutsExact(n, actions, now, k);
    }
  }

  /** A scan only takes requests out of the map, and changes no other. */
  lemma Swept(n: nat, actions: seq<Action>, now: int)
    requires Run(n, actions).Some? && Run(n, actions).value.sh.sends < TWO32
    ensures var sh, r := Run(n, actions).value.sh, Scan(Run(n, actions).value.sh, now);
            && |r.reqs| == |sh.reqs|
            && forall k :: 0 <= k < |sh.reqs| && !Live(sh, k) ==> !Live(r, k) && r.reqs[k] == sh.reqs[k]
  {
    hide Run, Perform, Scan, Numbered, Placed, CallbackOk, ThreadOk, Armed, Owned, Timed, Sorted, Live;
    RunKeeps(n, actions);
    var s := Run(n, actions).value;
    ScanIsFilter(s.sh, now);
    ScanSweeps(s.sh, Scan(s.sh, now), now);
  }
}
