/**
 From end to end: whatever the threads of the server do, however send() cuts packages up and
 however recv() delivers the pieces, each end hands out the packages the other end sent, in
 order, and reads out of them what was put in.
 */
module Delivery {
  import opened Options
  import opened Octets
  import opened RpcDefs
  import opened Framing
  import opened Codec
  import opened ResponsePath
  import opened ClientConn
  import opened RpcConn

  /** The buffers queued for sending are the frames of the packages. */
  ghost predicate AreFrames(buffers: seq<Bytes>, pkgs: seq<Bytes>) {
    |buffers| == |pkgs| && forall i :: 0 <= i < |pkgs| ==> buffers[i] == Frame(pkgs[i])
  }

  lemma {:induction false} FlattenFrames(buffers: seq<Bytes>, pkgs: seq<Bytes>)
    requires AreFrames(buffers, pkgs)
    ensures Flatten(buffers) == Encode(pkgs)
    decreases |pkgs|
  {
    if pkgs != [] {
      var n := |pkgs| - 1;
      FlattenFrames(buffers[..n], pkgs[..n]);
      assert pkgs == pkgs[..n] + [pkgs[n]];
      EncodeSnoc(pkgs[..n], pkgs[n]);
    }
  }

  /** What a reader holds of a started frame is no whole frame. */
  lemma RestIncomplete(client: RpcClientConn)
    requires client.Valid()
    ensures Incomplete(client.Rest())
  {
    if client.pkgSize > 0 {
      StartedIncomplete(client.pkgSize, client.rpk[..client.pkgSize - client.leftLen]);
    }
  }

  /** The bytes on a connection's wire are the frames of the packages done and part of the next. */
  lemma WireFrames(c: Conn, pkgs: seq<Bytes>) returns (y: Bytes)
    requires ConnOk(c) && Fits(pkgs) && AreFrames(c.pushed, pkgs)
    ensures |c.done| <= |pkgs| && c.wire == Encode(pkgs[..|c.done|]) + y && Incomplete(y)
  {
    var d := |c.done|;
    assert c.done == c.pushed[..d];
    FlattenFrames(c.done, pkgs[..d]);
    if c.current.Some? {
      assert c.current.value == c.pushed[d];
      y := Frame(pkgs[d])[..c.sent];
      TornIncomplete(pkgs[d], c.sent);
    } else {
      y := [];
    }
  }

  lemma ConnDelivery(c: Conn, pkgs: seq<Bytes>, client: RpcClientConn)
    requires ConnOk(c) && Fits(pkgs) && AreFrames(c.pushed, pkgs)
    requires client.Valid() && client.sock.received <= c.wire
    ensures client.frames <= pkgs && |client.frames| <= |c.done|
    ensures client.sock.received == c.wire ==> |client.frames| == |c.done|
  {
    hide ConnOk, Incomplete, Encode, AreFrames;
    var y := WireFrames(c, pkgs);
    var unread := c.wire[|client.sock.received|..];
    assert c.wire == client.sock.received + unread;
    assert Encode(client.frames) + (client.Rest() + unread) == c.wire;
    FramingUnique(client.frames, pkgs[..|c.done|], client.Rest() + unread, y);
    if client.sock.received == c.wire {
      RestIncomplete(client);
      assert client.Rest() + unread == client.Rest();
    }
  }

  /**
   Responses, in every run of the server: the packages the client has received are the first
   of those queued, each without its length; they are no more than were fully sent, and once
   the client has read the whole wire they are all of those. It hands out those not empty.
   */
  lemma ResponseDelivery(n: nat, maxQueue: nat, actions: seq<Action>, id: Id, pkgs: seq<Bytes>, client: RpcClientConn)
    requires Run(Start(n, maxQueue), actions).Some? && id in Run(Start(n, maxQueue), actions).value.conns
    requires Fits(pkgs) && AreFrames(Run(Start(n, maxQueue), actions).value.conns[id].pushed, pkgs)
    requires client.Valid() && client.sock.received <= Run(Start(n, maxQueue), actions).value.conns[id].wire
    ensures client.frames <= pkgs && Handed(client.frames) <= Handed(pkgs)
    ensures var c := Run(Start(n, maxQueue), actions).value.conns[id];
            && |client.frames| <= |c.done|
            && (client.sock.received == c.wire ==> |client.frames| == |c.done|)
  {
    RunKeeps(n, maxQueue, actions);
    ConnDelivery(Run(Start(n, maxQueue), actions).value.conns[id], pkgs, client);
    HandedPrefix(client.frames, pkgs);
    hide Run, Perform, ConnOk, Incomplete, Encode, AreFrames;
  }

  lemma HandedPrefix(a: seq<Bytes>, b: seq<Bytes>)
    requires a <= b
    ensures Handed(a) <= Handed(b)
  {
    assert b == a + b[|a|..];
    HandedConcat(a, b[|a|..]);
  }

  /** Requests: the packages the server has received are the first of those the client sent. */
  lemma RequestDelivery(client: RpcClientConn, server: RpcServerRpcConn)
    requires client.Sent() && server.Valid() && server.sock.received <= client.sock.written
    ensures server.frames <= client.requests && Handed(server.frames) <= Handed(client.requests)
    ensures server.sock.received == client.sock.written ==> server.frames == client.requests
  {
    hide Incomplete, Encode;
    var wire := client.sock.written;
    var unread := wire[|server.sock.received|..];
    assert wire == server.sock.received + unread;
    assert Encode(server.frames) + (server.Rest() + unread) == wire;
    FramingUnique(server.frames, client.requests, server.Rest() + unread, client.torn);
    HandedPrefix(server.frames, client.requests);
    if server.sock.received == wire {
      if server.pkgSize > 0 {
        StartedIncomplete(server.pkgSize, server.rpk[..server.pkgSize - server.leftLen]);
      } else {
        StartedIncomplete(0, []);
      }
      assert server.Rest() + unread == server.Rest();
    }
  }

  /** What a service answered: the message with the request id, the user data, the status. */
  datatype Reply = Reply(msg: InnerResp, user: Bytes, status: RpcStatus)

  function ReplyPackage(p: Proto<InnerResp>, r: Reply): Bytes { ResponsePackage(p.ser(r.msg), r.user, r.status) }

  /**
   Every response the client receives is handed out and decodes to the request id, the user data and the
   status the server gave it, whatever the threads, send() and recv() did in between.
   */
  lemma RepliesArrive(n: nat, maxQueue: nat, actions: seq<Action>, id: Id, p: Proto<InnerResp>, replies: seq<Reply>, client: RpcClientConn, i: nat)
    requires Lawful(p) && forall k :: 0 <= k < |replies| ==> |ReplyPackage(p, replies[k])| < TWO32
    requires Run(Start(n, maxQueue), actions).Some? && id in Run(Start(n, maxQueue), actions).value.conns
    requires AreFrames(Run(Start(n, maxQueue), actions).value.conns[id].pushed, seq(|replies|, k requires 0 <= k < |replies| => ReplyPackage(p, replies[k])))
    requires client.Valid() && client.sock.received <= Run(Start(n, maxQueue), actions).value.conns[id].wire
    requires i < |client.frames|
    ensures i < |replies| && IsResponse(client.frames[i]) && Handed(client.frames) == client.frames
    ensures DecodeResponse(p, client.frames[i]) == Some(Answer(replies[i].msg.requestId, replies[i].user, Some(replies[i].status)))
  {
    var pkgs := seq(|replies|, k requires 0 <= k < |replies| => ReplyPackage(p, replies[k]));
    ResponseDelivery(n, maxQueue, actions, id, pkgs, client);
    assert forall k :: 0 <= k < |client.frames| ==> client.frames[k] == pkgs[k] && |pkgs[k]| >= 8;
    AllHanded(client.frames);
    hide Handed, Run, AreFrames, DecodeResponse;
    assert client.frames[i] == pkgs[i] == ReplyPackage(p, replies[i]);
    ResponseCodec(p, replies[i].msg, replies[i].user, replies[i].status);
  }

  /** Every request below 10 MiB the server hands out decodes to the request the client sent. */
  lemma RequestsArrive(p: Proto<InnerReq>, reqs: seq<Request>, client: RpcClientConn, server: RpcServerRpcConn, i: nat)
    requires Lawful(p) && client.Sent() && server.Valid() && server.sock.received <= client.sock.written
    requires client.requests == seq(|reqs|, k requires 0 <= k < |reqs| => RequestPackage(p, reqs[k]))
    requires i < |server.frames|
    ensures i < |reqs| && IsRequest(server.frames[i])
    ensures DecodeRequest(p, server.frames[i]).Some?
    ensures |DecodeRequest(p, server.frames[i]).value.data| == |reqs[i].data|
    ensures |reqs[i].data| < MAX_PROTOBUF_DATA ==> DecodeRequest(p, server.frames[i]) == Some(reqs[i])
  {
    RequestDelivery(client, server);
    assert server.frames[i] == client.requests[i] == RequestPackage(p, reqs[i]);
    assert |p.ser(MessageOf(reqs[i]))| <= |client.requests[i]|;
    hide DecodeRequest;
    RequestCodec(p, reqs[i]);
  }
}
