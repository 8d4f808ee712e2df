/** The contents of request and response packages, and what each end reads out of them. */
module Codec {
  import opened Options
  import opened Octets
  import opened RpcDefs

  // ------------------------------------------------------------------------- responses

  /** A response package: length of the message, message, user data, status. */
  function ResponsePackage(msg: Bytes, user: Bytes, rs: RpcStatus): Bytes {
    Be32(|msg|) + msg + user + Be32(StatusCode(rs))
  }

  /** Long enough for the offsets a response is read at. */
  predicate IsResponse(pkg: Bytes) {
    8 <= |pkg| && U32(pkg[..4]) + 8 <= |pkg|
  }

  datatype Answer = Answer(requestId: string, data: Bytes, status: Option<RpcStatus>)

  /** What the client worker takes out of a response package; None if the message does not parse. */
  function DecodeResponse(p: Proto<InnerResp>, pkg: Bytes): Option<Answer>
    requires IsResponse(pkg)
  {
    var len := U32(pkg[..4]);
    match p.parse(pkg[4..4 + len])
    case None => None
    case Some(m) => Some(Answer(m.requestId, pkg[4 + len..|pkg| - 4], StatusOf(U32(pkg[|pkg| - 4..]))))
  }

  /** The client reads out of a response exactly what the server put in. */
  lemma ResponseCodec(p: Proto<InnerResp>, m: InnerResp, user: Bytes, rs: RpcStatus)
    requires Lawful(p) && |p.ser(m)| < TWO32
    ensures var pkg := ResponsePackage(p.ser(m), user, rs);
            IsResponse(pkg) && DecodeResponse(p, pkg) == Some(Answer(m.requestId, user, Some(rs)))
  {
    var msg := p.ser(m);
    var pkg := ResponsePackage(msg, user, rs);
    U32OfBe32(|msg|);
    U32OfBe32(StatusCode(rs));
    hide U32, Be32;
    assert pkg[..4] == Be32(|msg|);
    assert pkg[4..4 + |msg|] == msg;
    assert pkg[4 + |msg|..|pkg| - 4] == user;
    assert pkg[|pkg| - 4..] == Be32(StatusCode(rs));
  }

  // -------------------------------------------------------------------------- requests

  datatype Request = Request(
    service: string, method_name: string, requestId: string, oneWay: bool, timeout: nat, data: Bytes)

  /** Data that travels outside the message: none at all, or too much for it. */
  predicate HasBlob(r: Request) {
    !(0 < |r.data| < MAX_PROTOBUF_DATA)
  }

  function MessageOf(r: Request): InnerReq {
    InnerReq(VERSION, r.service, r.method_name, r.requestId, r.oneWay, r.timeout, if HasBlob(r) then None else Some(r.data))
  }

  /** A request package: length of the message, message, and the data if it is not in the message. */
  function RequestPackage(p: Proto<InnerReq>, r: Request): Bytes {
    Be32(|p.ser(MessageOf(r))|) + p.ser(MessageOf(r)) + if HasBlob(r) then r.data else []
  }

  /** Long enough for the offsets a request is read at. */
  predicate IsRequest(pkg: Bytes) {
    4 <= |pkg| && U32(pkg[..4]) + 4 <= |pkg|
  }

  /**
   What the server worker hands to the service; None if the message does not parse. Data
   outside the message is taken from right after the length, not from after the message.
   */
  function DecodeRequest(p: Proto<InnerReq>, pkg: Bytes): Option<Request>
    requires IsRequest(pkg)
  {
    var len := U32(pkg[..4]);
    match p.parse(pkg[4..4 + len])
    case None => None
    case Some(m) =>
      var data := if m.data.Some? then m.data.value else pkg[4..4 + (|pkg| - 4 - len)];
      Some(Request(m.service, m.method_name, m.requestId, m.oneWay, m.timeout, data))
  }

  /** `data` goes round and round through `msg`. */
  ghost predicate Repeats(msg: Bytes, data: Bytes) {
    msg != [] ==> forall i :: 0 <= i < |data| ==> data[i] == msg[i % |msg|]
  }

  /** A multiple of n other than 0 is at least n away from 0. */
  lemma Multiple(k: int, n: int)
    requires 0 < n
    ensures (k >= 1 ==> k * n >= n) && (k <= -1 ==> k * n <= -n)
  {
    assert k >= 1 ==> (k - 1) * n >= 0;
    assert k <= -1 ==> (-1 - k) * n >= 0;
  }

  lemma ModStep(i: nat, n: nat)
    requires 0 < n
    ensures i < n ==> i % n == i
    ensures i >= n ==> i % n == (i - n) % n
  {
    if i >= n {
      var q, r, q', r' := i / n, i % n, (i - n) / n, (i - n) % n;
      assert i == q * n + r && i - n == q' * n + r';
      assert (q - q' - 1) * n == r' - r;
      Multiple(q - q' - 1, n);
    }
  }

  lemma {:induction false} ShiftedRepeats(msg: Bytes, data: Bytes, i: nat)
    requires msg != [] && i < |data| && (msg + data)[..|data|] == data
    ensures data[i] == msg[i % |msg|]
    decreases i
  {
    ModStep(i, |msg|);
    assert data[i] == (msg + data)[..|data|][i];
    if i >= |msg| {
      ShiftedRepeats(msg, data, i - |msg|);
    }
  }

  lemma ShiftedData(msg: Bytes, data: Bytes)
    ensures (msg + data)[..|data|] == data <==> Repeats(msg, data)
  {
    if (msg + data)[..|data|] == data {
      forall i | msg != [] && 0 <= i < |data|
        ensures data[i] == msg[i % |msg|]
      {
        ShiftedRepeats(msg, data, i);
      }
    }
    if Repeats(msg, data) {
      forall i | 0 <= i < |data|
        ensures (msg + data)[i] == data[i]
      {
        if msg != [] {
          ModStep(i, |msg|);
        }
      }
    }
  }

  lemma RequestOffsets(p: Proto<InnerReq>, r: Request)
    requires |p.ser(MessageOf(r))| < TWO32
    ensures var pkg, msg := RequestPackage(p, r), p.ser(MessageOf(r));
            && IsRequest(pkg) && U32(pkg[..4]) == |msg| && pkg[4..4 + |msg|] == msg
            && |pkg| - 4 - |msg| == (if HasBlob(r) then |r.data| else 0)
            && (HasBlob(r) ==> pkg[4..4 + |r.data|] == (msg + r.data)[..|r.data|])
  {
    var pkg, msg := RequestPackage(p, r), p.ser(MessageOf(r));
    U32OfBe32(|msg|);
    hide U32, Be32;
    assert pkg[..4] == Be32(|msg|);
    assert pkg[4..4 + |msg|] == msg;
    if HasBlob(r) {
      assert pkg == Be32(|msg|) + (msg + r.data);
    }
  }

  /**
   The service gets the request that was sent: names, id, kind, timeout and the length of the
   data always, and the data itself exactly when it is below 10 MiB or happens to repeat the
   message it follows.
   */
  lemma RequestCodec(p: Proto<InnerReq>, r: Request)
    requires Lawful(p) && |p.ser(MessageOf(r))| < TWO32
    ensures var pkg := RequestPackage(p, r);
            && IsRequest(pkg) && DecodeRequest(p, pkg).Some?
            && (var m := p.parse(pkg[4..4 + U32(pkg[..4])]);
                m.Some? && m.value.service == r.service && m.value.method_name == r.method_name && m.value.requestId == r.requestId
                && m.value.oneWay == r.oneWay && m.value.timeout == r.timeout && m.value.data.Some? == (0 < |r.data| < MAX_PROTOBUF_DATA))
            && var d := DecodeRequest(p, pkg).value;
               && d.(data := r.data) == r && |d.data| == |r.data|
               && (d.data == r.data <==> |r.data| < MAX_PROTOBUF_DATA || Repeats(p.ser(MessageOf(r)), r.data))
  {
    RequestOffsets(p, r);
    ShiftedData(p.ser(MessageOf(r)), r.data);
    hide RequestPackage, U32;
  }

  /** Whatever the names, some request of 10 MiB does not arrive. */
  lemma LargeRequestLost(p: Proto<InnerReq>, r: Request) returns (bad: Request)
    requires Lawful(p) && 0 < |p.ser(MessageOf(r).(data := None))| < TWO32
    ensures bad.(data := r.data) == r && |bad.data| == MAX_PROTOBUF_DATA
    ensures var pkg := RequestPackage(p, bad);
            IsRequest(pkg) && DecodeRequest(p, pkg).Some? && DecodeRequest(p, pkg).value.data != bad.data
  {
    var msg := p.ser(MessageOf(r).(data := None));
    var other: Octet := if msg[0] == 'a' then 'b' else 'a';
    bad := r.(data := seq(MAX_PROTOBUF_DATA, _ => other));
    RequestCodec(p, bad);
    assert 0 % |msg| == 0;
    hide RequestPackage, DecodeRequest;
  }
}
