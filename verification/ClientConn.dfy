/**
 The client connection: reassembling response packages from whatever pieces the socket
 delivers, and sending a request frame piece by piece.
 */
module ClientConn {
  import opened Options
  import opened Octets
  import opened RpcDefs
  import opened Framing
  import opened Sockets
  import opened Codec

  /** Lay out a request frame in a buffer, which is four bytes longer than it needs to be. */
  method LayOut(p: Proto<InnerReq>, r: Request) returns (out: array<Octet>, len: nat)
    ensures fresh(out) && len + 4 == out.Length && out[..len] == Frame(RequestPackage(p, r))
  {
    hide Be32;
    var hasBlob := true;
    var data := None;
    if |r.data| > 0 && |r.data| < MAX_PROTOBUF_DATA {
      data := Some(r.data);
      hasBlob := false;
    }
    var msg := p.ser(InnerReq(VERSION, r.service, r.method_name, r.requestId, r.oneWay, r.timeout, data));
    var pkgLen := 4 + |msg|;
    if hasBlob {
      pkgLen := pkgLen + |r.data|;
    }
    out := new Octet[pkgLen + 8](_ => '0');
    Copy(out, 0, Be32(pkgLen));
    Copy(out, 4, Be32(|msg|));
    Copy(out, 8, msg);
    assert out[..8 + |msg|] == Be32(pkgLen) + Be32(|msg|) + msg;
    if hasBlob {
      Copy(out, 8 + |msg|, r.data);
    }
    len := pkgLen + 4;
    assert msg == p.ser(MessageOf(r)) && hasBlob == HasBlob(r);
  }

  class RpcClientConn {
    const sock: Socket
    var pkgSize: nat
    var leftLen: nat
    var rpk: array?<Octet>
    var connected: bool
    /** Every package received so far, empty ones included; Handed(frames) are those handed out. */
    ghost var frames: seq<Bytes>
    /** Every request package fully sent, and what went out of one that failed. */
    ghost var requests: seq<Bytes>
    ghost var torn: Bytes
    /** A signal has interrupted a length read, which then miscounts: the framing is lost. */
    ghost var interrupted: bool

    ghost predicate Shape()
      reads this
    {
      && pkgSize < TWO32
      && (pkgSize > 0 ==> rpk != null && rpk.Length == pkgSize && 0 < leftLen <= pkgSize)
    }

    /** The bytes of the frame being read. */
    ghost function Rest(): Bytes
      requires Shape()
      reads this, rpk
    {
      if pkgSize == 0 then [] else Started(pkgSize, rpk[..pkgSize - leftLen])
    }

    /** Every byte received is in a package handed out or in the frame being read. */
    ghost predicate Valid()
      reads this, sock, rpk
    {
      Shape() && Fits(frames) && sock.received == Encode(frames) + Rest()
    }

    /** What is on the wire is whole request frames, then at most the start of one. */
    ghost predicate Sent()
      reads this, sock
    {
      Fits(requests) && Incomplete(torn) && sock.written == Encode(requests) + torn
    }

    constructor (s: Socket)
      requires s.received == [] && s.written == []
      ensures Valid() && Sent() && sock == s && connected && pkgSize == 0
      ensures frames == [] && requests == [] && torn == [] && !interrupted
    {
      sock, pkgSize, leftLen, rpk, connected := s, 0, 0, null, true;
      frames, requests, torn, interrupted := [], [], [], false;
    }

    /**
     Receive a length: four bytes, in as many calls as it takes. An interrupted call counts as
     minus one byte: the next one overwrites the byte before, or, with none there, lies outside
     the four bytes, where this description ends.
     */
    method ReadPkgLen() returns (ok: bool, len: nat)
      modifies sock, this`interrupted
      ensures !connected ==> !ok && sock.received == old(sock.received) && sock.broken == old(sock.broken)
      ensures old(interrupted) ==> interrupted
      ensures len < TWO32 && old(sock.received) <= sock.received
      ensures ok && !interrupted ==> sock.received == old(sock.received) + Be32(len)
      ensures ok ==> |sock.received| >= |old(sock.received)| + 4
      ensures connected && !interrupted ==> sock.broken == (old(sock.broken) || !ok)
      ensures ok ==> sock.broken == old(sock.broken)
      ensures sock.written == old(sock.written)
    {
      hide U32, Be32;
      len := 0;
      if !connected {
        return false, 0;
      }
      var data := new Octet[4](_ => '0');
      var recved := 0;
      while recved < 4
        invariant 0 <= recved <= 4 && (old(interrupted) ==> interrupted)
        invariant !interrupted ==> sock.received == old(sock.received) + data[..recved]
        invariant old(sock.received) <= sock.received && |sock.received| >= |old(sock.received)| + recved
        invariant sock.broken == old(sock.broken) && sock.written == old(sock.written)
        decreases |sock.tape|, 4 - recved
      {
        var r := sock.RecvBlocking(data, recved, 4 - recved);
        match r
        case CLOSED => return false, 0;
        case ERROR => return false, 0;
        case EINTR =>
          interrupted := true;
          if recved == 0 {
            return false, 0;
          }
          recved := recved - 1;
        case Moved(n) => recved := recved + n;
      }
      len := U32(data[..]);
      ok := true;
      Be32OfU32(data[..]);
      assert data[..4] == data[..];
    }

    /** Receive what there is of the package, in one call that does not wait. */
    method ReadPkgData() returns (st: PkgIOStatus)
      requires Shape() && pkgSize > 0
      modifies this, sock, rpk
      ensures rpk == old(rpk) && connected == old(connected) && frames == old(frames) && requests == old(requests)
      ensures torn == old(torn) && interrupted == old(interrupted) && sock.written == old(sock.written)
      ensures !connected ==> st == FAIL && sock.received == old(sock.received) && sock.broken == old(sock.broken)
      ensures connected ==>
                var r := Result(old(sock.tape), Min(old(leftLen), |old(sock.incoming)|));
                var more := if r.Moved? then old(sock.incoming)[..r.n] else [];
                && sock.broken == (old(sock.broken) || st == FAIL)
                && sock.received == old(sock.received) + more
                && (st == FULL <==> r.Moved? && r.n == old(leftLen))
                && (st == PARTIAL ==> Shape() && pkgSize == old(pkgSize) && Rest() == old(Rest()) + more)
                && (st == FULL ==> pkgSize == 0 && leftLen == 0 && Frame(rpk[..]) == old(Rest()) + more)
      ensures st != NODATA
    {
      hide Be32, Encode, Started, Frame;
      if !connected {
        return FAIL;
      }
      ghost var at, input := pkgSize - leftLen, sock.incoming;
      ghost var got := rpk[..at];
      var r := sock.Recv(rpk, pkgSize - leftLen, leftLen);
      assert got + input[..0] == got && sock.received + [] == sock.received;
      assert !r.Moved? ==> rpk[..at] == got;
      assert Started(pkgSize, got) + [] == Started(pkgSize, got);
      match r
      case CLOSED => return FAIL;
      case ERROR => return FAIL;
      case EAGAIN => return PARTIAL;
      case EINTR => return PARTIAL;
      case Moved(n) =>
        StartedMore([], pkgSize, got, input[..n]);
        NoPrefix(Started(pkgSize, got), input[..n], Started(pkgSize, got + input[..n]));
        if n == leftLen {
          assert rpk[..pkgSize] == rpk[..];
          leftLen, pkgSize := 0, 0;
          return FULL;
        }
        leftLen := leftLen - n;
        return PARTIAL;
    }

    /**
     One call of getResponse: -1 exactly when the connection has gone; otherwise every byte
     received is accounted for, and the package handed out, if any, is the next one. All this
     as long as no length read is interrupted.
     */
    method GetResponse() returns (ok: bool, pkg: array?<Octet>)
      requires Shape() && (!interrupted ==> Valid()) && !sock.broken
      modifies this, sock, rpk
      ensures connected == old(connected) && requests == old(requests) && torn == old(torn) && sock.written == old(sock.written)
      ensures (old(interrupted) ==> interrupted) && (ok ==> Shape() && connected && !sock.broken)
      ensures old(pkgSize) > 0 ==> interrupted == old(interrupted)
      ensures !interrupted ==> ok == (connected && !sock.broken) && (ok ==> Valid())
      ensures ok && old(pkgSize) == 0 ==> old(sock.received) <= sock.received && |sock.received| >= |old(sock.received)| + 4
      ensures ok && old(pkgSize) > 0 ==>
                var r := Result(old(sock.tape), Min(old(leftLen), |old(sock.incoming)|));
                && sock.received == old(sock.received) + (if r.Moved? then old(sock.incoming)[..r.n] else [])
                && (pkg != null <==> r.Moved? && r.n == old(leftLen))
      ensures pkg != null ==> ok && pkg.Length > 0 && frames == old(frames) + [pkg[..]] && pkgSize == 0
      ensures ok && pkg == null ==> frames == old(frames) || (frames == old(frames) + [[]] && pkgSize == 0)
      ensures !ok ==> frames == old(frames)
      ensures Handed(frames) == Handed(old(frames)) + if pkg != null then [pkg[..]] else []
    {
      hide Handed, Be32, Encode, Frame, Started, Result, Min, Fits;
      if pkgSize == 0 {
        var empty;
        ok, empty := StartPkg();
        if !ok || empty {
          return ok, null;
        }
      }
      ghost var e, rest, before := Encode(frames), Rest(), sock.received;
      var st := ReadPkgData();
      if st == FAIL {
        return false, null;
      }
      ghost var more := sock.received[|before|..];
      assert sock.received == before + more;
      if st == PARTIAL {
        Regroup(e, rest, more);
        return true, null;
      }
      pkg := rpk;
      rpk := null;
      Regroup(e, rest, more);
      EncodeSnoc(frames, pkg[..]);
      HandedSnoc(frames, pkg[..]);
      FitsSnoc(frames, pkg[..]);
      frames := frames + [pkg[..]];
      return true, pkg;
    }

    /** The start of a package: its length, and a buffer unless it is empty. */
    method StartPkg() returns (ok: bool, empty: bool)
      requires Shape() && pkgSize == 0 && (!interrupted ==> Valid()) && !sock.broken
      modifies this, sock
      ensures connected == old(connected) && requests == old(requests) && torn == old(torn) && sock.written == old(sock.written)
      ensures (old(interrupted) ==> interrupted) && (ok ==> Shape() && connected && !sock.broken)
      ensures !interrupted ==> ok == (connected && !sock.broken) && (ok ==> Valid())
      ensures ok ==> old(sock.received) <= sock.received && |sock.received| >= |old(sock.received)| + 4
      ensures frames == if ok && empty then old(frames) + [[]] else old(frames)
      ensures Handed(frames) == Handed(old(frames))
      ensures ok ==> (empty <==> pkgSize == 0) && (!empty ==> rpk != null && fresh(rpk))
    {
      hide Handed, Be32, Encode, Frame, Started;
      empty := false;
      var len;
      ok, len := ReadPkgLen();
      if !ok {
        return;
      }
      if len == 0 {
        empty := true;
        EncodeSnoc(frames, []);
        HandedSnoc(frames, []);
        FrameOfNothing();
        FitsSnoc(frames, []);
        frames := frames + [[]];
        return;
      }
      rpk := new Octet[len](_ => '0');
      pkgSize, leftLen := len, len;
      StartedNothing(len, rpk[..0]);
    }

    /**
     Send a buffer, however many pieces that takes. Success means the whole buffer is on the
     wire; anything else means a proper prefix of it is. `clock(i)` is the time at the i-th look.
     */
    method SendData(data: Bytes, timeout: nat, clock: nat -> nat) returns (st: RpcStatus)
      requires data != [] && |data| < TWO32
      modifies this`connected, sock
      ensures st == SEND_OK || st == SEND_FAIL || st == SEND_TIMEOUT
      ensures st == SEND_OK ==> sock.written == old(sock.written) + data && connected == old(connected)
      ensures st != SEND_OK ==> exists k :: 0 <= k < |data| && sock.written == old(sock.written) + data[..k]
      ensures st == SEND_FAIL ==> !connected && sock.broken
      ensures st == SEND_TIMEOUT ==> connected == old(connected) && exists i :: clock(i) > clock(0) + timeout && timeout > 0
      ensures sock.received == old(sock.received)
    {
      var begin := clock(0);
      var sent, looks := 0, 0;
      while true
        invariant 0 <= sent < |data| && connected == old(connected)
        invariant sock.written == old(sock.written) + data[..sent] && sock.received == old(sock.received)
        decreases |sock.tape|, |data| - sent
      {
        looks := looks + 1;
        if timeout > 0 && clock(looks) > begin + timeout {
          return SEND_TIMEOUT;
        }
        var r := sock.Send(data[sent..]);
        match r
        case EAGAIN => continue;
        case EINTR => continue;
        case CLOSED => connected := false; return SEND_FAIL;
        case ERROR => connected := false; return SEND_FAIL;
        case Moved(n) =>
          assert data[..sent] + data[sent..][..n] == data[..sent + n];
          sent := sent + n;
          if sent == |data| {
            assert data[..sent] == data;
            return SEND_OK;
          }
      }
    }

    /**
     Lay out a request in one buffer and send it. Success puts exactly its frame on the wire;
     a failure or a timeout leaves only a part of it there. The bookkeeping of whole requests
     holds as long as no earlier send has left such a part: from then on frames are lost.
     */
    method SendReq(p: Proto<InnerReq>, r: Request, clock: nat -> nat) returns (st: RpcStatus)
      requires |RequestPackage(p, r)| + 8 < TWO32
      modifies this, sock
      ensures st in {SEND_OK, SEND_FAIL, SEND_TIMEOUT}
      ensures st == SEND_OK ==> sock.written == old(sock.written) + Frame(RequestPackage(p, r))
      ensures st != SEND_OK ==>
                exists k :: 0 <= k < |Frame(RequestPackage(p, r))| && sock.written == old(sock.written) + Frame(RequestPackage(p, r))[..k]
      ensures old(Sent() && torn == []) ==> Sent() && (st == SEND_OK ==> torn == [])
      ensures requests == if st == SEND_OK && old(torn) == [] then old(requests) + [RequestPackage(p, r)] else old(requests)
      ensures st == SEND_FAIL ==> !connected
      ensures pkgSize == old(pkgSize) && leftLen == old(leftLen) && rpk == old(rpk) && frames == old(frames) && interrupted == old(interrupted)
      ensures sock.received == old(sock.received)
    {
      hide Be32, Encode, Frame, RequestPackage, Incomplete, Fits;
      var out, len := LayOut(p, r);
      ghost var pkg := RequestPackage(p, r);
      st := SendData(out[..len], r.timeout, clock);
      if st == SEND_OK {
        if torn == [] {
          EncodeSnoc(requests, pkg);
          FitsSnoc(requests, pkg);
          NothingTorn(Encode(requests), Frame(pkg));
          requests := requests + [pkg];
        }
      } else {
        ghost var k :| 0 <= k < |Frame(pkg)| && sock.written == old(sock.written) + Frame(pkg)[..k];
        TornIncomplete(pkg, k);
        NothingTorn(Encode(requests), Frame(pkg)[..k]);
        torn := torn + Frame(pkg)[..k];
      }
    }
  }
}
