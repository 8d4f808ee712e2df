/** The server's RPC connection: reassembling requests under edge-triggered, non-blocking reads. */
module RpcConn {
  import opened Octets
  import opened RpcDefs
  import opened Framing
  import opened Sockets

  class RpcServerRpcConn {
    const sock: Socket
    const maxReq: nat          // largest request accepted, in bytes
    var pkgSize: nat
    var leftLen: nat
    var rpk: array?<Octet>
    var connected: bool
    /** Every package received so far, empty ones included; Handed(frames) are those handed out. */
    ghost var frames: seq<Bytes>

    ghost predicate Shape()
      reads this
    {
      && pkgSize < TWO32 && pkgSize <= maxReq
      && (pkgSize > 0 ==> rpk != null && rpk.Length == pkgSize && 0 < leftLen <= pkgSize)
    }

    /** The bytes of the frame being read. */
    ghost function Rest(): Bytes
      requires Shape()
      reads this, rpk
    {
      if pkgSize == 0 then [] else Started(pkgSize, rpk[..pkgSize - leftLen])
    }

    /** Every byte received is in a package handed out or in the frame being read, and none is too large. */
    ghost predicate Valid()
      reads this, sock, rpk
    {
      && Shape() && Fits(frames) && sock.received == Encode(frames) + Rest()
      && forall i :: 0 <= i < |frames| ==> |frames[i]| <= maxReq
    }

    constructor (s: Socket, limit: nat)
      requires s.received == []
      ensures Valid() && sock == s && maxReq == limit && frames == [] && connected && pkgSize == 0
    {
      sock, maxReq, pkgSize, leftLen, rpk, connected, frames := s, limit, 0, 0, null, true, [];
    }

    /**
     Receive a length. With nothing to read it reports success and length 0; once a byte has
     arrived it does not stop before the fourth.
     */
    method ReadPkgLen() returns (ok: bool, len: nat)
      modifies sock
      ensures !connected ==> !ok && sock.received == old(sock.received) && sock.broken == old(sock.broken)
      ensures connected ==> sock.broken == (old(sock.broken) || !ok)
      ensures ok ==> len < TWO32
      ensures ok ==> (sock.received == old(sock.received) && len == 0) || sock.received == old(sock.received) + Be32(len)
      ensures old(sock.received) <= sock.received && sock.written == old(sock.written)
      ensures ok && Result(old(sock.tape), Min(4, |old(sock.incoming)|)).Moved? ==> sock.received == old(sock.received) + Be32(len)
    {
      hide U32, Be32;
      if !connected {
        return false, 0;
      }
      var data := new Octet[4](_ => '0');
      var got := 0;
      while true
        invariant 0 <= got < 4
        invariant sock.received == old(sock.received) + data[..got]
        invariant sock.broken == old(sock.broken) && sock.written == old(sock.written)
        invariant got == 0 ==> sock.tape == old(sock.tape) && sock.incoming == old(sock.incoming)
        decreases |sock.tape|
      {
        var r := sock.Recv(data, got, 4 - got);
        match r
        case CLOSED => return false, 0;
        case ERROR => return false, 0;
        case EAGAIN => if got == 0 { return true, 0; }
        case EINTR => if got == 0 { return true, 0; }
        case Moved(n) =>
          got := got + n;
          if got == 4 {
            Be32OfU32(data[..]);
            assert data[..4] == data[..];
            return true, U32(data[..]);
          }
      }
    }

    /** The recv() loop of readPkgData: an interrupted call is tried again. */
    method RecvRetrying(buf: array<Octet>, at: nat, n: nat) returns (r: Moved)
      requires at + n <= buf.Length && n > 0
      modifies sock, buf
      ensures r == Retried(old(sock.tape), Min(n, |old(sock.incoming)|))
      ensures var k := if r.Moved? then r.n else 0;
              && buf[..at + k] == old(buf[..at]) + old(sock.incoming)[..k]
              && sock.received == old(sock.received) + old(sock.incoming)[..k]
      ensures sock.broken == (old(sock.broken) || r.CLOSED? || r.ERROR?) && sock.written == old(sock.written)
    {
      r := EINTR;
      while r.EINTR?
        invariant r.Moved? ==> 1 <= r.n <= n && r.n <= |old(sock.incoming)|
        invariant Retried(old(sock.tape), Min(n, |old(sock.incoming)|)) ==
                  if r.EINTR? then Retried(sock.tape, Min(n, |sock.incoming|)) else r
        invariant r.EINTR? ==> sock.incoming == old(sock.incoming)
        invariant var k := if r.Moved? then r.n else 0;
                  && buf[..at + k] == old(buf[..at]) + old(sock.incoming)[..k]
                  && sock.received == old(sock.received) + old(sock.incoming)[..k]
        invariant sock.broken == (old(sock.broken) || r.CLOSED? || r.ERROR?) && sock.written == old(sock.written)
        decreases |sock.tape|, if r.EINTR? then 1 else 0
      {
        r := sock.Recv(buf, at, n);
      }
    }

    /** Receive what there is of the package. */
    method ReadPkgData() returns (st: PkgIOStatus)
      requires Valid() && pkgSize > 0
      modifies this, sock, rpk
      ensures rpk == old(rpk) && connected == old(connected) && frames == old(frames) && sock.written == old(sock.written)
      ensures !connected ==> st == FAIL && sock.broken == old(sock.broken)
      ensures connected ==> sock.broken == (old(sock.broken) || st == FAIL)
      ensures st != NODATA
      ensures st == PARTIAL ==> Valid() && pkgSize == old(pkgSize)
      ensures st == FULL ==> pkgSize == 0 && leftLen == 0 && sock.received == Encode(frames) + Frame(rpk[..])
      ensures old(sock.received) <= sock.received
      ensures connected ==>
                var r := Retried(old(sock.tape), Min(old(leftLen), |old(sock.incoming)|));
                && sock.received == old(sock.received) + (if r.Moved? then old(sock.incoming)[..r.n] else [])
                && (st == FULL <==> r.Moved? && r.n == old(leftLen))
    {
      hide Be32, Encode, Started, Frame, Fits;
      if !connected {
        return FAIL;
      }
      ghost var e, at, input := Encode(frames), pkgSize - leftLen, sock.incoming;
      ghost var got := rpk[..at];
      var r := RecvRetrying(rpk, pkgSize - leftLen, leftLen);
      assert got + input[..0] == got && sock.received + [] == sock.received;
      assert !r.Moved? ==> rpk[..at] == got;
      match r
      case CLOSED => return FAIL;
      case ERROR => return FAIL;
      case EAGAIN => return PARTIAL;
      case Moved(n) =>
        StartedMore(e, pkgSize, got, input[..n]);
        if n == leftLen {
          assert rpk[..pkgSize] == rpk[..];
          leftLen, pkgSize := 0, 0;
          return FULL;
        }
        leftLen := leftLen - n;
        return PARTIAL;
    }

    /**
     One call of getRequest: -1 exactly when the connection has gone or the announced size is
     over the limit; otherwise every byte received is accounted for, and the package handed
     out, if any, is the next one.
     */
    method GetRequest() returns (ok: bool, pkg: array?<Octet>)
      requires Valid() && !sock.broken
      modifies this, sock, rpk
      ensures connected == old(connected) && sock.written == old(sock.written)
      ensures sock.broken ==> !ok
      ensures ok ==> connected && Valid() && old(sock.received) <= sock.received
      ensures pkg != null ==> ok && pkg.Length > 0 && frames == old(frames) + [pkg[..]] && pkgSize == 0
      ensures ok && pkg == null ==> frames == old(frames) || (frames == old(frames) + [[]] && pkgSize == 0)
      ensures !ok ==> frames == old(frames)
      ensures Handed(frames) == Handed(old(frames)) + if pkg != null then [pkg[..]] else []
      ensures ok && old(pkgSize) == 0 && Result(old(sock.tape), Min(4, |old(sock.incoming)|)).Moved? ==>
                |sock.received| >= |old(sock.received)| + 4
      ensures ok && old(pkgSize) > 0 ==>
                var r := Retried(old(sock.tape), Min(old(leftLen), |old(sock.incoming)|));
                && sock.received == old(sock.received) + (if r.Moved? then old(sock.incoming)[..r.n] else [])
                && (pkg != null <==> r.Moved? && r.n == old(leftLen))
      ensures !ok && connected && !sock.broken ==>
                exists len :: maxReq < len < TWO32 && sock.received == Encode(frames) + Be32(len)
    {
      hide Handed, Be32, Encode, Retried, Result, Min, Frame, Started, Fits;
      if pkgSize == 0 {
        var len;
        ok, len := ReadPkgLen();
        if !ok {
          return false, null;
        }
        if len == 0 {
          if sock.received != old(sock.received) {
            EncodeSnoc(frames, []);
            HandedSnoc(frames, []);
            FrameOfNothing();
            FitsSnoc(frames, []);
            frames := frames + [[]];
          }
          return true, null;
        }
        if len > maxReq {
          return false, null;
        }
        rpk := new Octet[len](_ => '0');
        pkgSize, leftLen := len, len;
        StartedNothing(len, rpk[..0]);
      }
      var st := ReadPkgData();
      if st == FAIL {
        return false, null;
      }
      if st == PARTIAL {
        return true, null;
      }
      pkg := rpk;
      rpk := null;
      EncodeSnoc(frames, pkg[..]);
      HandedSnoc(frames, pkg[..]);
      FitsSnoc(frames, pkg[..]);
      frames := frames + [pkg[..]];
      return true, pkg;
    }
  }
}
