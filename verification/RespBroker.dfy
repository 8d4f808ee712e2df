/** The response broker: it lays out one response in a buffer the service writes into. */
module RespBroker {
  import opened Octets
  import opened RpcDefs
  import opened Framing
  import opened Codec
  import opened HttpTypes
  import opened HttpLengths
  import opened HttpResponse

  /** The HTTP status that goes with an RPC status. */
  function HttpCode(rs: RpcStatus): (code: nat)
    ensures code == 404 <==> rs == SRV_NOTFOUND || rs == METHOD_NOTFOUND
    ensures code == 200 || code == 404
  {
    match rs
    case SRV_NOTFOUND => 404
    case METHOD_NOTFOUND => 404
    case _ => 200
  }

  ghost predicate Plain(s: seq<char>) { forall i :: 0 <= i < |s| ==> s[i] as int < 256 }

  lemma PlainConcat(a: seq<char>, b: seq<char>)
    requires Plain(a) && Plain(b)
    ensures Plain(a + b)
  {
  }

  lemma PlainText()
    ensures Plain("HTTP/1.1 ") && Plain(CRLF) && Plain("Content-Type" + ": " + "text/html" + CRLF)
    ensures Plain("Content-Length" + ": ") && Plain("Connection" + ": " + "close" + CRLF)
  {
  }

  lemma PlainNumber(n: nat)
    ensures Plain(ToDecimal(n))
  {
  }

  /** A printed header is plain bytes. */
  lemma HeaderOctets(status: nat, len: nat)
    ensures Plain(HttpHeader(status, len))
  {
    PlainText();
    PlainNumber(status);
    PlainNumber(len);
    hide Plain, ToDecimal;
    PlainConcat("HTTP/1.1 ", ToDecimal(status));
    PlainConcat("HTTP/1.1 " + ToDecimal(status), CRLF);
    PlainConcat("Content-Length" + ": ", ToDecimal(len));
    PlainConcat("Content-Length" + ": " + ToDecimal(len), CRLF);
    var a, b, c, d := StatusLine(status), "Content-Type" + ": " + "text/html" + CRLF,
      "Content-Length" + ": " + ToDecimal(len) + CRLF, "Connection" + ": " + "close" + CRLF;
    PlainConcat(a, b);
    PlainConcat(a + b, c);
    PlainConcat(a + b + c, d);
    PlainConcat(a + b + c + d, CRLF);
  }

  class RpcRespBroker {
    const fromHttp: bool
    const msg: Bytes           // the serialized message holding the request id
    var respPkg: array?<Octet>
    var userDataPos: nat
    var returnValPos: nat

    /** An RPC buffer holds its two lengths and the message, and room for the data and the status. */
    ghost predicate Valid()
      reads this, respPkg
    {
      && (respPkg == null ==> returnValPos == 0)
      && (respPkg != null && !fromHttp ==>
            && userDataPos == 8 + |msg| && userDataPos <= returnValPos && respPkg.Length == returnValPos + 4
            && respPkg[..userDataPos] == Be32(respPkg.Length - 4) + Be32(|msg|) + msg)
    }

    constructor (m: Bytes, http: bool)
      ensures Valid() && msg == m && fromHttp == http && respPkg == null
    {
      msg, fromHttp, respPkg, userDataPos, returnValPos := m, http, null, 0, 0;
    }

    /** Room for `len` bytes of user data; the result is where they go. */
    method AllocRespBuf(len: nat) returns (at: nat)
      requires Valid()
      modifies this
      ensures Valid() && respPkg != null && fresh(respPkg) && at + len <= respPkg.Length
      ensures !fromHttp ==> at == userDataPos && returnValPos == at + len
      ensures fromHttp ==> at == |HttpHeader(200, len)| && respPkg.Length == at + len && respPkg[..at] == HttpHeader(200, len)
    {
      if fromHttp {
        at := AllocHttpBuf(200, len);
        return;
      }
      hide Be32;
      var pkgSize := 4 + |msg| + len + 4;
      respPkg := new Octet[pkgSize + 4](_ => '0');
      Copy(respPkg, 0, Be32(pkgSize));
      Copy(respPkg, 4, Be32(|msg|));
      Copy(respPkg, 8, msg);
      userDataPos := 8 + |msg|;
      returnValPos := userDataPos + len;
      at := userDataPos;
    }

    /** The service fills the user data in, where AllocRespBuf said. */
    method WriteUserData(at: nat, data: Bytes)
      requires Valid() && respPkg != null
      requires if fromHttp then at + |data| == respPkg.Length else at == userDataPos && at + |data| == returnValPos
      modifies respPkg
      ensures Valid()
      ensures respPkg[..at] == old(respPkg[..at]) && respPkg[at..at + |data|] == data
    {
      Copy(respPkg, at, data);
      assert respPkg[..at] == respPkg[..at + |data|][..at];
      assert respPkg[at..at + |data|] == respPkg[..at + |data|][at..];
    }

    /** A header, and room for `len` bytes after it; the result is where they go. */
    method AllocHttpBuf(status: nat, len: nat) returns (at: nat)
      requires fromHttp
      modifies this
      ensures Valid() && respPkg != null && fresh(respPkg) && userDataPos == old(userDataPos)
      ensures at == |HttpHeader(status, len)| && respPkg.Length == at + len && respPkg[..at] == HttpHeader(status, len)
    {
      hide HttpHeader;
      HeaderOctets(status, len);
      var head: Bytes := HttpHeader(status, len);
      respPkg := new Octet[|head| + len](_ => '0');
      Copy(respPkg, 0, head);
      returnValPos := respPkg.Length;
      at := |head|;
    }

    /** A whole HTTP response. */
    method AllocHttpResp(status: nat, resp: Bytes)
      requires fromHttp
      modifies this
      ensures Valid() && respPkg != null && fresh(respPkg)
      ensures respPkg[..] == HttpPackage(status, resp)
    {
      hide HttpHeader;
      HeaderOctets(status, |resp|);
      var text: Bytes := HttpPackage(status, resp);
      respPkg := new Octet[|text|](_ => '0');
      Copy(respPkg, 0, text);
      assert respPkg[..] == respPkg[..|text|];
      returnValPos := respPkg.Length;
    }

    method PutStatus(rs: RpcStatus)
      requires Valid() && respPkg != null && !fromHttp
      modifies respPkg
      ensures Valid()
      ensures respPkg[..] == Frame(ResponsePackage(msg, old(respPkg[userDataPos..returnValPos]), rs))
    {
      hide Be32, StatusCode;
      ghost var user := respPkg[userDataPos..returnValPos];
      assert respPkg[..returnValPos] == respPkg[..userDataPos] + user;
      Copy(respPkg, returnValPos, Be32(StatusCode(rs)));
      assert respPkg[..] == respPkg[..respPkg.Length];
      assert respPkg[..userDataPos] == respPkg[..][..userDataPos];
    }

    /** The status goes after the user data of an RPC response. A broker nobody allocated allocates one byte. */
    method SetReturnVal(rs: RpcStatus)
      requires Valid()
      modifies this, respPkg
      ensures Valid() && respPkg != null
      ensures old(respPkg) != null ==> respPkg == old(respPkg) && userDataPos == old(userDataPos) && returnValPos == old(returnValPos)
      ensures old(respPkg) != null && fromHttp ==> respPkg[..] == old(respPkg[..])
      ensures old(respPkg) != null && !fromHttp ==>
                respPkg[..] == Frame(ResponsePackage(msg, old(respPkg[userDataPos..returnValPos]), rs))
      ensures old(respPkg) == null ==>
                exists b: Octet :: respPkg[..] == if fromHttp then HttpPackage(HttpCode(rs), [b]) else Frame(ResponsePackage(msg, [b], rs))
    {
      hide Frame, ResponsePackage, HttpHeader;
      if respPkg == null && returnValPos == 0 {
        if !fromHttp {
          var at := AllocRespBuf(1);
          assert respPkg[userDataPos..returnValPos] == [respPkg[at]];
        } else {
          var at := AllocHttpBuf(HttpCode(rs), 1);
          assert respPkg[..] == HttpPackage(HttpCode(rs), [respPkg[at]]);
        }
      }
      if !fromHttp {
        PutStatus(rs);
      }
    }
  }
}
