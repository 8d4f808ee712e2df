/** The statuses and messages both ends of the RPC protocol share. */
module RpcDefs {
  import opened Options
  import opened Octets

  datatype RpcStatus =
    | SEND_OK | SEND_FAIL | REQ_TOO_LARGE | DISCONNECTED | SEND_TIMEOUT | CB_TIMEOUT
    | SRV_NOTFOUND | METHOD_NOTFOUND | SERVER_OK | SERVER_NONE | SERVER_FAIL | MALLOC_PKG_FAIL

  const STATUSES: seq<RpcStatus> :=
    [SEND_OK, SEND_FAIL, REQ_TOO_LARGE, DISCONNECTED, SEND_TIMEOUT, CB_TIMEOUT,
     SRV_NOTFOUND, METHOD_NOTFOUND, SERVER_OK, SERVER_NONE, SERVER_FAIL, MALLOC_PKG_FAIL]

  /** The number a status travels as: its place in the list. */
  function StatusCode(rs: RpcStatus): (n: nat)
    ensures n < |STATUSES| && STATUSES[n] == rs
  {
    match rs
    case SEND_OK => 0
    case SEND_FAIL => 1
    case REQ_TOO_LARGE => 2
    case DISCONNECTED => 3
    case SEND_TIMEOUT => 4
    case CB_TIMEOUT => 5
    case SRV_NOTFOUND => 6
    case METHOD_NOTFOUND => 7
    case SERVER_OK => 8
    case SERVER_NONE => 9
    case SERVER_FAIL => 10
    case MALLOC_PKG_FAIL => 11
  }

  /** static_cast<RpcStatus>: None for a number that names no status. */
  function StatusOf(n: nat): Option<RpcStatus> {
    if n < |STATUSES| then Some(STATUSES[n]) else None
  }

  datatype PkgIOStatus = FULL | PARTIAL | NODATA | FAIL

  const VERSION := 1
  const MAX_PROTOBUF_DATA: nat := 10 * 1024 * 1024

  datatype InnerReq = InnerReq(
    version: nat, service: string, method_name: string, requestId: string, oneWay: bool, timeout: nat, data: Option<Bytes>)

  datatype InnerResp = InnerResp(version: nat, requestId: string)

  /** The protobuf library, of which only this is used: parsing undoes serializing. */
  datatype Proto<!M> = Proto(ser: M -> Bytes, parse: Bytes -> Option<M>)

  ghost predicate Lawful<M(!new)>(p: Proto<M>) {
    forall m :: p.parse(p.ser(m)) == Some(m)
  }
}
