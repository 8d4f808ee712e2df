/**
 A stream socket as its users see it. What the network does is a tape: each call takes the
 next entry, which says how much could be moved or why nothing was. A tape that has run out
 is a closed connection, so every run described here is finite, and every finite run is
 described by some tape.
 */
module Sockets {
  import opened Octets

  datatype Outcome = Ready(k: nat) | Again | Interrupted | Closed | Error

  datatype Moved = Moved(n: nat) | EAGAIN | EINTR | CLOSED | ERROR

  /** What a call does that could move at most `most` bytes. */
  function Result(tape: seq<Outcome>, most: nat): (r: Moved)
    ensures r.Moved? ==> 1 <= r.n <= most
  {
    if tape == [] then CLOSED
    else
      match tape[0]
      case Again => EAGAIN
      case Interrupted => EINTR
      case Closed => CLOSED
      case Error => ERROR
      case Ready(k) => if k == 0 || most == 0 then EAGAIN else Moved(if k <= most then k else most)
  }

  /** The first result that is not an interruption. */
  function Retried(tape: seq<Outcome>, most: nat): (r: Moved)
    ensures !r.EINTR? && (r.Moved? ==> 1 <= r.n <= most)
    decreases |tape|
  {
    var r := Result(tape, most);
    if r.EINTR? then Retried(tape[1..], most) else r
  }

  function Min(a: nat, b: nat): nat { if a <= b then a else b }

  class Socket {
    var incoming: Bytes         // sent by the peer, not yet received here
    var tape: seq<Outcome>
    ghost var received: Bytes   // everything received so far
    ghost var written: Bytes    // everything sent so far
    ghost var broken: bool      // a call has reported an error or a closed connection

    constructor (input: Bytes, network: seq<Outcome>)
      ensures incoming == input && tape == network && received == [] && written == [] && !broken
    {
      incoming, tape := input, network;
      received, written, broken := [], [], false;
    }

    /** recv() of at most `n` bytes into the buffer. */
    method Recv(buf: array<Octet>, at: nat, n: nat) returns (r: Moved)
      requires at + n <= buf.Length && n > 0
      modifies this, buf
      ensures tape == if old(tape) == [] then [] else old(tape)[1..]
      ensures r == Result(old(tape), Min(n, |old(incoming)|))
      ensures var k := if r.Moved? then r.n else 0;
              && buf[..at + k] == old(buf[..at]) + old(incoming)[..k]
              && incoming == old(incoming)[k..]
              && received == old(received) + old(incoming)[..k]
      ensures broken == (old(broken) || r.CLOSED? || r.ERROR?) && written == old(written)
    {
      if tape == [] {
        broken := true;
        return CLOSED;
      }
      var o := tape[0];
      tape := tape[1..];
      match o
      case Again => r := EAGAIN;
      case Interrupted => r := EINTR;
      case Closed => broken := true; r := CLOSED;
      case Error => broken := true; r := ERROR;
      case Ready(k) =>
        var m := if k <= n then k else n;
        m := if m <= |incoming| then m else |incoming|;
        if m == 0 {
          return EAGAIN;
        }
        for i := 0 to m
          invariant incoming == old(incoming) && received == old(received)
          invariant forall j :: 0 <= j < buf.Length ==>
                      buf[j] == if at <= j < at + i then incoming[j - at] else old(buf[j])
          invariant tape == old(tape)[1..] && broken == old(broken) && written == old(written)
        {
          buf[at + i] := incoming[i];
        }
        assert buf[..at + m] == old(buf[..at]) + incoming[..m];
        received := received + incoming[..m];
        incoming := incoming[m..];
        r := Moved(m);
    }

    /** recv() on a blocking socket: it waits until there is something to report. */
    method RecvBlocking(buf: array<Octet>, at: nat, n: nat) returns (r: Moved)
      requires at + n <= buf.Length && n > 0
      modifies this, buf
      ensures |tape| < |old(tape)| || r.CLOSED?
      ensures !r.EAGAIN? && (r.Moved? ==> 1 <= r.n <= n && r.n <= |old(incoming)|)
      ensures var k := if r.Moved? then r.n else 0;
              && buf[..at + k] == old(buf[..at]) + old(incoming)[..k]
              && incoming == old(incoming)[k..]
              && received == old(received) + old(incoming)[..k]
      ensures broken == (old(broken) || r.CLOSED? || r.ERROR?) && written == old(written)
    {
      r := Recv(buf, at, n);
      while r.EAGAIN?
        invariant |tape| < |old(tape)| || r.CLOSED?
        invariant r.Moved? ==> 1 <= r.n <= n && r.n <= |old(incoming)|
        invariant var k := if r.Moved? then r.n else 0;
                  && buf[..at + k] == old(buf[..at]) + old(incoming)[..k]
                  && incoming == old(incoming)[k..]
                  && received == old(received) + old(incoming)[..k]
        invariant broken == (old(broken) || r.CLOSED? || r.ERROR?) && written == old(written)
        decreases |tape|, if r.EAGAIN? then 1 else 0
      {
        r := Recv(buf, at, n);
      }
    }

    /** send() of the first bytes of those offered. */
    method Send(data: Bytes) returns (r: Moved)
      requires data != []
      modifies this
      ensures tape == if old(tape) == [] then [] else old(tape)[1..]
      ensures r == Result(old(tape), |data|)
      ensures written == old(written) + if r.Moved? then data[..r.n] else []
      ensures broken == (old(broken) || r.CLOSED? || r.ERROR?)
      ensures received == old(received) && incoming == old(incoming)
    {
      if tape == [] {
        broken := true;
        return CLOSED;
      }
      var o := tape[0];
      tape := tape[1..];
      match o
      case Again => r := EAGAIN;
      case Interrupted => r := EINTR;
      case Closed => broken := true; r := CLOSED;
      case Error => broken := true; r := ERROR;
      case Ready(k) =>
        var m := if k <= |data| then k else |data|;
        if m == 0 {
          return EAGAIN;
        }
        written := written + data[..m];
        r := Moved(m);
    }
  }
}
