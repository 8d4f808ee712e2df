/** The 64-bit length arithmetic is exact, and never produces the "no length" sentinel. */
module HttpLengths {
  import opened HttpTypes
  import opened HttpSwitch
  import opened HttpInvariant
  import opened HttpCall
  import opened HttpMicro

  /** The largest lengths the overflow guards let through. */
  const MAX_DECIMAL: nat := 18446744073709551609
  const MAX_HEX: nat := 18446744073709551599

  predicate IsDecimal(s: seq<char>) { forall i :: 0 <= i < |s| ==> IsNum(s[i]) || s[i] == ' ' }

  predicate IsHexString(s: seq<char>) { forall i :: 0 <= i < |s| ==> IsHex(s[i]) }

  /** The number whose decimal digits are those of `n` followed by those of `s`, spaces skipped. */
  function Decimal(n: nat, s: seq<char>): nat
    requires IsDecimal(s)
    decreases |s|
  {
    if s == [] then n
    else if s[0] == ' ' then Decimal(n, s[1..])
    else Decimal(n * 10 + DigitValue(s[0]), s[1..])
  }

  function HexNumber(n: nat, s: seq<char>): nat
    requires IsHexString(s)
    decreases |s|
  {
    if s == [] then n else HexNumber(n * 16 + HexValue(s[0]), s[1..])
  }

  lemma {:induction false} DecimalGrows(n: nat, s: seq<char>)
    requires IsDecimal(s)
    ensures n <= Decimal(n, s)
    decreases |s|
  {
    if s != [] {
      DecimalGrows(if s[0] == ' ' then n else n * 10 + DigitValue(s[0]), s[1..]);
    }
  }

  lemma {:induction false} HexGrows(n: nat, s: seq<char>)
    requires IsHexString(s)
    ensures n <= HexNumber(n, s)
    decreases |s|
  {
    if s != [] {
      HexGrows(n * 16 + HexValue(s[0]), s[1..]);
    }
  }

  lemma Guards(n: nat, d: nat)
    ensures d <= 9 ==> ((NO_LENGTH - 10) / 10 < n <==> MAX_DECIMAL < n * 10 + d)
    ensures d <= 15 ==> ((NO_LENGTH - 16) / 16 < n <==> MAX_HEX < n * 16 + d)
    ensures MAX_DECIMAL < NO_LENGTH && MAX_HEX < NO_LENGTH
  {
  }

  function ValueEvents(s: seq<char>): seq<Event> { seq(|s|, i requires 0 <= i < |s| => Value(s[i])) }

  lemma DigitStep(c: Core, ch: char)
    requires CoreOk(c) && c.state.HeaderValue? && c.hstate.HContentLength? && (IsNum(ch) || ch == ' ')
    requires c.contentLength <= MAX_DECIMAL
    ensures var n := if ch == ' ' then c.contentLength else c.contentLength * 10 + DigitValue(ch);
            MicroStep(c, ch) == if n <= MAX_DECIMAL then Moved(c.(contentLength := n), [Value(ch)]) else Stuck
  {
    hide GuardOk;
    if IsNum(ch) {
      Guards(c.contentLength, DigitValue(ch));
    }
  }

  /**
   A Content-Length value is accepted exactly when the number it denotes is at most
   2^64 - 7, and then content_length is that number: it never wraps and is never the sentinel.
   */
  lemma {:induction false} ContentLengthExact(c: Core, s: seq<char>)
    requires CoreOk(c) && c.state.HeaderValue? && c.hstate.HContentLength? && c.contentLength <= MAX_DECIMAL
    requires IsDecimal(s)
    ensures var n := Decimal(c.contentLength, s);
            Micros(c, s) == if n <= MAX_DECIMAL then Moved(c.(contentLength := n), ValueEvents(s)) else Stuck
    decreases |s|
  {
    hide MicroStep, GuardOk;
    if s != [] {
      DigitStep(c, s[0]);
      MicroStepOk(c, s[0]);
      var n := if s[0] == ' ' then c.contentLength else c.contentLength * 10 + DigitValue(s[0]);
      if n <= MAX_DECIMAL {
        ContentLengthExact(c.(contentLength := n), s[1..]);
        assert [Value(s[0])] + ValueEvents(s[1..]) == ValueEvents(s);
      } else {
        DecimalGrows(n, s[1..]);
      }
    }
  }

  lemma HexStep(c: Core, ch: char)
    requires CoreOk(c) && c.state.ChunkSize? && IsHex(ch) && c.contentLength <= MAX_HEX
    ensures var n := c.contentLength * 16 + HexValue(ch);
            MicroStep(c, ch) == if n <= MAX_HEX then Moved(c.(contentLength := n), []) else Stuck
  {
    Guards(c.contentLength, HexValue(ch));
    assert ch != CR;
    hide GuardOk, StartByte, ResponseLineByte, RequestLineByte, HeaderByte;
  }

  lemma {:induction false} HexDigits(c: Core, s: seq<char>)
    requires CoreOk(c) && c.state.ChunkSize? && IsHexString(s) && c.contentLength <= MAX_HEX
    ensures var n := HexNumber(c.contentLength, s);
            Micros(c, s) == if n <= MAX_HEX then Moved(c.(contentLength := n), []) else Stuck
    decreases |s|
  {
    hide MicroStep, GuardOk;
    if s != [] {
      HexStep(c, s[0]);
      MicroStepOk(c, s[0]);
      var n := c.contentLength * 16 + HexValue(s[0]);
      if n <= MAX_HEX {
        HexDigits(c.(contentLength := n), s[1..]);
      } else {
        HexGrows(n, s[1..]);
      }
    }
  }

  lemma HexFirst(c: Core, ch: char)
    requires CoreOk(c) && c.state.ChunkSizeStart? && IsHex(ch)
    ensures MicroStep(c, ch) == Moved(c.(contentLength := HexValue(ch), state := ChunkSize), [])
  {
    hide GuardOk, StartByte, ResponseLineByte, RequestLineByte, HeaderByte;
  }

  /** A chunk size, likewise: accepted exactly when it is at most 2^64 - 17. */
  lemma ChunkSizeExact(c: Core, s: seq<char>)
    requires CoreOk(c) && c.state.ChunkSizeStart? && s != [] && IsHexString(s)
    ensures var n := HexNumber(0, s);
            Micros(c, s) == if n <= MAX_HEX then Moved(c.(contentLength := n, state := ChunkSize), []) else Stuck
  {
    hide MicroStep, GuardOk;
    HexFirst(c, s[0]);
    MicroStepOk(c, s[0]);
    HexDigits(c.(contentLength := HexValue(s[0]), state := ChunkSize), s[1..]);
  }
}
