/** Chunked transfer coding (section 4.1 of RFC 7230): what is printed as chunks is parsed back. */
module HttpChunked {
  import opened HttpTypes
  import opened HttpSwitch
  import opened HttpInvariant
  import opened HttpCall
  import opened HttpSplit
  import opened HttpExecute
  import opened HttpMicro
  import opened HttpLengths

  // ------------------------------------------------------------------------ body bytes

  /** Body bytes fed one per call, short of the last one. */
  lemma {:induction false} BodyOnes(c: Call, s: seq<char>)
    requires Ready(c) && (c.core.state.ChunkData? || c.core.state.BodyIdentity?) && |s| < c.core.contentLength
    ensures Ones(c, s) == c.(core := c.core.(contentLength := c.core.contentLength - |s|),
                             log := c.log + TextEvents(BodyText, s))
    ensures Ready(Ones(c, s))
    decreases |s|
  {
    if s == [] {
      OnesEmpty(c);
    } else {
      var t, ch := s[..|s| - 1], s[|s| - 1];
      assert s == t + [ch];
      BodyOnes(c, t);
      OnesConcat(c, t, [ch]);
      var d := Ones(c, t);
      OnesOne(d, ch);
      BodyOne(d, ch);
      StepOk(d, ch);
      TextOne(BodyText, s, 0, |t|);
      assert s[0..|t|] == t && s[0..|t| + 1] == s;
      hide Step, CoreOk, Ones, TextEvents;
      assert (c.log + TextEvents(BodyText, t)) + [Body(ch)] == c.log + TextEvents(BodyText, s);
    }
  }

  /** All the bytes of a chunk. */
  lemma ChunkOnes(c: Call, s: seq<char>)
    requires Ready(c) && c.core.state.ChunkData? && |s| == c.core.contentLength
    ensures Ones(c, s) == c.(core := c.core.(contentLength := 0, state := ChunkDataAlmostDone),
                             log := c.log + TextEvents(BodyText, s))
    ensures Ready(Ones(c, s))
  {
    BulkLength(c.core);
    var t, ch := s[..|s| - 1], s[|s| - 1];
    assert s == t + [ch];
    BodyOnes(c, t);
    OnesConcat(c, t, [ch]);
    var d := Ones(c, t);
    OnesOne(d, ch);
    BodyLast(d, ch);
    StepOk(d, ch);
    TextOne(BodyText, s, 0, |t|);
    assert s[0..|t|] == t && s[0..|t| + 1] == s;
    hide Step, CoreOk, Ones, TextEvents;
    assert (c.log + TextEvents(BodyText, t)) + [Body(ch)] == c.log + TextEvents(BodyText, s);
  }

  // ---------------------------------------------------------------------- chunk sizes

  function HexDigit(d: nat): char
    requires d < 16
  {
    if d < 10 then ('0' as int + d) as char else ('a' as int + (d - 10)) as char
  }

  /** A number in minimal lower-case hexadecimal. */
  function ToHex(n: nat): (s: seq<char>)
    ensures s != [] && IsHexString(s)
  {
    if n < 16 then [HexDigit(n)] else ToHex(n / 16) + [HexDigit(n % 16)]
  }

  lemma {:induction false} HexSnoc(n: nat, s: seq<char>, ch: char)
    requires IsHexString(s) && IsHex(ch)
    ensures HexNumber(n, s + [ch]) == HexNumber(n, s) * 16 + HexValue(ch)
    decreases |s|
  {
    if s == [] {
      assert s + [ch] == [ch] && [ch][1..] == [];
    } else {
      assert (s + [ch])[1..] == s[1..] + [ch];
      HexSnoc(n * 16 + HexValue(s[0]), s[1..], ch);
    }
  }

  lemma {:induction false} HexRoundTrip(n: nat)
    ensures HexNumber(0, ToHex(n)) == n
  {
    assert HexValue(HexDigit(n % 16)) == n % 16;
    if n < 16 {
      assert [HexDigit(n)][1..] == [];
    } else {
      HexRoundTrip(n / 16);
      HexSnoc(0, ToHex(n / 16), HexDigit(n % 16));
    }
  }

  function Pow16(k: nat): nat { if k == 0 then 1 else 16 * Pow16(k - 1) }

  lemma {:induction false} HexLength(n: nat, k: nat)
    requires k >= 1 && n < Pow16(k)
    ensures |ToHex(n)| <= k
  {
    if n >= 16 {
      assert Pow16(k) == 16 * Pow16(k - 1);
      assert Pow16(0) == 1 && Pow16(1) == 16 * Pow16(0);
      HexLength(n / 16, k - 1);
    }
  }

  lemma HexShort(n: nat)
    requires n <= MAX_HEX
    ensures |ToHex(n)| <= 16
  {
    assert Pow16(4) == 65536;
    assert Pow16(8) == 65536 * 65536;
    assert Pow16(12) == 65536 * 65536 * 65536;
    assert Pow16(16) == TWO64;
    HexLength(n, 16);
  }

  // ----------------------------------------------------------------------- one chunk

  /** Size line of a chunk of n bytes. */
  function SizeLine(n: nat): seq<char> { ToHex(n) + CRLF }

  function ChunkBytes(data: seq<char>): seq<char> { SizeLine(|data|) + data + CRLF }

  lemma CrlfMicros(c: Core)
    requires CoreOk(c) && c.state.ChunkSize?
    ensures var d := if c.contentLength == 0 then c.(flags := c.flags.(trailing := true), state := HeaderFieldStart)
                     else c.(state := ChunkData);
            Micros(c, CRLF) == Moved(d, [ChunkHeader(c.contentLength)])
  {
    var d := c.(state := ChunkSizeAlmostDone);
    assert CoreOk(d) && CRLF[0] == CR && CRLF[1..] == [LF];
    CrlfSteps(c, d);
    MicrosOne(d, LF);
    hide MicroStep, CoreOk;
  }

  lemma CrlfSteps(c: Core, d: Core)
    requires CoreOk(c) && c.state.ChunkSize? && CoreOk(d) && d == c.(state := ChunkSizeAlmostDone)
    ensures MicroStep(c, CR) == Moved(d, [])
    ensures MicroStep(d, LF) ==
            Moved(if d.contentLength == 0 then d.(flags := d.flags.(trailing := true), state := HeaderFieldStart)
                  else d.(state := ChunkData), [ChunkHeader(d.contentLength)])
  {
    hide GuardOk, StartByte, ResponseLineByte, RequestLineByte, HeaderByte;
  }

  /** The size line, one byte per call. */
  lemma SizeLineOnes(c: Call, n: nat)
    requires Ready(c) && c.core.state.ChunkSizeStart? && n <= MAX_HEX
    ensures var r := Ones(c, SizeLine(n));
            && Ready(r) && r.log == c.log + [ChunkHeader(n)] && r.nread <= 40
            && r.core == (if n == 0 then c.core.(contentLength := n, flags := c.core.flags.(trailing := true), state := HeaderFieldStart)
                          else c.core.(contentLength := n, state := ChunkData))
  {
    HexShort(n);
    HexRoundTrip(n);
    ChunkSizeExact(c.core, ToHex(n));
    var d := c.core.(contentLength := n, state := ChunkSize);
    assert CoreOk(d);
    MicrosConcat(c.core, ToHex(n), CRLF);
    CrlfMicros(d);
    hide CoreOk, ToHex, Micros, Ones;
    assert [] + [ChunkHeader(n)] == [ChunkHeader(n)];
    OnesMicro(c, SizeLine(n));
  }

  lemma DataEndMicros(c: Core)
    requires CoreOk(c) && c.state.ChunkDataAlmostDone?
    ensures Micros(c, CRLF) == Moved(c.(state := ChunkSizeStart), [ChunkComplete])
  {
    var d := c.(state := ChunkDataDone);
    assert CoreOk(d) && CRLF[0] == CR && CRLF[1..] == [LF];
    DataEndSteps(c, d);
    MicrosOne(d, LF);
    hide MicroStep, CoreOk;
  }

  lemma DataEndSteps(c: Core, d: Core)
    requires CoreOk(c) && c.state.ChunkDataAlmostDone? && CoreOk(d) && d == c.(state := ChunkDataDone)
    ensures MicroStep(c, CR) == Moved(d, [])
    ensures MicroStep(d, LF) == Moved(d.(state := ChunkSizeStart), [ChunkComplete])
  {
    hide GuardOk, StartByte, ResponseLineByte, RequestLineByte, HeaderByte;
  }

  /** The callbacks of one chunk. */
  function ChunkEvents(data: seq<char>): seq<Event> {
    [ChunkHeader(|data|)] + TextEvents(BodyText, data) + [ChunkComplete]
  }

  /** One whole chunk, one byte per call, leads back to s_chunk_size_start. */
  lemma OneChunk(c: Call, data: seq<char>)
    requires Ready(c) && c.core.state.ChunkSizeStart? && 0 < |data| <= MAX_HEX
    ensures var r := Ones(c, ChunkBytes(data));
            && Ready(r) && r.core == c.core.(contentLength := 0) && r.log == c.log + ChunkEvents(data)
  {
    hide Ones, Micros, CoreOk, TextEvents, SizeLine;
    SizeLineOnes(c, |data|);
    var a := Ones(c, SizeLine(|data|));
    ChunkOnes(a, data);
    var b := Ones(a, data);
    OnesConcat(c, SizeLine(|data|), data);
    OnesConcat(c, SizeLine(|data|) + data, CRLF);
    DataEndMicros(b.core);
    OnesMicro(b, CRLF);
    var text := TextEvents(BodyText, data);
    assert c.log + [ChunkHeader(|data|)] + text + [ChunkComplete] == c.log + ChunkEvents(data);
  }

  // -------------------------------------------------------------------- whole bodies

  function Encode(chunks: seq<seq<char>>): seq<char> {
    if chunks == [] then SizeLine(0) + CRLF else ChunkBytes(chunks[0]) + Encode(chunks[1..])
  }

  function Decoded(chunks: seq<seq<char>>): seq<Event> {
    if chunks == [] then [ChunkHeader(0), ChunkComplete, MessageComplete]
    else ChunkEvents(chunks[0]) + Decoded(chunks[1..])
  }

  /** The parser after a chunked body: ready for the next message, or dead. */
  function AfterBody(c: Core): Core {
    var d := c.(contentLength := 0, flags := c.flags.(trailing := true));
    d.(state := NewMessage(d))
  }

  lemma LastMicros(c: Core)
    requires CoreOk(c) && c.state.HeaderFieldStart? && c.flags.trailing && !c.upgrade
    ensures Micros(c, CRLF) == Moved(c.(state := NewMessage(c)), [ChunkComplete, MessageComplete])
  {
    var d := c.(state := HeadersAlmostDone);
    assert CoreOk(d) && CRLF[0] == CR && CRLF[1..] == [LF];
    LastSteps(c, d);
    MicrosOne(d, LF);
    hide MicroStep, CoreOk, NewMessage;
  }

  lemma NewMessageState(c: Core)
    ensures IsBoundary(NewMessage(c)) && Text(NewMessage(c), LF) == []
  {
  }

  lemma LastSteps(c: Core, d: Core)
    requires CoreOk(c) && c.state.HeaderFieldStart? && c.flags.trailing && !c.upgrade
    requires CoreOk(d) && d == c.(state := HeadersAlmostDone)
    ensures MicroStep(c, CR) == Moved(d, [])
    ensures MicroStep(d, LF) == Moved(c.(state := NewMessage(c)), [ChunkComplete, MessageComplete])
  {
    assert NewMessage(c) == NewMessage(d) by { hide Switch, CoreOk; }
    hide NewMessage, Switch, CoreOk;
    NewMessageState(c);
    LastCr(c, d);
    LastLf(c, d);
  }

  lemma LastCr(c: Core, d: Core)
    requires CoreOk(c) && c.state.HeaderFieldStart? && d == c.(state := HeadersAlmostDone)
    ensures Switch(c, CR) == Go(d)
  {
    hide GuardOk, HeadersEndByte;
  }

  lemma LastLf(c: Core, d: Core)
    requires CoreOk(d) && c.flags.trailing && !c.upgrade && d == c.(state := HeadersAlmostDone)
    ensures Switch(d, LF) == Next(d.(state := NewMessage(d)), [ChunkComplete, MessageComplete], false, false)
  {
    hide GuardOk, StartByte, ResponseLineByte, RequestLineByte, BodyByte, NewMessage;
    assert [ChunkComplete] + [MessageComplete] == [ChunkComplete, MessageComplete];
  }

  lemma NoChunks(c: Call)
    requires Ready(c) && c.core.state.ChunkSizeStart? && !c.core.upgrade
    ensures var r := Ones(c, Encode([]));
            Ready(r) && r.core == AfterBody(c.core) && r.log == c.log + Decoded([])
  {
    SizeLineOnes(c, 0);
    var a := Ones(c, SizeLine(0));
    LastMicros(a.core);
    OnesMicro(a, CRLF);
    OnesConcat(c, SizeLine(0), CRLF);
    hide Ones, Micros, CoreOk;
    assert c.log + [ChunkHeader(0)] + [ChunkComplete, MessageComplete] == c.log + Decoded([]);
  }

  lemma {:induction false} ChunksOnes(c: Call, chunks: seq<seq<char>>)
    requires Ready(c) && c.core.state.ChunkSizeStart? && !c.core.upgrade
    requires forall i :: 0 <= i < |chunks| ==> 0 < |chunks[i]| <= MAX_HEX
    ensures var r := Ones(c, Encode(chunks));
            Ready(r) && r.core == AfterBody(c.core) && r.log == c.log + Decoded(chunks)
    decreases |chunks|
  {
    hide Ones, CallOk;
    if chunks == [] {
      NoChunks(c);
    } else {
      OneChunk(c, chunks[0]);
      var d := Ones(c, ChunkBytes(chunks[0]));
      ChunksOnes(d, chunks[1..]);
      OnesConcat(c, ChunkBytes(chunks[0]), Encode(chunks[1..]));
      assert c.log + ChunkEvents(chunks[0]) + Decoded(chunks[1..]) == c.log + Decoded(chunks);
    }
  }

  /**
   Chunked round trip: any list of nonempty chunks, printed and then cut into calls in
   any way, gives back each chunk's size, data and end in order, and one message_complete.
   */
  lemma ChunkedRoundTrip(c: Call, chunks: seq<seq<char>>, pieces: seq<seq<char>>)
    requires Ready(c) && c.core.state.ChunkSizeStart? && !c.core.upgrade
    requires forall i :: 0 <= i < |chunks| ==> 0 < |chunks[i]| <= MAX_HEX
    requires Flatten(pieces) == Encode(chunks) && forall i :: 0 <= i < |pieces| ==> pieces[i] != []
    ensures var r := FeedAll(c, pieces);
            Ready(r) && r.core == AfterBody(c.core) && r.log == c.log + Decoded(chunks)
  {
    ChunksOnes(c, chunks);
    AnySplit(c, pieces);
  }

  // ------------------------------------------------------------ what the callbacks hold

  function BodyOf(log: seq<Event>): seq<char> {
    if log == [] then []
    else (if log[0].Body? then [log[0].b] else []) + BodyOf(log[1..])
  }

  function CountOf(log: seq<Event>, e: Event): nat {
    if log == [] then 0 else (if log[0] == e then 1 else 0) + CountOf(log[1..], e)
  }

  lemma Assoc(a: seq<char>, b: seq<char>, c: seq<char>)
    ensures a + (b + c) == (a + b) + c
  {
  }

  lemma {:induction false} BodyOfConcat(a: seq<Event>, b: seq<Event>)
    ensures BodyOf(a + b) == BodyOf(a) + BodyOf(b)
  {
    if a == [] {
      assert a + b == b;
    } else {
      assert (a + b)[1..] == a[1..] + b && (a + b)[0] == a[0];
      BodyOfConcat(a[1..], b);
      Assoc(if a[0].Body? then [a[0].b] else [], BodyOf(a[1..]), BodyOf(b));
    }
  }

  lemma {:induction false} CountConcat(a: seq<Event>, b: seq<Event>, e: Event)
    ensures CountOf(a + b, e) == CountOf(a, e) + CountOf(b, e)
  {
    if a == [] {
      assert a + b == b;
    } else {
      assert (a + b)[1..] == a[1..] + b;
      CountConcat(a[1..], b, e);
    }
  }

  lemma {:induction false} BodyOfText(s: seq<char>)
    ensures BodyOf(TextEvents(BodyText, s)) == s
    ensures CountOf(TextEvents(BodyText, s), MessageComplete) == 0
    ensures CountOf(TextEvents(BodyText, s), ChunkComplete) == 0
  {
    if s != [] {
      assert TextEvents(BodyText, s)[1..] == TextEvents(BodyText, s[1..]);
      BodyOfText(s[1..]);
    }
  }

  /** The body text is the concatenation of the chunks; one end per chunk and one end of message. */
  lemma {:induction false} DecodedBody(chunks: seq<seq<char>>)
    ensures BodyOf(Decoded(chunks)) == Flatten(chunks)
    ensures CountOf(Decoded(chunks), MessageComplete) == 1
    ensures CountOf(Decoded(chunks), ChunkComplete) == |chunks| + 1
    decreases |chunks|
  {
    if chunks == [] {
      var t := [ChunkComplete, MessageComplete];
      assert Decoded([]) == [ChunkHeader(0)] + t && Decoded([])[1..] == t && t[1..] == [MessageComplete];
      assert [MessageComplete][1..] == [];
    } else {
      ChunkEventsHold(chunks[0]);
      DecodedBody(chunks[1..]);
      BodyOfConcat(ChunkEvents(chunks[0]), Decoded(chunks[1..]));
      CountConcat(ChunkEvents(chunks[0]), Decoded(chunks[1..]), MessageComplete);
      CountConcat(ChunkEvents(chunks[0]), Decoded(chunks[1..]), ChunkComplete);
    }
  }

  lemma ChunkEventsHold(data: seq<char>)
    ensures BodyOf(ChunkEvents(data)) == data
    ensures CountOf(ChunkEvents(data), MessageComplete) == 0 && CountOf(ChunkEvents(data), ChunkComplete) == 1
  {
    var head, text, end := [ChunkHeader(|data|)], TextEvents(BodyText, data), [ChunkComplete];
    BodyOfText(data);
    assert head[1..] == [] && end[1..] == [];
    hide TextEvents;
    BodyOfConcat(head + text, end);
    BodyOfConcat(head, text);
    CountConcat(head + text, end, MessageComplete);
    CountConcat(head, text, MessageComplete);
    CountConcat(head + text, end, ChunkComplete);
    CountConcat(head, text, ChunkComplete);
  }
}
