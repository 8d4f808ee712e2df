/**
 One call of http_parser_execute, seen byte by byte. This is the specification
 the buffer loop (module HttpExecute) is proved against.
 */
module HttpCall {
  import opened HttpTypes
  import opened HttpSwitch
  import opened HttpInvariant

  /**
   The parser during a call. `run` is the number of bytes the open inner loop
   (header name or header value) has consumed and not yet added to nread; `skip`
   says that the loop is past the byte it validated before searching for CR or LF;
   `exit` says that the call has returned early because of an upgrade.
   */
  datatype Call =
    | Failed(errno: Errno)
    | Live(core: Core, nread: nat, run: nat, skip: bool, exit: bool, log: seq<Event>)

  ghost predicate CallOk(c: Call) {
    c.Live? ==>
      && CoreOk(c.core)
      && c.nread <= MAX_HEADER_SIZE
      && (c.core.state.ChunkSizeStart? ==> c.nread == 0)
      && (c.run > 0 ==> c.core.state.HeaderField? || c.core.state.HeaderValue?)
      && (c.skip ==> c.run > 0 && c.core.state.HeaderValue? && c.core.hstate.HGeneral?)
  }

  /** A freshly initialised parser. */
  function Init(kind: Kind): (c: Call)
    ensures CallOk(c)
  {
    Live(InitCore(kind), 0, 0, false, false, [])
  }

  /** The text callback a byte belongs to, by the state it leads to. */
  function Text(s: State, ch: char): seq<Event> {
    if IsUrlState(s) then [Url(ch)]
    else if s.ResStatus? then [Status(ch)]
    else if s.HeaderField? then [Field(ch)]
    else if s.HeaderValue? then [Value(ch)]
    else []
  }

  /** COUNT_HEADER_SIZE(k) at the end of an inner loop, which also closes its run. */
  function Count(c: Call): (r: Call)
    requires CallOk(c)
    ensures CallOk(r)
  {
    if c.Failed? then c
    else if c.nread + c.run > MAX_HEADER_SIZE then Failed(HeaderOverflow)
    else c.(nread := c.nread + c.run, run := 0, skip := false)
  }

  /** COUNT_HEADER_SIZE(1) at the top of the main loop. */
  function Enter(c: Call): (r: Call)
    requires CallOk(c) && c.Live?
    ensures r.Live? ==> r == c.(nread := r.nread) && r.nread <= MAX_HEADER_SIZE
  {
    if c.run > 0 || !ParsingHeader(c.core.state) then c
    else if c.nread + 1 > MAX_HEADER_SIZE then Failed(HeaderOverflow)
    else c.(nread := c.nread + 1)
  }

  function FieldStep(c: Call, ch: char): Call
    requires c.Live? && CallOk(c) && c.core.state.HeaderField?
  {
    if IsToken(ch) then
      c.(core := FieldByte(c.core, ch), run := c.run + 1, log := c.log + [Field(ch)])
    else
      var d := Count(c);
      if d.Failed? then d
      else if ch == ':' then d.(core := d.core.(state := DiscardWs))
      else Failed(InvalidHeaderToken)
  }

  function ValueStep(c: Call, ch: char): Call
    requires c.Live? && CallOk(c) && c.core.state.HeaderValue?
  {
    if ch == CR then
      var d := Count(c);
      if d.Failed? then d else d.(core := d.core.(state := HeaderAlmostDone))
    else if ch == LF then
      var d := Count(c);
      if d.Failed? then d else d.(core := d.core.(state := HeaderValueLws))
    else if !c.core.lenient && !c.skip && !IsHeaderChar(ch) then Failed(InvalidHeaderToken)
    else
      match ValueByte(c.core, ch)
      case BadValue(e) => Failed(e)
      case ValueNext(d) =>
        c.(core := d, run := c.run + 1, skip := c.core.hstate.HGeneral?, log := c.log + [Value(ch)])
  }

  function SwitchStep(c: Call, ch: char): Call
    requires c.Live? && CoreOk(c.core) && !c.core.state.HeaderField? && !c.core.state.HeaderValue?
  {
    match Switch(c.core, ch)
    case Fail(e) => Failed(e)
    case Next(d, ev, reset, exit) =>
      Live(d, if reset then 0 else c.nread, 0, false, exit, c.log + ev + Text(d.state, ch))
  }

  /** One byte. */
  function Step(c: Call, ch: char): Call
    requires CallOk(c)
  {
    if c.Failed? || c.exit then c else
    var d := Enter(c);
    if d.Failed? then d
    else if d.core.state.HeaderField? then FieldStep(d, ch)
    else if d.core.state.HeaderValue? then ValueStep(d, ch)
    else SwitchStep(d, ch)
  }

  /** No assertion fails on the next byte either. */
  lemma StepOk(c: Call, ch: char)
    requires CallOk(c)
    ensures CallOk(Step(c, ch))
  {
    hide Switch, FieldByte, ValueByte, CoreOk, IsToken, IsHeaderChar;
    if c.Live? && !c.exit && Enter(c).Live? {
      var d := Enter(c);
      if d.core.state.HeaderField? {
        if IsToken(ch) {
          FieldByteOk(d.core, ch);
        } else {
          PlainOk(d.core, DiscardWs);
        }
      } else if d.core.state.HeaderValue? {
        ValueByteOk(d.core, ch);
        PlainOk(d.core, HeaderAlmostDone);
        PlainOk(d.core, HeaderValueLws);
      } else {
        SwitchOk(d.core, ch);
      }
    }
  }

  /** The first `n` bytes of a buffer. */
  ghost function Steps(c: Call, data: seq<char>, n: nat): (r: Call)
    requires CallOk(c) && n <= |data|
    ensures CallOk(r)
  {
    if n == 0 then c
    else
      var d := Steps(c, data, n - 1);
      StepOk(d, data[n - 1]);
      Step(d, data[n - 1])
  }

  /** End of input: a zero-length call. */
  function Eof(c: Call): (r: Call)
    requires CallOk(c)
    ensures CallOk(r)
  {
    if c.Failed? then c
    else if c.core.state.BodyIdentityEof? then c.(log := c.log + [MessageComplete])
    else if c.core.state.Dead? || c.core.state.StartReqOrRes? || c.core.state.StartRes? || c.core.state.StartReq?
    then c
    else Failed(InvalidEofState)
  }

  /** What a call starts from: its own locals are fresh. */
  function Begin(c: Call): (r: Call)
    requires CallOk(c)
    ensures CallOk(r)
  {
    if c.Failed? then c else c.(run := 0, skip := false, exit := false)
  }

  /** One whole call of http_parser_execute. */
  ghost function Feed(c: Call, data: seq<char>): (r: Call)
    requires CallOk(c)
    ensures CallOk(r)
  {
    if data == [] then Eof(Begin(c)) else Count(Steps(Begin(c), data, |data|))
  }

  /** A sequence of calls; the caller stops at the first error or upgrade. */
  ghost function FeedAll(c: Call, pieces: seq<seq<char>>): (r: Call)
    requires CallOk(c)
    ensures CallOk(r)
    decreases |pieces|
  {
    if pieces == [] || c.Failed? || c.exit then c else FeedAll(Feed(c, pieces[0]), pieces[1..])
  }
}
