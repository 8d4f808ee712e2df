/**
 http_parser_execute: the buffer loop with its marks, its inner loops over header
 names and values, the search for CR and LF that skips header bytes, and the jumps
 over body bytes. Every case is proved against the byte-by-byte view of HttpCall.
 */
module HttpExecute {
  import opened Options
  import opened HttpTypes
  import opened HttpSwitch
  import opened HttpInvariant
  import opened HttpCall
  import opened HttpSplit

  // ------------------------------------------------------------------------- marks

  /** Where the text of each callback starts in the buffer; -1 is the null pointer. */
  datatype Marks = Marks(field: int, value: int, url: int, body: int, status: int)

  const NO_MARKS := Marks(-1, -1, -1, -1, -1)

  datatype TextKind = FieldText | ValueText | UrlText | BodyText | StatusText

  function TextEvent(k: TextKind, ch: char): Event {
    match k
    case FieldText => Field(ch)
    case ValueText => Value(ch)
    case UrlText => Url(ch)
    case BodyText => Body(ch)
    case StatusText => Status(ch)
  }

  /** The text callback of kind `k` for the string `s`. */
  function TextEvents(k: TextKind, s: seq<char>): (r: seq<Event>)
    ensures |r| == |s|
  {
    seq(|s|, i requires 0 <= i < |s| => TextEvent(k, s[i]))
  }

  /** CALLBACK_DATA for one mark when the loop stands at p. */
  function Flush(k: TextKind, data: seq<char>, mark: int, p: nat): seq<Event>
    requires mark <= p <= |data|
  {
    if mark < 0 then [] else TextEvents(k, data[mark..p])
  }

  predicate HoldsBody(s: State) {
    s.ChunkData? || s.ChunkDataAlmostDone? || s.BodyIdentity? || s.BodyIdentityEof?
  }

  /** Which marks are set in which state: never more than one. */
  predicate MarksOk(s: State, m: Marks, p: nat) {
    && m.field <= p && m.value <= p && m.url <= p && m.body <= p && m.status <= p
    && (m.field >= 0 <==> s.HeaderField?)
    && (m.value >= 0 <==> s.HeaderValue?)
    && (m.url >= 0 <==> IsUrlState(s))
    && (m.status >= 0 <==> s.ResStatus?)
    && (m.body >= 0 ==> HoldsBody(s))
  }

  /** The text not yet handed over: that of the one mark that is set. */
  function Pending(data: seq<char>, m: Marks, p: nat): seq<Event>
    requires p <= |data| && m.field <= p && m.value <= p && m.url <= p && m.body <= p && m.status <= p
  {
    if m.field >= 0 then TextEvents(FieldText, data[m.field..p])
    else if m.value >= 0 then TextEvents(ValueText, data[m.value..p])
    else if m.url >= 0 then TextEvents(UrlText, data[m.url..p])
    else if m.status >= 0 then TextEvents(StatusText, data[m.status..p])
    else Flush(BodyText, data, m.body, p)
  }

  /** The five data callbacks that end a call hand over exactly the pending text. */
  lemma PendingInSeries(s: State, data: seq<char>, m: Marks, p: nat)
    requires p <= |data| && MarksOk(s, m, p)
    ensures Pending(data, m, p) ==
            Flush(FieldText, data, m.field, p) + Flush(ValueText, data, m.value, p) + Flush(UrlText, data, m.url, p) +
            Flush(BodyText, data, m.body, p) + Flush(StatusText, data, m.status, p)
  {
    hide TextEvents;
  }

  /** At most one mark is set, so the pending text is that of the current state. */
  lemma PendingIs(s: State, data: seq<char>, m: Marks, p: nat)
    requires p <= |data| && MarksOk(s, m, p)
    ensures s.HeaderField? ==> Pending(data, m, p) == TextEvents(FieldText, data[m.field..p])
    ensures s.HeaderValue? ==> Pending(data, m, p) == TextEvents(ValueText, data[m.value..p])
    ensures IsUrlState(s) ==> Pending(data, m, p) == TextEvents(UrlText, data[m.url..p])
    ensures s.ResStatus? ==> Pending(data, m, p) == TextEvents(StatusText, data[m.status..p])
    ensures HoldsBody(s) ==> Pending(data, m, p) == Flush(BodyText, data, m.body, p)
    ensures !s.HeaderField? && !s.HeaderValue? && !IsUrlState(s) && !s.ResStatus? && !HoldsBody(s) ==>
              Pending(data, m, p) == []
  {
  }

  lemma TextGrows(k: TextKind, data: seq<char>, from: nat, p: nat, q: nat)
    requires from <= p <= q <= |data|
    ensures TextEvents(k, data[from..q]) == TextEvents(k, data[from..p]) + TextEvents(k, data[p..q])
  {
    assert data[from..q] == data[from..p] + data[p..q];
  }

  lemma TextOne(k: TextKind, data: seq<char>, from: nat, p: nat)
    requires from <= p < |data|
    ensures TextEvents(k, data[from..p + 1]) == TextEvents(k, data[from..p]) + [TextEvent(k, data[p])]
  {
    TextGrows(k, data, from, p, p + 1);
    assert data[p..p + 1] == [data[p]];
  }

  // --------------------------------------------------------------- the loop's state

  /** The parser's fields and the locals of http_parser_execute. */
  datatype Exec = Exec(core: Core, nread: nat, log: seq<Event>, marks: Marks, p: nat)

  /** `at` is what an error makes the call return; `told` is how far the callbacks run so far had got. */
  datatype Outcome =
    | Going(x: Exec)
    | Exited(x: Exec)
    | Error(errno: Errno, at: nat, told: nat, core: Core, log: seq<Event>)

  /** The loop stands at p and has done what the byte-by-byte view does with p bytes. */
  ghost predicate Rel(x: Exec, c: Call, data: seq<char>) {
    && CallOk(c) && c.Live? && !c.exit
    && x.p <= |data|
    && x.core == c.core
    && x.nread == c.nread + c.run <= MAX_HEADER_SIZE
    && (x.p < |data| ==> c.run == 0)
    && MarksOk(x.core.state, x.marks, x.p)
    && x.log + Pending(data, x.marks, x.p) == c.log
  }

  /** What one iteration of the main loop must establish. */
  ghost predicate Agrees(o: Outcome, from: nat, c0: Call, data: seq<char>)
    requires CallOk(c0)
  {
    match o
    case Going(x) => from < x.p <= |data| && Rel(x, Steps(c0, data, x.p), data)
    case Exited(x) =>
      && from < x.p <= |data|
      && Steps(c0, data, x.p) == Live(x.core, x.nread, 0, false, true, x.log)
      && Steps(c0, data, x.p - 1).Live? && !Steps(c0, data, x.p - 1).exit
    case Error(e, at, told, core, log) =>
      && Count(Steps(c0, data, |data|)) == Failed(e)
      && Breaks(e, at, told, core, log, c0, data)
  }

  /** Callbacks are only added. */
  predicate Grows(log: seq<Event>, o: Outcome) {
    match o
    case Going(x) => log <= x.log
    case Exited(x) => log <= x.log
    case Error(_, _, _, _, l) => log <= l
  }

  /** The text of one callback. */
  ghost predicate IsText(ev: seq<Event>) { exists k, s :: ev == TextEvents(k, s) }

  /** The buffer ends inside a header name or value, whose text has not been handed over. */
  ghost predicate EndsInside(core: Core, log: seq<Event>, c: Call) {
    && c.Live? && !c.exit && c.core == core
    && exists s :: c.log == log + TextEvents(FieldText, s) || c.log == log + TextEvents(ValueText, s)
  }

  /**
   An error. Inside the buffer it is returned at the first byte that the byte-by-byte view
   rejects; at its end it is a header overflow, and then no byte is rejected, unless the buffer
   alone is larger than the limit. The callbacks run are those of the bytes up to `told`, short
   of the text of the one that was still open.
   */
  ghost predicate Breaks(e: Errno, at: nat, told: nat, core: Core, log: seq<Event>, c0: Call, data: seq<char>)
    requires CallOk(c0)
  {
    && told <= at <= |data|
    && (at < |data| ==> told == at && Step(Steps(c0, data, at), data[at]) == Failed(e))
    && (at == |data| ==> e.HeaderOverflow? && (|data| <= MAX_HEADER_SIZE ==> EndsInside(core, log, Steps(c0, data, at))))
    && var c := Steps(c0, data, told);
       c.Live? && !c.exit && core.upgrade == c.core.upgrade && log <= c.log && IsText(c.log[|log|..])
  }

  /** A prefix of a log that lacks the text of one callback. */
  lemma LacksText(log: seq<Event>, k: TextKind, s: seq<char>, all: seq<Event>)
    requires all == log + TextEvents(k, s)
    ensures log <= all && IsText(all[|log|..])
  {
    assert all[|log|..] == TextEvents(k, s);
  }

  lemma LacksNothing(log: seq<Event>)
    ensures log <= log && IsText(log[|log|..])
  {
    assert log[|log|..] == TextEvents(UrlText, []);
  }

  lemma PendingIsText(data: seq<char>, m: Marks, p: nat)
    requires p <= |data| && m.field <= p && m.value <= p && m.url <= p && m.body <= p && m.status <= p
    ensures IsText(Pending(data, m, p))
  {
    if m.field < 0 && m.value < 0 && m.url < 0 && m.status < 0 && m.body < 0 {
      assert Pending(data, m, p) == TextEvents(UrlText, []);
    }
  }

  /** An error found at the byte where the iteration stands, or at the end of the buffer. */
  lemma BreaksHere(x: Exec, c0: Call, data: seq<char>, e: Errno, at: nat)
    requires CallOk(c0) && x.p < |data| && x.p <= at <= |data|
    requires var c := Steps(c0, data, x.p);
             c.Live? && !c.exit && x.core == c.core && MarksOk(x.core.state, x.marks, x.p) && x.log + Pending(data, x.marks, x.p) == c.log
    requires (at == x.p && Step(Steps(c0, data, x.p), data[x.p]) == Failed(e)) || (at == |data| > MAX_HEADER_SIZE && e.HeaderOverflow?)
    ensures forall core: Core :: core.upgrade == x.core.upgrade ==> Breaks(e, at, x.p, core, x.log, c0, data)
  {
    hide Step, CallOk, Steps, Pending, IsText, IsUrlState, HoldsBody;
    PendingIsText(data, x.marks, x.p);
    var c := Steps(c0, data, x.p);
    assert c.log[|x.log|..] == Pending(data, x.marks, x.p);
  }

  /** The header overflow found when the buffer ends inside a name or value. */
  lemma BreaksAtEnd(core: Core, log: seq<Event>, k: TextKind, s: seq<char>, c0: Call, data: seq<char>)
    requires CallOk(c0) && (k.FieldText? || k.ValueText?)
    requires var c := Steps(c0, data, |data|); c.Live? && !c.exit && c.core == core && c.log == log + TextEvents(k, s)
    ensures Breaks(HeaderOverflow, |data|, |data|, core, log, c0, data)
  {
    hide Step, CallOk, Steps, IsText, TextEvents;
    LacksText(log, k, s, log + TextEvents(k, s));
  }

  lemma {:induction false} Stays(c: Call, data: seq<char>, n: nat, m: nat)
    requires CallOk(c) && n <= m <= |data|
    requires Steps(c, data, n).Failed? || Steps(c, data, n).exit
    ensures Steps(c, data, m) == Steps(c, data, n)
    decreases m
  {
    hide CallOk, Enter, FieldStep, ValueStep, SwitchStep;
    if n < m {
      Stays(c, data, n, m - 1);
    }
  }

  /** An error on byte p is the error of the whole call. */
  lemma FailsAt(c: Call, data: seq<char>, p: nat, e: Errno)
    requires CallOk(c) && p < |data| && Step(Steps(c, data, p), data[p]) == Failed(e)
    ensures Count(Steps(c, data, |data|)) == Failed(e)
  {
    hide Step, CallOk;
    assert Steps(c, data, p + 1) == Failed(e);
    Stays(c, data, p + 1, |data|);
  }

  /** Which case of the switch a byte takes. */
  lemma StepIs(c: Call, ch: char)
    requires CallOk(c) && c.Live? && !c.exit && Enter(c).Live?
    ensures var d := Enter(c);
            && (d.core.state.HeaderField? ==> Step(c, ch) == FieldStep(d, ch))
            && (d.core.state.HeaderValue? ==> Step(c, ch) == ValueStep(d, ch))
            && (!d.core.state.HeaderField? && !d.core.state.HeaderValue? ==> Step(c, ch) == SwitchStep(d, ch))
  {
    hide CoreOk, FieldStep, ValueStep, SwitchStep;
  }

  /** The loop stands at p, the byte there has been counted, and no inner loop is open. */
  ghost predicate At(x: Exec, c0: Call, data: seq<char>)
    requires CallOk(c0)
  {
    && x.p < |data|
    && var c := Steps(c0, data, x.p);
    && c.Live?
    && Rel(x.(nread := c.nread), c, data)
    && Enter(c) == c.(nread := x.nread)
  }

  /** What the assertions in the code say, state by state. */
  lemma Assertions(c: Core)
    requires CoreOk(c)
    ensures c.state.HeaderField? ==> IsFieldHState(c.hstate)
    ensures c.state.HeaderValue? ==> IsValueHState(c.hstate)
    ensures c.state.BodyIdentity? || c.state.ChunkData? ==> 0 < c.contentLength < NO_LENGTH
    ensures IsChunkState(c.state) ==> c.flags.chunked
    ensures c.state.ChunkDataAlmostDone? ==> c.contentLength == 0
  {
  }

  lemma CountedOnce(x: Exec, c0: Call, data: seq<char>)
    requires CallOk(c0) && At(x, c0, data) && x.core.state.ChunkSizeStart?
    ensures x.nread == 1
  {
    hide Step, CoreOk, Steps, Pending, MarksOk;
  }

  // -------------------------------------------------------------------- header names

  /** The byte-by-byte view inside the inner loop that started at x.p. */
  ghost predicate InField(x: Exec, c0: Call, data: seq<char>, core: Core, p: nat)
    requires CallOk(c0) && x.p <= p <= |data| && 0 <= x.marks.field <= x.p && Steps(c0, data, p).Live?
  {
    var cur := if p == x.p then Enter(Steps(c0, data, p)) else Steps(c0, data, p);
    && core.state.HeaderField? && CallOk(cur)
    && cur == Live(core, x.nread, p - x.p, false, false, x.log + TextEvents(FieldText, data[x.marks.field..p]))
  }

  lemma FieldAdvance(x: Exec, c0: Call, data: seq<char>, core: Core, p: nat)
    requires CallOk(c0) && x.p <= p < |data| && 0 <= x.marks.field <= x.p
    requires Steps(c0, data, p).Live? && !Steps(c0, data, p).exit && InField(x, c0, data, core, p)
    ensures var cur := Live(core, x.nread, p - x.p, false, false, x.log + TextEvents(FieldText, data[x.marks.field..p]));
            && CallOk(cur) && Steps(c0, data, p + 1) == FieldStep(cur, data[p])
    ensures IsToken(data[p]) ==> InField(x, c0, data, FieldByte(core, data[p]), p + 1)
  {
    hide CoreOk, Step, IsToken, FieldByte, ParsingHeader;
    StepIs(Steps(c0, data, p), data[p]);
    TextOne(FieldText, data, x.marks.field, p);
    if IsToken(data[p]) {
      FieldByteOk(core, data[p]);
    }
  }

  /** The inner loop of s_header_field: where it stops and what it recognised. */
  method ScanField(x: Exec, data: seq<char>, ghost c0: Call) returns (core: Core, p: nat)
    requires CallOk(c0) && At(x, c0, data) && x.core.state.HeaderField?
    ensures x.p <= p <= |data| && (p < |data| ==> !IsToken(data[p]))
    ensures Steps(c0, data, p).Live? && !Steps(c0, data, p).exit
    ensures InField(x, c0, data, core, p)
  {
    hide CoreOk, Step, IsToken, FieldByte, FieldStep;
    p, core := x.p, x.core;
    PendingIs(x.core.state, data, x.marks, x.p);
    while p < |data| && IsToken(data[p])
      invariant x.p <= p <= |data|
      invariant Steps(c0, data, p).Live? && !Steps(c0, data, p).exit
      invariant InField(x, c0, data, core, p)
    {
      FieldAdvance(x, c0, data, core, p);
      Assertions(core);
      assert IsFieldHState(core.hstate);   // "Unknown header_state"
      core := FieldByte(core, data[p]);
      p := p + 1;
    }
  }

  lemma FieldOverflowsAtEnd(x: Exec, data: seq<char>, c0: Call, core: Core)
    requires CallOk(c0) && At(x, c0, data) && x.core.state.HeaderField?
    requires Steps(c0, data, |data|).Live? && !Steps(c0, data, |data|).exit && InField(x, c0, data, core, |data|)
    ensures Breaks(HeaderOverflow, |data|, |data|, core, x.log, c0, data)
  {
    hide CoreOk, Step, Steps, TextEvents, Breaks, Enter, Pending;
    BreaksAtEnd(core, x.log, FieldText, data[x.marks.field..|data|], c0, data);
  }

  method HeaderFieldCase(x: Exec, data: seq<char>, ghost c0: Call) returns (o: Outcome)
    requires CallOk(c0) && At(x, c0, data) && x.core.state.HeaderField?
    ensures Agrees(o, x.p, c0, data) && Grows(x.log, o)
  {
    hide CoreOk, Step, IsToken, FieldByte, InField, TextEvents, Pending;
    var core, p := ScanField(x, data, c0);
    var nread := x.nread + (p - x.p);
    if p == |data| {
      FieldStays(x, data, c0, core);
      if nread > MAX_HEADER_SIZE {
        FieldOverflowsAtEnd(x, data, c0, core);
        return Error(HeaderOverflow, p, p, core, x.log);
      }
      return Going(Exec(core, nread, x.log, x.marks, p));
    }
    FieldEnds(x, data, c0, core, p);
    if nread > MAX_HEADER_SIZE {
      return Error(HeaderOverflow, p, p, core, x.log);
    }
    if data[p] != ':' {
      return Error(InvalidHeaderToken, p, p, core, x.log);
    }
    var text := TextEvents(FieldText, data[x.marks.field..p]);
    return Going(Exec(core.(state := DiscardWs), nread, x.log + text, x.marks.(field := -1), p + 1));
  }

  /** The buffer ends inside the name. */
  lemma FieldStays(x: Exec, data: seq<char>, c0: Call, core: Core)
    requires CallOk(c0) && At(x, c0, data) && x.core.state.HeaderField?
    requires Steps(c0, data, |data|).Live? && !Steps(c0, data, |data|).exit && InField(x, c0, data, core, |data|)
    ensures var nread := x.nread + (|data| - x.p);
            if nread > MAX_HEADER_SIZE then Count(Steps(c0, data, |data|)) == Failed(HeaderOverflow)
            else Rel(Exec(core, nread, x.log, x.marks, |data|), Steps(c0, data, |data|), data)
  {
    hide CoreOk, Step, TextEvents;
    PendingIs(core.state, data, x.marks, |data|);
    hide Pending;
  }

  /** The byte after the name: the name is handed over, or the call fails on it. */
  lemma FieldEnds(x: Exec, data: seq<char>, c0: Call, core: Core, p: nat)
    requires CallOk(c0) && At(x, c0, data) && x.core.state.HeaderField? && x.p <= p < |data| && !IsToken(data[p])
    requires Steps(c0, data, p).Live? && !Steps(c0, data, p).exit && InField(x, c0, data, core, p)
    ensures var nread := x.nread + (p - x.p);
            var text := TextEvents(FieldText, data[x.marks.field..p]);
            var e := if nread > MAX_HEADER_SIZE then HeaderOverflow else InvalidHeaderToken;
            if nread > MAX_HEADER_SIZE || data[p] != ':' then
              Count(Steps(c0, data, |data|)) == Failed(e) && Breaks(e, p, p, core, x.log, c0, data)
            else
              Rel(Exec(core.(state := DiscardWs), nread, x.log + text, x.marks.(field := -1), p + 1), Steps(c0, data, p + 1), data)
  {
    hide CoreOk, Step, IsToken, FieldByte, TextEvents, Breaks;
    FieldAdvance(x, c0, data, core, p);
    var e := if x.nread + (p - x.p) > MAX_HEADER_SIZE then HeaderOverflow else InvalidHeaderToken;
    if x.nread + (p - x.p) > MAX_HEADER_SIZE || data[p] != ':' {
      FailsAt(c0, data, p, e);
      BreaksInField(x, c0, data, core, p, e);
    } else {
      hide Steps, Pending;
      PendingIs(DiscardWs, data, x.marks.(field := -1), p + 1);
    }
  }

  lemma BreaksInField(x: Exec, c0: Call, data: seq<char>, core: Core, p: nat, e: Errno)
    requires CallOk(c0) && x.p <= p < |data| && 0 <= x.marks.field <= x.p
    requires Steps(c0, data, p).Live? && !Steps(c0, data, p).exit && InField(x, c0, data, core, p)
    requires Step(Steps(c0, data, p), data[p]) == Failed(e)
    ensures Breaks(e, p, p, core, x.log, c0, data)
  {
    hide Step, CoreOk, Steps, TextEvents, IsText, ParsingHeader;
    LacksText(x.log, FieldText, data[x.marks.field..p], x.log + TextEvents(FieldText, data[x.marks.field..p]));
  }

  // ------------------------------------------------------------------- header values

  /** memchr: the first occurrence of `ch` among the `limit` bytes from `from`, or -1. */
  method Memchr(data: seq<char>, from: nat, ch: char, limit: nat) returns (r: int)
    requires from + limit <= |data|
    ensures r == -1 || from <= r < from + limit
    ensures r >= 0 ==> data[r] == ch
    ensures forall i :: from <= i < (if r >= 0 then r else from + limit) ==> data[i] != ch
  {
    var i := from;
    while i < from + limit
      invariant from <= i <= from + limit
      invariant forall j :: from <= j < i ==> data[j] != ch
    {
      if data[i] == ch {
        return i;
      }
      i := i + 1;
    }
    return -1;
  }

  predicate NoNewline(data: seq<char>, from: nat, to: nat)
    requires to <= |data|
  {
    forall i :: from <= i < to ==> !IsNewline(data[i])
  }

  /** The search of the h_general case: the next CR or LF within the header limit, or the end. */
  method FindLineEnd(data: seq<char>, p: nat) returns (q: nat)
    requires p < |data| && !IsNewline(data[p])
    ensures p < q <= |data|
    ensures q < |data| ==> IsNewline(data[q]) && q < p + MAX_HEADER_SIZE
    ensures NoNewline(data, p, if q < |data| || |data| - p <= MAX_HEADER_SIZE then q else p + MAX_HEADER_SIZE)
  {
    var limit := if |data| - p < MAX_HEADER_SIZE then |data| - p else MAX_HEADER_SIZE;
    var cr := Memchr(data, p, CR, limit);
    var lf := Memchr(data, p, LF, limit);
    if cr >= 0 {
      q := if lf >= 0 && cr >= lf then lf else cr;
    } else {
      q := if lf >= 0 then lf else |data|;
    }
  }

  ghost predicate InValue(x: Exec, c0: Call, data: seq<char>, core: Core, p: nat, skip: bool)
    requires CallOk(c0) && x.p <= p <= |data| && 0 <= x.marks.value <= x.p && Steps(c0, data, p).Live?
  {
    var cur := if p == x.p then Enter(Steps(c0, data, p)) else Steps(c0, data, p);
    && core.state.HeaderValue? && CallOk(cur)
    && cur == Live(core, x.nread, p - x.p, skip, false, x.log + TextEvents(ValueText, data[x.marks.value..p]))
  }

  lemma ValueAdvance(x: Exec, c0: Call, data: seq<char>, core: Core, p: nat, skip: bool)
    requires CallOk(c0) && x.p <= p < |data| && 0 <= x.marks.value <= x.p
    requires Steps(c0, data, p).Live? && !Steps(c0, data, p).exit && InValue(x, c0, data, core, p, skip)
    ensures var cur := Live(core, x.nread, p - x.p, skip, false, x.log + TextEvents(ValueText, data[x.marks.value..p]));
            && CallOk(cur) && Steps(c0, data, p + 1) == ValueStep(cur, data[p])
    ensures !IsNewline(data[p]) && Steps(c0, data, p + 1).Live? ==>
              && ValueByte(core, data[p]).ValueNext?
              && InValue(x, c0, data, ValueByte(core, data[p]).core, p + 1, core.hstate.HGeneral?)
  {
    hide CoreOk, Step, ValueByte, ParsingHeader, IsHeaderChar;
    StepIs(Steps(c0, data, p), data[p]);
    TextOne(ValueText, data, x.marks.value, p);
    ValueByteOk(core, data[p]);
  }

  /** Skipped bytes are what the byte-by-byte view consumes without looking. */
  lemma {:induction false} SkipRun(x: Exec, c0: Call, data: seq<char>, core: Core, p: nat, q: nat)
    requires CallOk(c0) && x.p < p <= q <= |data| && 0 <= x.marks.value <= x.p
    requires Steps(c0, data, p).Live? && !Steps(c0, data, p).exit && core.hstate.HGeneral?
    requires InValue(x, c0, data, core, p, true) && NoNewline(data, p, q)
    ensures Steps(c0, data, q).Live? && !Steps(c0, data, q).exit && InValue(x, c0, data, core, q, true)
    decreases q - p
  {
    hide CoreOk, Step, IsHeaderChar;
    if p < q {
      ValueAdvance(x, c0, data, core, p, true);
      assert ValueByte(core, data[p]) == ValueNext(core);
      SkipRun(x, c0, data, core, p + 1, q);
    }
  }

  /** A header value longer than the limit is an overflow, wherever it ends. */
  lemma {:induction false} Overrun(x: Exec, c0: Call, data: seq<char>, core: Core, p: nat)
    requires CallOk(c0) && x.p < p <= |data| && 0 <= x.marks.value <= x.p && x.nread > 0
    requires Steps(c0, data, p).Live? && !Steps(c0, data, p).exit && core.hstate.HGeneral?
    requires InValue(x, c0, data, core, p, true) && p - x.p >= MAX_HEADER_SIZE
    ensures Count(Steps(c0, data, |data|)) == Failed(HeaderOverflow)
    decreases |data| - p
  {
    hide CoreOk, Step, IsHeaderChar;
    if p < |data| {
      ValueAdvance(x, c0, data, core, p, true);
      if IsNewline(data[p]) {
        assert Steps(c0, data, p + 1) == Failed(HeaderOverflow);
        Stays(c0, data, p + 1, |data|);
      } else {
        assert ValueByte(core, data[p]) == ValueNext(core);
        Overrun(x, c0, data, core, p + 1);
      }
    }
  }

  /** The bytes behind the one looked at are skipped. */
  lemma SkipTo(x: Exec, c0: Call, data: seq<char>, core: Core, p: nat, q: nat)
    requires CallOk(c0) && x.p <= p < q <= |data| && 0 <= x.marks.value <= x.p
    requires Steps(c0, data, p + 1).Live? && !Steps(c0, data, p + 1).exit && core.hstate.HGeneral?
    requires InValue(x, c0, data, core, p + 1, true) && NoNewline(data, p, q)
    ensures Steps(c0, data, q).Live? && !Steps(c0, data, q).exit && InValue(x, c0, data, core, q, true)
  {
    hide CoreOk, Step, InValue;
    SkipRun(x, c0, data, core, p + 1, q);
  }

  lemma Overlong(x: Exec, c0: Call, data: seq<char>, core: Core, p: nat)
    requires CallOk(c0) && x.p <= p && p + MAX_HEADER_SIZE < |data| && 0 <= x.marks.value <= x.p && x.nread > 0
    requires Steps(c0, data, p + 1).Live? && !Steps(c0, data, p + 1).exit && core.hstate.HGeneral?
    requires InValue(x, c0, data, core, p + 1, true) && NoNewline(data, p, p + MAX_HEADER_SIZE)
    ensures Count(Steps(c0, data, |data|)) == Failed(HeaderOverflow)
  {
    hide CoreOk, Step, InValue;
    SkipTo(x, c0, data, core, p, p + MAX_HEADER_SIZE);
    Overrun(x, c0, data, core, p + MAX_HEADER_SIZE);
  }

  datatype Scan = Stopped(core: Core, p: nat) | Bad(errno: Errno, at: nat, was: Core)

  /** What the inner loop of s_header_value leaves: a line end, the end of the buffer, or
      the end of the buffer after skipping more bytes than a header block may have. */
  ghost predicate Scanned(x: Exec, r: Scan, skip: bool, c0: Call, data: seq<char>)
    requires CallOk(c0) && 0 <= x.marks.value <= x.p
  {
    match r
    case Bad(e, at, core) =>
      && at < |data| && Count(Steps(c0, data, |data|)) == Failed(e)
      && Breaks(e, at, at, core, x.log, c0, data)
    case Stopped(core, p) =>
      && x.p <= p <= |data|
      && (p < |data| ==> IsNewline(data[p]))
      && core.state.HeaderValue? && core.upgrade == x.core.upgrade
      && (|| (Steps(c0, data, p).Live? && !Steps(c0, data, p).exit && InValue(x, c0, data, core, p, skip))
          || (p == |data| > MAX_HEADER_SIZE && x.nread + (p - x.p) > MAX_HEADER_SIZE
              && Count(Steps(c0, data, |data|)) == Failed(HeaderOverflow)))
  }

  lemma BreaksInValue(x: Exec, c0: Call, data: seq<char>, core: Core, p: nat, skip: bool, e: Errno)
    requires CallOk(c0) && x.p <= p < |data| && 0 <= x.marks.value <= x.p
    requires Steps(c0, data, p).Live? && !Steps(c0, data, p).exit && InValue(x, c0, data, core, p, skip)
    requires Step(Steps(c0, data, p), data[p]) == Failed(e)
    ensures Breaks(e, p, p, core, x.log, c0, data)
    ensures Breaks(e, p, p, core, x.log + TextEvents(ValueText, data[x.marks.value..p]), c0, data)
  {
    hide Step, CoreOk, Steps, TextEvents, IsText, ParsingHeader;
    var text := TextEvents(ValueText, data[x.marks.value..p]);
    LacksText(x.log, ValueText, data[x.marks.value..p], x.log + text);
    LacksNothing(x.log + text);
  }

  lemma KeepsUpgrade(c: Core, ch: char)
    requires CoreOk(c) && c.state.HeaderValue?
    ensures ValueByte(c, ch).ValueNext? ==> ValueByte(c, ch).core.upgrade == c.upgrade
  {
    hide CoreOk, Lower;
  }

  method ScanValue(x: Exec, data: seq<char>, ghost c0: Call) returns (r: Scan, ghost skip: bool)
    requires CallOk(c0) && At(x, c0, data) && x.core.state.HeaderValue?
    ensures Scanned(x, r, skip, c0, data)
  {
    hide CoreOk, Step, IsHeaderChar, ValueByte, TextEvents, NoNewline;
    var p, core := x.p, x.core;
    skip := false;
    PendingIs(x.core.state, data, x.marks, x.p);
    while p < |data| && !IsNewline(data[p])
      invariant x.p <= p <= |data|
      invariant Steps(c0, data, p).Live? && !Steps(c0, data, p).exit
      invariant InValue(x, c0, data, core, p, skip) && core.upgrade == x.core.upgrade
      invariant skip ==> p == |data| || IsNewline(data[p])
    {
      ghost var next := Steps(c0, data, p + 1);
      ValueAdvance(x, c0, data, core, p, skip);
      KeepsUpgrade(core, data[p]);
      if !core.lenient && !IsHeaderChar(data[p]) {
        FailsAt(c0, data, p, InvalidHeaderToken);
        BreaksInValue(x, c0, data, core, p, skip, InvalidHeaderToken);
        return Bad(InvalidHeaderToken, p, core), skip;
      }
      var v := ValueByte(core, data[p]);
      if v.BadValue? {
        FailsAt(c0, data, p, v.errno);
        BreaksInValue(x, c0, data, core, p, skip, v.errno);
        return Bad(v.errno, p, core), skip;
      }
      Assertions(core);
      assert !core.hstate.HConnection? && !core.hstate.HTransferEncoding?;   // "Shouldn't get here."
      skip := core.hstate.HGeneral?;
      if core.hstate.HGeneral? {
        assert v == ValueNext(core) by { GeneralByte(core, data[p]); }
        var q := FindLineEnd(data, p);
        if q == |data| && |data| - p > MAX_HEADER_SIZE {
          Overlong(x, c0, data, core, p);
          return Stopped(core, q), skip;
        }
        SkipTo(x, c0, data, core, p, q);
        p := q;
      } else {
        core := v.core;
        p := p + 1;
      }
    }
    return Stopped(core, p), skip;
  }

  lemma GeneralByte(c: Core, ch: char)
    requires CoreOk(c) && c.state.HeaderValue? && c.hstate.HGeneral?
    ensures ValueByte(c, ch) == ValueNext(c)
  {
  }

  lemma ValueOverflowsAtEnd(x: Exec, data: seq<char>, c0: Call, core: Core, skip: bool)
    requires CallOk(c0) && At(x, c0, data) && x.core.state.HeaderValue? && core.upgrade == x.core.upgrade
    requires |data| <= MAX_HEADER_SIZE ==>
               Steps(c0, data, |data|).Live? && !Steps(c0, data, |data|).exit && InValue(x, c0, data, core, |data|, skip)
    ensures Breaks(HeaderOverflow, |data|, if |data| > MAX_HEADER_SIZE then x.p else |data|, core, x.log, c0, data)
  {
    hide CoreOk, Step, Steps, ValueByte, IsHeaderChar, TextEvents, Breaks, Enter, Pending;
    if |data| > MAX_HEADER_SIZE {
      BreaksHere(x, c0, data, HeaderOverflow, |data|);
    } else {
      BreaksAtEnd(core, x.log, ValueText, data[x.marks.value..|data|], c0, data);
    }
  }

  method HeaderValueCase(x: Exec, data: seq<char>, ghost c0: Call) returns (o: Outcome)
    requires CallOk(c0) && At(x, c0, data) && x.core.state.HeaderValue?
    ensures Agrees(o, x.p, c0, data) && Grows(x.log, o)
  {
    hide CoreOk, Step, ValueByte, IsHeaderChar, TextEvents, Pending, InValue;
    var r; ghost var skip;
    r, skip := ScanValue(x, data, c0);
    if r.Bad? {
      return Error(r.errno, r.at, r.at, r.was, x.log);
    }
    var core, p := r.core, r.p;
    var nread := x.nread + (p - x.p);
    if nread > MAX_HEADER_SIZE {
      if p < |data| {
        ValueOverflows(x, data, c0, core, p, skip);
        var text := if data[p] == CR then TextEvents(ValueText, data[x.marks.value..p]) else [];
        assert x.log + [] == x.log;
        return Error(HeaderOverflow, p, p, core, x.log + text);
      }
      ValueStays(x, data, c0, core, skip);
      ValueOverflowsAtEnd(x, data, c0, core, skip);
      return Error(HeaderOverflow, p, if |data| > MAX_HEADER_SIZE then x.p else p, core, x.log);
    }
    if p == |data| {
      ValueStays(x, data, c0, core, skip);
      return Going(Exec(core, nread, x.log, x.marks, p));
    }
    ValueEnds(x, data, c0, core, p, skip);
    var text := TextEvents(ValueText, data[x.marks.value..p]);
    var y := Exec(core.(state := if data[p] == CR then HeaderAlmostDone else HeaderValueLws),
                  nread, x.log + text, x.marks.(value := -1), p + 1);
    return Going(y);
  }

  lemma ValueOverflows(x: Exec, data: seq<char>, c0: Call, core: Core, p: nat, skip: bool)
    requires CallOk(c0) && At(x, c0, data) && x.core.state.HeaderValue? && x.p <= p < |data| && IsNewline(data[p])
    requires Steps(c0, data, p).Live? && !Steps(c0, data, p).exit && InValue(x, c0, data, core, p, skip)
    requires x.nread + (p - x.p) > MAX_HEADER_SIZE
    ensures Count(Steps(c0, data, |data|)) == Failed(HeaderOverflow)
    ensures Breaks(HeaderOverflow, p, p, core, x.log, c0, data)
    ensures Breaks(HeaderOverflow, p, p, core, x.log + TextEvents(ValueText, data[x.marks.value..p]), c0, data)
  {
    hide CoreOk, Step, ValueByte, IsHeaderChar, TextEvents, Breaks;
    ValueAdvance(x, c0, data, core, p, skip);
    FailsAt(c0, data, p, HeaderOverflow);
    BreaksInValue(x, c0, data, core, p, skip, HeaderOverflow);
  }

  /** The buffer ends inside the value. */
  lemma ValueStays(x: Exec, data: seq<char>, c0: Call, core: Core, skip: bool)
    requires CallOk(c0) && At(x, c0, data) && x.core.state.HeaderValue? && core.state.HeaderValue?
    ensures (Steps(c0, data, |data|).Live? && !Steps(c0, data, |data|).exit && InValue(x, c0, data, core, |data|, skip)) ==>
              var nread := x.nread + (|data| - x.p);
              if nread > MAX_HEADER_SIZE then Count(Steps(c0, data, |data|)) == Failed(HeaderOverflow)
              else Rel(Exec(core, nread, x.log, x.marks, |data|), Steps(c0, data, |data|), data)
  {
    hide CoreOk, Step, ValueByte, IsHeaderChar, TextEvents;
    PendingIs(core.state, data, x.marks, |data|);
    hide Pending;
  }

  /** The line end after a value: the text is handed over. */
  lemma ValueEnds(x: Exec, data: seq<char>, c0: Call, core: Core, p: nat, skip: bool)
    requires CallOk(c0) && At(x, c0, data) && x.core.state.HeaderValue? && x.p <= p < |data| && IsNewline(data[p])
    requires Steps(c0, data, p).Live? && !Steps(c0, data, p).exit && InValue(x, c0, data, core, p, skip)
    requires x.nread + (p - x.p) <= MAX_HEADER_SIZE
    ensures var y := Exec(core.(state := if data[p] == CR then HeaderAlmostDone else HeaderValueLws),
                          x.nread + (p - x.p), x.log + TextEvents(ValueText, data[x.marks.value..p]), x.marks.(value := -1), p + 1);
            Rel(y, Steps(c0, data, p + 1), data)
  {
    hide CoreOk, Step, ValueByte, IsHeaderChar, TextEvents;
    ValueAdvance(x, c0, data, core, p, skip);
    hide Steps, Pending;
    var m := x.marks.(value := -1);
    PendingIs(if data[p] == CR then HeaderAlmostDone else HeaderValueLws, data, m, p + 1);
  }

  // ---------------------------------------------------------------------------- body

  predicate IsBulk(s: State) { s.ChunkData? || s.BodyIdentity? || s.BodyIdentityEof? }

  /** Body bytes short of the last one only move the count down. */
  lemma {:induction false} BodyRun(c: Call, data: seq<char>, p: nat, q: nat)
    requires CallOk(c) && p <= q <= |data| && Steps(c, data, p).Live? && !Steps(c, data, p).exit
    requires var d := Steps(c, data, p); IsBulk(d.core.state)
    requires var d := Steps(c, data, p); d.core.state.BodyIdentityEof? || q - p < d.core.contentLength
    ensures var d := Steps(c, data, p);
            Steps(c, data, q) ==
            d.(core := if d.core.state.BodyIdentityEof? then d.core
                       else d.core.(contentLength := d.core.contentLength - (q - p)),
               log := d.log + TextEvents(BodyText, data[p..q]))
    decreases q
  {
    hide CallOk, Step;
    if p < q {
      BodyRun(c, data, p, q - 1);
      BodyOne(Steps(c, data, q - 1), data[q - 1]);
      TextOne(BodyText, data, p, q - 1);
    }
  }

  lemma BodyOne(c: Call, ch: char)
    requires CallOk(c) && c.Live? && !c.exit && IsBulk(c.core.state)
    requires c.core.state.BodyIdentityEof? || 1 < c.core.contentLength
    ensures Step(c, ch) == c.(core := if c.core.state.BodyIdentityEof? then c.core
                                      else c.core.(contentLength := c.core.contentLength - 1),
                              log := c.log + [Body(ch)])
  {
    hide StartByte, ResponseLineByte, RequestLineByte, HeaderByte, ChunkDigit, GuardOk;
  }

  /** The last byte of a chunk, and of a body of known length. */
  lemma BodyLast(c: Call, ch: char)
    requires CallOk(c) && c.Live? && !c.exit && c.core.contentLength == 1
    ensures c.core.state.ChunkData? ==>
              Step(c, ch) == c.(core := c.core.(contentLength := 0, state := ChunkDataAlmostDone), run := 0,
                                skip := false, log := c.log + [Body(ch)])
    ensures c.core.state.BodyIdentity? ==>
              var d := c.core.(contentLength := 0);
              Step(c, ch) == Live(d.(state := NewMessage(d)), c.nread, 0, false, d.upgrade,
                                  c.log + [Body(ch), BodyFinal, MessageComplete])
  {
    hide StartByte, ResponseLineByte, RequestLineByte, HeaderByte, ChunkDigit, GuardOk;
    if c.core.state.BodyIdentity? {
      var d := c.core.(contentLength := 0);
      assert Switch(c.core, ch) == Next(d.(state := NewMessage(d)), [Body(ch), BodyFinal] + [MessageComplete], false, d.upgrade);
      assert [Body(ch), BodyFinal] + [MessageComplete] == [Body(ch), BodyFinal, MessageComplete];
      assert !IsUrlState(NewMessage(d));
    }
  }

  /** The jump over to_read body bytes. */
  lemma BodyJump(c: Call, data: seq<char>, p: nat, q: nat)
    requires CallOk(c) && p < q <= |data| && Steps(c, data, p).Live? && !Steps(c, data, p).exit
    requires var d := Steps(c, data, p).core;
             d.state.ChunkData? || d.state.BodyIdentity?
    requires q - p <= Steps(c, data, p).core.contentLength
    ensures var d := Steps(c, data, p);
            var e := d.core.(contentLength := d.core.contentLength - (q - p));
            var text := TextEvents(BodyText, data[p..q]);
            && (e.contentLength > 0 ==> Steps(c, data, q) == d.(core := e, log := d.log + text))
            && (e.contentLength == 0 && e.state.ChunkData? ==>
                  Steps(c, data, q) == d.(core := e.(state := ChunkDataAlmostDone), log := d.log + text))
            && (e.contentLength == 0 && e.state.BodyIdentity? ==>
                  && Steps(c, data, q) == Live(e.(state := NewMessage(e)), d.nread, 0, false, e.upgrade,
                                               d.log + text + [BodyFinal, MessageComplete])
                  && Steps(c, data, q - 1).Live? && !Steps(c, data, q - 1).exit)
  {
    hide Step, CoreOk;
    var d := Steps(c, data, p);
    if q - p < d.core.contentLength {
      BodyRun(c, data, p, q);
    } else {
      BodyRun(c, data, p, q - 1);
      var u := Steps(c, data, q - 1);
      BodyLast(u, data[q - 1]);
      TextOne(BodyText, data, p, q - 1);
      var text := TextEvents(BodyText, data[p..q]);
      assert u.log + [Body(data[q - 1]), BodyFinal, MessageComplete] == d.log + text + [BodyFinal, MessageComplete];
      assert u.log + [Body(data[q - 1])] == d.log + text;
    }
  }

  /** s_body_identity_eof: the rest of the buffer is body. */
  method BodyEofCase(x: Exec, data: seq<char>, ghost c0: Call) returns (o: Outcome)
    requires CallOk(c0) && At(x, c0, data) && x.core.state.BodyIdentityEof?
    ensures Agrees(o, x.p, c0, data) && Grows(x.log, o)
  {
    hide Step, CoreOk;
    var m := if x.marks.body < 0 then x.marks.(body := x.p) else x.marks;
    BodyTextIs(x, m, |data|, Steps(c0, data, x.p).log, data);
    BodyRun(c0, data, x.p, |data|);
    PendingIs(x.core.state, data, m, |data|);
    hide TextEvents, Pending;
    return Going(Exec(x.core, x.nread, x.log, m, |data|));
  }

  /** s_chunk_data and s_body_identity: jump to the end of the body or of the buffer. */
  method BodyCase(x: Exec, data: seq<char>, ghost c0: Call) returns (o: Outcome)
    requires CallOk(c0) && At(x, c0, data) && (x.core.state.ChunkData? || x.core.state.BodyIdentity?)
    ensures Agrees(o, x.p, c0, data) && Grows(x.log, o)
  {
    hide Step, CoreOk, TextEvents, Pending, Steps, MarksOk;
    var m := if x.marks.body < 0 then x.marks.(body := x.p) else x.marks;
    Assertions(x.core);
    assert x.core.contentLength != 0 && x.core.contentLength != NO_LENGTH;
    assert x.core.state.ChunkData? ==> x.core.flags.chunked;
    var toRead := if x.core.contentLength < |data| - x.p then x.core.contentLength else |data| - x.p;
    var q := x.p + toRead;
    var core := x.core.(contentLength := x.core.contentLength - toRead);
    if core.contentLength == 0 && core.state.BodyIdentity? {
      o := BodyEnd(x, core, m, q, data, c0);
    } else {
      var d := if core.contentLength == 0 then core.(state := ChunkDataAlmostDone) else core;
      BodyJump(c0, data, x.p, q);
      BodyRel(x, d, m, q, c0, data);
      o := Going(Exec(d, x.nread, x.log, m, q));
    }
  }

  lemma BodyRel(x: Exec, d: Core, m: Marks, q: nat, c0: Call, data: seq<char>)
    requires CallOk(c0) && At(x, c0, data) && HoldsBody(x.core.state) && HoldsBody(d.state) && x.p < q <= |data|
    requires m == if x.marks.body < 0 then x.marks.(body := x.p) else x.marks
    requires var c := Steps(c0, data, x.p);
             Steps(c0, data, q) == c.(core := d, log := c.log + TextEvents(BodyText, data[x.p..q]))
    ensures Rel(Exec(d, x.nread, x.log, m, q), Steps(c0, data, q), data)
  {
    BodyTextIs(x, m, q, Steps(c0, data, x.p).log, data);
    hide Step, CoreOk, TextEvents, Steps;
    PendingIs(d.state, data, m, q);
    hide Pending;
  }

  /** The text from the mark to q is what was pending and what the jump adds. */
  lemma BodyTextIs(x: Exec, m: Marks, q: nat, log: seq<Event>, data: seq<char>)
    requires x.p < q <= |data| && HoldsBody(x.core.state) && MarksOk(x.core.state, x.marks, x.p)
    requires m == (if x.marks.body < 0 then x.marks.(body := x.p) else x.marks)
    requires x.log + Pending(data, x.marks, x.p) == log
    ensures x.log + TextEvents(BodyText, data[m.body..q]) == log + TextEvents(BodyText, data[x.p..q])
  {
    PendingIs(x.core.state, data, x.marks, x.p);
    hide TextEvents, Pending, MarksOk, HoldsBody, IsUrlState;
    Extend(x.log, log, data, x.marks.body, m.body, x.p, q);
  }

  lemma Extend(log: seq<Event>, all: seq<Event>, data: seq<char>, prior: int, mark: nat, p: nat, q: nat)
    requires mark <= p < q <= |data| && (prior == mark || (prior < 0 && mark == p))
    requires log + Flush(BodyText, data, prior, p) == all
    ensures log + TextEvents(BodyText, data[mark..q]) == all + TextEvents(BodyText, data[p..q])
  {
    hide TextEvents;
    var b := TextEvents(BodyText, data[p..q]);
    if prior < 0 {
      assert log + [] == log;
    } else {
      TextGrows(BodyText, data, mark, p, q);
      Joined(log, TextEvents(BodyText, data[mark..p]), b);
    }
  }

  lemma Joined(a: seq<Event>, b: seq<Event>, c: seq<Event>)
    ensures (a + b) + c == a + (b + c)
  {
  }

  /** on_body for the last piece of a body of known length, then s_message_done on the same byte. */
  method BodyEnd(x: Exec, core: Core, m: Marks, q: nat, data: seq<char>, ghost c0: Call) returns (o: Outcome)
    requires CallOk(c0) && At(x, c0, data) && x.core.state.BodyIdentity? && x.p < q <= |data|
    requires core == x.core.(contentLength := 0) && x.core.contentLength == q - x.p
    requires m == if x.marks.body < 0 then x.marks.(body := x.p) else x.marks
    ensures Agrees(o, x.p, c0, data) && Grows(x.log, o)
  {
    hide Step, CoreOk, TextEvents, Pending, Steps, Agrees, At, MarksOk, NewMessage;
    BodyEndOk(x, core, m, q, data, c0);
    var log := x.log + TextEvents(BodyText, data[m.body..q]) + [BodyFinal, MessageComplete];
    var y := Exec(core.(state := NewMessage(core)), x.nread, log, m.(body := -1), q);
    o := if core.upgrade then Exited(y) else Going(y);
  }

  lemma BodyEndOk(x: Exec, core: Core, m: Marks, q: nat, data: seq<char>, c0: Call)
    requires CallOk(c0) && At(x, c0, data) && x.core.state.BodyIdentity? && x.p < q <= |data|
    requires core == x.core.(contentLength := 0) && x.core.contentLength == q - x.p
    requires m == if x.marks.body < 0 then x.marks.(body := x.p) else x.marks
    ensures 0 <= m.body <= q
    ensures var log := x.log + TextEvents(BodyText, data[m.body..q]) + [BodyFinal, MessageComplete];
            var y := Exec(core.(state := NewMessage(core)), x.nread, log, m.(body := -1), q);
            Agrees(if core.upgrade then Exited(y) else Going(y), x.p, c0, data)
  {
    hide CallOk, TextEvents, Pending, Steps, At, Agrees, Rel, MarksOk, IsUrlState;
    InBody(x, c0, data);
    var c := Steps(c0, data, x.p);
    BodyTextIs(x, m, q, c.log, data);
    BodyJump(c0, data, x.p, q);
    BoundaryNext(core);
    hide NewMessage;
    var log := x.log + TextEvents(BodyText, data[m.body..q]) + [BodyFinal, MessageComplete];
    var y := Exec(core.(state := NewMessage(core)), x.nread, log, m.(body := -1), q);
    BoundaryAgrees(y, x.p, c0, data);
  }

  lemma BoundaryNext(c: Core)
    ensures IsBoundary(NewMessage(c))
  {
  }

  /** Inside a body: nothing is counted, and only the body mark can be set. */
  lemma InBody(x: Exec, c0: Call, data: seq<char>)
    requires CallOk(c0) && At(x, c0, data) && x.core.state.BodyIdentity?
    ensures var c := Steps(c0, data, x.p);
            && c.Live? && !c.exit && c.core == x.core && c.nread == x.nread <= MAX_HEADER_SIZE
            && MarksOk(x.core.state, x.marks, x.p) && x.log + Pending(data, x.marks, x.p) == c.log
            && x.marks.field < 0 && x.marks.value < 0 && x.marks.url < 0 && x.marks.status < 0 && x.marks.body <= x.p
  {
    assert !IsUrlState(x.core.state) by { hide At, MarksOk, CallOk; }
    hide Step, CoreOk, Steps, Pending, IsUrlState;
  }

  /** Between two messages nothing is pending. */
  lemma BoundaryAgrees(y: Exec, from: nat, c0: Call, data: seq<char>)
    requires CallOk(c0) && from < y.p <= |data| && IsBoundary(y.core.state) && y.nread <= MAX_HEADER_SIZE
    requires y.marks.field < 0 && y.marks.value < 0 && y.marks.url < 0 && y.marks.status < 0 && y.marks.body < 0
    requires Steps(c0, data, y.p) == Live(y.core, y.nread, 0, false, y.core.upgrade, y.log)
    requires Steps(c0, data, y.p - 1).Live? && !Steps(c0, data, y.p - 1).exit
    ensures Agrees(if y.core.upgrade then Exited(y) else Going(y), from, c0, data)
  {
    hide Step, CoreOk, Steps;
    assert y.log + [] == y.log;
  }

  lemma BulkLength(c: Core)
    requires CoreOk(c) && (c.state.ChunkData? || c.state.BodyIdentity?)
    ensures 0 < c.contentLength
  {
  }

  // ------------------------------------------------------------------ the other states

  /** Text in progress is not interrupted by a notification. */
  lemma QuietText(c: Core, ch: char)
    requires CoreOk(c) && (IsUrlState(c.state) || c.state.ResStatus?)
    ensures Switch(c, ch).Next? ==> Switch(c, ch).events == []
  {
    hide StartByte, HeaderByte, UrlChar, ChunkDigit, GuardOk;
  }

  /** CALLBACK_DATA: the text that ends with the byte at p is handed over. */
  method CloseText(s: State, d: State, marks: Marks, before: seq<Event>, data: seq<char>, p: nat)
      returns (m: Marks, log: seq<Event>)
    requires p < |data| && MarksOk(s, marks, p)
    requires !s.HeaderField? && !s.HeaderValue? && !IsBulk(s)
    ensures m.url <= p && m.status <= p
    ensures m == NO_MARKS ||
            (IsUrlState(s) && IsUrlState(d) && 0 <= m.url && m == NO_MARKS.(url := m.url)) ||
            (s.ResStatus? && d.ResStatus? && 0 <= m.status && m == NO_MARKS.(status := m.status))
    ensures log + Pending(data, m, p) == before + Pending(data, marks, p) && before <= log
  {
    hide Pending, TextEvents, IsUrlState, HoldsBody;
    PendingIs(s, data, marks, p);
    PendingOne(data, p, -1);
    PendingOne(data, p, if IsUrlState(s) then marks.url else if s.ResStatus? then marks.status else -1);
    OneText(s);
    m, log := NO_MARKS, before;
    if marks.url >= 0 {
      if IsUrlState(d) {
        m := m.(url := marks.url);
      } else {
        log := log + TextEvents(UrlText, data[marks.url..p]);
      }
    } else if marks.status >= 0 {
      if d.ResStatus? {
        m := m.(status := marks.status);
      } else {
        log := log + TextEvents(StatusText, data[marks.status..p]);
      }
    } else if marks.body >= 0 {
      log := log + TextEvents(BodyText, data[marks.body..p]);
    }
  }

  lemma OneText(s: State)
    ensures IsUrlState(s) ==> !s.ResStatus? && !HoldsBody(s) && !s.HeaderField? && !s.HeaderValue?
    ensures s.ResStatus? ==> !HoldsBody(s)
    ensures HoldsBody(s) ==> !s.HeaderField? && !s.HeaderValue?
  {
  }

  lemma PendingOne(data: seq<char>, p: nat, mark: int)
    requires -1 <= mark <= p <= |data|
    ensures Pending(data, NO_MARKS, p) == []
    ensures Pending(data, NO_MARKS.(url := mark), p) == Flush(UrlText, data, mark, p)
    ensures Pending(data, NO_MARKS.(status := mark), p) == Flush(StatusText, data, mark, p)
    ensures Pending(data, NO_MARKS.(field := mark), p) == Flush(FieldText, data, mark, p)
    ensures Pending(data, NO_MARKS.(value := mark), p) == Flush(ValueText, data, mark, p)
  {
  }

  /** MARK: the text that the byte at p belongs to is opened or continued. */
  method OpenText(d: State, marks: Marks, data: seq<char>, p: nat) returns (m: Marks)
    requires p < |data| && marks.url <= p && marks.status <= p
    requires marks == NO_MARKS || (IsUrlState(d) && 0 <= marks.url && marks == NO_MARKS.(url := marks.url))
                               || (d.ResStatus? && 0 <= marks.status && marks == NO_MARKS.(status := marks.status))
    ensures MarksOk(d, m, p + 1)
    ensures Pending(data, m, p + 1) == Pending(data, marks, p) + Text(d, data[p])
  {
    hide Pending, TextEvents;
    m := marks;
    PendingOne(data, p, -1);
    PendingOne(data, p + 1, p);
    if IsUrlState(d) {
      m := if m.url < 0 then m.(url := p) else m;
      ContinueText(UrlText, data, marks.url, m.url, p);
      PendingOne(data, p, marks.url);
      PendingOne(data, p + 1, m.url);
    } else if d.ResStatus? {
      m := if m.status < 0 then m.(status := p) else m;
      ContinueText(StatusText, data, marks.status, m.status, p);
      PendingOne(data, p, marks.status);
      PendingOne(data, p + 1, m.status);
    } else if d.HeaderField? {
      m := m.(field := p);
      ContinueText(FieldText, data, -1, p, p);
    } else if d.HeaderValue? {
      m := m.(value := p);
      ContinueText(ValueText, data, -1, p, p);
    } else {
      PendingOne(data, p + 1, -1);
    }
  }

  lemma ContinueText(k: TextKind, data: seq<char>, old_: int, mark: nat, p: nat)
    requires mark <= p < |data| && (old_ == mark || (old_ < 0 && mark == p))
    ensures Flush(k, data, mark, p + 1) == Flush(k, data, old_, p) + [TextEvent(k, data[p])]
  {
    TextOne(k, data, mark, p);
    assert data[p..p] == [];
  }

  /** The marks and data callbacks of one byte, around its notifications. */
  method MoveMarks(s: State, d: State, marks: Marks, before: seq<Event>, ev: seq<Event>, data: seq<char>, p: nat)
      returns (m: Marks, log: seq<Event>)
    requires p < |data| && MarksOk(s, marks, p)
    requires !s.HeaderField? && !s.HeaderValue? && !IsBulk(s)
    requires IsUrlState(s) || s.ResStatus? ==> ev == []
    ensures MarksOk(d, m, p + 1)
    ensures log + Pending(data, m, p + 1) == before + Pending(data, marks, p) + ev + Text(d, data[p]) && before <= log
  {
    m, log := CloseText(s, d, marks, before, data, p);
    hide Pending, Text, MarksOk, IsUrlState;
    ghost var was := before + Pending(data, marks, p);
    ghost var open := Pending(data, m, p);
    if m == NO_MARKS {
      PendingOne(data, p, -1);
    }
    assert open == [] || ev == [];
    ghost var text := Text(d, data[p]);
    m := OpenText(d, m, data, p);
    Reorder(log, open, ev, text, was);
    log := log + ev;
  }

  lemma Reorder(log: seq<Event>, open: seq<Event>, ev: seq<Event>, text: seq<Event>, was: seq<Event>)
    requires log + open == was && (open == [] || ev == [])
    ensures (log + ev) + (open + text) == was + ev + text
  {
    if ev == [] {
      assert log + ev == log && was + ev == was;
    } else {
      assert log + open == log && open + text == text;
    }
    assert (log + open) + text == log + (open + text);
  }

  method SwitchCase(x: Exec, data: seq<char>, ghost c0: Call) returns (o: Outcome)
    requires CallOk(c0) && At(x, c0, data) && !x.core.state.HeaderField? && !x.core.state.HeaderValue?
    requires !IsBulk(x.core.state)
    ensures Agrees(o, x.p, c0, data) && Grows(x.log, o)
  {
    hide Step, CoreOk, Switch, Pending, Text, FieldStep, ValueStep;
    var ch := data[x.p];
    Assertions(x.core);
    if x.core.state.ChunkSizeStart? {
      CountedOnce(x, c0, data);
      assert x.nread == 1;
    }
    assert IsChunkState(x.core.state) ==> x.core.flags.chunked;
    assert x.core.state.ChunkDataAlmostDone? ==> x.core.contentLength == 0;
    StepIs(Steps(c0, data, x.p), ch);
    assert Steps(c0, data, x.p + 1) == SwitchStep(Enter(Steps(c0, data, x.p)), ch);
    match Switch(x.core, ch)
    case Fail(e) =>
      FailsAt(c0, data, x.p, e);
      BreaksHere(x, c0, data, e, x.p);
      o := Error(e, x.p, x.p, x.core, x.log);
    case Next(d, ev, reset, exit) =>
      if IsUrlState(x.core.state) || x.core.state.ResStatus? {
        QuietText(x.core, ch);
      }
      var m, log := MoveMarks(x.core.state, d.state, x.marks, x.log, ev, data, x.p);
      var y := Exec(d, if reset then 0 else x.nread, log, m, x.p + 1);
      if exit {
        ExitState(x.core, ch);
        PendingIs(d.state, data, m, x.p + 1);
        o := Exited(y);
      } else {
        o := Going(y);
      }
  }

  predicate IsBoundary(s: State) { s.Dead? || s.StartReq? || s.StartRes? }

  /** An early return leaves no text pending. */
  lemma ExitState(c: Core, ch: char)
    requires CoreOk(c) && !c.state.HeaderField? && !c.state.HeaderValue? && Switch(c, ch).Next? && Switch(c, ch).exit
    ensures IsBoundary(Switch(c, ch).core.state)
  {
    hide StartByte, ResponseLineByte, RequestLineByte, HeaderByte, BodyByte, IsBoundary, CoreOk;
    StartNoExit(c, ch);
    LineNoExit(c, ch);
    if IsHeaderState(c.state) {
      HeaderExit(c, ch);
    } else if IsBodyState(c.state) {
      BodyExit(c, ch);
    }
  }

  lemma FieldStartExit(c: Core, ch: char)
    ensures FieldStartByte(c, ch).Next? && FieldStartByte(c, ch).exit ==> IsBoundary(FieldStartByte(c, ch).core.state)
    ensures HeadersEndByte(c, ch).Next? && HeadersEndByte(c, ch).exit ==> IsBoundary(HeadersEndByte(c, ch).core.state)
  {
    hide IsToken, TokenOf, NeedsEof;
  }

  lemma HeaderExit(c: Core, ch: char)
    requires IsHeaderState(c.state) && HeaderByte(c, ch).Next? && HeaderByte(c, ch).exit
    ensures IsBoundary(HeaderByte(c, ch).core.state)
  {
    hide FieldStartByte, HeadersEndByte, ValueStartByte, ApplyHeader, NeedsEof;
    FieldStartExit(c, ch);
    FieldStartExit(ApplyHeader(c).(state := HeaderFieldStart), ch);
    ValueNoExit(c, ch);
  }

  lemma BodyExit(c: Core, ch: char)
    requires CoreOk(c) && IsBodyState(c.state) && BodyByte(c, ch).Next? && BodyByte(c, ch).exit
    ensures IsBoundary(BodyByte(c, ch).core.state)
  {
    hide NeedsEof, IsHex, GuardOk;
  }

  lemma StartNoExit(c: Core, ch: char)
    requires CoreOk(c)
    ensures IsStartState(c.state) && StartByte(c, ch).Next? ==> !StartByte(c, ch).exit
  {
  }

  lemma LineNoExit(c: Core, ch: char)
    ensures IsResponseLineState(c.state) && ResponseLineByte(c, ch).Next? ==> !ResponseLineByte(c, ch).exit
    ensures IsRequestLineState(c.state) && RequestLineByte(c, ch).Next? ==> !RequestLineByte(c, ch).exit
  {
    hide UrlChar, IsNum;
    if IsUrlState(c.state) {
    } else if IsRequestLineState(c.state) {
    }
  }

  lemma ValueNoExit(c: Core, ch: char)
    ensures ValueStartByte(c, ch).Next? ==> !ValueStartByte(c, ch).exit
  {
  }

  // --------------------------------------------------------------------- the main loop

  /** The byte does not even fit the header limit. */
  lemma FirstCounted(x: Exec, c0: Call, data: seq<char>)
    requires CallOk(c0) && x.p < |data| && Rel(x, Steps(c0, data, x.p), data)
    requires Step(Steps(c0, data, x.p), data[x.p]) == Failed(HeaderOverflow)
    ensures Breaks(HeaderOverflow, x.p, x.p, x.core, x.log, c0, data)
  {
    hide Step, CoreOk, Steps, Pending, MarksOk;
    BreaksHere(x, c0, data, HeaderOverflow, x.p);
  }

  method Iterate(x: Exec, data: seq<char>, ghost c0: Call) returns (o: Outcome)
    requires CallOk(c0) && x.p < |data| && Rel(x, Steps(c0, data, x.p), data)
    ensures Agrees(o, x.p, c0, data) && Grows(x.log, o)
  {
    hide CoreOk, FieldStep, ValueStep, SwitchStep, Pending, MarksOk;
    var counted := x;
    if ParsingHeader(x.core.state) {
      counted := x.(nread := x.nread + 1);
      if counted.nread > MAX_HEADER_SIZE {
        FailsAt(c0, data, x.p, HeaderOverflow);
        FirstCounted(x, c0, data);
        return Error(HeaderOverflow, x.p, x.p, x.core, x.log);
      }
    }
    assert At(counted, c0, data);
    if x.core.state.HeaderField? {
      o := HeaderFieldCase(counted, data, c0);
    } else if x.core.state.HeaderValue? {
      o := HeaderValueCase(counted, data, c0);
    } else if x.core.state.BodyIdentityEof? {
      o := BodyEofCase(counted, data, c0);
    } else if x.core.state.ChunkData? || x.core.state.BodyIdentity? {
      o := BodyCase(counted, data, c0);
    } else {
      o := SwitchCase(counted, data, c0);
    }
  }

  /** Where marks stand when a call starts in the middle of a text. */
  method StartMarks(core: Core) returns (m: Marks)
    ensures MarksOk(core.state, m, 0)
    ensures forall data: seq<char> :: Pending(data, m, 0) == []
  {
    m := NO_MARKS;
    if core.state.HeaderField? {
      m := m.(field := 0);
    } else if core.state.HeaderValue? {
      m := m.(value := 0);
    } else if IsUrlState(core.state) {
      m := m.(url := 0);
    } else if core.state.ResStatus? {
      m := m.(status := 0);
    }
  }

  /** The for loop: all of a nonempty buffer, or up to an error or an upgrade. */
  method Loop(x0: Exec, data: seq<char>, ghost c0: Call) returns (o: Outcome)
    requires CallOk(c0) && data != [] && x0.p == 0 && Rel(x0, c0, data)
    ensures o.Going? ==> o.x.p == |data|
    ensures Agrees(o, 0, c0, data) && Grows(x0.log, o)
  {
    hide CallOk, Step, Pending, MarksOk;
    var x := x0;
    assert Steps(c0, data, 0) == c0;
    while x.p < |data|
      invariant x.p <= |data| && Rel(x, Steps(c0, data, x.p), data) && x0.log <= x.log
      decreases |data| - x.p
    {
      o := Iterate(x, data, c0);
      if o.Error? || o.Exited? {
        return;
      }
      x := o.x;
    }
    o := Going(x);
  }

  /** The parser object: http_parser and the trace of the callbacks it has run. */
  class HttpParser {
    var core: Core
    var nread: nat
    var errno: Option<Errno>
    var log: seq<Event>

    ghost function Abs(): Call
      reads this
    {
      if errno.Some? then Failed(errno.value) else Live(core, nread, 0, false, false, log)
    }

    ghost predicate Valid()
      reads this
    {
      CallOk(Abs())
    }

    constructor (kind: Kind)
      ensures Valid() && Abs() == Init(kind)
    {
      core, nread, errno, log := InitCore(kind), 0, None, [];
    }

    /**
     One call. The fields and the callback text become those of the byte-by-byte view,
     errors included; all bytes are consumed unless there is an error or an upgrade,
     and at an upgrade the return value is the number of bytes that belong to HTTP.
     */
    method Execute(data: seq<char>) returns (n: nat)
      requires Valid() && |data| < 0x8000_0000
      modifies this
      ensures Valid()
      ensures old(errno).Some? ==> n == 0 && errno == old(errno) && core == old(core) && log == old(log)
      ensures Abs() == (var r := Feed(old(Abs()), data); if r.Live? then r.(exit := false) else r)
      ensures data != [] && old(errno).None? && errno.Some? ==>
                exists told :: Breaks(errno.value, n, told, core, log, old(Abs()), data)
      ensures errno.Some? ==> old(log) <= log
      ensures data != [] ==> n <= |data|
      ensures data != [] && n < |data| ==> errno.Some? || Feed(old(Abs()), data).exit
      ensures data != [] && errno.None? && Feed(old(Abs()), data).exit ==>
                && 0 < n <= |data|
                && Steps(old(Abs()), data, n).Live? && Steps(old(Abs()), data, n).exit
                && Steps(old(Abs()), data, n - 1).Live? && !Steps(old(Abs()), data, n - 1).exit
    {
      hide Step, CoreOk;
      ghost var c0 := Abs();
      if errno.Some? {
        Stays(c0, data, 0, |data|);
        return 0;
      }
      if |data| == 0 {
        if core.state.BodyIdentityEof? {
          log := log + [MessageComplete];
          return 0;
        }
        if core.state.Dead? || core.state.StartReqOrRes? || core.state.StartRes? || core.state.StartReq? {
          return 0;
        }
        errno := Some(InvalidEofState);
        return 1;
      }
      var o := RunLoop(core, nread, log, data, c0);
      hide Steps, Breaks;
      match o
      case Error(e, at, told, was, ran) =>
        errno := Some(e);
        core, log := was, ran;
        n := at;
        assert Breaks(e, n, told, core, log, c0, data);
      case Exited(x) =>
        core, nread, log := x.core, x.nread, x.log;
        n := x.p;
      case Going(x) =>
        core, nread, log := x.core, x.nread, x.log;
        n := |data|;
    }
  }

  /** What the loop over a whole buffer, its data callbacks included, must come to. */
  ghost predicate Finished(o: Outcome, c0: Call, data: seq<char>)
    requires CallOk(c0)
  {
    match o
    case Error(e, at, told, core, log) =>
      Count(Steps(c0, data, |data|)) == Failed(e) && Breaks(e, at, told, core, log, c0, data)
    case Exited(x) =>
      && 0 < x.p <= |data| && Steps(c0, data, |data|) == Live(x.core, x.nread, 0, false, true, x.log)
      && x.nread <= MAX_HEADER_SIZE
      && Steps(c0, data, x.p).Live? && Steps(c0, data, x.p).exit
      && Steps(c0, data, x.p - 1).Live? && !Steps(c0, data, x.p - 1).exit
    case Going(x) => Count(Steps(c0, data, |data|)) == Live(x.core, x.nread, 0, false, false, x.log)
  }

  /** The loop over a nonempty buffer, and the data callbacks at its end. */
  method RunLoop(core: Core, nread: nat, log: seq<Event>, data: seq<char>, ghost c0: Call) returns (o: Outcome)
    requires data != [] && CallOk(c0) && c0 == Live(core, nread, 0, false, false, log)
    ensures Finished(o, c0, data) && Grows(log, o)
  {
    hide Step, CallOk, Pending, MarksOk, Rel, Agrees, Steps, Flush, Finished;
    var m := StartMarks(core);
    StartRel(core, nread, log, m, data, c0);
    o := Loop(Exec(core, nread, log, m, 0), data, c0);
    if o.Going? {
      MarksInside(o.x, data, c0);
      var x := o.x;
      assert (if x.marks.field >= 0 then 1 else 0) + (if x.marks.value >= 0 then 1 else 0) + (if x.marks.url >= 0 then 1 else 0)
             + (if x.marks.body >= 0 then 1 else 0) + (if x.marks.status >= 0 then 1 else 0) <= 1 by { OneMark(x.core.state, x.marks, x.p); }
      var all := x.log + Flush(FieldText, data, x.marks.field, |data|) + Flush(ValueText, data, x.marks.value, |data|) +
                 Flush(UrlText, data, x.marks.url, |data|) + Flush(BodyText, data, x.marks.body, |data|) +
                 Flush(StatusText, data, x.marks.status, |data|);
      LoopGoesOn(x, all, data, c0);
      o := Going(x.(log := all));
    } else {
      LoopEnds(o, data, c0);
    }
  }

  lemma StartRel(core: Core, nread: nat, log: seq<Event>, m: Marks, data: seq<char>, c0: Call)
    requires CallOk(c0) && c0 == Live(core, nread, 0, false, false, log)
    requires MarksOk(core.state, m, 0) && Pending(data, m, 0) == []
    ensures Rel(Exec(core, nread, log, m, 0), c0, data)
  {
    hide CoreOk, Pending, MarksOk;
    assert log + [] == log;
  }

  lemma LoopEnds(o: Outcome, data: seq<char>, c0: Call)
    requires CallOk(c0) && Agrees(o, 0, c0, data) && !o.Going?
    ensures Finished(o, c0, data)
  {
    hide Step, CallOk;
    if o.Exited? {
      assert CallOk(Steps(c0, data, o.x.p));
      ExitsAt(c0, data, o.x.p);
      BoundedCount(Steps(c0, data, o.x.p));
    }
  }

  lemma BoundedCount(c: Call)
    requires CallOk(c) && c.Live?
    ensures c.nread <= MAX_HEADER_SIZE
  {
    hide CoreOk;
  }

  lemma OneMark(s: State, m: Marks, p: nat)
    requires MarksOk(s, m, p)
    ensures (if m.field >= 0 then 1 else 0) + (if m.value >= 0 then 1 else 0) + (if m.url >= 0 then 1 else 0)
            + (if m.body >= 0 then 1 else 0) + (if m.status >= 0 then 1 else 0) <= 1
  {
  }

  lemma MarksInside(x: Exec, data: seq<char>, c0: Call)
    requires CallOk(c0) && Agrees(Going(x), 0, c0, data)
    ensures x.p <= |data| && MarksOk(x.core.state, x.marks, x.p)
    ensures x.marks.field <= x.p && x.marks.value <= x.p && x.marks.url <= x.p && x.marks.body <= x.p && x.marks.status <= x.p
  {
    hide Step, CoreOk, Pending, Steps;
  }

  lemma LoopGoesOn(x: Exec, all: seq<Event>, data: seq<char>, c0: Call)
    requires CallOk(c0) && Agrees(Going(x), 0, c0, data) && x.p == |data| && MarksOk(x.core.state, x.marks, |data|)
    requires all == x.log + Flush(FieldText, data, x.marks.field, |data|) + Flush(ValueText, data, x.marks.value, |data|) +
                    Flush(UrlText, data, x.marks.url, |data|) + Flush(BodyText, data, x.marks.body, |data|) +
                    Flush(StatusText, data, x.marks.status, |data|)
    ensures Finished(Going(x.(log := all)), c0, data)
  {
    hide Step, CoreOk, Pending, Flush, Steps;
    PendingInSeries(x.core.state, data, x.marks, |data|);
    SeriesAll(x.log, Flush(FieldText, data, x.marks.field, |data|), Flush(ValueText, data, x.marks.value, |data|),
              Flush(UrlText, data, x.marks.url, |data|), Flush(BodyText, data, x.marks.body, |data|),
              Flush(StatusText, data, x.marks.status, |data|));
  }

  lemma SeriesAll(log: seq<Event>, a: seq<Event>, b: seq<Event>, c: seq<Event>, d: seq<Event>, e: seq<Event>)
    ensures log + a + b + c + d + e == log + (a + b + c + d + e)
  {
  }

  lemma ExitsAt(c: Call, data: seq<char>, n: nat)
    requires CallOk(c) && n <= |data| && Steps(c, data, n).Live? && Steps(c, data, n).exit
    ensures Steps(c, data, |data|) == Steps(c, data, n)
  {
    Stays(c, data, n, |data|);
  }
}
