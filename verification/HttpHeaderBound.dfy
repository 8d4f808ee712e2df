/** The header limit: nread follows the number of header bytes read, and so bounds it. */
module HttpHeaderBound {
  import opened HttpTypes
  import opened HttpSwitch
  import opened HttpInvariant
  import opened HttpCall
  import opened HttpSplit

  /** The byte makes the parser set nread to 0. */
  ghost predicate Resets(c: Call, ch: char)
    requires CallOk(c)
  {
    c.Live? && !c.exit && !c.core.state.HeaderField? && !c.core.state.HeaderValue? &&
    Switch(c.core, ch).Next? && Switch(c.core, ch).reset
  }

  /** Header bytes since the last reset, given that there were `h` before this byte. */
  ghost function HeaderByteCount(c: Call, h: nat, ch: char): nat
    requires CallOk(c)
  {
    if c.Failed? || c.exit then h
    else if Resets(c, ch) then 0
    else if ParsingHeader(c.core.state) then h + 1 else h
  }

  ghost function HeaderBytes(c: Call, h: nat, data: seq<char>, n: nat): nat
    requires CallOk(c) && n <= |data|
  {
    if n == 0 then h else HeaderByteCount(Steps(c, data, n - 1), HeaderBytes(c, h, data, n - 1), data[n - 1])
  }

  /** nread is the number of header bytes, plus `extra`; an open inner loop has its first byte twice. */
  ghost predicate Follows(c: Call, h: nat, extra: nat) {
    c.Live? ==> c.nread + c.run == h + extra + (if c.run > 0 then 1 else 0)
  }

  lemma FollowsStep(c: Call, h: nat, extra: nat, ch: char)
    requires CallOk(c) && Follows(c, h, extra)
    ensures Follows(Step(c, ch), HeaderByteCount(c, h, ch), if Resets(c, ch) then 0 else extra)
  {
    hide Switch, FieldByte, ValueByte, CoreOk, IsToken, IsHeaderChar, Text;
    if c.Live? && !c.exit && Enter(c).Live? {
      if c.core.state.HeaderField? {
      } else if c.core.state.HeaderValue? {
      } else {
      }
    }
  }

  /** Bytes counted twice since the last reset, given that there were `extra` before. */
  ghost function ExtraBytes(c: Call, extra: nat, data: seq<char>, n: nat): nat
    requires CallOk(c) && n <= |data|
  {
    if n == 0 then extra
    else if Resets(Steps(c, data, n - 1), data[n - 1]) then 0
    else ExtraBytes(c, extra, data, n - 1)
  }

  lemma {:induction false} FollowsSteps(c: Call, h: nat, extra: nat, data: seq<char>, n: nat)
    requires CallOk(c) && Follows(c, h, extra) && n <= |data|
    ensures Follows(Steps(c, data, n), HeaderBytes(c, h, data, n), ExtraBytes(c, extra, data, n))
  {
    hide Step, CoreOk, Switch, Resets;
    if n > 0 {
      FollowsSteps(c, h, extra, data, n - 1);
      FollowsStep(Steps(c, data, n - 1), HeaderBytes(c, h, data, n - 1), ExtraBytes(c, extra, data, n - 1), data[n - 1]);
    }
  }

  ghost function HeaderBytesAll(c: Call, h: nat, pieces: seq<seq<char>>): nat
    requires CallOk(c)
    decreases |pieces|
  {
    if pieces == [] || c.Failed? || c.exit then h
    else HeaderBytesAll(Feed(c, pieces[0]), HeaderBytes(Begin(c), h, pieces[0], |pieces[0]|), pieces[1..])
  }

  /** The call ends inside a header name or value, whose first byte it has counted twice. */
  ghost predicate EndsInside(c: Call, data: seq<char>)
    requires CallOk(c)
  {
    var u := Steps(Begin(c), data, |data|);
    u.Live? && u.run > 0
  }

  /** The calls since the last reset that ended inside a header name or value. */
  ghost function CallsInside(c: Call, extra: nat, pieces: seq<seq<char>>): nat
    requires CallOk(c)
    decreases |pieces|
  {
    if pieces == [] || c.Failed? || c.exit then extra
    else
      var x := ExtraBytes(Begin(c), extra, pieces[0], |pieces[0]|);
      CallsInside(Feed(c, pieces[0]), if EndsInside(c, pieces[0]) then x + 1 else x, pieces[1..])
  }

  lemma {:induction false} ExtraShrinks(c: Call, extra: nat, data: seq<char>, n: nat)
    requires CallOk(c) && n <= |data|
    ensures ExtraBytes(c, extra, data, n) <= extra
  {
    hide Steps, CallOk, Resets;
    if n > 0 {
      ExtraShrinks(c, extra, data, n - 1);
    }
  }

  lemma {:induction false} FollowsAll(c: Call, h: nat, extra: nat, pieces: seq<seq<char>>)
    requires CallOk(c) && Follows(c, h, extra) && (c.Live? ==> c.run == 0)
    requires FeedAll(c, pieces).Live?
    ensures FeedAll(c, pieces).nread == HeaderBytesAll(c, h, pieces) + CallsInside(c, extra, pieces)
    ensures CallsInside(c, extra, pieces) <= extra + |pieces|
    decreases |pieces|
  {
    hide Step, CoreOk, Steps, HeaderBytes, ExtraBytes;
    if pieces != [] && c.Live? && !c.exit {
      var s := pieces[0];
      FollowsSteps(Begin(c), h, extra, s, |s|);
      ExtraShrinks(Begin(c), extra, s, |s|);
      var d, g, x := Feed(c, s), HeaderBytes(Begin(c), h, s, |s|), ExtraBytes(Begin(c), extra, s, |s|);
      if s == [] {
        EmptyBytes(Begin(c), h, extra);
        FollowsAll(d, g, x, pieces[1..]);
      } else if d.Live? {
        FollowsAll(d, g, if EndsInside(c, s) then x + 1 else x, pieces[1..]);
      }
    }
  }

  lemma EmptyBytes(c: Call, h: nat, extra: nat)
    requires CallOk(c)
    ensures HeaderBytes(c, h, [], 0) == h && ExtraBytes(c, extra, [], 0) == extra
    ensures c.Live? && c.run == 0 ==> !EndsInside(c, [])
  {
  }

  /**
   In every run from http_parser_init, as long as there is no error: nread is the number of
   header bytes since it was last reset, plus one for every call since then that ended inside
   a header name or value, and never above the limit. So no accepted header block exceeds 80 KiB.
   */
  lemma HeaderSizeBound(kind: Kind, pieces: seq<seq<char>>)
    requires FeedAll(Init(kind), pieces).Live?
    ensures var h, x := HeaderBytesAll(Init(kind), 0, pieces), CallsInside(Init(kind), 0, pieces);
            var r := FeedAll(Init(kind), pieces);
            r.nread == h + x && x <= |pieces| && r.nread <= MAX_HEADER_SIZE
  {
    FollowsAll(Init(kind), 0, 0, pieces);
    hide FeedAll, HeaderBytesAll, CallsInside, CoreOk;
  }

  /** The byte too many: one byte of a header name, fed in a call of its own, counts twice. */
  lemma CountedTwice(c: Call, x: char)
    requires CallOk(c) && c.Live? && !c.exit && c.run == 0 && !c.skip && c.nread + 2 <= MAX_HEADER_SIZE
    requires c.core.state.HeaderField? && IsToken(x)
    ensures Feed(c, [x]).Live? && Feed(c, [x]).nread == c.nread + 2 && EndsInside(c, [x])
  {
    hide CoreOk, IsToken, FieldByte;
    assert Begin(c) == c && Steps(c, [x], 0) == c;
    assert Steps(c, [x], 1) == Step(c, x);
  }
}
