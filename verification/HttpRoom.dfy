/**
 Bytes that are valid one by one, in any calls: only the header limit can get in the way, and it
 does not as long as the header bytes between two resets leave room.
 */
module HttpRoom {
  import opened HttpTypes
  import opened HttpSwitch
  import opened HttpInvariant
  import opened HttpCall
  import opened HttpSplit
  import opened HttpMicro

  // ------------------------------------------------------------------------ overflow or exact

  /** The call has gone as the bytes say. */
  ghost predicate Follows(c: Call, m: Micro, r: Call)
    requires c.Live? && m.Moved?
  {
    r.Live? && !r.exit && r.core == m.core && r.log == c.log + m.events
  }

  lemma StepAgrees(c: Call, ch: char)
    requires CallOk(c) && c.Live? && !c.exit && MicroStep(c.core, ch).Moved?
    ensures Step(c, ch) == Failed(HeaderOverflow) || Follows(c, MicroStep(c.core, ch), Step(c, ch))
  {
    StepOk(c, ch);
    hide Switch, FieldByte, ValueByte, CoreOk, IsToken, IsHeaderChar, Text;
    assert c.log + [] == c.log;
    if c.core.state.HeaderField? {
    } else if c.core.state.HeaderValue? {
    } else {
      var o := Switch(c.core, ch);
      assert (c.log + o.events) + Text(o.core.state, ch) == c.log + (o.events + Text(o.core.state, ch));
    }
  }

  lemma {:induction false} StepsAgree(c: Call, data: seq<char>, n: nat)
    requires Ready(c) && n <= |data| && Micros(c.core, data[..n]).Moved?
    ensures Steps(c, data, n) == Failed(HeaderOverflow) || Follows(c, Micros(c.core, data[..n]), Steps(c, data, n))
    decreases n
  {
    hide MicroStep, CoreOk, Step;
    if n == 0 {
      assert c.log + [] == c.log;
    } else {
      var a, ch := data[..n - 1], data[n - 1];
      assert data[..n] == a + [ch];
      MicrosSplit(c.core, a, [ch]);
      StepsAgree(c, data, n - 1);
      var d := Steps(c, data, n - 1);
      if d.Live? {
        MicrosOne(d.core, ch);
        StepAgrees(d, ch);
        hide Micros;
        assert (c.log + Micros(c.core, a).events) + MicroStep(d.core, ch).events == c.log + Micros(c.core, data[..n]).events;
      } else {
        FailedStays(d, ch);
      }
    }
  }

  lemma FailedStays(d: Call, ch: char)
    requires d.Failed?
    ensures Step(d, ch) == d
  {
  }

  lemma FeedAgrees(c: Call, data: seq<char>)
    requires Ready(c) && data != [] && Micros(c.core, data).Moved?
    ensures var r := Feed(c, data); r == Failed(HeaderOverflow) || (Ready(r) && Follows(c, Micros(c.core, data), r))
  {
    hide MicroStep, CoreOk, Step, Micros;
    assert Begin(c) == c && data[..|data|] == data;
    StepsAgree(c, data, |data|);
    hide Steps;
  }

  /** Valid bytes in any calls: the header limit is exceeded, or the result is that of the bytes. */
  lemma {:induction false} CallsAgree(c: Call, pieces: seq<seq<char>>)
    requires Ready(c) && Micros(c.core, Flatten(pieces)).Moved? && forall i :: 0 <= i < |pieces| ==> pieces[i] != []
    ensures var r := FeedAll(c, pieces);
            r == Failed(HeaderOverflow) || (Ready(r) && Follows(c, Micros(c.core, Flatten(pieces)), r))
    decreases |pieces|
  {
    hide MicroStep, CoreOk, Step, Feed;
    if pieces == [] {
      assert c.log + [] == c.log;
    } else {
      var x, rest := pieces[0], pieces[1..];
      MicrosSplit(c.core, x, Flatten(rest));
      FeedAgrees(c, x);
      var d := Feed(c, x);
      if d.Live? {
        CallsAgree(d, rest);
        hide Micros;
        assert (c.log + Micros(c.core, x).events) + Micros(d.core, Flatten(rest)).events == c.log + Micros(c.core, Flatten(pieces)).events;
      }
    }
  }

  // ----------------------------------------------------------------------- bytes since a reset

  ghost predicate ResetsAt(c: Core, ch: char)
    requires CoreOk(c)
  {
    !c.state.HeaderField? && !c.state.HeaderValue? && Switch(c, ch).Next? && Switch(c, ch).reset
  }

  ghost function NextTally(c: Core, n: nat, ch: char): nat
    requires CoreOk(c)
  {
    if ResetsAt(c, ch) then 0 else n + if ParsingHeader(c.state) then 1 else 0
  }

  /** Header bytes since the last reset after reading `s`, if there were n before. */
  ghost function Tally(c: Core, n: nat, s: seq<char>): nat
    requires CoreOk(c)
    decreases |s|
  {
    if s == [] then n
    else
      MicroStepOk(c, s[0]);
      var m := MicroStep(c, s[0]);
      if m.Stuck? then n else Tally(m.core, NextTally(c, n, s[0]), s[1..])
  }

  function Max(a: nat, b: nat): nat { if a <= b then b else a }

  /** The most there are on the way. */
  ghost function Peak(c: Core, n: nat, s: seq<char>): nat
    requires CoreOk(c)
    decreases |s|
  {
    if s == [] then n
    else
      MicroStepOk(c, s[0]);
      var m := MicroStep(c, s[0]);
      if m.Stuck? then n else Max(n, Peak(m.core, NextTally(c, n, s[0]), s[1..]))
  }

  lemma {:induction false} TallyConcat(c: Core, n: nat, a: seq<char>, b: seq<char>)
    requires CoreOk(c) && Micros(c, a).Moved?
    ensures Tally(c, n, a + b) == Tally(Micros(c, a).core, Tally(c, n, a), b)
    ensures Peak(c, n, a + b) == Max(Peak(c, n, a), Peak(Micros(c, a).core, Tally(c, n, a), b))
    decreases |a|
  {
    hide MicroStep, CoreOk, NextTally;
    if a == [] {
      assert a + b == b;
      PeakFrom(c, n, b);
    } else {
      assert (a + b)[0] == a[0] && (a + b)[1..] == a[1..] + b;
      MicroStepOk(c, a[0]);
      TallyConcat(MicroStep(c, a[0]).core, NextTally(c, n, a[0]), a[1..], b);
    }
  }

  lemma PeakFrom(c: Core, n: nat, s: seq<char>)
    requires CoreOk(c)
    ensures n <= Peak(c, n, s)
  {
    hide MicroStep, CoreOk, NextTally;
  }

  lemma {:induction false} TallyBound(c: Core, n: nat, s: seq<char>)
    requires CoreOk(c)
    ensures Tally(c, n, s) <= Peak(c, n, s) <= n + |s|
    decreases |s|
  {
    hide MicroStep, CoreOk, ResetsAt;
    if s != [] {
      MicroStepOk(c, s[0]);
      if MicroStep(c, s[0]).Moved? {
        TallyBound(MicroStep(c, s[0]).core, NextTally(c, n, s[0]), s[1..]);
      }
    }
  }

  /** A few bytes more at the start are at most as many more later. */
  lemma {:induction false} PeakMono(c: Core, n: nat, k: nat, s: seq<char>)
    requires CoreOk(c) && n <= k
    ensures Peak(c, n, s) <= Peak(c, k, s) <= Peak(c, n, s) + (k - n)
    ensures Tally(c, n, s) <= Tally(c, k, s) <= Tally(c, n, s) + (k - n)
    decreases |s|
  {
    hide MicroStep, CoreOk, ResetsAt;
    if s != [] {
      MicroStepOk(c, s[0]);
      if MicroStep(c, s[0]).Moved? {
        PeakMono(MicroStep(c, s[0]).core, NextTally(c, n, s[0]), NextTally(c, k, s[0]), s[1..]);
      }
    }
  }

  /** What nread and the open inner loop amount to; the first byte of a loop is in both. */
  function Used(c: Call): int
    requires c.Live?
  {
    c.nread + c.run - if c.run > 0 then 1 else 0
  }

  lemma StepRoom(c: Call, ch: char)
    requires CallOk(c) && c.Live? && !c.exit && MicroStep(c.core, ch).Moved? && Used(c) + 1 <= MAX_HEADER_SIZE
    ensures Step(c, ch).Live? && 0 <= Used(c) && Used(Step(c, ch)) <= NextTally(c.core, Used(c), ch)
  {
    StepOk(c, ch);
    hide Switch, FieldByte, ValueByte, CoreOk, IsToken, IsHeaderChar, Text;
    if c.core.state.HeaderField? {
    } else if c.core.state.HeaderValue? {
    } else {
    }
  }

  lemma {:induction false} StepsRoom(c: Call, data: seq<char>, n: nat)
    requires Ready(c) && n <= |data| && Micros(c.core, data[..n]).Moved?
    requires Peak(c.core, c.nread, data[..n]) + 1 <= MAX_HEADER_SIZE
    ensures var r := Steps(c, data, n); Follows(c, Micros(c.core, data[..n]), r) && Used(r) <= Tally(c.core, c.nread, data[..n])
    decreases n
  {
    hide MicroStep, CoreOk, Step, NextTally;
    StepsAgree(c, data, n);
    if n > 0 {
      var a, ch := data[..n - 1], data[n - 1];
      assert data[..n] == a + [ch];
      MicrosSplit(c.core, a, [ch]);
      TallyConcat(c.core, c.nread, a, [ch]);
      StepsRoom(c, data, n - 1);
      var d := Steps(c, data, n - 1);
      MicrosOne(d.core, ch);
      TallyBound(c.core, c.nread, a);
      UsedIs(d);
      StepRoom(d, ch);
      TallyOne(d.core, Tally(c.core, c.nread, a), ch);
      NextMono(d.core, Used(d), Tally(c.core, c.nread, a), ch);
    }
  }

  lemma UsedIs(d: Call)
    requires CallOk(d) && d.Live?
    ensures Used(d) >= 0
  {
    hide CoreOk;
  }

  lemma TallyOne(c: Core, n: nat, ch: char)
    requires CoreOk(c) && MicroStep(c, ch).Moved?
    ensures Tally(c, n, [ch]) == NextTally(c, n, ch)
  {
    hide MicroStep, CoreOk, NextTally;
    assert [ch][1..] == [];
    MicroStepOk(c, ch);
    assert Tally(MicroStep(c, ch).core, NextTally(c, n, ch), []) == NextTally(c, n, ch);
  }

  lemma NextMono(c: Core, n: nat, k: nat, ch: char)
    requires CoreOk(c) && n <= k
    ensures NextTally(c, n, ch) <= NextTally(c, k, ch)
  {
    hide CoreOk, ResetsAt;
  }

  lemma FeedRoom(c: Call, data: seq<char>)
    requires Ready(c) && data != [] && Micros(c.core, data).Moved? && Peak(c.core, c.nread, data) + 1 <= MAX_HEADER_SIZE
    ensures var m, r := Micros(c.core, data), Feed(c, data);
            && Ready(r) && Follows(c, m, r)
            && r.nread <= Tally(c.core, c.nread, data) + if InNameOrValue(m.core.state) then 1 else 0
  {
    hide MicroStep, CoreOk, Step, Micros, Tally, Peak;
    assert Begin(c) == c && data[..|data|] == data;
    StepsRoom(c, data, |data|);
    TallyBound(c.core, c.nread, data);
    hide Steps;
  }

  /**
   Any calls: accepted, as long as the header bytes between two resets, and one more for each
   call that ends inside a header name or value, are below the limit.
   */
  lemma {:induction false} CallsRoom(c: Call, pieces: seq<seq<char>>)
    requires Ready(c) && Micros(c.core, Flatten(pieces)).Moved? && forall i :: 0 <= i < |pieces| ==> pieces[i] != []
    requires Peak(c.core, c.nread, Flatten(pieces)) + CallsInside(c.core, pieces) + 1 <= MAX_HEADER_SIZE
    ensures FeedAll(c, pieces).Live? && FeedAll(c, pieces).nread < MAX_HEADER_SIZE
    decreases |pieces|
  {
    hide MicroStep, CoreOk, Step, Feed, Micros, Tally, Peak;
    if pieces == [] {
      PeakFrom(c.core, c.nread, []);
    } else {
      var x, rest := pieces[0], pieces[1..];
      assert Flatten(pieces) == x + Flatten(rest);
      MicrosSplit(c.core, x, Flatten(rest));
      TallyConcat(c.core, c.nread, x, Flatten(rest));
      FeedRoom(c, x);
      var d := Feed(c, x);
      var t := Tally(c.core, c.nread, x);
      PeakMono(d.core, t, if d.nread <= t then t else d.nread, Flatten(rest));
      if d.nread <= t {
        PeakMono(d.core, d.nread, t, Flatten(rest));
      }
      CallsRoom(d, rest);
    }
  }
}
