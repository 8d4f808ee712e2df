/**
 Exactly when bytes accepted in one call are accepted in pieces. Two things can go wrong at
 a boundary inside a header name or value: a byte the search for a line end would have skipped
 is looked at after all, and one byte is counted twice, which may reach the header limit.
 */
module HttpSplitExact {
  import opened HttpTypes
  import opened HttpSwitch
  import opened HttpInvariant
  import opened HttpCall
  import opened HttpSplit
  import opened HttpExecute
  import opened HttpHeaderBound

  /** Header bytes counted, those of the open inner loop included. */
  function Weight(c: Call): nat
    requires c.Live?
  {
    c.nread + c.run
  }

  /** The first byte of the second piece passes the check that the search would have skipped. */
  predicate Checked(u: Call, ch: char) {
    u.Live? && u.skip && !u.core.lenient && !IsNewline(ch) ==> IsHeaderChar(ch)
  }

  /** The most that reading `ch` counts, even if nread is reset on it. */
  ghost function Peak(u: Call, ch: char): nat
    requires CallOk(u) && u.Live?
  {
    if Resets(u, ch) then u.nread + (if ParsingHeader(u.core.state) then 1 else 0)
    else if Step(u, ch).Live? then Weight(Step(u, ch))
    else 0
  }

  /** The byte counted twice still shows after k bytes of y. */
  ghost predicate Late(u: Call, y: seq<char>, k: nat)
    requires CallOk(u) && k <= |y|
  {
    if k == 0 then u.Live? && u.run > 0
    else Late(u, y, k - 1) && !Resets(Steps(u, y, k - 1), y[k - 1])
  }

  /** Wherever it shows, there is room for one byte more below the limit. */
  ghost predicate Roomy(u: Call, y: seq<char>)
    requires CallOk(u)
  {
    forall k :: 0 <= k < |y| && Late(u, y, k) && Steps(u, y, k).Live? ==> Peak(Steps(u, y, k), y[k]) < MAX_HEADER_SIZE
  }

  /** `v` is `u` with `late` bytes counted more. */
  ghost predicate Ahead(v: Call, u: Call, late: bool) {
    && v.Live? && u.Live? && v.core == u.core && v.log == u.log && v.exit == u.exit && v.skip == u.skip
    && (v.run > 0 <==> u.run > 0)
    && Weight(v) == Weight(u) + if late then 1 else 0
  }

  // ------------------------------------------------------------------ one byte

  lemma FirstInField(u: Call, v: Call, ch: char)
    requires CallOk(u) && u.Live? && !u.exit && u.run > 0 && Weight(u) <= MAX_HEADER_SIZE && v == Begin(Count(u))
    requires CallOk(v) && Step(u, ch).Live? && u.core.state.HeaderField?
    ensures Step(v, ch).Live? ==> Checked(u, ch) && Ahead(Step(v, ch), Step(u, ch), true)
    ensures Checked(u, ch) && Peak(u, ch) < MAX_HEADER_SIZE ==> Step(v, ch).Live?
  {
    hide CoreOk, FieldByte, ValueStep, SwitchStep, Switch, IsToken;
  }

  lemma FirstInValueEnd(u: Call, v: Call, ch: char)
    requires CallOk(u) && u.Live? && !u.exit && u.run > 0 && Weight(u) <= MAX_HEADER_SIZE && v == Begin(Count(u))
    requires CallOk(v) && Step(u, ch).Live? && u.core.state.HeaderValue? && IsNewline(ch)
    ensures Step(v, ch).Live? ==> Checked(u, ch) && Ahead(Step(v, ch), Step(u, ch), true)
    ensures Checked(u, ch) && Peak(u, ch) < MAX_HEADER_SIZE ==> Step(v, ch).Live?
  {
    hide CoreOk, ValueByte, FieldStep, SwitchStep, Switch, IsHeaderChar;
  }

  lemma FirstInValue(u: Call, v: Call, ch: char)
    requires CallOk(u) && u.Live? && !u.exit && u.run > 0 && Weight(u) <= MAX_HEADER_SIZE && v == Begin(Count(u))
    requires CallOk(v) && Step(u, ch).Live? && u.core.state.HeaderValue? && !IsNewline(ch)
    ensures Step(v, ch).Live? ==> Checked(u, ch) && Ahead(Step(v, ch), Step(u, ch), true)
    ensures Checked(u, ch) && Peak(u, ch) < MAX_HEADER_SIZE ==> Step(v, ch).Live?
  {
    hide CoreOk, ValueByte, FieldStep, SwitchStep, Switch, IsHeaderChar;
  }

  /** The byte after the boundary, when the boundary is inside a header name or value. */
  lemma FirstByte(u: Call, v: Call, ch: char)
    requires CallOk(u) && u.Live? && !u.exit && u.run > 0 && Weight(u) <= MAX_HEADER_SIZE && v == Begin(Count(u))
    requires CallOk(v) && Step(u, ch).Live?
    ensures Step(v, ch).Live? ==> Checked(u, ch) && Ahead(Step(v, ch), Step(u, ch), true)
    ensures Checked(u, ch) && Peak(u, ch) < MAX_HEADER_SIZE ==> Step(v, ch).Live?
  {
    hide CoreOk, Step, Ahead, Peak, Resets, Checked, Weight;
    if u.core.state.HeaderField? {
      FirstInField(u, v, ch);
    } else if IsNewline(ch) {
      FirstInValueEnd(u, v, ch);
    } else {
      FirstInValue(u, v, ch);
    }
  }

  lemma NextField(v: Call, u: Call, late: bool, ch: char)
    requires CallOk(u) && CallOk(v) && Ahead(v, u, late) && !u.exit && Step(u, ch).Live? && u.core.state.HeaderField?
    ensures Step(v, ch).Live? ==> Ahead(Step(v, ch), Step(u, ch), late && !Resets(u, ch))
    ensures Step(v, ch).Live? && late && Resets(u, ch) ==> Peak(u, ch) < MAX_HEADER_SIZE
    ensures (late ==> Peak(u, ch) < MAX_HEADER_SIZE) ==> Step(v, ch).Live?
  {
    hide CoreOk, FieldByte, ValueStep, SwitchStep, Switch, IsToken;
  }

  lemma NextValueEnd(v: Call, u: Call, late: bool, ch: char)
    requires CallOk(u) && CallOk(v) && Ahead(v, u, late) && !u.exit && Step(u, ch).Live? && u.core.state.HeaderValue? && IsNewline(ch)
    ensures Step(v, ch).Live? ==> Ahead(Step(v, ch), Step(u, ch), late && !Resets(u, ch))
    ensures Step(v, ch).Live? && late && Resets(u, ch) ==> Peak(u, ch) < MAX_HEADER_SIZE
    ensures (late ==> Peak(u, ch) < MAX_HEADER_SIZE) ==> Step(v, ch).Live?
  {
    hide CoreOk, ValueByte, FieldStep, SwitchStep, Switch, IsHeaderChar;
  }

  lemma NextValueByte(v: Call, u: Call, late: bool, ch: char)
    requires CallOk(u) && CallOk(v) && Ahead(v, u, late) && !u.exit && Step(u, ch).Live? && u.core.state.HeaderValue? && !IsNewline(ch)
    ensures Step(v, ch).Live? ==> Ahead(Step(v, ch), Step(u, ch), late && !Resets(u, ch))
    ensures Step(v, ch).Live? && late && Resets(u, ch) ==> Peak(u, ch) < MAX_HEADER_SIZE
    ensures (late ==> Peak(u, ch) < MAX_HEADER_SIZE) ==> Step(v, ch).Live?
  {
    hide CoreOk, ValueByte, FieldStep, SwitchStep, Switch, IsHeaderChar;
  }

  lemma NextSwitch(v: Call, u: Call, late: bool, ch: char)
    requires CallOk(u) && CallOk(v) && Ahead(v, u, late) && !u.exit && Step(u, ch).Live? && !u.core.state.HeaderField? && !u.core.state.HeaderValue?
    ensures Step(v, ch).Live? ==> Ahead(Step(v, ch), Step(u, ch), late && !Resets(u, ch))
    ensures Step(v, ch).Live? && late && Resets(u, ch) ==> Peak(u, ch) < MAX_HEADER_SIZE
    ensures (late ==> Peak(u, ch) < MAX_HEADER_SIZE) ==> Step(v, ch).Live?
  {
    hide CoreOk, ValueStep, FieldStep, Switch, Text, ParsingHeader;
  }

  /** Every later byte. */
  lemma NextByte(v: Call, u: Call, late: bool, ch: char)
    requires CallOk(u) && CallOk(v) && u.Live? && v.Live? && Ahead(v, u, late) && Step(u, ch).Live?
    ensures Step(v, ch).Live? ==> Ahead(Step(v, ch), Step(u, ch), late && !Resets(u, ch))
    ensures Step(v, ch).Live? && late && Resets(u, ch) ==> Peak(u, ch) < MAX_HEADER_SIZE
    ensures (late ==> Peak(u, ch) < MAX_HEADER_SIZE) ==> Step(v, ch).Live?
  {
    hide CallOk, Step, Peak, Resets, Weight;
    if u.exit {
      Exited(u, ch);
      Exited(v, ch);
    } else if u.core.state.HeaderField? {
      NextField(v, u, late, ch);
    } else if u.core.state.HeaderValue? {
      if IsNewline(ch) {
        NextValueEnd(v, u, late, ch);
      } else {
        NextValueByte(v, u, late, ch);
      }
    } else {
      NextSwitch(v, u, late, ch);
    }
  }

  lemma Exited(c: Call, ch: char)
    requires CallOk(c) && c.Live? && c.exit
    ensures Step(c, ch) == c && !Resets(c, ch)
  {
  }

  /** A call that ends without an error had at most the limit counted all along. */
  lemma {:induction false} Bounded(c: Call, y: seq<char>, k: nat)
    requires CallOk(c) && k <= |y| && Count(Steps(c, y, |y|)).Live?
    ensures Steps(c, y, k).Live? && Weight(Steps(c, y, k)) <= MAX_HEADER_SIZE
    decreases |y| - k
  {
    hide CoreOk, Step;
    StepsLive(c, y, k, |y|);
    if k < |y| {
      StepsLive(c, y, k + 1, |y|);
      var d := Steps(c, y, k);
      ClosesOrGoesOn(d, y[k]);
      if Weight(d) > MAX_HEADER_SIZE {
        assert Steps(c, y, k + 1) == Step(d, y[k]);
        Bounded(c, y, k + 1);
        assert false;
      }
    }
  }

  /** An open inner loop either goes on, counting more, or is counted and must fit. */
  lemma ClosesOrGoesOn(c: Call, ch: char)
    requires CallOk(c) && c.Live? && Step(c, ch).Live?
    ensures Weight(c) > MAX_HEADER_SIZE ==> Weight(Step(c, ch)) > MAX_HEADER_SIZE
  {
    hide CoreOk, FieldByte, ValueByte, Switch, IsToken, IsHeaderChar, Text, ParsingHeader;
    if c.core.state.HeaderField? {
    } else if c.core.state.HeaderValue? {
    } else {
    }
  }

  // ------------------------------------------------------------------ two pieces

  /** The second piece read after a boundary inside a name or value, against the one call. */
  lemma {:induction false} LateSteps(u: Call, v: Call, y: seq<char>, k: nat)
    requires CallOk(u) && u.Live? && !u.exit && u.run > 0 && Weight(u) <= MAX_HEADER_SIZE && v == Begin(Count(u))
    requires CallOk(v) && 0 < k <= |y| && Steps(u, y, k).Live?
    ensures Steps(v, y, k).Live? ==> Checked(u, y[0]) && Ahead(Steps(v, y, k), Steps(u, y, k), Late(u, y, k))
    ensures Steps(v, y, k).Live? ==>
              forall j :: 0 <= j < k && Late(u, y, j) && Resets(Steps(u, y, j), y[j]) ==> Peak(Steps(u, y, j), y[j]) < MAX_HEADER_SIZE
    ensures Checked(u, y[0]) && (forall j :: 0 <= j < k && Late(u, y, j) && Steps(u, y, j).Live? ==> Peak(Steps(u, y, j), y[j]) < MAX_HEADER_SIZE) ==>
              Steps(v, y, k).Live?
    decreases k
  {
    hide CallOk, Step, Peak, Resets, Checked, Weight;
    StepsLive(u, y, k - 1, k);
    var d := Steps(u, y, k - 1);
    if k == 1 {
      assert d == u && Steps(v, y, 0) == v;
      FirstByte(u, v, y[0]);
      NoReset(u, y[0]);
    } else {
      LateSteps(u, v, y, k - 1);
      var w := Steps(v, y, k - 1);
      if w.Live? {
        NextByte(w, d, Late(u, y, k - 1), y[k - 1]);
      } else {
        StopsAtFailure(w, y[k - 1]);
      }
    }
  }

  lemma NoReset(u: Call, ch: char)
    requires CallOk(u) && u.Live? && u.run > 0
    ensures !Resets(u, ch)
  {
    hide CoreOk, Switch;
  }

  /** What the second piece needs beyond what the one call needed. */
  lemma LateCall(u: Call, v: Call, y: seq<char>)
    requires CallOk(u) && u.Live? && !u.exit && u.run > 0 && v == Begin(Count(u)) && CallOk(v) && v.Live?
    requires y != [] && Count(Steps(u, y, |y|)).Live? && Weight(u) <= MAX_HEADER_SIZE
    ensures Count(Steps(v, y, |y|)).Live? <==> Checked(u, y[0]) && Roomy(u, y)
  {
    hide CallOk, Step, Checked, Ahead, Steps, Peak, Late;
    Bounded(u, y, |y|);
    LateSteps(u, v, y, |y|);
    if Checked(u, y[0]) && Roomy(u, y) {
      RoomAtEnd(u, v, y);
    }
    if Count(Steps(v, y, |y|)).Live? {
      forall k | 0 <= k < |y| && Late(u, y, k) && Steps(u, y, k).Live?
        ensures Peak(Steps(u, y, k), y[k]) < MAX_HEADER_SIZE
      {
        RoomAt(u, v, y, k);
      }
    }
  }

  lemma StepsNext(c: Call, y: seq<char>, k: nat)
    requires CallOk(c) && k < |y|
    ensures Steps(c, y, k + 1) == Step(Steps(c, y, k), y[k])
  {
    hide CallOk, Step;
  }

  lemma PeakIs(d: Call, ch: char)
    requires CallOk(d) && d.Live? && Step(d, ch).Live? && !Resets(d, ch)
    ensures Peak(d, ch) == Weight(Step(d, ch))
  {
    hide CallOk, Step, Resets;
  }

  lemma LateNext(u: Call, y: seq<char>, k: nat)
    requires CallOk(u) && k < |y| && Late(u, y, k) && !Resets(Steps(u, y, k), y[k])
    ensures Late(u, y, k + 1)
  {
    hide CallOk, Step, Resets, Steps;
  }

  lemma RoomAt(u: Call, v: Call, y: seq<char>, k: nat)
    requires CallOk(u) && u.Live? && !u.exit && u.run > 0 && v == Begin(Count(u)) && CallOk(v) && v.Live?
    requires k < |y| && Count(Steps(u, y, |y|)).Live? && Weight(u) <= MAX_HEADER_SIZE
    requires Count(Steps(v, y, |y|)).Live? && Late(u, y, k)
    ensures Steps(u, y, k).Live? && Peak(Steps(u, y, k), y[k]) < MAX_HEADER_SIZE
  {
    hide CallOk, Step, Checked, Resets, Steps, Late, Peak, Count;
    CountLive(Steps(v, y, |y|));
    CountLive(Steps(u, y, |y|));
    StepsLive(u, y, k, |y|);
    StepsLive(u, y, k + 1, |y|);
    LateSteps(u, v, y, |y|);
    var d := Steps(u, y, k);
    if !Resets(d, y[k]) {
      StepsNext(u, y, k);
      PeakIs(d, y[k]);
      LateNext(u, y, k);
      LateSteps(u, v, y, k + 1);
      Bounded(v, y, k + 1);
    }
  }

  lemma CountLive(c: Call)
    requires CallOk(c) && Count(c).Live?
    ensures c.Live?
  {
    hide CoreOk;
  }

  lemma RoomAtEnd(u: Call, v: Call, y: seq<char>)
    requires CallOk(u) && u.Live? && !u.exit && u.run > 0 && v == Begin(Count(u)) && CallOk(v) && v.Live?
    requires y != [] && Count(Steps(u, y, |y|)).Live? && Weight(u) <= MAX_HEADER_SIZE
    requires Checked(u, y[0]) && Roomy(u, y)
    ensures Count(Steps(v, y, |y|)).Live?
  {
    hide CallOk, Step, Checked, Resets, Steps, Late, Peak, Count;
    var n := |y|;
    Bounded(u, y, n);
    StepsLive(u, y, n - 1, n);
    LateSteps(u, v, y, n);
    StepsNext(u, y, n - 1);
    var d := Steps(u, y, n - 1);
    if Late(u, y, n) {
      LateBack(u, y, n);
      PeakIs(d, y[n - 1]);
    }
    CountFits(Steps(v, y, n));
  }

  lemma LateBack(u: Call, y: seq<char>, k: nat)
    requires CallOk(u) && 0 < k <= |y| && Late(u, y, k)
    ensures Late(u, y, k - 1) && !Resets(Steps(u, y, k - 1), y[k - 1])
  {
    hide CallOk, Step, Resets, Steps;
  }

  lemma CountFits(c: Call)
    requires CallOk(c) && c.Live?
    ensures Count(c).Live? <==> Weight(c) <= MAX_HEADER_SIZE
  {
    hide CoreOk;
  }

  /** The boundary between x and y does no harm. */
  ghost predicate CutOk(c: Call, x: seq<char>, y: seq<char>)
    requires CallOk(c) && y != []
  {
    var u := Steps(Begin(c), x, |x|);
    Checked(u, y[0]) && Roomy(u, y)
  }

  /**
   Exactly when two pieces are accepted, given that they are accepted together: the byte after
   the boundary passes the check the search would have skipped, and there is room for the byte
   counted twice.
   */
  lemma SplitExact(c: Call, x: seq<char>, y: seq<char>)
    requires CallOk(c) && c.Live? && x != [] && y != [] && Feed(c, x + y).Live?
    requires Steps(Begin(c), x, |x|).Live? ==> !Steps(Begin(c), x, |x|).exit
    ensures (Feed(c, x).Live? && Feed(Feed(c, x), y).Live?) <==> CutOk(c, x, y)
  {
    hide Step, CoreOk, Steps, Peak, Late, Checked;
    var u := Steps(Begin(c), x, |x|);
    StepsConcat(Begin(c), x, y, |y|);
    StepsConcat(Begin(c), x, y, 0);
    StepsNone(u, y);
    StepsLive(Begin(c), x + y, |x|, |x + y|);
    Bounded(u, y, 0);
    CountFits(u);
    var v := Begin(Count(u));
    assert Feed(c, x) == Count(u) && Feed(Count(u), y) == Count(Steps(v, y, |y|));
    if u.run > 0 {
      LateCall(u, v, y);
    } else {
      assert v == u;
      NotInside(u, y);
    }
  }

  lemma StepsNone(c: Call, y: seq<char>)
    requires CallOk(c)
    ensures Steps(c, y, 0) == c
  {
  }

  /** Between header names and values every boundary is harmless. */
  lemma NotInside(u: Call, y: seq<char>)
    requires CallOk(u) && u.Live? && u.run == 0 && y != []
    ensures Checked(u, y[0]) && Roomy(u, y)
  {
    hide CoreOk, IsHeaderChar, Peak, Steps;
    forall k | 0 <= k < |y|
      ensures !Late(u, y, k)
    {
      NeverLate(u, y, k);
    }
  }

  lemma {:induction false} NeverLate(u: Call, y: seq<char>, k: nat)
    requires CallOk(u) && u.Live? && u.run == 0 && k <= |y|
    ensures !Late(u, y, k)
  {
    hide CallOk, Steps, Resets;
    if k > 0 {
      NeverLate(u, y, k - 1);
    }
  }

  /** Far enough from the limit only the check is left. */
  lemma SplitWithRoom(c: Call, x: seq<char>, y: seq<char>)
    requires CallOk(c) && c.Live? && x != [] && y != [] && Feed(c, x + y).Live?
    requires var u := Steps(Begin(c), x, |x|); u.Live? && !u.exit && Weight(u) + |y| + 1 < MAX_HEADER_SIZE
    ensures (Feed(c, x).Live? && Feed(Feed(c, x), y).Live?) <==> Checked(Steps(Begin(c), x, |x|), y[0])
  {
    SplitExact(c, x, y);
    hide Step, CoreOk, Checked, Steps, Feed;
    RoomEnough(Steps(Begin(c), x, |x|), y);
  }

  lemma RoomEnough(u: Call, y: seq<char>)
    requires CallOk(u) && u.Live? && Weight(u) + |y| + 1 < MAX_HEADER_SIZE
    ensures Roomy(u, y)
  {
    hide CallOk, Steps, Late;
    forall k | 0 <= k < |y| && Late(u, y, k) && Steps(u, y, k).Live?
      ensures Peak(Steps(u, y, k), y[k]) < MAX_HEADER_SIZE
    {
      WeightGrows(u, y, k);
      OneMore(Steps(u, y, k), y[k]);
    }
  }

  lemma {:induction false} WeightGrows(u: Call, y: seq<char>, k: nat)
    requires CallOk(u) && u.Live? && k <= |y|
    ensures var d := Steps(u, y, k); d.Live? ==> Weight(d) <= Weight(u) + k + if d.run > 0 then 1 else 0
  {
    hide CallOk, Step;
    if k > 0 {
      WeightGrows(u, y, k - 1);
      var d := Steps(u, y, k - 1);
      if d.Live? {
        OneMore(d, y[k - 1]);
      } else {
        StopsAtFailure(d, y[k - 1]);
      }
    }
  }

  /** A byte adds one, or two when it opens an inner loop, which its end makes up for. */
  lemma OneMore(c: Call, ch: char)
    requires CallOk(c) && c.Live?
    ensures Step(c, ch).Live? ==> Weight(Step(c, ch)) + (if c.run > 0 then 1 else 0) <= Weight(c) + 1 + if Step(c, ch).run > 0 then 1 else 0
    ensures Peak(c, ch) <= Weight(c) + if c.run > 0 then 1 else 2
  {
    hide CoreOk, FieldByte, ValueByte, Switch, IsToken, IsHeaderChar, Text, ParsingHeader;
  }

  // ------------------------------------------------------------------ any pieces

  /** No boundary of the pieces does any harm. */
  ghost predicate AllCuts(c: Call, pieces: seq<seq<char>>)
    requires CallOk(c)
    decreases |pieces|
  {
    |pieces| <= 1 || Flatten(pieces[1..]) == [] ||
    (CutOk(c, pieces[0], Flatten(pieces[1..])) && AllCuts(Feed(c, pieces[0]), pieces[1..]))
  }

  /** A call that has not returned early had not after its first bytes. */
  lemma NoEarlyExit(c: Call, x: seq<char>, y: seq<char>)
    requires CallOk(c) && Fine(Feed(c, x + y)) && x != []
    ensures var u := Steps(Begin(c), x, |x|); u.Live? && !u.exit
  {
    hide Step, CoreOk;
    StepsPrefix(Begin(c), x, x + y, |x|);
    StepsLive(Begin(c), x + y, |x|, |x + y|);
    if Steps(Begin(c), x, |x|).exit {
      Stays(Begin(c), x + y, |x|, |x + y|);
    }
  }

  /**
   Exactly when bytes accepted in one call are accepted in given pieces: when no boundary
   does any harm.
   */
  lemma {:induction false} PiecesExact(c: Call, pieces: seq<seq<char>>)
    requires CallOk(c) && pieces != [] && forall i :: 0 <= i < |pieces| ==> pieces[i] != []
    requires Fine(c) && Fine(Feed(c, Flatten(pieces)))
    ensures Fine(FeedAll(c, pieces)) <==> AllCuts(c, pieces)
    decreases |pieces|
  {
    hide Feed, CallOk, CutOk;
    var x, rest := pieces[0], pieces[1..];
    var d := Feed(c, x);
    if rest == [] {
      assert x + [] == x && Flatten(rest) == [];
    } else {
      var y := Flatten(rest);
      NotEmpty(rest);
      NoEarlyExit(c, x, y);
      SplitExact(c, x, y);
      if d.Live? {
        ExitShows(c, x);
      }
      if Fine(FeedAll(c, pieces)) {
        RestAlive(c, pieces);
      }
      if d.Live? && Feed(d, y).Live? {
        SplitInvariance(c, x, y);
        PiecesExact(d, rest);
      }
    }
  }

  lemma RestAlive(c: Call, pieces: seq<seq<char>>)
    requires CallOk(c) && |pieces| >= 2 && forall i :: 0 <= i < |pieces| ==> pieces[i] != []
    requires Fine(c) && Fine(FeedAll(c, pieces))
    ensures Feed(c, pieces[0]).Live? && Feed(Feed(c, pieces[0]), Flatten(pieces[1..])).Live?
  {
    hide Feed, CallOk;
    var d, rest := Feed(c, pieces[0]), pieces[1..];
    assert !Fine(d) ==> FeedAll(d, rest) == d;
    FlattenInvariance(d, rest);
  }

  lemma ExitShows(c: Call, x: seq<char>)
    requires CallOk(c) && x != [] && Feed(c, x).Live?
    ensures Feed(c, x).exit == Steps(Begin(c), x, |x|).exit
  {
    hide Step, CoreOk, Steps;
  }

  /** One byte too many: with three bytes to the limit, two bytes of a value fit in one call and not in two. */
  lemma SplitOverflows(c: Call, x: char, y: char)
    requires CallOk(c) && c.Live? && !c.exit && c.run == 0 && !c.skip && c.nread + 3 == MAX_HEADER_SIZE
    requires c.core.state.HeaderValue? && c.core.hstate.HGeneral? && IsHeaderChar(x) && IsHeaderChar(y) && !IsNewline(x) && !IsNewline(y)
    ensures Feed(c, [x, y]).Live?
    ensures Feed(c, [x]).Live? && Feed(Feed(c, [x]), [y]) == Failed(HeaderOverflow)
  {
    hide CoreOk, IsHeaderChar;
    var d := Step(c, x);
    assert d == c.(nread := c.nread + 1, run := 1, skip := true, log := c.log + [Value(x)]);
    assert Begin(c) == c && Steps(c, [x, y], 0) == c && Steps(c, [x, y], 1) == d;
    assert Steps(c, [x, y], 2) == Step(d, y);
    assert Steps(c, [x], 0) == c && Steps(c, [x], 1) == d;
    var e := Feed(c, [x]);
    assert e == d.(nread := c.nread + 2, run := 0, skip := false);
    assert Begin(e) == e && Steps(e, [y], 0) == e && Steps(e, [y], 1) == Step(e, y);
  }
}
