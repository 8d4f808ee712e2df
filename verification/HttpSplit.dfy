/**
 What the parser accepts in pieces it accepts in one piece, with the same result. The
 converse fails; module HttpSplitExact says when it holds.
 */
module HttpSplit {
  import opened HttpTypes
  import opened HttpSwitch
  import opened HttpInvariant
  import opened HttpCall

  /**
   `b` is at least as far from an error as `a` and otherwise the same parser: it has
   counted no more header bytes, and it validates no byte that `a` does not.
   */
  ghost predicate Sim(a: Call, b: Call) {
    && a.Live? && b.Live?
    && a.core == b.core && a.log == b.log && a.exit == b.exit
    && b.nread + b.run <= a.nread + a.run
    && (a.run > 0 ==> b.run > 0)
    && (a.skip ==> b.skip)
  }

  /** Between calls, `b` is the same parser as `a` with nread no larger. */
  ghost predicate SameParser(a: Call, b: Call) {
    a.Live? && b.Live? && !a.skip && a.run == 0 && b == a.(nread := b.nread) && b.nread <= a.nread
  }

  lemma SimStep(a: Call, b: Call, ch: char)
    requires CallOk(a) && CallOk(b) && Sim(a, b) && Step(a, ch).Live?
    ensures Sim(Step(a, ch), Step(b, ch))
  {
    hide Switch, FieldByte, ValueByte, CoreOk, IsToken, IsHeaderChar, ParsingHeader, Text;
    if !a.exit {
      var c, d := Enter(a), Enter(b);
      assert Sim(c, d);
      if c.core.state.HeaderField? {
      } else if c.core.state.HeaderValue? {
      } else {
      }
    }
  }

  lemma {:induction false} SimSteps(a: Call, b: Call, data: seq<char>, n: nat)
    requires CallOk(a) && CallOk(b) && Sim(a, b) && n <= |data| && Steps(a, data, n).Live?
    ensures Sim(Steps(a, data, n), Steps(b, data, n))
  {
    hide Step, CallOk;
    if n > 0 {
      StepsLive(a, data, n - 1, n);
      SimSteps(a, b, data, n - 1);
      SimStep(Steps(a, data, n - 1), Steps(b, data, n - 1), data[n - 1]);
    }
  }

  lemma StopsAtFailure(c: Call, ch: char)
    requires CallOk(c)
    ensures c.Failed? ==> Step(c, ch) == c
  {
  }

  /** A call that is alive after m bytes was alive after fewer. */
  lemma {:induction false} StepsLive(c: Call, data: seq<char>, n: nat, m: nat)
    requires CallOk(c) && n <= m <= |data| && Steps(c, data, m).Live?
    ensures Steps(c, data, n).Live?
    decreases m
  {
    hide Step, CallOk;
    if n < m {
      StopsAtFailure(Steps(c, data, m - 1), data[m - 1]);
      StepsLive(c, data, n, m - 1);
    }
  }

  lemma {:induction false} StepsConcat(c: Call, x: seq<char>, y: seq<char>, n: nat)
    requires CallOk(c) && n <= |y|
    ensures Steps(c, x + y, |x| + n) == Steps(Steps(c, x, |x|), y, n)
    decreases |x| + n
  {
    hide Step, CallOk;
    if n > 0 {
      StepsConcat(c, x, y, n - 1);
    } else if |x| > 0 {
      StepsPrefix(c, x, x + y, |x|);
    }
  }

  lemma {:induction false} StepsPrefix(c: Call, x: seq<char>, z: seq<char>, n: nat)
    requires CallOk(c) && n <= |x| <= |z| && x == z[..|x|]
    ensures Steps(c, x, n) == Steps(c, z, n)
  {
    hide Step, CallOk;
    if n > 0 {
      StepsPrefix(c, x, z, n - 1);
    }
  }

  lemma SimCount(a: Call, b: Call)
    requires CallOk(a) && CallOk(b) && Sim(a, b) && Count(a).Live?
    ensures SameParser(Count(a), Count(b))
  {
  }

  /** Feeding a parser that has counted less is no worse. */
  lemma FeedMono(a: Call, b: Call, data: seq<char>)
    requires CallOk(a) && CallOk(b) && SameParser(a, b) && Feed(a, data).Live?
    ensures SameParser(Feed(a, data), Feed(b, data))
  {
    if data != [] {
      SimSteps(Begin(a), Begin(b), data, |data|);
      SimCount(Steps(Begin(a), data, |data|), Steps(Begin(b), data, |data|));
    }
  }

  /**
   Split invariance. If feeding `x` and then `y` ends without an error, then feeding
   `x + y` in one call does too, with the same fields and the same callback text;
   only nread may be smaller (a call that ends inside a header name or value counts
   one byte too many).
   */
  lemma SplitInvariance(c: Call, x: seq<char>, y: seq<char>)
    requires CallOk(c) && x != [] && y != []
    requires Feed(c, x).Live? && !Feed(c, x).exit && Feed(Feed(c, x), y).Live?
    ensures SameParser(Feed(Feed(c, x), y), Feed(c, x + y))
  {
    hide Step, CoreOk, Steps;
    var u := Steps(Begin(c), x, |x|);
    var v := Begin(Count(u));
    assert Sim(v, u);
    SimSteps(v, u, y, |y|);
    SimCount(Steps(v, y, |y|), Steps(u, y, |y|));
    StepsConcat(Begin(c), x, y, |y|);
  }

  // ------------------------------------------------------------------- any split

  ghost function Flatten(pieces: seq<seq<char>>): seq<char> {
    if pieces == [] then [] else pieces[0] + Flatten(pieces[1..])
  }

  /** One call per byte: the finest split. */
  ghost function Singles(s: seq<char>): (r: seq<seq<char>>) {
    seq(|s|, i requires 0 <= i < |s| => [s[i]])
  }

  ghost predicate Fine(c: Call) { c.Live? && !c.exit }

  lemma {:induction false} FeedAllConcat(c: Call, p: seq<seq<char>>, q: seq<seq<char>>)
    requires CallOk(c)
    ensures FeedAll(c, p + q) == FeedAll(FeedAll(c, p), q)
    decreases |p|
  {
    hide Feed, CallOk;
    if p == [] {
      assert p + q == q;
    } else if Fine(c) {
      assert (p + q)[1..] == p[1..] + q;
      FeedAllConcat(Feed(c, p[0]), p[1..], q);
    }
  }

  lemma {:induction false} FeedAllMono(a: Call, b: Call, pieces: seq<seq<char>>)
    requires CallOk(a) && CallOk(b) && SameParser(a, b) && Fine(FeedAll(a, pieces))
    ensures SameParser(FeedAll(a, pieces), FeedAll(b, pieces))
    decreases |pieces|
  {
    hide Feed, CallOk;
    if pieces != [] && Fine(a) {
      FeedMono(a, b, pieces[0]);
      FeedAllMono(Feed(a, pieces[0]), Feed(b, pieces[0]), pieces[1..]);
    }
  }

  lemma {:induction false} MergeSingles(c: Call, s: seq<char>)
    requires CallOk(c) && c.Live? && !c.exit && s != [] && Fine(FeedAll(c, Singles(s)))
    ensures SameParser(FeedAll(c, Singles(s)), Feed(c, s))
    decreases |s|
  {
    hide Feed, CallOk;
    var t, x := s[..|s| - 1], [s[|s| - 1]];
    assert Singles(s) == Singles(t) + [x];
    FeedAllConcat(c, Singles(t), [x]);
    var d := FeedAll(c, Singles(t));
    assert Fine(d) by {
      assert FeedAll(d, [x]) == FeedAll(c, Singles(s));
    }
    assert [x][0] == x && [x][1..] == [];
    assert FeedAll(d, [x]) == FeedAll(Feed(d, x), []) == Feed(d, x);
    if t == [] {
      assert s == x && d == c;
      FeedShape(c, s);
    } else {
      MergeSingles(c, t);
      FeedMono(d, Feed(c, t), x);
      SplitInvariance(c, t, x);
      assert t + x == s;
    }
  }

  /** After a call, no inner loop is open. */
  lemma FeedShape(c: Call, data: seq<char>)
    requires CallOk(c)
    ensures Feed(c, data).Live? ==> SameParser(Feed(c, data), Feed(c, data))
  {
    hide Steps;
  }

  /**
   If a byte string is accepted one byte per call, then it is accepted however it is
   cut into nonempty pieces, with the same fields and the same callback text.
   */
  lemma {:induction false} AnySplit(c: Call, pieces: seq<seq<char>>)
    requires CallOk(c) && c.Live? && !c.exit && c.run == 0 && !c.skip
    requires forall i :: 0 <= i < |pieces| ==> pieces[i] != []
    requires Fine(FeedAll(c, Singles(Flatten(pieces))))
    ensures SameParser(FeedAll(c, Singles(Flatten(pieces))), FeedAll(c, pieces))
    decreases |pieces|
  {
    hide Feed, CallOk;
    if pieces != [] {
      var s, rest := pieces[0], Flatten(pieces[1..]);
      assert Singles(s + rest) == Singles(s) + Singles(rest);
      FeedAllConcat(c, Singles(s), Singles(rest));
      var d := FeedAll(c, Singles(s));
      assert Fine(d) by {
        assert FeedAll(d, Singles(rest)) == FeedAll(c, Singles(Flatten(pieces)));
      }
      MergeSingles(c, s);
      FeedAllMono(d, Feed(c, s), Singles(rest));
      AnySplit(Feed(c, s), pieces[1..]);
    } else {
      assert Singles(Flatten(pieces)) == [];
    }
  }

  /**
   Split invariance for any number of pieces: what ends without an error in pieces ends
   without an error in one call, with the same fields and the same callback text.
   */
  lemma {:induction false} FlattenInvariance(c: Call, pieces: seq<seq<char>>)
    requires CallOk(c) && pieces != [] && forall i :: 0 <= i < |pieces| ==> pieces[i] != []
    requires Fine(c) && Fine(FeedAll(c, pieces))
    ensures SameParser(FeedAll(c, pieces), Feed(c, Flatten(pieces)))
    decreases |pieces|
  {
    hide Feed, CallOk;
    var x, rest := pieces[0], pieces[1..];
    var d := Feed(c, x);
    if rest == [] {
      assert x + [] == x && Flatten(rest) == [];
      FeedShape(c, x);
    } else {
      FlattenInvariance(d, rest);
      NotEmpty(rest);
      SplitInvariance(c, x, Flatten(rest));
    }
  }

  lemma NotEmpty(pieces: seq<seq<char>>)
    requires pieces != [] && pieces[0] != []
    ensures Flatten(pieces) != []
  {
  }

  /**
   The converse does not hold: inside a header value the search for CR or LF skips bytes
   without looking at them, so a forbidden byte that goes unnoticed in one call is an error
   when a call happens to start with it.
   */
  lemma SplitConverseFails(c: Call, x: char, y: char)
    requires CallOk(c) && c.Live? && !c.exit && c.run == 0 && !c.skip && c.nread + 3 <= MAX_HEADER_SIZE
    requires c.core.state.HeaderValue? && c.core.hstate.HGeneral? && !c.core.lenient
    requires IsHeaderChar(x) && !IsNewline(x) && !IsHeaderChar(y) && !IsNewline(y)
    ensures Feed(c, [x, y]).Live?
    ensures Feed(c, [x]).Live? && Feed(Feed(c, [x]), [y]) == Failed(InvalidHeaderToken)
  {
    hide CoreOk, IsHeaderChar;
    var d := Step(c, x);
    assert d == c.(nread := c.nread + 1, run := 1, skip := true, log := c.log + [Value(x)]);
    assert Begin(c) == c;
    assert Steps(c, [x, y], 0) == c;
    assert Steps(c, [x, y], 1) == d;
    assert Step(d, y).Live?;
    assert Steps(c, [x, y], 2) == Step(d, y);
    assert Steps(c, [x], 0) == c;
    assert Steps(c, [x], 1) == d;
    var e := Feed(c, [x]);
    assert e == d.(nread := c.nread + 2, run := 0, skip := false);
    assert Begin(e) == e && Steps(e, [y], 0) == e;
    assert Steps(e, [y], 1) == Step(e, y);
  }
}
