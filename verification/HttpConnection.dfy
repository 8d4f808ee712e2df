/** Reading the value of a Connection header: which of the three options it names. */
module HttpConnection {
  import opened HttpTypes
  import opened HttpSwitch
  import opened HttpInvariant
  import opened HttpCall
  import opened HttpMicro
  import opened HttpLengths
  import opened HttpNames
  import opened HttpHeaders
  import opened HttpValues

  datatype ConnOptions = ConnOptions(keepAlive: bool, close: bool, upgrade: bool)

  const NO_OPTIONS := ConnOptions(false, false, false)

  function Union(a: ConnOptions, b: ConnOptions): ConnOptions {
    ConnOptions(a.keepAlive || b.keepAlive, a.close || b.close, a.upgrade || b.upgrade)
  }

  /** The word in any case, and then only spaces. */
  predicate IsOption(item: seq<char>, word: string) {
    |word| <= |item| && LowerText(item)[..|word|] == word && Blanks(item[|word|..])
  }

  /** A beginning of the word, short of it. */
  predicate IsPart(item: seq<char>, word: string) { |item| < |word| && LowerText(item) <= word }

  const KEEP_ALIVE := "keep-alive"
  const CLOSE := "close"
  const UPGRADE := "upgrade"

  function Named(item: seq<char>): ConnOptions {
    ConnOptions(IsOption(item, KEEP_ALIVE), IsOption(item, CLOSE), IsOption(item, UPGRADE))
  }

  predicate Unfinished(item: seq<char>) { IsPart(item, KEEP_ALIVE) || IsPart(item, CLOSE) || IsPart(item, UPGRADE) }

  /** Where the first comma is, or the end. */
  function Comma(s: seq<char>): (k: nat)
    ensures k <= |s| && (k < |s| ==> s[k] == ',')
  {
    if s == [] || s[0] == ',' then 0 else 1 + Comma(s[1..])
  }

  function AfterComma(s: seq<char>): (r: seq<char>)
    ensures |r| <= |s| && (s != [] ==> |r| < |s|)
  {
    if Comma(s) == |s| then [] else s[Comma(s) + 1..]
  }

  /**
   The options named in a list. An item that is the beginning of an option and no more takes the
   comma after it with it; an item that does not start like a token, a tab for one, ends the
   search. Spaces are skipped before every item but the first, which starts the value.
   */
  function Listed(s: seq<char>, first: bool): ConnOptions
    decreases |s|, 1
  {
    if s == [] then NO_OPTIONS
    else if !first && s[0] == ' ' then Listed(s[1..], false)
    else if !first && !IsToken(Lower(s[0])) then NO_OPTIONS
    else Item([], s)
  }

  /** The same, with `p` already read of the first item. */
  function Item(p: seq<char>, s: seq<char>): ConnOptions
    decreases |s|, 0
  {
    var k := Comma(s);
    var item := p + s[..k];
    if k == |s| then Named(item)
    else if Unfinished(item) then Listed(AfterComma(s[k + 1..]), false)
    else Union(Named(item), Listed(s[k + 1..], false))
  }

  // ----------------------------------------------------------------------- one item at a time

  /** Where the reader of a value is: before an item, inside one, past a comma taken for part of one, or done looking. */
  datatype Mode = AtStart | Inside(p: seq<char>) | Skipping | Off

  function ToRead(m: Mode, s: seq<char>): ConnOptions {
    if m.AtStart? then Listed(s, false)
    else if m.Inside? then Item(m.p, s)
    else if m.Skipping? then Listed(AfterComma(s), false)
    else NO_OPTIONS
  }

  function Matched(p: seq<char>): HState {
    if IsPart(p, KEEP_ALIVE) then MatchingKeepAlive
    else if IsPart(p, CLOSE) then MatchingClose
    else if IsPart(p, UPGRADE) then MatchingConnUpgrade
    else if IsOption(p, KEEP_ALIVE) then HKeepAlive
    else if IsOption(p, CLOSE) then HClose
    else if IsOption(p, UPGRADE) then HConnUpgrade
    else ConnToken
  }

  ghost predicate Tracks(c: Core, m: Mode) {
    if m.AtStart? then c.hstate.TokenStart?
    else if m.Inside? then m.p != [] && c.hstate == Matched(m.p) && (Unfinished(m.p) ==> c.index == |m.p| - 1)
    else if m.Skipping? then c.hstate.ConnToken?
    else c.hstate.HGeneral?
  }

  function Flagged(c: Core): ConnOptions { ConnOptions(c.flags.keepAlive, c.flags.close, c.flags.connUpgrade) }

  /** Only what a Connection value may change has changed. */
  ghost predicate OnlyOptions(c: Core, d: Core) {
    d == c.(hstate := d.hstate, index := d.index,
            flags := c.flags.(keepAlive := d.flags.keepAlive, close := d.flags.close, connUpgrade := d.flags.connUpgrade))
  }

  /** What one more character makes of a part of a word, and of the word. */
  lemma OneMore(p: seq<char>, ch: char, word: string)
    requires p != [] && |word| > 1
    ensures var g := p + [ch];
            var goesOn := IsPart(p, word) && Lower(ch) == word[|p|];
            && (IsPart(g, word) <==> goesOn && |g| < |word|)
            && (IsOption(g, word) <==> (goesOn && |g| == |word|) || (IsOption(p, word) && ch == ' '))
            && !(IsPart(p, word) && IsOption(p, word))
  {
    var g := p + [ch];
    LowerSnoc(p, ch);
    if |p| < |word| {
      assert LowerText(g)[..|p|] == LowerText(p);
      assert |g| == |word| ==> LowerText(g)[..|word|] == LowerText(g) && g[|word|..] == [];
      if LowerText(p) <= word && Lower(ch) == word[|p|] {
        assert word[..|g|] == word[..|p|] + [word[|p|]];
      }
      if LowerText(g) <= word {
        assert word[|p|] == LowerText(g)[|p|];
      }
    } else {
      assert LowerText(g)[..|word|] == LowerText(p)[..|word|];
      assert g[|word|..] == p[|word|..] + [ch];
      if Blanks(g[|word|..]) {
        assert g[|word|..][|p| - |word|] == ch;
        assert forall i :: 0 <= i < |p| - |word| ==> p[|word|..][i] == g[|word|..][i];
      }
    }
  }

  /** The words start differently. */
  lemma FirstLetter(p: seq<char>, word: string)
    requires p != [] && |word| > 1 && (IsPart(p, word) || IsOption(p, word))
    ensures Lower(p[0]) == word[0]
  {
    assert LowerText(p)[0] == Lower(p[0]);
    if IsOption(p, word) {
      assert LowerText(p)[..|word|][0] == LowerText(p)[0];
    }
  }

  lemma Words()
    ensures |KEEP_ALIVE| == 10 && |CLOSE| == 5 && |UPGRADE| == 7 && KEEP_ALIVE[0] == 'k' && CLOSE[0] == 'c' && UPGRADE[0] == 'u'
    ensures Word(MatchingKeepAlive) == KEEP_ALIVE && Word(MatchingClose) == CLOSE && Word(MatchingConnUpgrade) == UPGRADE
    ensures forall i :: 0 <= i < 10 ==> KEEP_ALIVE[i] != ','
    ensures forall i :: 0 <= i < 5 ==> CLOSE[i] != ','
    ensures forall i :: 0 <= i < 7 ==> UPGRADE[i] != ','
  {
  }

  lemma AtMostOne(p: seq<char>)
    requires p != []
    ensures IsPart(p, KEEP_ALIVE) || IsOption(p, KEEP_ALIVE) ==> Lower(p[0]) == 'k'
    ensures IsPart(p, CLOSE) || IsOption(p, CLOSE) ==> Lower(p[0]) == 'c'
    ensures IsPart(p, UPGRADE) || IsOption(p, UPGRADE) ==> Lower(p[0]) == 'u'
  {
    Words();
    hide IsPart, IsOption;
    if IsPart(p, KEEP_ALIVE) || IsOption(p, KEEP_ALIVE) { FirstLetter(p, KEEP_ALIVE); }
    if IsPart(p, CLOSE) || IsOption(p, CLOSE) { FirstLetter(p, CLOSE); }
    if IsPart(p, UPGRADE) || IsOption(p, UPGRADE) { FirstLetter(p, UPGRADE); }
  }

  ghost predicate Fits(word: string, m: HState, done: HState) {
    || (word == KEEP_ALIVE && m.MatchingKeepAlive? && done.HKeepAlive?)
    || (word == CLOSE && m.MatchingClose? && done.HClose?)
    || (word == UPGRADE && m.MatchingConnUpgrade? && done.HConnUpgrade?)
  }

  /** The header state after one more character of an item, by what the item was. */
  lemma MatchedMore(p: seq<char>, ch: char, word: string, m: HState, done: HState)
    requires p != [] && Fits(word, m, done)
    ensures IsPart(p, word) ==>
              && |p| < |word| && Matched(p) == m
              && Matched(p + [ch]) == if Lower(ch) == word[|p|] then (if |p| + 1 == |word| then done else m) else ConnToken
    ensures IsOption(p, word) ==> Matched(p) == done && Matched(p + [ch]) == if ch == ' ' then done else ConnToken
  {
    Words();
    AtMostOne(p);
    AtMostOne(p + [ch]);
    OneMore(p, ch, KEEP_ALIVE);
    OneMore(p, ch, CLOSE);
    OneMore(p, ch, UPGRADE);
    assert IsPart(p, word) ==> |p| < |word|;
    hide IsPart, IsOption, Word, Lower;
  }

  lemma NeitherMore(p: seq<char>, ch: char)
    requires p != [] && Matched(p).ConnToken?
    ensures Matched(p + [ch]).ConnToken?
  {
    Words();
    OneMore(p, ch, KEEP_ALIVE);
    OneMore(p, ch, CLOSE);
    OneMore(p, ch, UPGRADE);
    hide IsPart, IsOption, Word, Lower;
  }

  lemma PartByte(c: Core, ch: char, word: string, m: HState, done: HState)
    requires CoreOk(c) && c.state.HeaderValue? && Fits(word, m, done) && c.hstate == m && c.index + 1 < |word|
    ensures ValueByte(c, ch) ==
            ValueNext(c.(index := c.index + 1,
                         hstate := if Lower(ch) != word[c.index + 1] then ConnToken else if c.index + 2 == |word| then done else m))
  {
    Words();
    hide Lower, LengthDigit, GuardOk, Word;
  }

  lemma WordByte(c: Core, ch: char)
    requires CoreOk(c) && c.state.HeaderValue? && (c.hstate.HKeepAlive? || c.hstate.HClose? || c.hstate.HConnUpgrade?)
    ensures ValueByte(c, ch) == ValueNext(if ch == ',' then ApplyConnection(c).(hstate := TokenStart, index := 0)
                                          else if ch == ' ' then c else c.(hstate := ConnToken))
  {
    hide Lower, LengthDigit, GuardOk;
  }

  lemma TokenByte(c: Core, ch: char)
    requires CoreOk(c) && c.state.HeaderValue? && c.hstate.ConnToken?
    ensures ValueByte(c, ch) == ValueNext(if ch == ',' then c.(hstate := TokenStart, index := 0) else c)
  {
    hide Lower, LengthDigit, GuardOk;
  }

  /** Which word a header state stands for. */
  lemma WordOf(p: seq<char>) returns (word: string, m: HState, done: HState)
    requires p != []
    ensures Matched(p).ConnToken? || (Fits(word, m, done) && (IsPart(p, word) || IsOption(p, word)))
    ensures Matched(p).ConnToken? ==> !Unfinished(p) && Named(p) == NO_OPTIONS
  {
    hide IsPart, IsOption;
    if IsPart(p, KEEP_ALIVE) || IsOption(p, KEEP_ALIVE) {
      word, m, done := KEEP_ALIVE, MatchingKeepAlive, HKeepAlive;
    } else if IsPart(p, CLOSE) || IsOption(p, CLOSE) {
      word, m, done := CLOSE, MatchingClose, HClose;
    } else {
      word, m, done := UPGRADE, MatchingConnUpgrade, HConnUpgrade;
    }
  }

  /** A byte that is not a comma, inside an item. */
  lemma InsideByte(c: Core, p: seq<char>, ch: char)
    requires CoreOk(c) && c.state.HeaderValue? && Tracks(c, Inside(p)) && ch != ','
    ensures ValueByte(c, ch).ValueNext?
    ensures var d := ValueByte(c, ch).core; Tracks(d, Inside(p + [ch])) && d == c.(hstate := d.hstate, index := d.index)
  {
    hide CoreOk, ValueByte, Matched, Unfinished, IsPart, IsOption, Fits;
    var word, m, done := WordOf(p);
    MatchedParts(p);
    MatchedParts(p + [ch]);
    if Matched(p).ConnToken? {
      NeitherMore(p, ch);
      TokenByte(c, ch);
    } else {
      MatchedMore(p, ch, word, m, done);
      FitsFacts(word, m, done);
      if IsPart(p, word) {
        PartByte(c, ch, word, m, done);
      } else {
        WordByte(c, ch);
      }
    }
  }

  lemma MatchedParts(p: seq<char>)
    ensures Unfinished(p) <==> Matched(p).MatchingKeepAlive? || Matched(p).MatchingClose? || Matched(p).MatchingConnUpgrade?
  {
    hide IsPart, IsOption;
  }

  lemma FitsFacts(word: string, m: HState, done: HState)
    requires Fits(word, m, done)
    ensures m.MatchingKeepAlive? || m.MatchingClose? || m.MatchingConnUpgrade?
    ensures done.HKeepAlive? || done.HClose? || done.HConnUpgrade?
  {
  }

  /** The comma after an item. */
  lemma CommaByte(c: Core, p: seq<char>)
    requires CoreOk(c) && c.state.HeaderValue? && Tracks(c, Inside(p))
    ensures ValueByte(c, ',').ValueNext?
    ensures var d := ValueByte(c, ',').core;
            && OnlyOptions(c, d) && Tracks(d, if Unfinished(p) then Skipping else AtStart)
            && Flagged(d) == if Unfinished(p) then Flagged(c) else Union(Flagged(c), Named(p))
  {
    hide CoreOk, ValueByte, Matched, Unfinished, IsPart, IsOption, Fits, Named, ApplyConnection;
    var word, m, done := WordOf(p);
    MatchedParts(p);
    if Matched(p).ConnToken? {
      TokenByte(c, ',');
    } else {
      MatchedMore(p, ',', word, m, done);
      FitsFacts(word, m, done);
      if IsPart(p, word) {
        NoComma(word, m, done);
        PartByte(c, ',', word, m, done);
      } else {
        WordByte(c, ',');
        Applied(c, p);
      }
    }
  }

  lemma NoComma(word: string, m: HState, done: HState)
    requires Fits(word, m, done)
    ensures forall i :: 0 <= i < |word| ==> word[i] != Lower(',')
  {
    Words();
  }

  /** What a complete item sets. */
  lemma Applied(c: Core, p: seq<char>)
    requires p != [] && c.hstate == Matched(p) && !Unfinished(p)
    ensures var d := ApplyConnection(c); OnlyOptions(c, d) && Flagged(d) == Union(Flagged(c), Named(p))
  {
    hide IsPart, IsOption;
    AtMostOne(p);
  }

  // ------------------------------------------------------------------------- the whole value

  lemma CommaOf(s: seq<char>)
    requires s != []
    ensures s[0] == ',' ==> Comma(s) == 0 && AfterComma(s) == s[1..]
    ensures s[0] != ',' ==> Comma(s) == 1 + Comma(s[1..]) && AfterComma(s) == AfterComma(s[1..])
  {
  }

  lemma ItemMore(p: seq<char>, s: seq<char>)
    requires s != [] && s[0] != ','
    ensures Item(p, s) == Item(p + [s[0]], s[1..])
  {
    var k := Comma(s[1..]);
    CommaOf(s);
    assert s[..k + 1] == [s[0]] + s[1..][..k];
    assert p + s[..k + 1] == (p + [s[0]]) + s[1..][..k];
    assert s[k + 1..] == s[1..][k..];
    hide Unfinished, Named, AfterComma, Comma, Listed;
  }

  lemma ItemOver(p: seq<char>, s: seq<char>)
    requires s != [] && s[0] == ','
    ensures Item(p, s) == if Unfinished(p) then Listed(AfterComma(s[1..]), false) else Union(Named(p), Listed(s[1..], false))
  {
    CommaOf(s);
    assert p + s[..0] == p;
    hide Unfinished, Named, AfterComma, Comma, Listed;
  }

  /** Between items. */
  lemma NewItem(c: Core, ch: char) returns (m: Mode)
    requires CoreOk(c) && c.state.HeaderValue? && c.hstate.TokenStart? && IsHeaderChar(ch)
    ensures m == if ch == ' ' then AtStart else if !IsToken(Lower(ch)) then Off else Inside([ch])
    ensures ValueByte(c, ch).ValueNext?
    ensures var d := ValueByte(c, ch).core; Tracks(d, m) && d == c.(hstate := d.hstate)
  {
    m := if ch == ' ' then AtStart else if !IsToken(Lower(ch)) then Off else Inside([ch]);
    OneLetter(ch);
    SpaceIsNoToken(ch);
    MatchedParts([ch]);
    hide LengthDigit, Lower, IsToken, Matched, Unfinished;
  }

  lemma SpaceIsNoToken(ch: char)
    requires IsHeaderChar(ch)
    ensures ch == ' ' <==> Lower(ch) == ' '
    ensures Lower(ch) != '\t' && !IsToken(' ') && IsToken('k') && IsToken('c') && IsToken('u')
  {
  }

  /** The first letter of an item. */
  lemma OneLetter(ch: char)
    ensures Matched([ch]) == if Lower(ch) == 'k' then MatchingKeepAlive else if Lower(ch) == 'c' then MatchingClose
                             else if Lower(ch) == 'u' then MatchingConnUpgrade else ConnToken
  {
    Words();
    var l := LowerText([ch]);
    assert l == [Lower(ch)];
    assert forall w: string :: |w| > 1 ==> (IsPart([ch], w) <==> w[0] == Lower(ch)) && !IsOption([ch], w);
    hide IsPart, IsOption, Lower;
  }

  /** One byte of the value: what the fields say and what is left to read name the same options. */
  lemma ModeStep(c: Core, m: Mode, s: seq<char>) returns (n: Mode)
    requires CoreOk(c) && c.state.HeaderValue? && Tracks(c, m) && s != [] && IsHeaderChar(s[0])
    ensures ValueByte(c, s[0]).ValueNext?
    ensures var d := ValueByte(c, s[0]).core;
            Tracks(d, n) && OnlyOptions(c, d) && Union(Flagged(d), ToRead(n, s[1..])) == Union(Flagged(c), ToRead(m, s))
  {
    hide CoreOk, ValueByte, Tracks, Matched, Unfinished, Named, Item, AfterComma, Comma, Lower, IsToken;
    var ch := s[0];
    match m
    case AtStart =>
      TracksState(c, m);
      n := NewItem(c, ch);
      NextItem(s);
    case Inside(p) =>
      if ch == ',' {
        CommaByte(c, p);
        n := if Unfinished(p) then Skipping else AtStart;
        ItemOver(p, s);
      } else {
        InsideByte(c, p, ch);
        n := Inside(p + [ch]);
        ItemMore(p, s);
      }
    case Skipping =>
      TracksState(c, m);
      TokenByte(c, ch);
      CommaOf(s);
      n := if ch == ',' then AtStart else Skipping;
      TracksState(ValueByte(c, ch).core, n);
    case Off =>
      TracksState(c, m);
      OffByte(c, ch);
      n := Off;
  }

  lemma TracksState(c: Core, m: Mode)
    requires !m.Inside?
    ensures Tracks(c, m) <==> if m.AtStart? then c.hstate.TokenStart? else if m.Skipping? then c.hstate.ConnToken? else c.hstate.HGeneral?
  {
  }

  lemma NextItem(s: seq<char>)
    requires s != []
    ensures Listed(s, false) ==
            if s[0] == ' ' then Listed(s[1..], false) else if !IsToken(Lower(s[0])) then NO_OPTIONS else Item([s[0]], s[1..])
  {
    hide Item, Lower, IsToken;
    if s[0] != ' ' && IsToken(Lower(s[0])) {
      assert !IsToken(Lower(',')) by { CommaIsNoToken(); }
      ItemMore([], s);
      assert [] + [s[0]] == [s[0]];
    }
  }

  lemma CommaIsNoToken()
    ensures !IsToken(Lower(','))
  {
  }

  lemma OffByte(c: Core, ch: char)
    requires CoreOk(c) && c.state.HeaderValue? && c.hstate.HGeneral?
    ensures ValueByte(c, ch) == ValueNext(c)
  {
    hide LengthDigit, Lower;
  }

  lemma {:induction false} ListRest(c: Core, m: Mode, s: seq<char>) returns (n: Mode)
    requires CoreOk(c) && c.state.HeaderValue? && Tracks(c, m) && IsPlain(s)
    ensures var r := Micros(c, s);
            && r.Moved? && r.events == ValueEvents(s) && OnlyOptions(c, r.core) && Tracks(r.core, n)
            && Union(Flagged(r.core), ToRead(n, [])) == Union(Flagged(c), ToRead(m, s))
    decreases |s|
  {
    n := m;
    if s != [] {
      hide IsHeaderChar, Tracks, ToRead;
      n := ModeStep(c, m, s);
      PlainStep(c, s[0]);
      MicroStepOk(c, s[0]);
      hide MicroStep, CoreOk, ValueByte;
      n := ListRest(ValueByte(c, s[0]).core, n, s[1..]);
      assert [Value(s[0])] + ValueEvents(s[1..]) == ValueEvents(s);
    }
  }

  /** At the end of the line a complete item counts. */
  lemma LastItem(c: Core, m: Mode)
    requires Tracks(c, m)
    ensures var e := Settle(c.(state := HeaderValueLws));
            && e.state.HeaderFieldStart? && OnlyOptions(c, e.(state := c.state))
            && Flagged(e) == Union(Flagged(c), ToRead(m, []))
  {
    assert AfterComma([]) == [] && Listed([], false) == NO_OPTIONS;
    if m.Inside? {
      assert m.p + [] == m.p;
      assert Item(m.p, []) == Named(m.p);
      LastInside(c, m.p);
      hide IsPart, IsOption, Matched;
    }
  }

  lemma LastInside(c: Core, p: seq<char>)
    requires p != [] && c.hstate == Matched(p)
    ensures OnlyOptions(c, ApplyConnection(c)) && Flagged(ApplyConnection(c)) == Union(Flagged(c), Named(p))
    ensures !c.hstate.HChunked?
  {
    hide Named, IsPart, IsOption;
    MatchedParts(p);
    if Unfinished(p) {
      NothingYet(p);
    } else {
      Applied(c, p);
    }
  }

  lemma NothingYet(p: seq<char>)
    requires p != [] && Unfinished(p)
    ensures Named(p) == NO_OPTIONS
  {
    AtMostOne(p);
    assert IsPart(p, KEEP_ALIVE) ==> |p| < |KEEP_ALIVE|;
    assert IsPart(p, CLOSE) ==> |p| < |CLOSE|;
    assert IsPart(p, UPGRADE) ==> |p| < |UPGRADE|;
    hide IsPart;
  }

  /** The first character of the value: it starts an item, whatever it is. */
  lemma FirstItem(d: Core, v: seq<char>) returns (e: Core, m: Mode)
    requires CoreOk(d) && d.state.DiscardWs? && d.hstate.HConnection? && v != [] && v[0] != ' ' && v[0] != '\t' && !IsNewline(v[0])
    ensures CoreOk(e) && e.state.HeaderValue? && e == d.(state := HeaderValue, hstate := e.hstate, index := 0)
    ensures MicroStep(d, v[0]) == Moved(e, [Value(v[0])])
    ensures Tracks(e, m) && ToRead(m, v[1..]) == Listed(v, true)
  {
    var x := v[0];
    var l := Lower(x);
    e := d.(state := HeaderValue, index := 0,
            hstate := if l == 'k' then MatchingKeepAlive else if l == 'c' then MatchingClose
                      else if l == 'u' then MatchingConnUpgrade else ConnToken);
    assert ValueStartByte(d, x) == Go(e);
    ValueStart(d, x);
    hide MicroStep, ValueStartByte, CoreOk, Lower;
    m := if x == ',' then Skipping else Inside([x]);
    assert Listed(v, true) == Item([], v);
    assert Unfinished([]);
    OneLetter(x);
    CommaIsNoWord();
    hide Item, Listed, Matched, Unfinished;
    if x == ',' {
      ItemOver([], v);
    } else {
      ItemMore([], v);
      assert [] + [x] == [x];
    }
  }

  lemma CommaIsNoWord()
    ensures Lower(',') == ','
  {
  }

  /** The value of a Connection line. */
  lemma ConnectionValue(d: Core, v: seq<char>) returns (e: Core, f: Core)
    requires CoreOk(d) && d.state.DiscardWs? && d.hstate.HConnection? && v != [] && IsPlain(v) && v[0] != ' ' && v[0] != '\t'
    ensures CoreOk(e) && CoreOk(f) && f.state.HeaderValue?
    ensures MicroStep(d, v[0]) == Moved(e, [Value(v[0])]) && Micros(e, v[1..]) == Moved(f, ValueEvents(v[1..]))
    ensures var r := Settle(f.(state := HeaderValueLws));
            r.state.HeaderFieldStart? && OnlyOptions(d, r.(state := d.state)) && Flagged(r) == Union(Flagged(d), Listed(v, true))
  {
    hide MicroStep, Micros, CoreOk, Settle, Listed, Tracks, ToRead, IsHeaderChar;
    assert !IsNewline(v[0]);
    var m;
    e, m := FirstItem(d, v);
    m := ListRest(e, m, v[1..]);
    f := Micros(e, v[1..]).core;
    LastItem(f, m);
  }

  /**
   A Connection or Proxy-Connection line sets the flags of exactly the options its value lists,
   once the next line shows that it is complete, and changes nothing else.
   */
  lemma ConnectionExact(c: Core, name: seq<char>, value: seq<char>)
    requires CoreOk(c) && c.state.HeaderFieldStart? && IsName(name)
    requires LowerName(name) == "connection" || LowerName(name) == "proxy-connection"
    requires value != [] && IsPlain(value) && value[0] != ' ' && value[0] != '\t'
    ensures var m := Micros(c, name + ": " + value + CRLF);
            && m.Moved? && m.events == LineEvents(name, value) && CoreOk(m.core) && m.core.state.HeaderValueLws?
            && var o, e := Listed(value, true), Settle(m.core);
               e == c.(hstate := e.hstate, index := e.index,
                       flags := c.flags.(keepAlive := c.flags.keepAlive || o.keepAlive, close := c.flags.close || o.close,
                                         connUpgrade := c.flags.connUpgrade || o.upgrade))
  {
    hide MicroStep, Micros, CoreOk, Settle, Listed, IsName, LowerName, IsPlain;
    var d := NameAndColon(c, name);
    var e, f := ConnectionValue(d, value);
    assert [value[0]] + value[1..] == value;
    Assemble(c, name, d, value[0], e, value[1..], f);
    LineDone(f);
  }

  // ------------------------------------------------------------------ against the items of the list

  function Strip(item: seq<char>): seq<char> { if item != [] && item[0] == ' ' then Strip(item[1..]) else item }

  /** The options among all the items between commas. */
  function Among(s: seq<char>): ConnOptions {
    var k := Comma(s);
    Union(Named(Strip(s[..k])), if k == |s| then NO_OPTIONS else Among(s[k + 1..]))
  }

  predicate Within(a: ConnOptions, b: ConnOptions) {
    (a.keepAlive ==> b.keepAlive) && (a.close ==> b.close) && (a.upgrade ==> b.upgrade)
  }

  lemma AmongBlank(s: seq<char>)
    requires s != [] && s[0] == ' '
    ensures Among(s) == Among(s[1..]) && Strip(s[..Comma(s)]) == Strip(s[1..][..Comma(s[1..])])
  {
    CommaOf(s);
    var k := Comma(s[1..]);
    assert s[..k + 1][1..] == s[1..][..k];
    assert s[k + 1..] == s[1..][k..];
    hide Named, Comma;
  }

  /** No option is found that is not an item of the list. */
  lemma {:induction false} OptionsSound(s: seq<char>, first: bool)
    requires first ==> s == [] || s[0] != ' '
    ensures Within(Listed(s, first), Among(s))
    decreases |s|
  {
    hide Named, Unfinished, IsToken, Lower;
    if s != [] {
      if s[0] == ' ' {
        AmongBlank(s);
        OptionsSound(s[1..], false);
      } else {
        var k := Comma(s);
        assert [] + s[..k] == s[..k] && Strip(s[..k]) == s[..k];
        if k < |s| {
          var t := s[k + 1..];
          OptionsSound(t, false);
          OptionsSound(AfterComma(t), false);
          assert Within(Among(AfterComma(t)), Among(t)) || AfterComma(t) == [];
        }
      }
    }
  }

  /** Every item starts like a token and is not a beginning of an option. */
  predicate Clean(s: seq<char>) {
    var k := Comma(s);
    var item := Strip(s[..k]);
    item != [] && IsToken(Lower(item[0])) && !Unfinished(item) && (k < |s| ==> Clean(s[k + 1..]))
  }

  lemma CleanBlank(s: seq<char>)
    requires s != [] && s[0] == ' '
    ensures Clean(s) <==> Clean(s[1..])
  {
    AmongBlank(s);
    CommaOf(s);
    assert s[Comma(s)..] == s[1..][Comma(s[1..])..];
    hide Unfinished, IsToken, Lower, Comma, Strip;
  }

  /** In a list of such items every option is found. */
  lemma {:induction false} OptionsComplete(s: seq<char>, first: bool)
    requires Clean(s) && (first ==> s == [] || s[0] != ' ')
    ensures Listed(s, first) == Among(s)
    decreases |s|
  {
    hide Named, Unfinished, IsToken, Lower;
    if s != [] {
      if s[0] == ' ' {
        AmongBlank(s);
        CleanBlank(s);
        OptionsComplete(s[1..], false);
      } else {
        var k := Comma(s);
        assert [] + s[..k] == s[..k] && Strip(s[..k]) == s[..k];
        if k < |s| {
          OptionsComplete(s[k + 1..], false);
        }
      }
    }
  }

  /** An option behind a beginning of one is missed: the list "clo,close" closes nothing. */
  lemma OptionMissed()
    ensures Listed("clo,close", true) == NO_OPTIONS && Among("clo,close") == NO_OPTIONS.(close := true)
  {
    var s := "clo,close";
    var t := "close";
    CommaAt(s, 3);
    CommaAt(t, 5);
    assert s[..3] == "clo" && s[4..] == t && t[..5] == t;
    Spelled();
    assert [] + s[..3] == "clo";
    hide Named, Unfinished, Comma;
    assert AfterComma(t) == [];
    assert Item([], s) == Listed([], false);
    assert Strip("clo") == "clo" && Strip(t) == t;
    assert Among(t) == Union(Named(t), NO_OPTIONS);
    assert Among(s) == Union(Named("clo"), Among(t));
  }

  lemma {:induction false} CommaAt(s: seq<char>, k: nat)
    requires k <= |s| && (forall i :: 0 <= i < k ==> s[i] != ',') && (k < |s| ==> s[k] == ',')
    ensures Comma(s) == k
    decreases k
  {
    if k > 0 {
      CommaAt(s[1..], k - 1);
    }
  }

  lemma Spelled()
    ensures Unfinished("clo") && Named("clo") == NO_OPTIONS && Named("close") == NO_OPTIONS.(close := true)
  {
    var l := LowerText("close");
    assert l == "close" && LowerText("clo") == "clo" && "clo" == CLOSE[..3];
    assert l[..5] == CLOSE && "close"[5..] == [];
    AtMostOne("clo");
    AtMostOne("close");
    NothingYet("clo");
  }
}
