/** Reading the value of a Transfer-Encoding header: it sets F_CHUNKED exactly for "chunked". */
module HttpValues {
  import opened HttpTypes
  import opened HttpSwitch
  import opened HttpInvariant
  import opened HttpCall
  import opened HttpMicro
  import opened HttpLengths
  import opened HttpNames
  import opened HttpHeaders

  function LowerText(s: seq<char>): (r: seq<char>)
    ensures |r| == |s|
  {
    seq(|s|, i requires 0 <= i < |s| => Lower(s[i]))
  }

  const CHUNKED: seq<char> := "chunked"

  predicate Blanks(s: seq<char>) { forall i :: 0 <= i < |s| ==> s[i] == ' ' }

  /** "chunked" in any case, and then only spaces. */
  predicate IsChunked(v: seq<char>) {
    7 <= |v| && LowerText(v)[..7] == CHUNKED && Blanks(v[7..])
  }

  /** The header state that goes with what has been read of the value. */
  ghost predicate Knows(c: Core, f: seq<char>) {
    if 0 < |f| < 7 && LowerText(f) <= CHUNKED then c.hstate.MatchingChunked? && c.index == |f| - 1
    else if IsChunked(f) then c.hstate.HChunked?
    else c.hstate.HGeneral?
  }

  lemma LowerSnoc(f: seq<char>, ch: char)
    ensures LowerText(f + [ch]) == LowerText(f) + [Lower(ch)]
  {
  }

  /** What one more byte makes of "a beginning of chunked", "chunked and spaces" and neither. */
  lemma Longer(f: seq<char>, ch: char)
    requires f != []
    ensures var g := f + [ch];
            && (|g| < 7 ==> (LowerText(g) <= CHUNKED <==> LowerText(f) <= CHUNKED && Lower(ch) == CHUNKED[|f|]))
            && (|g| == 7 ==> (IsChunked(g) <==> LowerText(f) <= CHUNKED && Lower(ch) == 'd'))
            && (|g| > 7 ==> (IsChunked(g) <==> IsChunked(f) && ch == ' '))
            && (|g| < 7 ==> !IsChunked(g)) && (|f| < 7 ==> !IsChunked(f))
  {
    var g := f + [ch];
    LowerSnoc(f, ch);
    if |f| < 7 {
      assert LowerText(g)[..|f|] == LowerText(f);
      assert |g| == 7 ==> LowerText(g)[..7] == LowerText(g) && g[7..] == [];
    } else {
      assert LowerText(g)[..7] == LowerText(f)[..7];
      assert g[7..] == f[7..] + [ch];
      assert Blanks(g[7..]) <==> Blanks(f[7..]) && ch == ' ' by {
        if Blanks(g[7..]) {
          assert g[7..][|f| - 7] == ch;
          assert forall i :: 0 <= i < |f| - 7 ==> f[7..][i] == g[7..][i];
        }
      }
    }
  }

  lemma ValueStep(c: Core, f: seq<char>, ch: char)
    requires CoreOk(c) && c.state.HeaderValue? && f != [] && Knows(c, f)
    ensures ValueByte(c, ch).ValueNext?
    ensures var d := ValueByte(c, ch).core; Knows(d, f + [ch]) && d == c.(hstate := d.hstate, index := d.index)
  {
    hide GuardOk, IsChunked, LowerText, LengthDigit;
    assert Word(MatchingChunked) == CHUNKED;
    Longer(f, ch);
  }

  lemma {:induction false} ValueRest(c: Core, f: seq<char>, s: seq<char>)
    requires CoreOk(c) && c.state.HeaderValue? && f != [] && Knows(c, f) && IsPlain(s)
    ensures var m := Micros(c, s);
            && m.Moved? && m.events == ValueEvents(s) && Knows(m.core, f + s)
            && m.core == c.(hstate := m.core.hstate, index := m.core.index)
    decreases |s|
  {
    hide MicroStep, CoreOk, Knows, ValueByte, IsHeaderChar;
    if s == [] {
      assert f + s == f;
    } else {
      ValueStep(c, f, s[0]);
      PlainStep(c, s[0]);
      MicroStepOk(c, s[0]);
      var d := ValueByte(c, s[0]).core;
      ValueRest(d, f + [s[0]], s[1..]);
      assert f + [s[0]] + s[1..] == f + s;
      assert [Value(s[0])] + ValueEvents(s[1..]) == ValueEvents(s);
    }
  }

  lemma PlainStep(c: Core, ch: char)
    requires CoreOk(c) && c.state.HeaderValue? && IsHeaderChar(ch) && !IsNewline(ch) && ValueByte(c, ch).ValueNext?
    ensures MicroStep(c, ch) == Moved(ValueByte(c, ch).core, [Value(ch)])
  {
    hide ValueByte, GuardOk, IsHeaderChar;
  }

  /**
   A Transfer-Encoding line sets F_CHUNKED, once the next line shows that it is complete, if and
   only if its value is "chunked" in any case followed by nothing but spaces.
   */
  lemma TransferEncodingExact(c: Core, name: seq<char>, value: seq<char>)
    requires CoreOk(c) && c.state.HeaderFieldStart? && IsName(name) && LowerName(name) == "transfer-encoding"
    requires value != [] && IsPlain(value) && value[0] != ' ' && value[0] != '\t'
    ensures var m := Micros(c, name + ": " + value + CRLF);
            && m.Moved? && m.events == LineEvents(name, value) && CoreOk(m.core) && m.core.state.HeaderValueLws?
            && Settle(m.core) == c.(hstate := m.core.hstate, index := m.core.index,
                                    flags := c.flags.(chunked := c.flags.chunked || IsChunked(value)))
  {
    hide Micros, MicroStep, LowerName, IsName, IsPlain, IsChunked, CoreOk, Settle, Knows, LineEvents, FieldEvents;
    var x, rest := value[0], value[1..];
    FirstPlain(value);
    var d := NameAndColon(c, name);
    var e := StartsValue(d, x);
    ValueRest(e, [x], rest);
    var f := Micros(e, rest).core;
    assert [x] + rest == value;
    Assemble(c, name, d, x, e, rest, f);
    LineDone(f);
    Settled(f, value);
  }

  lemma FirstPlain(v: seq<char>)
    requires v != [] && IsPlain(v)
    ensures !IsNewline(v[0]) && IsPlain(v[1..])
  {
  }

  lemma LineDone(f: Core)
    requires CoreOk(f) && f.state.HeaderValue?
    ensures CoreOk(f.(state := HeaderValueLws))
  {
    PlainOk(f, HeaderValueLws);
  }

  /** The first byte of the value. */
  lemma StartsValue(d: Core, x: char) returns (e: Core)
    requires CoreOk(d) && d.state.DiscardWs? && d.hstate.HTransferEncoding? && x != ' ' && x != '\t' && !IsNewline(x)
    ensures CoreOk(e) && MicroStep(d, x) == Moved(e, [Value(x)]) && Knows(e, [x]) && e.state.HeaderValue?
    ensures e == d.(state := HeaderValue, hstate := e.hstate, index := e.index)
  {
    hide MicroStep;
    e := d.(state := HeaderValue, index := 0, hstate := if Lower(x) == 'c' then MatchingChunked else HGeneral);
    assert ValueStartByte(d, x) == Go(e);
    ValueStart(d, x);
    hide ValueStartByte, CoreOk;
    FirstKnows(e, x);
  }

  lemma FirstKnows(e: Core, x: char)
    requires e.hstate == (if Lower(x) == 'c' then MatchingChunked else HGeneral) && e.index == 0
    ensures Knows(e, [x])
  {
    var l := LowerText([x]);
    assert CHUNKED[..1] == ['c'] && |l| == 1;
    if Lower(x) == 'c' {
      assert l == CHUNKED[..1];
    } else {
      assert l[0] != CHUNKED[0];
    }
  }

  lemma Settled(f: Core, value: seq<char>)
    requires Knows(f, value) && value != []
    ensures Settle(f.(state := HeaderValueLws)) == f.(state := HeaderFieldStart, flags := f.flags.(chunked := f.flags.chunked || IsChunked(value)))
  {
    hide LowerText, IsChunked;
    Short(value);
  }

  lemma Short(v: seq<char>)
    ensures |v| < 7 ==> !IsChunked(v)
  {
  }
}
