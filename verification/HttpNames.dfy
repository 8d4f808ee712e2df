/** Header names: the parser recognises exactly the five it treats specially, in any case. */
module HttpNames {
  import opened HttpTypes
  import opened HttpSwitch
  import opened HttpInvariant
  import opened HttpCall
  import opened HttpMicro

  function LowerName(s: seq<char>): (r: seq<char>)
    ensures |r| == |s|
  {
    seq(|s|, i requires 0 <= i < |s| => TokenOf(s[i]))
  }

  predicate IsName(s: seq<char>) { s != [] && forall i :: 0 <= i < |s| ==> IsToken(s[i]) }

  /** `f` is a nonempty beginning of the word matched in state `h`. */
  predicate Begins(f: seq<char>, h: HState) { f != [] && f <= Word(h) }

  /** What a nonempty lower-case string is recognised as, so far. */
  function Class(f: seq<char>): HState {
    if Begins(f, MatchingConnection) then
      if |f| == 1 then HC else if |f| == 2 then HCO else if |f| == 3 then HCON
      else if |f| == 10 then HConnection else MatchingConnection
    else if Begins(f, MatchingContentLength) then if |f| == 14 then HContentLength else MatchingContentLength
    else if Begins(f, MatchingProxyConnection) then if |f| == 16 then HConnection else MatchingProxyConnection
    else if Begins(f, MatchingTransferEncoding) then if |f| == 17 then HTransferEncoding else MatchingTransferEncoding
    else if Begins(f, MatchingUpgrade) then if |f| == 7 then HUpgrade else MatchingUpgrade
    else HGeneral
  }

  predicate IsSettled(h: HState) {
    h.HGeneral? || h.HConnection? || h.HContentLength? || h.HTransferEncoding? || h.HUpgrade?
  }

  ghost predicate Recognises(c: Core, f: seq<char>) {
    f != [] && c.state.HeaderField? && c.hstate == Class(f) && (IsSettled(c.hstate) || c.index == |f| - 1)
  }

  /** How the five words differ. */
  lemma WordFacts()
    ensures var a, b := Word(MatchingConnection), Word(MatchingContentLength);
            |a| == 10 && |b| == 14 && a[0] == b[0] == 'c' && a[1] == b[1] == 'o' && a[2] == b[2] == 'n' &&
            a[3] == 'n' && b[3] == 't'
    ensures var p, t, u := Word(MatchingProxyConnection), Word(MatchingTransferEncoding), Word(MatchingUpgrade);
            |p| == 16 && p[0] == 'p' && |t| == 17 && t[0] == 't' && |u| == 7 && u[0] == 'u'
  {
  }

  lemma BeginsSnoc(f: seq<char>, t: char, h: HState)
    requires f != []
    ensures Begins(f + [t], h) <==> Begins(f, h) && |f| < |Word(h)| && Word(h)[|f|] == t
    ensures Begins(f, h) ==> f[0] == Word(h)[0]
  {
    var w := Word(h);
    hide Word;
    if f <= w && |f| < |w| && w[|f|] == t {
      assert w[..|f| + 1] == w[..|f|] + [w[|f|]];
    }
    if f + [t] <= w {
      assert (f + [t])[..|f|] == f;
      assert w[|f|] == (f + [t])[|f|];
    }
  }

  /** "con" begins both words. */
  lemma SharedPrefix(f: seq<char>)
    requires 1 <= |f| <= 3
    ensures Begins(f, MatchingConnection) <==> Begins(f, MatchingContentLength)
  {
    WordFacts();
    hide Word;
    var a, b := Word(MatchingConnection), Word(MatchingContentLength);
    assert a[..|f|] == b[..|f|];
  }

  /** The next character against each of the five words. */
  ghost predicate Extends(f: seq<char>, t: char, h: HState) {
    && (Begins(f + [t], h) <==> Begins(f, h) && |f| < |Word(h)| && Word(h)[|f|] == t)
    && (Begins(f, h) ==> f[0] == Word(h)[0] && |f| <= |Word(h)|)
  }

  lemma Extended(f: seq<char>, t: char)
    requires f != []
    ensures Extends(f, t, MatchingConnection) && Extends(f, t, MatchingContentLength)
    ensures Extends(f, t, MatchingProxyConnection) && Extends(f, t, MatchingTransferEncoding)
    ensures Extends(f, t, MatchingUpgrade)
    ensures |f| <= 3 ==> (Begins(f, MatchingConnection) <==> Begins(f, MatchingContentLength))
    ensures |f| <= 2 ==> (Begins(f + [t], MatchingConnection) <==> Begins(f + [t], MatchingContentLength))
  {
    BeginsSnoc(f, t, MatchingConnection);
    BeginsSnoc(f, t, MatchingContentLength);
    BeginsSnoc(f, t, MatchingProxyConnection);
    BeginsSnoc(f, t, MatchingTransferEncoding);
    BeginsSnoc(f, t, MatchingUpgrade);
    if |f| <= 3 {
      SharedPrefix(f);
    }
    if |f| <= 2 {
      SharedPrefix(f + [t]);
    }
    hide Word;
  }

  /** A name already settled, or already none of the five. */
  lemma SettledByte(c: Core, f: seq<char>, ch: char)
    requires CoreOk(c) && IsToken(ch) && Recognises(c, f) && IsSettled(c.hstate)
    ensures Recognises(FieldByte(c, ch), f + [TokenOf(ch)])
  {
    WordFacts();
    Extended(f, TokenOf(ch));
    hide Word, Begins, IsToken, TokenOf, GuardOk;
  }

  lemma EarlyByte(c: Core, f: seq<char>, ch: char)
    requires CoreOk(c) && IsToken(ch) && Recognises(c, f) && (c.hstate.HC? || c.hstate.HCO? || c.hstate.HCON?)
    ensures Recognises(FieldByte(c, ch), f + [TokenOf(ch)])
  {
    WordFacts();
    Extended(f, TokenOf(ch));
    hide Word, Begins, IsToken, TokenOf, GuardOk;
  }

  lemma MatchingByte(c: Core, f: seq<char>, ch: char)
    requires CoreOk(c) && IsToken(ch) && Recognises(c, f) && IsMatching(c.hstate)
    ensures Recognises(FieldByte(c, ch), f + [TokenOf(ch)])
  {
    WordFacts();
    WordLengths(c.hstate);
    Extended(f, TokenOf(ch));
    hide Word, Begins, IsToken, TokenOf, GuardOk;
  }

  /** One more token byte of a name keeps the recognition exact. */
  lemma RecogniseByte(c: Core, f: seq<char>, ch: char)
    requires CoreOk(c) && IsToken(ch) && Recognises(c, f)
    ensures Recognises(FieldByte(c, ch), f + [TokenOf(ch)])
  {
    WordLengths(c.hstate);
    hide FieldByte, Word, Begins, IsToken, TokenOf, GuardOk, IsMatching;
    if IsSettled(c.hstate) {
      SettledByte(c, f, ch);
    } else if c.hstate.HC? || c.hstate.HCO? || c.hstate.HCON? {
      EarlyByte(c, f, ch);
    } else {
      MatchingByte(c, f, ch);
    }
  }

  lemma RecogniseFirst(c: Core, ch: char)
    requires CoreOk(c) && c.state.HeaderFieldStart? && IsToken(ch)
    ensures Switch(c, ch).Next? && Switch(c, ch).events == [] && !Switch(c, ch).exit
    ensures Recognises(Switch(c, ch).core, [TokenOf(ch)]) && Switch(c, ch).core.flags == c.flags
  {
    assert !IsNewline(ch);
    WordFacts();
    Firsts(TokenOf(ch));
    hide Word, Begins, IsToken, TokenOf;
  }

  lemma Firsts(t: char)
    ensures Begins([t], MatchingConnection) <==> t == 'c'
    ensures Begins([t], MatchingContentLength) <==> t == 'c'
    ensures Begins([t], MatchingProxyConnection) <==> t == 'p'
    ensures Begins([t], MatchingTransferEncoding) <==> t == 't'
    ensures Begins([t], MatchingUpgrade) <==> t == 'u'
  {
    WordFacts();
    hide Word;
    assert forall w: string :: |w| > 0 ==> ([t] <= w <==> w[0] == t);
  }

  lemma FieldFrame(c: Core, ch: char)
    requires CoreOk(c) && c.state.HeaderField? && IsToken(ch)
    ensures var d := FieldByte(c, ch); d == c.(hstate := d.hstate, index := d.index)
  {
    hide IsToken, TokenOf;
  }

  function FieldEvents(s: seq<char>): seq<Event> { seq(|s|, i requires 0 <= i < |s| => Field(s[i])) }

  /** Reading the rest of a name. */
  lemma {:induction false} ReadRest(c: Core, f: seq<char>, s: seq<char>)
    requires CoreOk(c) && Recognises(c, f) && forall i :: 0 <= i < |s| ==> IsToken(s[i])
    ensures var m := Micros(c, s);
            && m.Moved? && m.events == FieldEvents(s)
            && Recognises(m.core, f + LowerName(s))
            && m.core == c.(hstate := m.core.hstate, index := m.core.index)
    decreases |s|
  {
    hide CoreOk, IsToken, FieldByte, Class, IsSettled, TokenOf, Switch, ValueByte, IsHeaderChar;
    if s == [] {
      assert f + LowerName(s) == f;
    } else {
      RecogniseByte(c, f, s[0]);
      FieldFrame(c, s[0]);
      FieldByteOk(c, s[0]);
      assert MicroStep(c, s[0]) == Moved(FieldByte(c, s[0]), [Field(s[0])]);
      ReadRest(FieldByte(c, s[0]), f + [TokenOf(s[0])], s[1..]);
      assert f + LowerName(s) == (f + [TokenOf(s[0])]) + LowerName(s[1..]);
      assert [Field(s[0])] + FieldEvents(s[1..]) == FieldEvents(s);
    }
  }

  /**
   Reading a whole name: the header state is HConnection, HContentLength,
   HTransferEncoding or HUpgrade exactly when the name, in lower case, is that word.
   */
  lemma NameRecognised(c: Core, name: seq<char>)
    requires CoreOk(c) && c.state.HeaderFieldStart? && IsName(name)
    ensures var m := Micros(c, name);
            var f := LowerName(name);
            && m.Moved? && m.events == FieldEvents(name)
            && m.core == c.(state := HeaderField, hstate := m.core.hstate, index := m.core.index)
            && (m.core.hstate.HContentLength? <==> f == "content-length")
            && (m.core.hstate.HConnection? <==> f == "connection" || f == "proxy-connection")
            && (m.core.hstate.HTransferEncoding? <==> f == "transfer-encoding")
            && (m.core.hstate.HUpgrade? <==> f == "upgrade")
            && IsFieldHState(m.core.hstate)
  {
    ReadName(c, name);
    ClassIs(LowerName(name));
    hide CoreOk, Class, Micros, LowerName;
  }

  lemma ReadName(c: Core, name: seq<char>)
    requires CoreOk(c) && c.state.HeaderFieldStart? && IsName(name)
    ensures var m := Micros(c, name);
            && m.Moved? && m.events == FieldEvents(name)
            && m.core == c.(state := HeaderField, hstate := m.core.hstate, index := m.core.index)
            && Recognises(m.core, LowerName(name))
  {
    hide CoreOk, IsToken, FieldByte, IsSettled, TokenOf, Switch, ValueByte, IsHeaderChar, Class;
    RecogniseFirst(c, name[0]);
    SwitchOk(c, name[0]);
    FirstFrame(c, name[0]);
    var d := Switch(c, name[0]).core;
    assert MicroStep(c, name[0]) == Moved(d, [Field(name[0])]) by { assert [] + [Field(name[0])] == [Field(name[0])]; }
    ReadRest(d, [TokenOf(name[0])], name[1..]);
    assert LowerName(name) == [TokenOf(name[0])] + LowerName(name[1..]);
    assert [Field(name[0])] + FieldEvents(name[1..]) == FieldEvents(name);
  }

  lemma FirstFrame(c: Core, ch: char)
    requires CoreOk(c) && c.state.HeaderFieldStart? && IsToken(ch)
    ensures var o := Switch(c, ch);
            o.Next? && o.core == c.(state := HeaderField, hstate := o.core.hstate, index := o.core.index)
  {
    assert !IsNewline(ch);
    hide IsToken, TokenOf;
  }

  lemma ClassIs(f: seq<char>)
    requires f != []
    ensures Class(f).HContentLength? <==> f == "content-length"
    ensures Class(f).HConnection? <==> f == "connection" || f == "proxy-connection"
    ensures Class(f).HTransferEncoding? <==> f == "transfer-encoding"
    ensures Class(f).HUpgrade? <==> f == "upgrade"
    ensures IsFieldHState(Class(f))
  {
    WordFacts();
    assert Word(MatchingContentLength) == "content-length" && Word(MatchingConnection) == "connection";
    assert Word(MatchingProxyConnection) == "proxy-connection";
    assert Word(MatchingTransferEncoding) == "transfer-encoding" && Word(MatchingUpgrade) == "upgrade";
    FullWord(f, MatchingConnection);
    FullWord(f, MatchingContentLength);
    FullWord(f, MatchingProxyConnection);
    FullWord(f, MatchingTransferEncoding);
    FullWord(f, MatchingUpgrade);
    hide Word, Begins;
  }

  lemma FullWord(f: seq<char>, h: HState)
    requires f != []
    ensures f == Word(h) <==> Begins(f, h) && |f| == |Word(h)|
    ensures Begins(f, h) ==> f[0] == Word(h)[0]
    ensures Begins(f, h) && |f| >= 4 ==> f[3] == Word(h)[3]
  {
    hide Word;
  }
}
