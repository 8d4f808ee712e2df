/** No assertion of the parser can fail: every byte keeps what the assertions rely on. */
module HttpInvariant {
  import opened Options
  import opened HttpTypes
  import opened HttpSwitch

  /** The facts one pass through the switch establishes. */
  ghost predicate OutOk(o: Out) {
    o.Next? ==> CoreOk(o.core) && (o.core.state.ChunkSizeStart? ==> o.reset)
  }

  lemma StartOk(c: Core, ch: char)
    requires CoreOk(c) && IsStartState(c.state)
    ensures OutOk(StartByte(c, ch))
  {
    if c.state.ReqMethod? {
      MethodIndexOk(c, ch);
    }
  }

  /** Every method's name has the length the invariant uses. */
  lemma MethodLengths(m: Method)
    ensures |MethodString(m)| == MethodLength(m)
    ensures forall i :: 0 <= i < |MethodString(m)| ==> MethodString(m)[i] != '\0'
  {
  }

  /** The index never runs past the name of the method it points into. */
  lemma MethodIndexOk(c: Core, ch: char)
    requires CoreOk(c) && c.state.ReqMethod?
    ensures OutOk(MethodByte(c, ch))
  {
    MethodLengths(c.verb);
    var want := At(MethodString(c.verb), c.index);
    assert want == '\0' <==> c.index == MethodLength(c.verb);
    hide MethodString;
  }

  lemma HeadersEndOk(c: Core, ch: char)
    requires c.contentLength <= NO_LENGTH
    ensures OutOk(HeadersEndByte(c, ch))
  {
  }

  lemma FieldStartOk(c: Core, ch: char)
    requires c.contentLength <= NO_LENGTH
    ensures OutOk(FieldStartByte(c, ch))
  {
    HeadersEndOk(c, ch);
    hide HeadersEndByte;
  }

  lemma ValueStartOk(c: Core, ch: char)
    requires c.contentLength <= NO_LENGTH
    ensures OutOk(ValueStartByte(c, ch))
  {
  }

  lemma HeadersDoneOk(c: Core)
    requires c.contentLength <= NO_LENGTH
    ensures OutOk(HeadersDoneByte(c))
  {
  }

  lemma HeaderOk(c: Core, ch: char)
    requires CoreOk(c) && IsHeaderState(c.state)
    ensures OutOk(HeaderByte(c, ch))
  {
    var d := ApplyHeader(c).(state := HeaderFieldStart);
    assert d.contentLength == c.contentLength;
    hide FieldStartByte, ValueStartByte, HeadersEndByte, HeadersDoneByte, ApplyHeader, GuardOk;
    FieldStartOk(c, ch);
    ValueStartOk(c, ch);
    HeadersEndOk(c, ch);
    HeadersDoneOk(c);
    FieldStartOk(d, ch);
  }

  /** A length is never wrapped: the guards reject before the 64-bit product overflows. */
  lemma DigitsOk(n: nat, d: nat)
    ensures n <= (NO_LENGTH - 10) / 10 && d <= 9 ==> n * 10 + d < NO_LENGTH && (n * 10 + d) % TWO64 == n * 10 + d
    ensures n <= (NO_LENGTH - 16) / 16 && d <= 15 ==> n * 16 + d < NO_LENGTH && (n * 16 + d) % TWO64 == n * 16 + d
  {
  }

  lemma ChunkDigitOk(c: Core, ch: char)
    requires CoreOk(c) && c.state.ChunkSize?
    ensures OutOk(ChunkDigit(c, ch))
  {
    if IsHex(ch) {
      DigitsOk(c.contentLength, HexValue(ch));
    }
  }

  lemma MessageDoneOk(c: Core)
    requires c.contentLength <= NO_LENGTH
    ensures OutOk(MessageDoneByte(c))
  {
    hide GuardOk;
  }

  lemma BodyOk(c: Core, ch: char)
    requires CoreOk(c) && IsBodyState(c.state)
    ensures OutOk(BodyByte(c, ch))
  {
    hide ChunkDigit, NewMessage, IsHex, HexValue;
    if c.state.ChunkSize? {
      ChunkDigitOk(c, ch);
    } else if c.state.ChunkSizeStart? && IsHex(ch) {
      assert HexValue(ch) <= 15;
    }
    MessageDoneOk(c);
    MessageDoneOk(c.(contentLength := 0));
    hide MessageDoneByte;
  }

  lemma ResponseLineOk(c: Core, ch: char)
    requires CoreOk(c) && IsResponseLineState(c.state)
    ensures OutOk(ResponseLineByte(c, ch))
  {
    hide GuardOk;
  }

  /** A URL byte leads to a URL state or to an error. */
  lemma UrlCharState(s: State, ch: char)
    ensures UrlChar(s, ch).Dead? || IsUrlState(UrlChar(s, ch))
  {
  }

  lemma UrlStepOk(c: Core, from: State, ch: char)
    requires c.contentLength <= NO_LENGTH
    ensures OutOk(UrlStep(c, from, ch))
  {
    hide UrlChar, GuardOk;
    UrlCharState(from, ch);
  }

  lemma RequestLineOk(c: Core, ch: char)
    requires CoreOk(c) && IsRequestLineState(c.state)
    ensures OutOk(RequestLineByte(c, ch))
  {
    hide UrlStep, GuardOk, IsNum;
    UrlStepOk(c, c.state, ch);
    UrlStepOk(c, ReqServerStart, ch);
    if IsUrlState(c.state) {
    }
  }

  lemma SwitchOk(c: Core, ch: char)
    requires CoreOk(c) && !c.state.HeaderField? && !c.state.HeaderValue?
    ensures OutOk(Switch(c, ch))
  {
    if IsStartState(c.state) {
      StartOk(c, ch);
    } else if IsResponseLineState(c.state) {
      ResponseLineOk(c, ch);
    } else if IsRequestLineState(c.state) {
      RequestLineOk(c, ch);
    } else if IsHeaderState(c.state) {
      HeaderOk(c, ch);
    } else if IsBodyState(c.state) {
      BodyOk(c, ch);
    }
    hide StartByte, ResponseLineByte, RequestLineByte, HeaderByte, BodyByte, OutOk;
  }

  predicate IsMatching(h: HState) { Word(h) != "" }

  lemma WordLengths(h: HState)
    ensures IsMatching(h) ==> |Word(h)| == LastIndex(h) + 1 && LastIndex(h) < 128
    ensures h.MatchingConnection? || h.MatchingProxyConnection? || h.MatchingContentLength? ==> IsMatching(h)
    ensures h.MatchingTransferEncoding? || h.MatchingUpgrade? || h.MatchingChunked? ==> IsMatching(h)
    ensures h.MatchingKeepAlive? || h.MatchingClose? || h.MatchingConnUpgrade? ==> IsMatching(h)
  {
  }

  /** Matching one character keeps the index inside the word, or ends the match. */
  lemma MatchOk(c: Core, t: char, complete: HState, giveUp: HState)
    requires IsMatching(c.hstate) && c.index < LastIndex(c.hstate)
    ensures var d := MatchByte(c, t, complete, giveUp);
            && d == c.(index := c.index + 1, hstate := d.hstate) && d.index < 128
            && (d.hstate == complete || d.hstate == giveUp || (d.hstate == c.hstate && d.index < LastIndex(c.hstate)))
  {
    WordLengths(c.hstate);
    hide Word;
  }

  lemma FieldByteOk(c: Core, ch: char)
    requires CoreOk(c) && c.state.HeaderField? && IsToken(ch)
    ensures CoreOk(FieldByte(c, ch)) && FieldByte(c, ch).state.HeaderField?
  {
    WordLengths(c.hstate);
    hide MatchByte, IsMatching, IsToken, TokenOf;
    var t := TokenOf(ch);
    match c.hstate
    case MatchingConnection => MatchOk(c, t, HConnection, HGeneral);
    case MatchingProxyConnection => MatchOk(c, t, HConnection, HGeneral);
    case MatchingContentLength => MatchOk(c, t, HContentLength, HGeneral);
    case MatchingTransferEncoding => MatchOk(c, t, HTransferEncoding, HGeneral);
    case MatchingUpgrade => MatchOk(c, t, HUpgrade, HGeneral);
    case _ =>
  }

  lemma LengthDigitOk(c: Core, ch: char)
    requires c.contentLength <= NO_LENGTH
    ensures LengthDigit(c, ch).ValueNext? ==>
              && LengthDigit(c, ch).core == c.(contentLength := LengthDigit(c, ch).core.contentLength)
              && LengthDigit(c, ch).core.contentLength <= NO_LENGTH
  {
  }

  ghost predicate ValueOk(c: Core, o: ValueOut) {
    o.ValueNext? ==> CoreOk(o.core) && o.core.state.HeaderValue? && (c.hstate.HGeneral? ==> o.core.hstate.HGeneral?)
  }

  lemma MatchingValueOk(c: Core, ch: char)
    requires CoreOk(c) && c.state.HeaderValue? && IsMatching(c.hstate)
    ensures ValueOk(c, ValueByte(c, ch))
  {
    WordLengths(c.hstate);
    hide MatchByte, IsMatching, Lower, LengthDigit, IsToken;
    var t := Lower(ch);
    MatchOk(c, t, HChunked, HGeneral);
    MatchOk(c, t, HKeepAlive, ConnToken);
    MatchOk(c, t, HClose, ConnToken);
    MatchOk(c, t, HConnUpgrade, ConnToken);
  }

  lemma PlainValueOk(c: Core, ch: char)
    requires CoreOk(c) && c.state.HeaderValue?
    requires c.hstate.HGeneral? || c.hstate.ConnToken? || c.hstate.HChunked? || c.hstate.TokenStart? || c.hstate.HContentLength?
    ensures ValueOk(c, ValueByte(c, ch))
  {
    LengthDigitOk(c, ch);
    hide Lower, LengthDigit, IsToken;
  }

  lemma ConnectionValueOk(c: Core, ch: char)
    requires CoreOk(c) && c.state.HeaderValue? && (c.hstate.HKeepAlive? || c.hstate.HClose? || c.hstate.HConnUpgrade?)
    ensures ValueOk(c, ValueByte(c, ch))
  {
    hide Lower, LengthDigit;
  }

  lemma ValueByteOk(c: Core, ch: char)
    requires CoreOk(c) && c.state.HeaderValue?
    ensures ValueOk(c, ValueByte(c, ch))
  {
    WordLengths(c.hstate);
    hide ValueByte, IsMatching, ValueOk;
    if IsMatching(c.hstate) {
      MatchingValueOk(c, ch);
    } else if c.hstate.HKeepAlive? || c.hstate.HClose? || c.hstate.HConnUpgrade? {
      ConnectionValueOk(c, ch);
    } else {
      PlainValueOk(c, ch);
    }
  }

  /** Moving to a state with no obligations of its own. */
  lemma PlainOk(c: Core, s: State)
    requires CoreOk(c) && (s.DiscardWs? || s.HeaderAlmostDone? || s.HeaderValueLws?)
    ensures CoreOk(c.(state := s))
  {
  }
}
