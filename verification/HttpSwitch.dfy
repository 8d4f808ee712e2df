/**
 The state switch of http_parser_execute, one byte at a time and free of nread,
 marks and buffers. `goto reexecute` is a call to the function of the next state;
 the call graph is acyclic, so one byte is re-examined finitely often.
 */
module HttpSwitch {
  import opened Options
  import opened HttpTypes

  /** What one byte does: an error, or new fields and the callbacks run. `reset`
      says that nread is set to 0, `exit` that the call returns early (upgrade). */
  datatype Out =
    | Fail(errno: Errno)
    | Next(core: Core, events: seq<Event>, reset: bool, exit: bool)

  function Go(c: Core): Out { Next(c, [], false, false) }

  function Need(ok: bool, e: Errno, c: Core): Out { if ok then Go(c) else Fail(e) }

  // ------------------------------------------------------------- end of message

  /** http_message_needs_eof. */
  predicate NeedsEof(c: Core) {
    && c.kind != Request
    && !(c.statusCode / 100 == 1 || c.statusCode == 204 || c.statusCode == 304 || c.flags.skipBody)
    && !(c.flags.chunked || c.contentLength != NO_LENGTH)
  }

  /** http_should_keep_alive. */
  predicate ShouldKeepAlive(c: Core) {
    && (if c.major > 0 && c.minor > 0 then !c.flags.close else c.flags.keepAlive)
    && !NeedsEof(c)
  }

  /** NEW_MESSAGE in strict mode. */
  function NewMessage(c: Core): State {
    if !ShouldKeepAlive(c) then Dead else if c.kind == Request then StartReq else StartRes
  }

  // -------------------------------------------------------------- parser invariant

  predicate IsFieldHState(h: HState) {
    h.HGeneral? || h.HC? || h.HCO? || h.HCON? || h.MatchingConnection? || h.MatchingProxyConnection? ||
    h.MatchingContentLength? || h.MatchingTransferEncoding? || h.MatchingUpgrade? ||
    h.HConnection? || h.HContentLength? || h.HTransferEncoding? || h.HUpgrade?
  }

  predicate IsValueHState(h: HState) {
    h.HGeneral? || h.HContentLength? || h.MatchingChunked? || h.TokenStart? || h.MatchingKeepAlive? ||
    h.MatchingClose? || h.MatchingConnUpgrade? || h.ConnToken? || h.HChunked? || h.HKeepAlive? ||
    h.HClose? || h.HConnUpgrade?
  }

  /** The index of the last character of the word being matched. */
  function LastIndex(h: HState): nat {
    match h
    case MatchingConnection => 9
    case MatchingProxyConnection => 15
    case MatchingContentLength => 13
    case MatchingTransferEncoding => 16
    case MatchingUpgrade => 6
    case MatchingChunked => 6
    case MatchingKeepAlive => 9
    case MatchingClose => 4
    case MatchingConnUpgrade => 6
    case HC => 1
    case HCO => 2
    case HCON => 3
    case _ => 128   // not matching: the 7-bit field is only stored
  }

  /** The matcher index stays inside the word being matched. */
  predicate IndexOk(h: HState, index: nat) { index < LastIndex(h) && (h.TokenStart? ==> index == 0) }

  /** The length of the method's name. */
  function MethodLength(m: Method): nat {
    match m
    case DELETE => 6 case GET => 3 case HEAD => 4 case POST => 4 case PUT => 3 case CONNECT => 7
    case OPTIONS => 7 case TRACE => 5 case COPY => 4 case LOCK => 4 case MKCOL => 5 case MOVE => 4
    case PROPFIND => 8 case PROPPATCH => 9 case SEARCH => 6 case UNLOCK => 6 case BIND => 4
    case REBIND => 6 case UNBIND => 6 case ACL => 3 case REPORT => 6 case MKACTIVITY => 10
    case CHECKOUT => 8 case MERGE => 5 case MSEARCH => 8 case NOTIFY => 6 case SUBSCRIBE => 9
    case UNSUBSCRIBE => 11 case PATCH => 5 case PURGE => 5 case MKCALENDAR => 10 case LINK => 4
    case UNLINK => 6
  }

  /** The states with obligations of their own. */
  predicate IsGuarded(s: State) {
    s.ReqMethod? || s.HeaderField? || s.HeaderValue? || IsChunkState(s) || s.BodyIdentity?
  }

  predicate GuardOk(c: Core) {
    if c.state.ReqMethod? then 1 <= c.index <= MethodLength(c.verb)
    else if c.state.HeaderField? then IsFieldHState(c.hstate) && IndexOk(c.hstate, c.index)
    else if c.state.HeaderValue? then IsValueHState(c.hstate) && IndexOk(c.hstate, c.index)
    else if c.state.BodyIdentity? then 0 < c.contentLength < NO_LENGTH
    else
      && c.flags.chunked
      && (c.state.ChunkData? ==> 0 < c.contentLength)
      && (c.state.ChunkDataAlmostDone? ==> c.contentLength == 0)
      && (c.state.ChunkSizeStart? || c.contentLength < NO_LENGTH)
  }

  /** What the assertions inside http_parser_execute rely on, state by state. */
  predicate CoreOk(c: Core) {
    c.contentLength <= NO_LENGTH && (IsGuarded(c.state) ==> GuardOk(c))
  }

  // ----------------------------------------------------------------- start lines

  function NewRequest(c: Core, ch: char): Out {
    if IsNewline(ch) then Go(c) else
    var d := c.(flags := NO_FLAGS, contentLength := NO_LENGTH);
    if !IsAlpha(ch) then Fail(InvalidMethod) else
    match FirstLetter(ch)
    case Some(m) => Next(d.(verb := m, index := 1, state := ReqMethod), [MessageBegin], false, false)
    case None => Fail(InvalidMethod)
  }

  /** The method tried first for each first letter. */
  function FirstLetter(ch: char): Option<Method> {
    match ch
    case 'A' => Some(ACL) case 'B' => Some(BIND) case 'C' => Some(CONNECT) case 'D' => Some(DELETE)
    case 'G' => Some(GET) case 'H' => Some(HEAD) case 'L' => Some(LOCK) case 'M' => Some(MKCOL)
    case 'N' => Some(NOTIFY) case 'O' => Some(OPTIONS) case 'P' => Some(POST) case 'R' => Some(REPORT)
    case 'S' => Some(SUBSCRIBE) case 'T' => Some(TRACE) case 'U' => Some(UNLOCK)
    case _ => None
  }

  /** The table that moves to another method when a letter does not match. */
  function SwitchMethod(m: Method, pos: nat, ch: char): Option<Method> {
    match m
    case POST => if pos == 1 && ch == 'U' then Some(PUT) else if pos == 1 && ch == 'A' then Some(PATCH)
                 else if pos == 1 && ch == 'R' then Some(PROPFIND) else None
    case PUT => if pos == 2 && ch == 'R' then Some(PURGE) else None
    case CONNECT => if pos == 1 && ch == 'H' then Some(CHECKOUT)
                    else if pos == 2 && ch == 'P' then Some(COPY) else None
    case MKCOL => if pos == 1 && ch == 'O' then Some(MOVE) else if pos == 1 && ch == 'E' then Some(MERGE)
                  else if pos == 1 && ch == '-' then Some(MSEARCH)
                  else if pos == 2 && ch == 'A' then Some(MKACTIVITY)
                  else if pos == 3 && ch == 'A' then Some(MKCALENDAR) else None
    case SUBSCRIBE => if pos == 1 && ch == 'E' then Some(SEARCH) else None
    case REPORT => if pos == 2 && ch == 'B' then Some(REBIND) else None
    case PROPFIND => if pos == 4 && ch == 'P' then Some(PROPPATCH) else None
    case LOCK => if pos == 1 && ch == 'I' then Some(LINK) else None
    case UNLOCK => if pos == 2 && ch == 'S' then Some(UNSUBSCRIBE)
                   else if pos == 2 && ch == 'B' then Some(UNBIND)
                   else if pos == 3 && ch == 'I' then Some(UNLINK) else None
    case _ => None
  }

  /** C's s[i], where a string literal ends in a NUL. */
  function At(s: string, i: nat): char { if i < |s| then s[i] else '\0' }

  function MethodByte(c: Core, ch: char): Out
    requires CoreOk(c) && c.state.ReqMethod?
  {
    var want := At(MethodString(c.verb), c.index);
    if ch == '\0' then Fail(InvalidMethod)
    else if ch == ' ' && want == '\0' then Go(c.(state := ReqSpacesBeforeUrl, index := c.index + 1))
    else if ch == want then Go(c.(index := c.index + 1))
    else if 'A' <= ch <= 'Z' || ch == '-' then
      match SwitchMethod(c.verb, c.index, ch)
      case Some(m) => Go(c.(verb := m, index := c.index + 1))
      case None => Fail(InvalidMethod)
    else Fail(InvalidMethod)
  }

  predicate IsStartState(s: State) {
    s.Dead? || s.StartReqOrRes? || s.ResOrRespH? || s.StartRes? || s.StartReq? || s.ReqMethod?
  }

  function StartByte(c: Core, ch: char): Out
    requires CoreOk(c) && IsStartState(c.state)
  {
    match c.state
    case Dead => Need(IsNewline(ch), ClosedConnection, c)
    case StartReqOrRes =>
      if IsNewline(ch) then Go(c)
      else
        var d := c.(flags := NO_FLAGS, contentLength := NO_LENGTH);
        if ch == 'H' then Next(d.(state := ResOrRespH), [MessageBegin], false, false)
        else NewRequest(d.(kind := Request, state := StartReq), ch)
    case ResOrRespH =>
      if ch == 'T' then Go(c.(kind := Response, state := ResHT))
      else Need(ch == 'E', InvalidConstant, c.(kind := Request, verb := HEAD, index := 2, state := ReqMethod))
    case StartRes =>
      var d := c.(flags := NO_FLAGS, contentLength := NO_LENGTH);
      if ch == 'H' then Next(d.(state := ResH), [MessageBegin], false, false)
      else if IsNewline(ch) then Next(d, [MessageBegin], false, false)
      else Fail(InvalidConstant)
    case StartReq => NewRequest(c, ch)
    case ReqMethod => MethodByte(c, ch)
  }

  predicate IsResponseLineState(s: State) {
    s.ResH? || s.ResHT? || s.ResHTT? || s.ResHTTP? || s.ResMajor? || s.ResDot? || s.ResMinor? || s.ResEnd? ||
    s.ResFirstStatusCode? || s.ResStatusCode? || s.ResStatusStart? || s.ResStatus? || s.ResLineAlmostDone?
  }

  function ResStatusByte(c: Core, ch: char): Out {
    if ch == CR then Go(c.(state := ResLineAlmostDone))
    else if ch == LF then Go(c.(state := HeaderFieldStart))
    else Go(c.(state := ResStatus))
  }

  function ResponseLineByte(c: Core, ch: char): Out
    requires IsResponseLineState(c.state)
  {
    match c.state
    case ResH => Need(ch == 'T', Strict, c.(state := ResHT))
    case ResHT => Need(ch == 'T', Strict, c.(state := ResHTT))
    case ResHTT => Need(ch == 'P', Strict, c.(state := ResHTTP))
    case ResHTTP => Need(ch == '/', Strict, c.(state := ResMajor))
    case ResMajor => if IsNum(ch) then Go(c.(major := DigitValue(ch), state := ResDot)) else Fail(InvalidVersion)
    case ResDot => Need(ch == '.', InvalidVersion, c.(state := ResMinor))
    case ResMinor => if IsNum(ch) then Go(c.(minor := DigitValue(ch), state := ResEnd)) else Fail(InvalidVersion)
    case ResEnd => Need(ch == ' ', InvalidVersion, c.(state := ResFirstStatusCode))
    case ResFirstStatusCode =>
      if IsNum(ch) then Go(c.(statusCode := DigitValue(ch), state := ResStatusCode))
      else Need(ch == ' ', InvalidStatus, c)
    case ResStatusCode =>
      if IsNum(ch) then
        var code := c.statusCode * 10 + DigitValue(ch);
        Need(code <= 999, InvalidStatus, c.(statusCode := code))
      else if ch == ' ' then Go(c.(state := ResStatusStart))
      else if IsNewline(ch) then ResStatusByte(c.(index := 0), ch)
      else Fail(InvalidStatus)
    case ResStatusStart => ResStatusByte(c.(index := 0), ch)
    case ResStatus => ResStatusByte(c, ch)
    case ResLineAlmostDone => Need(ch == LF, Strict, c.(state := HeaderFieldStart))
  }

  // ------------------------------------------------------------------ request line

  /** parse_url_char in strict mode: the next URL state, or Dead. */
  function UrlChar(s: State, ch: char): State {
    if ch == ' ' || IsNewline(ch) || ch == '\t' || ch == 12 as char then Dead else
    match s
    case ReqSpacesBeforeUrl =>
      if ch == '/' || ch == '*' then ReqPath else if IsAlpha(ch) then ReqSchema else Dead
    case ReqSchema => if IsAlpha(ch) then ReqSchema else if ch == ':' then ReqSchemaSlash else Dead
    case ReqSchemaSlash => if ch == '/' then ReqSchemaSlashSlash else Dead
    case ReqSchemaSlashSlash => if ch == '/' then ReqServerStart else Dead
    case ReqServerWithAt => if ch == '@' then Dead else ServerChar(ch)
    case ReqServerStart => ServerChar(ch)
    case ReqServer => ServerChar(ch)
    case ReqPath =>
      if IsUrlChar(ch) then ReqPath else if ch == '?' then ReqQueryStringStart
      else if ch == '#' then ReqFragmentStart else Dead
    case ReqQueryStringStart => QueryChar(ch)
    case ReqQueryString => QueryChar(ch)
    case ReqFragmentStart =>
      if IsUrlChar(ch) || ch == '?' then ReqFragment else if ch == '#' then ReqFragmentStart else Dead
    case ReqFragment => if IsUrlChar(ch) || ch == '?' || ch == '#' then ReqFragment else Dead
    case _ => Dead
  }

  function ServerChar(ch: char): State {
    if ch == '/' then ReqPath else if ch == '?' then ReqQueryStringStart
    else if ch == '@' then ReqServerWithAt
    else if IsUserInfoChar(ch) || ch == '[' || ch == ']' then ReqServer else Dead
  }

  function QueryChar(ch: char): State {
    if IsUrlChar(ch) || ch == '?' then ReqQueryString else if ch == '#' then ReqFragmentStart else Dead
  }

  function UrlStep(c: Core, from: State, ch: char): Out {
    var s := UrlChar(from, ch);
    if s == Dead then Fail(InvalidUrl) else Go(c.(state := s))
  }

  predicate IsRequestLineState(s: State) {
    IsUrlState(s) || s.ReqSpacesBeforeUrl? || s.ReqHttpStart? || s.ReqHttpH? || s.ReqHttpHT? || s.ReqHttpHTT? ||
    s.ReqHttpHTTP? || s.ReqMajor? || s.ReqDot? || s.ReqMinor? || s.ReqEnd? || s.ReqLineAlmostDone?
  }

  /** A byte inside or behind the request target. */
  function UrlByte(c: Core, ch: char): Out {
    if c.state.ReqSchema? || c.state.ReqSchemaSlash? || c.state.ReqSchemaSlashSlash? || c.state.ReqServerStart? then
      UrlStep(c, c.state, ch)
    else if ch == ' ' then Go(c.(state := ReqHttpStart))
    else if ch == CR then Go(c.(major := 0, minor := 9, state := ReqLineAlmostDone))
    else if ch == LF then Go(c.(major := 0, minor := 9, state := HeaderFieldStart))
    else UrlStep(c, c.state, ch)
  }

  function RequestLineByte(c: Core, ch: char): Out
    requires IsRequestLineState(c.state)
  {
    if IsUrlState(c.state) then UrlByte(c, ch) else
    match c.state
    case ReqSpacesBeforeUrl =>
      if ch == ' ' then Go(c)
      else UrlStep(c, if c.verb == CONNECT then ReqServerStart else ReqSpacesBeforeUrl, ch)
    case ReqHttpStart =>
      if ch == ' ' then Go(c) else Need(ch == 'H', InvalidConstant, c.(state := ReqHttpH))
    case ReqHttpH => Need(ch == 'T', Strict, c.(state := ReqHttpHT))
    case ReqHttpHT => Need(ch == 'T', Strict, c.(state := ReqHttpHTT))
    case ReqHttpHTT => Need(ch == 'P', Strict, c.(state := ReqHttpHTTP))
    case ReqHttpHTTP => Need(ch == '/', Strict, c.(state := ReqMajor))
    case ReqMajor => if IsNum(ch) then Go(c.(major := DigitValue(ch), state := ReqDot)) else Fail(InvalidVersion)
    case ReqDot => Need(ch == '.', InvalidVersion, c.(state := ReqMinor))
    case ReqMinor => if IsNum(ch) then Go(c.(minor := DigitValue(ch), state := ReqEnd)) else Fail(InvalidVersion)
    case ReqEnd =>
      if ch == CR then Go(c.(state := ReqLineAlmostDone))
      else Need(ch == LF, InvalidVersion, c.(state := HeaderFieldStart))
    case ReqLineAlmostDone => Need(ch == LF, LfExpected, c.(state := HeaderFieldStart))
  }

  // ----------------------------------------------------------------------- headers

  /** One token byte of a header name: how the special names are recognised. */
  function FieldByte(c: Core, ch: char): Core
    requires CoreOk(c) && c.state.HeaderField? && IsToken(ch)
  {
    var t := TokenOf(ch);
    if IsFoundName(c.hstate) then c.(hstate := HGeneral)   // any token byte spoils the match
    else
    match c.hstate
    case HGeneral => c
    case HC => c.(index := c.index + 1, hstate := if t == 'o' then HCO else HGeneral)
    case HCO => c.(index := c.index + 1, hstate := if t == 'n' then HCON else HGeneral)
    case HCON => c.(index := c.index + 1,
                    hstate := if t == 'n' then MatchingConnection
                              else if t == 't' then MatchingContentLength else HGeneral)
    case MatchingConnection => MatchByte(c, t, HConnection, HGeneral)
    case MatchingProxyConnection => MatchByte(c, t, HConnection, HGeneral)
    case MatchingContentLength => MatchByte(c, t, HContentLength, HGeneral)
    case MatchingTransferEncoding => MatchByte(c, t, HTransferEncoding, HGeneral)
    case MatchingUpgrade => MatchByte(c, t, HUpgrade, HGeneral)
  }

  predicate IsFoundName(h: HState) { h.HConnection? || h.HContentLength? || h.HTransferEncoding? || h.HUpgrade? }

  /** Matching the next character of the word: keep going, complete, or give up. */
  function MatchByte(c: Core, t: char, complete: HState, giveUp: HState): Core
  {
    var word := Word(c.hstate);
    var i := c.index + 1;
    c.(index := i,
       hstate := if i > |word| || t != At(word, i) then giveUp
                 else if i == |word| - 1 then complete else c.hstate)
  }

  datatype ValueOut = BadValue(errno: Errno) | ValueNext(core: Core)

  /** One byte of a header value other than CR and LF, after its validity check. */
  function ValueByte(c: Core, ch: char): ValueOut
    requires CoreOk(c) && c.state.HeaderValue?
  {
    var t := Lower(ch);
    if IsFoundOption(c.hstate) then OptionEndByte(c, ch) else
    match c.hstate
    case HContentLength => LengthDigit(c, ch)
    case MatchingChunked => ValueNext(MatchByte(c, t, HChunked, HGeneral))
    case TokenStart =>
      ValueNext(c.(hstate := if t == 'k' then MatchingKeepAlive else if t == 'c' then MatchingClose
                             else if t == 'u' then MatchingConnUpgrade else if IsToken(t) then ConnToken
                             else if t == ' ' || t == '\t' then TokenStart else HGeneral))
    case MatchingKeepAlive => ValueNext(MatchByte(c, t, HKeepAlive, ConnToken))
    case MatchingClose => ValueNext(MatchByte(c, t, HClose, ConnToken))
    case MatchingConnUpgrade => ValueNext(MatchByte(c, t, HConnUpgrade, ConnToken))
    case ConnToken => ValueNext(if ch == ',' then c.(hstate := TokenStart, index := 0) else c)
    case HChunked => ValueNext(if ch == ' ' then c else c.(hstate := HGeneral))
    case HGeneral => ValueNext(c)
  }

  predicate IsFoundOption(h: HState) { h.HKeepAlive? || h.HClose? || h.HConnUpgrade? }

  /** A byte behind a Connection option. */
  function OptionEndByte(c: Core, ch: char): ValueOut {
    ValueNext(if ch == ',' then ApplyConnection(c).(hstate := TokenStart, index := 0)
              else if ch == ' ' then c else c.(hstate := ConnToken))
  }

  /** One more digit of Content-Length, with the 64-bit arithmetic of the source. */
  function LengthDigit(c: Core, ch: char): ValueOut {
    if ch == ' ' then ValueNext(c)
    else if !IsNum(ch) then BadValue(InvalidContentLength)
    else
      var t := (c.contentLength * 10 + DigitValue(ch)) % TWO64;
      if (NO_LENGTH - 10) / 10 < c.contentLength then BadValue(InvalidContentLength)
      else ValueNext(c.(contentLength := t))
  }

  /** The flag a completed Connection token sets. */
  function ApplyConnection(c: Core): Core {
    if c.hstate.HKeepAlive? then c.(flags := c.flags.(keepAlive := true))
    else if c.hstate.HClose? then c.(flags := c.flags.(close := true))
    else if c.hstate.HConnUpgrade? then c.(flags := c.flags.(connUpgrade := true))
    else c
  }

  function ApplyHeader(c: Core): Core {
    if c.hstate.HChunked? then c.(flags := c.flags.(chunked := true)) else ApplyConnection(c)
  }

  function FieldStartByte(c: Core, ch: char): Out {
    if ch == CR then Go(c.(state := HeadersAlmostDone))
    else if ch == LF then HeadersEndByte(c, ch)
    else if !IsToken(ch) then Fail(InvalidHeaderToken)
    else
      var t := TokenOf(ch);
      Go(c.(index := 0, state := HeaderField,
            hstate := if t == 'c' then HC else if t == 'p' then MatchingProxyConnection
                      else if t == 't' then MatchingTransferEncoding
                      else if t == 'u' then MatchingUpgrade else HGeneral))
  }

  function ValueStartByte(c: Core, ch: char): Out {
    var d := c.(state := HeaderValue, index := 0);
    var t := Lower(ch);
    if c.hstate.HUpgrade? then Go(d.(flags := d.flags.(upgrade := true), hstate := HGeneral))
    else if c.hstate.HTransferEncoding? then Go(d.(hstate := if t == 'c' then MatchingChunked else HGeneral))
    else if c.hstate.HContentLength? then
      if !IsNum(ch) then Fail(InvalidContentLength)
      else if c.flags.contentLength then Fail(UnexpectedContentLength)
      else Go(d.(flags := d.flags.(contentLength := true), contentLength := DigitValue(ch)))
    else if c.hstate.HConnection? then
      Go(d.(hstate := if t == 'k' then MatchingKeepAlive else if t == 'c' then MatchingClose
                      else if t == 'u' then MatchingConnUpgrade else ConnToken))
    else if c.hstate.TokenStart? then Go(d)
    else Go(d.(hstate := HGeneral))
  }

  /** s_headers_almost_done, with s_headers_done or s_message_done on the same byte. */
  function HeadersEndByte(c: Core, ch: char): Out {
    if ch != LF then Fail(Strict)
    else if c.flags.trailing then Before([ChunkComplete], MessageDoneByte(c))
    else if c.flags.chunked && c.flags.contentLength then Fail(UnexpectedContentLength)
    else
      var up := if c.flags.upgrade && c.flags.connUpgrade then c.kind == Request || c.statusCode == 101
                else c.verb == CONNECT;
      Before([HeadersComplete(c.verb, c.contentLength)], HeadersDoneByte(c.(upgrade := up)))
  }

  function Before(ev: seq<Event>, o: Out): Out {
    if o.Fail? then o else o.(events := ev + o.events)
  }

  function MessageDoneByte(c: Core): Out {
    Next(c.(state := NewMessage(c)), [MessageComplete], false, c.upgrade)
  }

  /** s_headers_done: how the body is framed (section 3.3.3 of RFC 7230). */
  function HeadersDoneByte(c: Core): Out {
    var hasBody := c.flags.chunked || (c.contentLength > 0 && c.contentLength != NO_LENGTH);
    var over := Next(c.(state := NewMessage(c)), [MessageComplete], true, false);
    if c.upgrade && (c.verb == CONNECT || c.flags.skipBody || !hasBody) then over.(exit := true)
    else if c.flags.skipBody then over
    else if c.flags.chunked then Next(c.(state := ChunkSizeStart), [], true, false)
    else if c.contentLength == 0 then over
    else if c.contentLength != NO_LENGTH then Next(c.(state := BodyIdentity), [], true, false)
    else if !NeedsEof(c) then over
    else Next(c.(state := BodyIdentityEof), [], true, false)
  }

  predicate IsHeaderState(s: State) {
    s.HeaderFieldStart? || s.DiscardWs? || s.DiscardWsAlmostDone? || s.DiscardLws? || s.HeaderValueStart? ||
    s.HeaderValueLws? || s.HeaderAlmostDone? || s.HeadersAlmostDone? || s.HeadersDone?
  }

  function HeaderByte(c: Core, ch: char): Out
    requires IsHeaderState(c.state)
  {
    match c.state
    case HeaderFieldStart => FieldStartByte(c, ch)
    case DiscardWs =>
      if ch == ' ' || ch == '\t' then Go(c)
      else if ch == CR then Go(c.(state := DiscardWsAlmostDone))
      else if ch == LF then Go(c.(state := DiscardLws))
      else ValueStartByte(c, ch)
    case DiscardWsAlmostDone => Need(ch == LF, Strict, c.(state := DiscardLws))
    case DiscardLws =>
      if ch == ' ' || ch == '\t' then Go(c.(state := DiscardWs))
      else FieldStartByte(ApplyHeader(c).(state := HeaderFieldStart), ch)
    case HeaderValueStart => ValueStartByte(c, ch)
    case HeaderAlmostDone => Need(ch == LF, LfExpected, c.(state := HeaderValueLws))
    case HeaderValueLws =>
      if ch == ' ' || ch == '\t' then ValueStartByte(c, ch)
      else FieldStartByte(ApplyHeader(c).(state := HeaderFieldStart), ch)
    case HeadersAlmostDone => HeadersEndByte(c, ch)
    case HeadersDone => if ch != LF then Fail(Strict) else HeadersDoneByte(c)
  }

  // -------------------------------------------------------------------------- body

  predicate IsBodyState(s: State) {
    IsChunkState(s) || s.BodyIdentity? || s.BodyIdentityEof? || s.MessageDone?
  }

  function ChunkDigit(c: Core, ch: char): Out {
    if !IsHex(ch) then
      if ch == ';' || ch == ' ' then Go(c.(state := ChunkParameters)) else Fail(InvalidChunkSize)
    else
      var t := (c.contentLength * 16 + HexValue(ch)) % TWO64;
      if (NO_LENGTH - 16) / 16 < c.contentLength then Fail(InvalidContentLength)
      else Go(c.(contentLength := t))
  }

  function BodyByte(c: Core, ch: char): Out
    requires CoreOk(c) && IsBodyState(c.state)
  {
    match c.state
    case ChunkSizeStart =>
      if IsHex(ch) then Go(c.(contentLength := HexValue(ch), state := ChunkSize)) else Fail(InvalidChunkSize)
    case ChunkSize => if ch == CR then Go(c.(state := ChunkSizeAlmostDone)) else ChunkDigit(c, ch)
    case ChunkParameters => Go(if ch == CR then c.(state := ChunkSizeAlmostDone) else c)
    case ChunkSizeAlmostDone =>
      if ch != LF then Fail(Strict)
      else
        var d := if c.contentLength == 0 then c.(flags := c.flags.(trailing := true), state := HeaderFieldStart)
                 else c.(state := ChunkData);
        Next(d, [ChunkHeader(c.contentLength)], true, false)
    case ChunkData =>
      var d := c.(contentLength := c.contentLength - 1);
      Next(if d.contentLength == 0 then d.(state := ChunkDataAlmostDone) else d, [Body(ch)], false, false)
    case ChunkDataAlmostDone => Need(ch == CR, Strict, c.(state := ChunkDataDone))
    case ChunkDataDone =>
      if ch != LF then Fail(Strict) else Next(c.(state := ChunkSizeStart), [ChunkComplete], true, false)
    case BodyIdentity =>
      var d := c.(contentLength := c.contentLength - 1);
      if d.contentLength == 0 then Before([Body(ch), BodyFinal], MessageDoneByte(d))
      else Next(d, [Body(ch)], false, false)
    case BodyIdentityEof => Next(c, [Body(ch)], false, false)
    case MessageDone => MessageDoneByte(c)
  }

  // ------------------------------------------------------------------------ switch

  /** The whole switch, for every state but the two with inner loops. */
  function Switch(c: Core, ch: char): Out
    requires CoreOk(c) && !c.state.HeaderField? && !c.state.HeaderValue?
  {
    if IsStartState(c.state) then StartByte(c, ch)
    else if IsResponseLineState(c.state) then ResponseLineByte(c, ch)
    else if IsRequestLineState(c.state) then RequestLineByte(c, ch)
    else if IsHeaderState(c.state) then HeaderByte(c, ch)
    else BodyByte(c, ch)
  }
}
