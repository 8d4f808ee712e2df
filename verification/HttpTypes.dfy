/**
 Data model of the HTTP/1.x parser: character classes (strict mode), parser
 states, the fields of the parser structure and the trace of callbacks.
 A byte is a `char`; C's 256 byte values are the characters below 256.
 */
module HttpTypes {

  const CR := '\r'
  const LF := '\n'
  const CRLF: seq<char> := [CR, LF]
  const MAX_HEADER_SIZE: nat := 80 * 1024

  /** 2^64 - 1: the value of content_length that means "no length is known". */
  const NO_LENGTH: nat := 0xFFFF_FFFF_FFFF_FFFF
  const TWO64: nat := 0x1_0000_0000_0000_0000

  // ---------------------------------------------------------------- characters

  predicate IsNewline(c: char) { c == CR || c == LF }

  predicate IsNum(c: char) { '0' <= c <= '9' }

  predicate IsAlpha(c: char) { 'a' <= c <= 'z' || 'A' <= c <= 'Z' }

  predicate IsAlphaNum(c: char) { IsAlpha(c) || IsNum(c) }

  predicate IsHex(c: char) { IsNum(c) || 'a' <= c <= 'f' || 'A' <= c <= 'F' }

  function DigitValue(c: char): (d: nat)
    requires IsNum(c)
    ensures d <= 9
  {
    c as int - '0' as int
  }

  /** The unhex table, for the characters it does not map to -1. */
  function HexValue(c: char): (d: nat)
    requires IsHex(c)
    ensures d <= 15
  {
    if IsNum(c) then c as int - '0' as int
    else if 'a' <= c <= 'f' then c as int - 'a' as int + 10
    else c as int - 'A' as int + 10
  }

  /** LOWER: the byte with bit 0x20 set, whether or not it is a letter. */
  function Lower(c: char): char {
    if c as int < 256 && (c as int / 32) % 2 == 0 then (c as int + 32) as char else c
  }

  /** The value the tokens table holds for a token character. */
  function TokenOf(c: char): char {
    if 'A' <= c <= 'Z' then (c as int + 32) as char else c
  }

  predicate IsMark(c: char) {
    c == '-' || c == '_' || c == '.' || c == '!' || c == '~' || c == '*' || c == '\'' || c == '(' || c == ')'
  }

  predicate IsUserInfoChar(c: char) {
    IsAlphaNum(c) || IsMark(c) || c == '%' || c == ';' || c == ':' || c == '&' || c == '=' || c == '+' ||
    c == '$' || c == ','
  }

  predicate IsHostChar(c: char) { IsAlphaNum(c) || c == '.' || c == '-' }

  /** The strict-mode normal_url_char bitmap. */
  predicate IsUrlChar(c: char) { '!' <= c <= '~' && c != '#' && c != '?' }

  /** Non-zero entries of the tokens table. */
  predicate IsToken(c: char) {
    IsAlphaNum(c) || c == '!' || c == '#' || c == '$' || c == '%' || c == '&' || c == '\'' || c == '*' ||
    c == '+' || c == '-' || c == '.' || c == '^' || c == '_' || c == '`' || c == '|' || c == '~'
  }

  predicate IsHeaderChar(c: char) { c == CR || c == LF || c == '\t' || (c > 31 as char && c != 127 as char) }

  // -------------------------------------------------------------------- states

  datatype State =
    | Dead | StartReqOrRes | ResOrRespH
    | StartRes | ResH | ResHT | ResHTT | ResHTTP | ResMajor | ResDot | ResMinor | ResEnd
    | ResFirstStatusCode | ResStatusCode | ResStatusStart | ResStatus | ResLineAlmostDone
    | StartReq | ReqMethod | ReqSpacesBeforeUrl
    | ReqSchema | ReqSchemaSlash | ReqSchemaSlashSlash | ReqServerStart | ReqServer | ReqServerWithAt
    | ReqPath | ReqQueryStringStart | ReqQueryString | ReqFragmentStart | ReqFragment
    | ReqHttpStart | ReqHttpH | ReqHttpHT | ReqHttpHTT | ReqHttpHTTP
    | ReqMajor | ReqDot | ReqMinor | ReqEnd | ReqLineAlmostDone
    | HeaderFieldStart | HeaderField
    | DiscardWs | DiscardWsAlmostDone | DiscardLws
    | HeaderValueStart | HeaderValue | HeaderValueLws | HeaderAlmostDone
    | ChunkSizeStart | ChunkSize | ChunkParameters | ChunkSizeAlmostDone
    | HeadersAlmostDone | HeadersDone
    | ChunkData | ChunkDataAlmostDone | ChunkDataDone
    | BodyIdentity | BodyIdentityEof | MessageDone

  /** PARSING_HEADER: the states whose bytes are counted in nread. */
  predicate ParsingHeader(s: State) {
    !s.ChunkData? && !s.ChunkDataAlmostDone? && !s.ChunkDataDone? &&
    !s.BodyIdentity? && !s.BodyIdentityEof? && !s.MessageDone?
  }

  /** The states in which the bytes read belong to the request URL. */
  predicate IsUrlState(s: State) {
    s.ReqSchema? || s.ReqSchemaSlash? || s.ReqSchemaSlashSlash? || s.ReqServerStart? || s.ReqServer? ||
    s.ReqServerWithAt? || s.ReqPath? || s.ReqQueryStringStart? || s.ReqQueryString? ||
    s.ReqFragmentStart? || s.ReqFragment?
  }

  predicate IsChunkState(s: State) {
    s.ChunkSizeStart? || s.ChunkSize? || s.ChunkParameters? || s.ChunkSizeAlmostDone? ||
    s.ChunkData? || s.ChunkDataAlmostDone? || s.ChunkDataDone?
  }

  datatype HState =
    | HGeneral | HC | HCO | HCON
    | MatchingConnection | MatchingProxyConnection | MatchingContentLength
    | MatchingTransferEncoding | MatchingUpgrade
    | HConnection | HContentLength | HTransferEncoding | HUpgrade
    | MatchingChunked | TokenStart | MatchingKeepAlive | MatchingClose | MatchingConnUpgrade | ConnToken
    | HChunked | HKeepAlive | HClose | HConnUpgrade

  /** The word whose characters are compared in a matching state. */
  function Word(h: HState): string {
    match h
    case MatchingConnection => "connection"
    case MatchingProxyConnection => "proxy-connection"
    case MatchingContentLength => "content-length"
    case MatchingTransferEncoding => "transfer-encoding"
    case MatchingUpgrade => "upgrade"
    case MatchingChunked => "chunked"
    case MatchingKeepAlive => "keep-alive"
    case MatchingClose => "close"
    case MatchingConnUpgrade => "upgrade"
    case _ => ""
  }

  // ------------------------------------------------------------------- methods

  datatype Method =
    | DELETE | GET | HEAD | POST | PUT | CONNECT | OPTIONS | TRACE
    | COPY | LOCK | MKCOL | MOVE | PROPFIND | PROPPATCH | SEARCH | UNLOCK | BIND | REBIND | UNBIND | ACL
    | REPORT | MKACTIVITY | CHECKOUT | MERGE
    | MSEARCH | NOTIFY | SUBSCRIBE | UNSUBSCRIBE
    | PATCH | PURGE | MKCALENDAR | LINK | UNLINK

  /** method_strings. */
  function MethodString(m: Method): string {
    match m
    case DELETE => "DELETE" case GET => "GET" case HEAD => "HEAD" case POST => "POST" case PUT => "PUT"
    case CONNECT => "CONNECT" case OPTIONS => "OPTIONS" case TRACE => "TRACE"
    case COPY => "COPY" case LOCK => "LOCK" case MKCOL => "MKCOL" case MOVE => "MOVE"
    case PROPFIND => "PROPFIND" case PROPPATCH => "PROPPATCH" case SEARCH => "SEARCH"
    case UNLOCK => "UNLOCK" case BIND => "BIND" case REBIND => "REBIND" case UNBIND => "UNBIND"
    case ACL => "ACL"
    case REPORT => "REPORT" case MKACTIVITY => "MKACTIVITY" case CHECKOUT => "CHECKOUT" case MERGE => "MERGE"
    case MSEARCH => "M-SEARCH" case NOTIFY => "NOTIFY" case SUBSCRIBE => "SUBSCRIBE"
    case UNSUBSCRIBE => "UNSUBSCRIBE"
    case PATCH => "PATCH" case PURGE => "PURGE" case MKCALENDAR => "MKCALENDAR"
    case LINK => "LINK" case UNLINK => "UNLINK"
  }

  // ----------------------------------------------------------- parser structure

  datatype Kind = Request | Response | Both

  datatype Flags = Flags(
    chunked: bool, keepAlive: bool, close: bool, connUpgrade: bool,
    trailing: bool, upgrade: bool, skipBody: bool, contentLength: bool)

  const NO_FLAGS := Flags(false, false, false, false, false, false, false, false)

  datatype Errno =
    | InvalidEofState | HeaderOverflow | ClosedConnection | InvalidVersion | InvalidStatus | InvalidMethod
    | InvalidUrl | LfExpected | InvalidHeaderToken | InvalidContentLength | UnexpectedContentLength
    | InvalidChunkSize | InvalidConstant | Strict

  /** Every field of the parser structure the state switch reads or writes, except nread. */
  datatype Core = Core(
    kind: Kind, flags: Flags, state: State, hstate: HState, index: nat, lenient: bool,
    contentLength: nat, major: nat, minor: nat, statusCode: nat, verb: Method, upgrade: bool)

  /** http_parser_init. */
  function InitCore(kind: Kind): Core {
    Core(kind, NO_FLAGS,
         if kind == Request then StartReq else if kind == Response then StartRes else StartReqOrRes,
         HGeneral, 0, false, 0, 0, 0, 0, DELETE, false)
  }

  /**
   The callbacks. The text callbacks (on_url and the like) may be split by buffer
   boundaries, so the trace keeps their text byte by byte; `BodyFinal` records that
   an on_body call happened while http_body_is_final was true.
   */
  datatype Event =
    | MessageBegin | HeadersComplete(verb: Method, length: nat) | MessageComplete | ChunkHeader(size: nat) | ChunkComplete
    | Url(b: char) | Status(b: char) | Field(b: char) | Value(b: char) | Body(b: char) | BodyFinal
}
