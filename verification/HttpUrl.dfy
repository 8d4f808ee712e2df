/**
 http_parser_parse_url: cutting a URL into its components (section 3 of RFC 3986).
 Offsets and lengths are 16 bits wide in the source, so buffers are at most 65535 bytes.
 */
module HttpUrl {
  import opened Options
  import opened HttpTypes
  import opened HttpSwitch
  import opened HttpLengths

  datatype Span = Unset | Span(off: nat, len: nat)

  function End(s: Span, from: nat): nat { if s.Unset? then from else s.off + s.len }

  /** A set span is nonempty and lies in [lo, hi). */
  predicate Within(s: Span, lo: nat, hi: nat) { s.Unset? || (lo <= s.off && s.len > 0 && s.off + s.len <= hi) }

  predicate Covers(s: Span, j: nat) { s.Span? && s.off <= j < s.off + s.len }

  // ----------------------------------------------------------------- the five raw parts

  datatype Part = Schema | Host | Path | Query | Fragment | NoPart

  /** The components before the host part is taken apart. */
  datatype Raw = Raw(schema: Span, host: Span, path: Span, query: Span, fragment: Span)

  const NO_RAW := Raw(Unset, Unset, Unset, Unset, Unset)

  function PartOf(s: State): Part {
    match s
    case ReqSchema => Schema
    case ReqServer => Host
    case ReqServerWithAt => Host
    case ReqPath => Path
    case ReqQueryString => Query
    case ReqFragment => Fragment
    case _ => NoPart
  }

  function Get(r: Raw, p: Part): Span {
    match p
    case Schema => r.schema
    case Host => r.host
    case Path => r.path
    case Query => r.query
    case Fragment => r.fragment
    case NoPart => Unset
  }

  function Put(r: Raw, p: Part, s: Span): Raw {
    match p
    case Schema => r.(schema := s)
    case Host => r.(host := s)
    case Path => r.(path := s)
    case Query => r.(query := s)
    case Fragment => r.(fragment := s)
    case NoPart => r
  }

  predicate Ordered(r: Raw, n: nat) {
    && Within(r.schema, 0, n)
    && Within(r.host, End(r.schema, 0), n)
    && Within(r.path, End(r.host, End(r.schema, 0)), n)
    && Within(r.query, End(r.path, End(r.host, End(r.schema, 0))), n)
    && Within(r.fragment, End(r.query, End(r.path, End(r.host, End(r.schema, 0)))), n)
  }

  predicate InRaw(r: Raw, j: nat) {
    Covers(r.schema, j) || Covers(r.host, j) || Covers(r.path, j) || Covers(r.query, j) || Covers(r.fragment, j)
  }

  predicate IsRawDelimiter(c: char) { c == ':' || c == '/' || c == '?' || c == '#' }

  ghost predicate RawGaps(buf: seq<char>, r: Raw, n: nat)
    requires n <= |buf|
  {
    forall j :: 0 <= j < n && !InRaw(r, j) ==> IsRawDelimiter(buf[j])
  }

  /** Parts that cannot have been seen yet in state s. */
  predicate Later(s: State, r: Raw) {
    && (s.ReqSpacesBeforeUrl? ==> r == NO_RAW)
    && (s.ReqSchema? || s.ReqSchemaSlash? || s.ReqSchemaSlashSlash? || s.ReqServerStart? ==>
          r.host.Unset? && r.path.Unset? && r.query.Unset? && r.fragment.Unset?)
    && (s.ReqServer? || s.ReqServerWithAt? ==> r.path.Unset? && r.query.Unset? && r.fragment.Unset?)
    && (s.ReqPath? || s.ReqQueryStringStart? ==> r.query.Unset? && r.fragment.Unset?)
    && (s.ReqQueryString? || s.ReqFragmentStart? ==> r.fragment.Unset?)
  }

  /** The loop of http_parser_parse_url after n bytes. */
  ghost predicate Scanning(buf: seq<char>, r: Raw, last: Part, s: State, n: nat)
    requires n <= |buf|
  {
    && (IsUrlState(s) || (s.ReqSpacesBeforeUrl? && n == 0))
    && Ordered(r, n) && RawGaps(buf, r, n) && Later(s, r)
    && (last == NoPart || Get(r, last).Span?)
    && (PartOf(s) != NoPart ==> last == PartOf(s) && Get(r, last).Span? && End(Get(r, last), 0) == n)
  }

  /** The part the byte at n is added to. */
  function Place(r: Raw, last: Part, p: Part, n: nat): Raw {
    if p == NoPart then r
    else if p == last && Get(r, p).Span? then Put(r, p, Span(Get(r, p).off, Get(r, p).len + 1))
    else Put(r, p, Span(n, 1))
  }

  /** Where the URL automaton comes from, seen from where it arrives. */
  predicate Arrives(s: State, t: State) {
    match t
    case ReqSchema => s.ReqSpacesBeforeUrl? || s.ReqSchema?
    case ReqSchemaSlash => s.ReqSchema?
    case ReqSchemaSlashSlash => s.ReqSchemaSlash?
    case ReqServerStart => s.ReqSchemaSlashSlash?
    case ReqServer => s.ReqServerStart? || s.ReqServer? || s.ReqServerWithAt?
    case ReqServerWithAt => s.ReqServerStart? || s.ReqServer? || s.ReqServerWithAt?
    case ReqPath => s.ReqSpacesBeforeUrl? || s.ReqServerStart? || s.ReqServer? || s.ReqServerWithAt? || s.ReqPath?
    case ReqQueryStringStart => s.ReqServerStart? || s.ReqServer? || s.ReqServerWithAt? || s.ReqPath?
    case ReqQueryString => s.ReqQueryStringStart? || s.ReqQueryString?
    case ReqFragmentStart => s.ReqPath? || s.ReqQueryStringStart? || s.ReqQueryString? || s.ReqFragmentStart?
    case ReqFragment => s.ReqFragmentStart? || s.ReqFragment?
    case _ => false
  }

  lemma Transition(s: State, ch: char)
    requires (IsUrlState(s) || s.ReqSpacesBeforeUrl?) && !UrlChar(s, ch).Dead?
    ensures IsUrlState(UrlChar(s, ch)) && Arrives(s, UrlChar(s, ch))
    ensures PartOf(UrlChar(s, ch)) == NoPart ==> IsRawDelimiter(ch)
  {
  }

  /** Adding the byte at n to its part. */
  lemma PlaceOrdered(r: Raw, last: Part, s: State, t: State, n: nat)
    requires Arrives(s, t) && IsUrlState(t) && (IsUrlState(s) || (s.ReqSpacesBeforeUrl? && n == 0))
    requires Ordered(r, n) && Later(s, r)
    requires PartOf(s) != NoPart ==> last == PartOf(s) && Get(r, last).Span? && End(Get(r, last), 0) == n
    requires last == NoPart || Get(r, last).Span?
    ensures Ordered(Place(r, last, PartOf(t), n), n + 1)
  {
    match t
    case ReqSchema => case ReqServer => case ReqServerWithAt => case ReqPath => case ReqQueryString =>
    case ReqFragment => case _ =>
  }

  lemma PlaceLater(r: Raw, last: Part, s: State, t: State, n: nat)
    requires Arrives(s, t) && IsUrlState(t) && (IsUrlState(s) || (s.ReqSpacesBeforeUrl? && n == 0))
    requires Later(s, r)
    requires PartOf(s) != NoPart ==> last == PartOf(s) && Get(r, last).Span? && End(Get(r, last), 0) == n
    requires last == NoPart || Get(r, last).Span?
    ensures var q := Place(r, last, PartOf(t), n);
            Later(t, q) && (PartOf(t) != NoPart ==> Get(q, PartOf(t)).Span? && End(Get(q, PartOf(t)), 0) == n + 1)
  {
    match t
    case ReqSchema => case ReqServer => case ReqServerWithAt => case ReqPath => case ReqQueryString =>
    case ReqFragment => case _ =>
  }

  lemma PlaceCovers(r: Raw, last: Part, p: Part, n: nat, j: nat)
    requires last == p && p != NoPart ==> Get(r, p).Span? && End(Get(r, p), 0) == n
    requires p != NoPart && last != p ==> Get(r, p).Unset?
    ensures InRaw(r, j) ==> InRaw(Place(r, last, p, n), j)
    ensures p != NoPart ==> InRaw(Place(r, last, p, n), n)
  {
  }

  lemma Fresh(r: Raw, last: Part, s: State, t: State, n: nat)
    requires Arrives(s, t) && IsUrlState(t) && Later(s, r)
    requires PartOf(s) != NoPart ==> last == PartOf(s) && Get(r, last).Span? && End(Get(r, last), 0) == n
    requires last == NoPart || Get(r, last).Span?
    ensures last == PartOf(t) && PartOf(t) != NoPart ==> Get(r, last).Span? && End(Get(r, last), 0) == n
    ensures PartOf(t) != NoPart && last != PartOf(t) ==> Get(r, PartOf(t)).Unset?
  {
  }

  /** One byte keeps the parts ordered, nonempty and complete up to delimiters. */
  lemma ScanByte(buf: seq<char>, r: Raw, last: Part, s: State, n: nat)
    requires n < |buf| && Scanning(buf, r, last, s, n) && !UrlChar(s, buf[n]).Dead?
    ensures var t := UrlChar(s, buf[n]);
            var p := PartOf(t);
            Scanning(buf, Place(r, last, p, n), if p == NoPart then last else p, t, n + 1)
  {
    Transition(s, buf[n]);
    var t := UrlChar(s, buf[n]);
    hide UrlChar;
    PlaceLater(r, last, s, t, n);
    PlaceOrdered(r, last, s, t, n);
    Fresh(r, last, s, t, n);
    hide Arrives, Ordered, Later, InRaw;
    var q := Place(r, last, PartOf(t), n);
    forall j | 0 <= j < n + 1 && !InRaw(q, j)
      ensures IsRawDelimiter(buf[j])
    {
      PlaceCovers(r, last, PartOf(t), n, j);
    }
  }

  // -------------------------------------------------------------------- the host part

  datatype HostState =
    | HostDead | UserInfoStart | UserInfo | HostStart | HostV6Start | HostName | HostV6 | HostV6End
    | HostV6ZoneStart | HostV6Zone | PortStart | PortDigits

  /** http_parse_host_char. */
  function HostChar(s: HostState, ch: char): HostState {
    match s
    case UserInfo => if ch == '@' then HostStart else if IsUserInfoChar(ch) then UserInfo else HostDead
    case UserInfoStart => if ch == '@' then HostStart else if IsUserInfoChar(ch) then UserInfo else HostDead
    case HostStart => if ch == '[' then HostV6Start else if IsHostChar(ch) then HostName else HostDead
    case HostName => if IsHostChar(ch) then HostName else if ch == ':' then PortStart else HostDead
    case HostV6End => if ch == ':' then PortStart else HostDead
    case HostV6 =>
      if ch == ']' then HostV6End else if IsHex(ch) || ch == ':' || ch == '.' then HostV6
      else if ch == '%' then HostV6ZoneStart else HostDead
    case HostV6Start => if IsHex(ch) || ch == ':' || ch == '.' then HostV6 else HostDead
    case HostV6Zone => if ch == ']' then HostV6End else if IsZoneChar(ch) then HostV6Zone else HostDead
    case HostV6ZoneStart => if IsZoneChar(ch) then HostV6Zone else HostDead
    case PortDigits => if IsNum(ch) then PortDigits else HostDead
    case PortStart => if IsNum(ch) then PortDigits else HostDead
    case HostDead => HostDead
  }

  predicate IsZoneChar(ch: char) {
    IsAlphaNum(ch) || ch == '%' || ch == '.' || ch == '-' || ch == '_' || ch == '~'
  }

  datatype HostParts = HostParts(userinfo: Span, host: Span, port: Span)

  predicate IsHostDelimiter(c: char) { c == '@' || c == '[' || c == ']' || c == ':' }

  predicate InHost(h: HostParts, j: nat) { Covers(h.userinfo, j) || Covers(h.host, j) || Covers(h.port, j) }

  predicate HostOrdered(h: HostParts, lo: nat, hi: nat) {
    && Within(h.userinfo, lo, hi)
    && Within(h.host, End(h.userinfo, lo), hi)
    && Within(h.port, End(h.host, End(h.userinfo, lo)), hi)
  }

  ghost predicate DigitsIn(buf: seq<char>, s: Span) {
    s.Span? ==> s.off + s.len <= |buf| && forall j :: s.off <= j < s.off + s.len ==> IsNum(buf[j])
  }

  predicate IsHostRun(s: HostState) { s.HostName? || s.HostV6? || s.HostV6ZoneStart? || s.HostV6Zone? }

  /** The loop of http_parse_host after the bytes from lo to n. */
  ghost predicate HostScanning(buf: seq<char>, h: HostParts, s: HostState, lo: nat, n: nat)
    requires lo <= n <= |buf|
  {
    && HostOrdered(h, lo, n) && DigitsIn(buf, h.port)
    && (forall j :: lo <= j < n && !InHost(h, j) ==> IsHostDelimiter(buf[j]))
    && HostPlace(h, s, n)
  }

  /** What the state says about the parts found so far. */
  ghost predicate HostPlace(h: HostParts, s: HostState, n: nat) {
    && (s.UserInfoStart? ==> h == HostParts(Unset, Unset, Unset))
    && (s.UserInfo? ==> h.userinfo.Span? && End(h.userinfo, 0) == n && h.host.Unset? && h.port.Unset?)
    && (s.HostStart? || s.HostV6Start? ==> h.host.Unset? && h.port.Unset?)
    && (IsHostRun(s) ==> h.host.Span? && End(h.host, 0) == n && h.port.Unset?)
    && (s.HostV6End? || s.PortStart? ==> h.host.Span? && h.port.Unset?)
    && (s.PortDigits? ==> h.host.Span? && h.port.Span? && End(h.port, 0) == n)
  }

  function Grow(s: Span, n: nat): Span { if s.Unset? then Span(n, 1) else Span(s.off, s.len + 1) }

  /** The field updates of http_parse_host for the byte at n. */
  function PlaceHost(h: HostParts, t: HostState, n: nat): HostParts {
    if IsHostRun(t) then h.(host := Grow(h.host, n))
    else if t.PortDigits? then h.(port := Grow(h.port, n))
    else if t.UserInfo? then h.(userinfo := Grow(h.userinfo, n))
    else h
  }

  /** Adding a byte keeps the host parts ordered and the state's facts about them. */
  lemma HostPlaced(buf: seq<char>, h: HostParts, s: HostState, lo: nat, n: nat)
    requires lo <= n < |buf| && HostScanning(buf, h, s, lo, n) && !HostChar(s, buf[n]).HostDead?
    ensures var g, t := PlaceHost(h, HostChar(s, buf[n]), n), HostChar(s, buf[n]);
            HostOrdered(g, lo, n + 1) && DigitsIn(buf, g.port)
  {
    hide InHost;
  }

  lemma HostPlaceKept(buf: seq<char>, h: HostParts, s: HostState, lo: nat, n: nat)
    requires lo <= n < |buf| && HostScanning(buf, h, s, lo, n) && !HostChar(s, buf[n]).HostDead?
    ensures HostPlace(PlaceHost(h, HostChar(s, buf[n]), n), HostChar(s, buf[n]), n + 1)
  {
    hide InHost, HostOrdered, DigitsIn;
  }

  /** Every byte but a delimiter goes into a part. */
  lemma HostCovered(buf: seq<char>, h: HostParts, s: HostState, lo: nat, n: nat)
    requires lo <= n < |buf| && HostScanning(buf, h, s, lo, n) && !HostChar(s, buf[n]).HostDead?
    ensures var g := PlaceHost(h, HostChar(s, buf[n]), n);
            forall j :: lo <= j < n + 1 && !InHost(g, j) ==> IsHostDelimiter(buf[j])
  {
    var g, t := PlaceHost(h, HostChar(s, buf[n]), n), HostChar(s, buf[n]);
    assert forall j :: lo <= j < n && InHost(h, j) ==> InHost(g, j);
    assert IsHostRun(t) || t.PortDigits? || t.UserInfo? ==> InHost(g, n);
  }

  lemma HostByte(buf: seq<char>, h: HostParts, s: HostState, lo: nat, n: nat)
    requires lo <= n < |buf| && HostScanning(buf, h, s, lo, n) && !HostChar(s, buf[n]).HostDead?
    ensures HostScanning(buf, PlaceHost(h, HostChar(s, buf[n]), n), HostChar(s, buf[n]), lo, n + 1)
  {
    hide PlaceHost, HostChar, InHost, HostOrdered, DigitsIn, HostPlace;
    HostPlaced(buf, h, s, lo, n);
    HostPlaceKept(buf, h, s, lo, n);
    HostCovered(buf, h, s, lo, n);
  }

  lemma HostDone(buf: seq<char>, h: HostParts, s: HostState, lo: nat, n: nat)
    requires lo <= n <= |buf| && HostScanning(buf, h, s, lo, n)
    ensures h.port.Span? && HostEnds(s) ==> End(h.port, 0) == n
    ensures HostOrdered(h, lo, n) && DigitsIn(buf, h.port) && (HostEnds(s) ==> h.host.Span?)
    ensures forall j :: lo <= j < n && !InHost(h, j) ==> IsHostDelimiter(buf[j])
  {
  }

  datatype HostScan = HostScan(parts: HostParts, state: HostState)

  /** What reading the host part up to n has found; None once a byte is rejected. */
  ghost function HostFold(buf: seq<char>, foundAt: bool, lo: nat, n: nat): (r: Option<HostScan>)
    requires lo <= n <= |buf|
    ensures r.Some? ==> HostScanning(buf, r.value.parts, r.value.state, lo, n)
  {
    if n == lo then Some(HostScan(HostParts(Unset, Unset, Unset), if foundAt then UserInfoStart else HostStart))
    else
      var d := HostFold(buf, foundAt, lo, n - 1);
      if d.None? || HostChar(d.value.state, buf[n - 1]).HostDead? then None
      else
        var t := HostChar(d.value.state, buf[n - 1]);
        HostByte(buf, d.value.parts, d.value.state, lo, n - 1);
        Some(HostScan(PlaceHost(d.value.parts, t, n - 1), t))
  }

  lemma {:induction false} HostStuck(buf: seq<char>, foundAt: bool, lo: nat, m: nat, n: nat)
    requires lo <= m <= n <= |buf| && HostFold(buf, foundAt, lo, m).None?
    ensures HostFold(buf, foundAt, lo, n).None?
  {
    if m < n {
      hide HostScanning;
      HostStuck(buf, foundAt, lo, m, n - 1);
    }
  }

  predicate HostEnds(s: HostState) { s.HostName? || s.HostV6End? || s.PortDigits? }

  /** http_parse_host. */
  method ParseHost(buf: seq<char>, raw: Span, foundAt: bool) returns (ok: bool, h: HostParts)
    requires raw.Span? && raw.off + raw.len <= |buf|
    ensures var f := HostFold(buf, foundAt, raw.off, raw.off + raw.len);
            && (ok <==> f.Some? && HostEnds(f.value.state))
            && (ok ==> h == f.value.parts)
    ensures ok ==> h.host.Span? && HostOrdered(h, raw.off, raw.off + raw.len) && DigitsIn(buf, h.port)
    ensures ok && h.port.Span? ==> End(h.port, 0) == raw.off + raw.len
    ensures ok ==> forall j :: raw.off <= j < raw.off + raw.len && !InHost(h, j) ==> IsHostDelimiter(buf[j])
  {
    hide HostScanning, PlaceHost, HostChar, InHost, HostOrdered, DigitsIn, HostEnds;
    h := HostParts(Unset, Unset, Unset);
    var s := if foundAt then UserInfoStart else HostStart;
    var p, end := raw.off, raw.off + raw.len;
    while p < end
      invariant raw.off <= p <= end
      invariant HostFold(buf, foundAt, raw.off, p) == Some(HostScan(h, s))
    {
      var t := HostChar(s, buf[p]);
      if t.HostDead? {
        HostStuck(buf, foundAt, raw.off, p + 1, end);
        return false, h;
      }
      h, s, p := PlaceHost(h, t, p), t, p + 1;
    }
    ok := HostEnds(s);
    HostDone(buf, h, s, raw.off, end);
  }

  // --------------------------------------------------------------------- the whole URL

  datatype UrlParts = UrlParts(schema: Span, userinfo: Span, host: Span, port: Span, path: Span, query: Span, fragment: Span,
                               portValue: nat)

  predicate InUrl(u: UrlParts, j: nat) {
    Covers(u.schema, j) || Covers(u.userinfo, j) || Covers(u.host, j) || Covers(u.port, j) ||
    Covers(u.path, j) || Covers(u.query, j) || Covers(u.fragment, j)
  }

  predicate IsDelimiter(c: char) { IsRawDelimiter(c) || IsHostDelimiter(c) }

  /** The set components are nonempty, in bounds, disjoint and in this order. */
  predicate UrlOrdered(u: UrlParts, n: nat) {
    && Within(u.schema, 0, n)
    && Within(u.userinfo, End(u.schema, 0), n)
    && Within(u.host, End(u.userinfo, End(u.schema, 0)), n)
    && Within(u.port, End(u.host, End(u.userinfo, End(u.schema, 0))), n)
    && var afterPort := End(u.port, End(u.host, End(u.userinfo, End(u.schema, 0))));
    && Within(u.path, afterPort, n)
    && Within(u.query, End(u.path, afterPort), n)
    && Within(u.fragment, End(u.query, End(u.path, afterPort)), n)
  }

  /** Every byte belongs to a component or is a delimiter. */
  ghost predicate UrlCovered(buf: seq<char>, u: UrlParts) {
    forall j :: 0 <= j < |buf| && !InUrl(u, j) ==> IsDelimiter(buf[j])
  }

  /** The longest run of digits at the front. */
  function Digits(s: seq<char>): (d: seq<char>)
    ensures IsDecimal(d) && |d| <= |s| && d == s[..|d|]
    ensures |d| < |s| ==> !IsNum(s[|d|])
    ensures forall i :: 0 <= i < |d| ==> IsNum(d[i])
  {
    if s != [] && IsNum(s[0]) then [s[0]] + Digits(s[1..]) else []
  }

  /** strtoul in base 10, from a digit. */
  method StrToUl(s: seq<char>) returns (v: nat)
    ensures v == Decimal(0, Digits(s))
  {
    v := 0;
    var i := 0;
    while i < |s| && IsNum(s[i])
      invariant 0 <= i <= |s|
      invariant Decimal(v, Digits(s[i..])) == Decimal(0, Digits(s))
    {
      assert s[i..][1..] == s[i + 1..];
      var d := Digits(s[i..]);
      assert d[1..] == Digits(s[i + 1..]) && d[0] == s[i];
      v := v * 10 + DigitValue(s[i]);
      i := i + 1;
    }
    assert Digits(s[i..]) == [];
  }

  function Join(r: Raw, h: HostParts): UrlParts {
    UrlParts(r.schema, h.userinfo, h.host, h.port, r.path, r.query, r.fragment, 0)
  }

  lemma JoinOrdered(buf: seq<char>, r: Raw, h: HostParts)
    requires Ordered(r, |buf|) && r.host.Span? && HostOrdered(h, r.host.off, r.host.off + r.host.len)
    ensures UrlOrdered(Join(r, h), |buf|)
  {
  }

  lemma JoinCovered(buf: seq<char>, r: Raw, h: HostParts)
    requires Ordered(r, |buf|) && RawGaps(buf, r, |buf|) && r.host.Span?
    requires forall j :: r.host.off <= j < r.host.off + r.host.len && !InHost(h, j) ==> IsHostDelimiter(buf[j])
    ensures UrlCovered(buf, Join(r, h))
  {
    var u := Join(r, h);
    forall j | 0 <= j < |buf| && !InUrl(u, j)
      ensures IsDelimiter(buf[j])
    {
      if !InRaw(r, j) {
      } else {
        assert Covers(r.host, j) && !InHost(h, j);
      }
    }
  }

  lemma NoHost(buf: seq<char>, r: Raw)
    requires Ordered(r, |buf|) && RawGaps(buf, r, |buf|) && r.host.Unset?
    ensures UrlOrdered(Join(r, HostParts(Unset, Unset, Unset)), |buf|)
    ensures UrlCovered(buf, Join(r, HostParts(Unset, Unset, Unset)))
  {
    var u := Join(r, HostParts(Unset, Unset, Unset));
    assert forall j :: InRaw(r, j) ==> InUrl(u, j);
  }

  datatype UrlScan = UrlScan(raw: Raw, last: Part, state: State, foundAt: bool)

  /** What reading the URL up to n has found; None once a byte is rejected. */
  ghost function UrlFold(buf: seq<char>, isConnect: bool, n: nat): Option<UrlScan>
    requires n <= |buf|
  {
    if n == 0 then Some(UrlScan(NO_RAW, NoPart, if isConnect then ReqServerStart else ReqSpacesBeforeUrl, false))
    else
      var d := UrlFold(buf, isConnect, n - 1);
      if d.None? || UrlChar(d.value.state, buf[n - 1]).Dead? then None
      else
        var t := UrlChar(d.value.state, buf[n - 1]);
        var p := PartOf(t);
        Some(UrlScan(Place(d.value.raw, d.value.last, p, n - 1), if p == NoPart then d.value.last else p, t,
                     d.value.foundAt || t.ReqServerWithAt?))
  }

  /** The loop invariant of the scan. */
  lemma {:induction false} UrlScans(buf: seq<char>, isConnect: bool, n: nat)
    requires n <= |buf| && UrlFold(buf, isConnect, n).Some?
    ensures var r := UrlFold(buf, isConnect, n).value; Scanning(buf, r.raw, r.last, r.state, n)
  {
    hide Scanning, UrlChar, Place;
    if n == 0 {
      ScanStarts(buf);
    } else {
      UrlScans(buf, isConnect, n - 1);
      var d := UrlFold(buf, isConnect, n - 1).value;
      ScanByte(buf, d.raw, d.last, d.state, n - 1);
    }
  }

  /** What ends the host part: a slash, a question mark, or the end of what has been read. */
  ghost predicate HostStop(buf: seq<char>, r: Raw, s: State, n: nat)
    requires n <= |buf|
  {
    r.host.Span? ==>
      var e := End(r.host, 0);
      && e <= n
      && (e < n ==> buf[e] == '/' || buf[e] == '?')
      && (e == n ==> s.ReqServer? || s.ReqServerWithAt?)
  }

  lemma {:induction false} HostStops(buf: seq<char>, isConnect: bool, n: nat)
    requires n <= |buf| && UrlFold(buf, isConnect, n).Some?
    ensures var r := UrlFold(buf, isConnect, n).value; HostStop(buf, r.raw, r.state, n)
  {
    hide Scanning, UrlChar, Place, HostStop;
    if n == 0 {
      assert HostStop(buf, NO_RAW, ReqServerStart, 0) && HostStop(buf, NO_RAW, ReqSpacesBeforeUrl, 0) by { NoneStops(buf); }
    } else {
      HostStops(buf, isConnect, n - 1);
      UrlScans(buf, isConnect, n - 1);
      var d := UrlFold(buf, isConnect, n - 1).value;
      StopByte(buf, d.raw, d.last, d.state, n - 1);
    }
  }

  lemma NoneStops(buf: seq<char>)
    ensures forall s :: HostStop(buf, NO_RAW, s, 0)
  {
  }

  lemma StopByte(buf: seq<char>, r: Raw, last: Part, s: State, n: nat)
    requires n < |buf| && Scanning(buf, r, last, s, n) && HostStop(buf, r, s, n) && !UrlChar(s, buf[n]).Dead?
    ensures var t := UrlChar(s, buf[n]); HostStop(buf, Place(r, last, PartOf(t), n), t, n + 1)
  {
    Transition(s, buf[n]);
    LeavesServer(s, buf[n]);
    hide UrlChar, Ordered, RawGaps;
  }

  lemma LeavesServer(s: State, ch: char)
    ensures (s.ReqServer? || s.ReqServerWithAt?) && !UrlChar(s, ch).Dead? && !UrlChar(s, ch).ReqServer? && !UrlChar(s, ch).ReqServerWithAt? ==>
              ch == '/' || ch == '?'
  {
  }

  lemma ScanStarts(buf: seq<char>)
    ensures Scanning(buf, NO_RAW, NoPart, ReqServerStart, 0) && Scanning(buf, NO_RAW, NoPart, ReqSpacesBeforeUrl, 0)
  {
  }

  lemma {:induction false} UrlStuck(buf: seq<char>, isConnect: bool, m: nat, n: nat)
    requires m <= n <= |buf| && UrlFold(buf, isConnect, m).None?
    ensures UrlFold(buf, isConnect, n).None?
  {
    if m < n {
      hide Scanning, UrlChar, Place;
      UrlStuck(buf, isConnect, m, n - 1);
    }
  }

  /** The main loop: the raw parts, or failure. */
  method ScanUrl(buf: seq<char>, isConnect: bool) returns (ok: bool, r: Raw, foundAt: bool)
    ensures var f := UrlFold(buf, isConnect, |buf|);
            (ok <==> f.Some?) && (ok ==> r == f.value.raw && foundAt == f.value.foundAt)
    ensures ok ==> Ordered(r, |buf|) && RawGaps(buf, r, |buf|)
    ensures ok && r.host.Span? ==> EndsAt(buf, r.host)
  {
    hide UrlChar, Place, Ordered, InRaw, Later;
    r, foundAt := NO_RAW, false;
    var last := NoPart;
    var s := if isConnect then ReqServerStart else ReqSpacesBeforeUrl;
    var p := 0;
    while p < |buf|
      invariant 0 <= p <= |buf|
      invariant UrlFold(buf, isConnect, p) == Some(UrlScan(r, last, s, foundAt))
    {
      var t := UrlChar(s, buf[p]);
      if t.Dead? {
        UrlStuck(buf, isConnect, p + 1, |buf|);
        return false, r, foundAt;
      }
      var part := PartOf(t);
      foundAt := foundAt || t.ReqServerWithAt?;
      r := Place(r, last, part, p);
      last := if part == NoPart then last else part;
      s, p := t, p + 1;
    }
    UrlScans(buf, isConnect, |buf|);
    HostStops(buf, isConnect, |buf|);
    ok := true;
  }

  /** The span ends with the buffer, or at a slash or a question mark. */
  ghost predicate EndsAt(buf: seq<char>, s: Span) {
    var e := End(s, 0);
    e <= |buf| && (e < |buf| ==> buf[e] == '/' || buf[e] == '?')
  }

  /** The components found, when the URL is well formed. */
  ghost function UrlResult(buf: seq<char>, isConnect: bool): Option<UrlParts> {
    var f := UrlFold(buf, isConnect, |buf|);
    if f.None? then None
    else
      UrlScans(buf, isConnect, |buf|);
      var r := f.value.raw;
      if r.host.Unset? then if r.schema.Span? then None else Some(Join(r, HostParts(Unset, Unset, Unset)))
      else
        var h := HostFold(buf, f.value.foundAt, r.host.off, r.host.off + r.host.len);
        if h.None? || !HostEnds(h.value.state) then None else Some(Join(r, h.value.parts))
  }

  /** CONNECT targets consist of host and port. */
  predicate HostAndPort(u: UrlParts) {
    u.schema.Unset? && u.userinfo.Unset? && u.host.Span? && u.port.Span? &&
    u.path.Unset? && u.query.Unset? && u.fragment.Unset?
  }

  /** Everything but the port number. */
  method ParseParts(buf: seq<char>, isConnect: bool) returns (ok: bool, u: UrlParts)
    ensures var f := UrlResult(buf, isConnect); (ok <==> f.Some?) && (ok ==> u == f.value)
    ensures ok ==> UrlOrdered(u, |buf|) && UrlCovered(buf, u) && DigitsIn(buf, u.port)
    ensures ok && u.schema.Span? ==> u.host.Span?
    ensures ok && u.port.Span? ==> EndsAt(buf, u.port)
  {
    var r, foundAt;
    ok, r, foundAt := ScanUrl(buf, isConnect);
    hide UrlFold, HostFold, HostScanning;
    var h := HostParts(Unset, Unset, Unset);
    u := Join(r, h);
    if !ok || (r.schema.Span? && r.host.Unset?) {
      return false, u;
    }
    if r.host.Span? {
      ok, h := ParseHost(buf, r.host, foundAt);
      if !ok {
        return;
      }
      JoinOrdered(buf, r, h);
      JoinCovered(buf, r, h);
    } else {
      NoHost(buf, r);
    }
    u := Join(r, h);
    hide UrlOrdered, InUrl, Ordered, InRaw, UrlCovered;
  }

  /**
   http_parser_parse_url. `beyond` is the memory after the buffer, which the conversion of
   a port at the very end of the buffer goes on reading. The call succeeds exactly for a
   well-formed URL (for CONNECT: one of host and port alone) whose port fits 16 bits, and
   then the components partition the buffer up to delimiters.
   */
  method ParseUrl(buf: seq<char>, isConnect: bool, beyond: seq<char>) returns (ok: bool, u: UrlParts)
    requires |buf| <= 0xFFFF
    ensures var f := UrlResult(buf, isConnect);
            && (ok <==> && f.Some? && (isConnect ==> HostAndPort(f.value))
                        && (f.value.port.Span? && f.value.port.off <= |buf| ==>
                              Decimal(0, Digits(buf[f.value.port.off..] + beyond)) <= 0xFFFF))
            && (ok ==> u == f.value.(portValue := u.portValue))
    ensures ok ==> UrlOrdered(u, |buf|) && UrlCovered(buf, u)
    ensures ok && u.schema.Span? ==> u.host.Span?
    ensures ok && u.port.Span? ==>
              DigitsIn(buf, u.port) && u.portValue == Decimal(0, Digits(buf[u.port.off..] + beyond))
    ensures ok && u.port.Span? ==>
              var own := buf[u.port.off..u.port.off + u.port.len];
              u.portValue == Decimal(0, own) <==>
                || End(u.port, 0) < |buf| || beyond == [] || !IsNum(beyond[0])
                || (AllZeros(own) && AllZeros(Digits(beyond)))
  {
    hide UrlResult, UrlOrdered, UrlCovered, Decimal, Digits, AllZeros;
    ok, u := ParseParts(buf, isConnect);
    if !ok || (isConnect && !HostAndPort(u)) {
      return false, u;
    }
    if u.port.Span? {
      var v := StrToUl(buf[u.port.off..] + beyond);
      if v > 0xFFFF {
        return false, u;
      }
      PortKept(buf, u, v);
      PortPlace(buf, u);
      PortValue(buf, u.port, beyond);
      PortSeen(buf, u.port, beyond);
      u := u.(portValue := v);
    }
  }

  lemma PortKept(buf: seq<char>, u: UrlParts, v: nat)
    requires UrlOrdered(u, |buf|) && UrlCovered(buf, u)
    ensures UrlOrdered(u.(portValue := v), |buf|) && UrlCovered(buf, u.(portValue := v))
  {
    assert forall j :: InUrl(u.(portValue := v), j) == InUrl(u, j);
  }

  lemma PortPlace(buf: seq<char>, u: UrlParts)
    requires UrlOrdered(u, |buf|) && u.port.Span?
    ensures u.port.len > 0 && End(u.port, 0) <= |buf|
  {
  }

  predicate AllZeros(s: seq<char>) { forall i :: 0 <= i < |s| ==> s[i] == '0' }

  lemma {:induction false} ZeroValue(s: seq<char>)
    requires forall i :: 0 <= i < |s| ==> IsNum(s[i])
    ensures IsDecimal(s) && (Decimal(0, s) == 0 <==> AllZeros(s))
    decreases |s|
  {
    if s != [] {
      DecimalGrows(DigitValue(s[0]), s[1..]);
      if s[0] == '0' {
        ZeroValue(s[1..]);
        assert AllZeros(s) <==> AllZeros(s[1..]);
      }
    }
  }

  /** More digits leave a number as it is only if there are none, or it is 0 and so are they. */
  lemma MoreDigits(n: nat, d: seq<char>)
    requires forall i :: 0 <= i < |d| ==> IsNum(d[i])
    ensures IsDecimal(d) && (Decimal(n, d) == n <==> d == [] || (n == 0 && AllZeros(d)))
  {
    if d != [] {
      DecimalGrows(n * 10 + DigitValue(d[0]), d[1..]);
      ZeroValue(d);
    }
  }

  lemma {:induction false} DecimalConcat(n: nat, a: seq<char>, b: seq<char>)
    requires IsDecimal(a) && IsDecimal(b)
    ensures Decimal(n, a + b) == Decimal(Decimal(n, a), b)
    decreases |a|
  {
    if a == [] {
      assert a + b == b;
    } else {
      assert (a + b)[1..] == a[1..] + b;
      DecimalConcat(if a[0] == ' ' then n else n * 10 + DigitValue(a[0]), a[1..], b);
    }
  }

  /**
   The port value is that of the port's own digits if and only if no digit follows them in
   memory, or they and all the digits that follow are zeros.
   */
  lemma PortValue(buf: seq<char>, s: Span, beyond: seq<char>)
    requires s.Span? && s.len > 0 && DigitsIn(buf, s)
    ensures IsDecimal(buf[s.off..s.off + s.len])
    ensures var run, more := buf[s.off..s.off + s.len], Digits(buf[s.off + s.len..] + beyond);
            Decimal(0, Digits(buf[s.off..] + beyond)) == Decimal(0, run) <==> more == [] || (AllZeros(run) && AllZeros(more))
  {
    hide Decimal;
    var run, rest := buf[s.off..s.off + s.len], buf[s.off + s.len..] + beyond;
    assert buf[s.off..] + beyond == run + rest;
    DigitsOfRun(run, rest);
    ZeroValue(run);
    MoreDigits(Decimal(0, run), Digits(rest));
    DecimalConcat(0, run, Digits(rest));
  }

  /** In a parsed URL digits can follow the port only behind the buffer. */
  lemma PortSeen(buf: seq<char>, s: Span, beyond: seq<char>)
    requires s.Span? && EndsAt(buf, s)
    ensures Digits(buf[s.off + s.len..] + beyond) == if s.off + s.len < |buf| then [] else Digits(beyond)
    ensures Digits(beyond) == [] <==> beyond == [] || !IsNum(beyond[0])
  {
    var rest := buf[s.off + s.len..] + beyond;
    if s.off + s.len < |buf| {
      assert rest[0] == buf[s.off + s.len];
    } else {
      assert rest == beyond;
    }
  }

  lemma {:induction false} DigitsOfRun(run: seq<char>, rest: seq<char>)
    requires forall i :: 0 <= i < |run| ==> IsNum(run[i])
    ensures Digits(run + rest) == run + Digits(rest)
    decreases |run|
  {
    if run == [] {
      assert run + rest == rest && run + Digits(rest) == Digits(rest);
    } else {
      assert (run + rest)[1..] == run[1..] + rest && (run + rest)[0] == run[0];
      DigitsOfRun(run[1..], rest);
      assert [run[0]] + (run[1..] + Digits(rest)) == run + Digits(rest);
    }
  }

  const CONNECT_A8: seq<char> := "a:8"

  lemma ScansA8()
    ensures UrlFold(CONNECT_A8, true, 3) == Some(UrlScan(NO_RAW.(host := Span(0, 3)), Host, ReqServer, false))
  {
    var b := CONNECT_A8;
    assert UrlFold(b, true, 1) == Some(UrlScan(NO_RAW.(host := Span(0, 1)), Host, ReqServer, false));
    assert UrlFold(b, true, 2) == Some(UrlScan(NO_RAW.(host := Span(0, 2)), Host, ReqServer, false));
  }

  lemma HostsA8()
    ensures HostFold(CONNECT_A8, false, 0, 3) == Some(HostScan(HostParts(Unset, Span(0, 1), Span(2, 1)), PortDigits))
  {
    var b := CONNECT_A8;
    var h := HostParts(Unset, Span(0, 1), Unset);
    assert HostFold(b, false, 0, 1) == Some(HostScan(h, HostName)) by { assert HostFold(b, false, 0, 0).Some?; }
    assert HostFold(b, false, 0, 2) == Some(HostScan(h, PortStart));
  }

  lemma ReadsEighty()
    ensures CONNECT_A8[2..] + "0" == "80" && CONNECT_A8[2..3] == "8"
    ensures Decimal(0, Digits("80")) == 80 && Decimal(0, "8") == 8
  {
    assert "80"[1..] == "0" && "0"[1..] == "" && "8"[1..] == "";
    assert Digits("0") == "0" && Digits("80") == "80";
    assert Decimal(8, "0") == 80;
  }

  /** CONNECT to "a:8" with a '0' behind the buffer: the URL is accepted, and its port is 80. */
  lemma PortJoined()
    ensures var f := UrlResult(CONNECT_A8, true);
            && f.Some? && HostAndPort(f.value) && f.value.port == Span(2, 1)
            && Decimal(0, Digits(CONNECT_A8[2..] + "0")) == 80 && Decimal(0, CONNECT_A8[2..3]) == 8
  {
    hide UrlFold, HostFold, Decimal, Digits, Scanning, HostScanning;
    ScansA8();
    HostsA8();
    ReadsEighty();
  }
}
