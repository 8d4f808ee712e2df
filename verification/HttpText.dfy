/** The text of header lines and URLs, the callbacks they give, and bytes that give none. */
module HttpText {
  import opened HttpTypes
  import opened HttpSwitch
  import opened HttpInvariant
  import opened HttpCall
  import opened HttpMicro
  import opened HttpLengths
  import opened HttpNames
  import opened HttpHeaders

  datatype Header = Header(name: seq<char>, value: seq<char>)

  /** A header the parser does not look into, with a value that does not start with a blank. */
  ghost predicate IsPlainHeader(h: Header) {
    && IsName(h.name) && !IsSpecial(LowerName(h.name))
    && h.value != [] && IsPlain(h.value) && h.value[0] != ' ' && h.value[0] != '\t'
  }

  function Lines(headers: seq<Header>): seq<char> {
    if headers == [] then [] else headers[0].name + ": " + headers[0].value + CRLF + Lines(headers[1..])
  }

  /** A URL that is a path of plain characters. */
  ghost predicate IsPath(url: seq<char>) {
    url != [] && url[0] == '/' && forall i :: 0 <= i < |url| ==> IsUrlChar(url[i])
  }

  lemma RequestStep(c: Core, ch: char)
    requires CoreOk(c) && (IsStartState(c.state) || IsRequestLineState(c.state))
    ensures var o := if IsStartState(c.state) then StartByte(c, ch) else RequestLineByte(c, ch);
            MicroStep(c, ch) == if o.Fail? || o.exit then Stuck else Moved(o.core, o.events + Text(o.core.state, ch))
  {
    hide HeaderByte, GuardOk, StartByte, ResponseLineByte, RequestLineByte, BodyByte;
  }

  /** A byte of the request line that runs no callback. */
  lemma Silence(c: Core, ch: char, d: Core, s: seq<char>)
    requires CoreOk(c) && IsRequestLineState(c.state) && RequestLineByte(c, ch) == Go(d)
    requires !IsUrlState(d.state) && (IsRequestLineState(d.state) || d.state.HeaderFieldStart?)
    ensures CoreOk(d) && Micros(c, [ch] + s) == Micros(d, s)
  {
    RequestLineOk(c, ch);
    RequestStep(c, ch);
    hide MicroStep, RequestLineByte, CoreOk;
    SilentStep(c, ch, d, s);
  }

  lemma SilentStep(c: Core, ch: char, d: Core, s: seq<char>)
    requires CoreOk(c) && CoreOk(d) && MicroStep(c, ch) == Moved(d, [] + Text(d.state, ch))
    requires !IsUrlState(d.state) && !d.state.ResStatus? && !d.state.HeaderField? && !d.state.HeaderValue?
    ensures Micros(c, [ch] + s) == Micros(d, s)
  {
    hide MicroStep, CoreOk;
    assert [] + Text(d.state, ch) == [];
    Cons(c, ch, s, d, []);
    var r := Micros(d, s);
    assert r.Moved? ==> [] + r.events == r.events;
  }

  function UrlEvents(s: seq<char>): seq<Event> { seq(|s|, i requires 0 <= i < |s| => Url(s[i])) }

  function LinesEvents(headers: seq<Header>): seq<Event> {
    if headers == [] then [] else LineEvents(headers[0].name, headers[0].value) + LinesEvents(headers[1..])
  }

  /** Prepending events to what follows. */
  ghost function Prepended(ev: seq<Event>, m: Micro): Micro {
    if m.Stuck? then Stuck else m.(events := ev + m.events)
  }

  lemma NoEvents(m: Micro)
    ensures Prepended([], m) == m
  {
  }

  lemma Regrouped(a: seq<Event>, b: seq<Event>, m: Micro)
    ensures Prepended(a, Prepended(b, m)) == Prepended(a + b, m)
  {
  }

  /** Header events: nothing for the URL or the body. */
  ghost predicate IsHeaderText(log: seq<Event>) {
    forall i :: 0 <= i < |log| ==> log[i].Field? || log[i].Value?
  }

  lemma {:induction false} HeaderText(headers: seq<Header>)
    ensures IsHeaderText(LinesEvents(headers))
    decreases |headers|
  {
    if headers != [] {
      HeaderText(headers[1..]);
    }
  }

  lemma StartsOk()
    ensures CoreOk(InitCore(Request))
  {
  }
}
