/** Reading a request method: the parser accepts exactly the method names. */
module HttpMethods {
  import opened Options
  import opened HttpTypes
  import opened HttpSwitch
  import opened HttpInvariant

  /** The fields after reading `w` from `c`, while the method is being read. */
  ghost function Reads(c: Core, w: seq<char>): (r: Option<Core>)
    requires CoreOk(c)
    ensures r.Some? ==> CoreOk(r.value)
  {
    if w == [] then Some(c) else
    var d := Reads(c, w[..|w| - 1]);
    if d.None? || !(d.value.state.StartReq? || d.value.state.ReqMethod?) then None
    else
      SwitchOk(d.value, w[|w| - 1]);
      var o := Switch(d.value, w[|w| - 1]);
      if o.Fail? then None else Some(o.core)
  }

  /** `w` without the CR and LF bytes the parser ignores before a request. */
  function Strip(w: seq<char>): seq<char> {
    if w != [] && IsNewline(w[0]) then Strip(w[1..]) else w
  }

  lemma {:induction false} StripSnoc(w: seq<char>, x: char)
    ensures Strip(w + [x]) == if Strip(w) == [] && IsNewline(x) then [] else Strip(w) + [x]
  {
    if w == [] {
      assert w + [x] == [x];
      if IsNewline(x) {
        assert [x][1..] == [];
      }
    } else if IsNewline(w[0]) {
      assert (w + [x])[1..] == w[1..] + [x];
      StripSnoc(w[1..], x);
    }
  }

  // --------------------------------------------------------------------- soundness

  /** The names of `m` and `n` agree on the first `pos` letters, and that of `n` continues with `ch`. */
  ghost predicate Moves(m: Method, pos: nat, ch: char, n: Method) {
    var a, b := MethodString(m), MethodString(n);
    pos < |a| && pos < |b| && b[..pos] == a[..pos] && b[pos] == ch
  }

  lemma TableP()
    ensures Moves(POST, 1, 'U', PUT) && Moves(POST, 1, 'A', PATCH) && Moves(POST, 1, 'R', PROPFIND) && Moves(PUT, 2, 'R', PURGE)
  {
  }

  lemma TableC()
    ensures Moves(CONNECT, 1, 'H', CHECKOUT) && Moves(CONNECT, 2, 'P', COPY) && Moves(SUBSCRIBE, 1, 'E', SEARCH)
    ensures Moves(REPORT, 2, 'B', REBIND) && Moves(LOCK, 1, 'I', LINK)
  {
  }

  lemma TableM()
    ensures Moves(MKCOL, 1, 'O', MOVE) && Moves(MKCOL, 1, 'E', MERGE) && Moves(MKCOL, 1, '-', MSEARCH)
    ensures Moves(MKCOL, 2, 'A', MKACTIVITY) && Moves(MKCOL, 3, 'A', MKCALENDAR)
  {
  }

  lemma TableU()
    ensures Moves(UNLOCK, 2, 'S', UNSUBSCRIBE) && Moves(UNLOCK, 2, 'B', UNBIND) && Moves(UNLOCK, 3, 'I', UNLINK)
    ensures Moves(PROPFIND, 4, 'P', PROPPATCH)
  {
  }

  /** The table only moves between methods that agree on what has been read. */
  lemma TableSound(m: Method, pos: nat, ch: char)
    requires SwitchMethod(m, pos, ch).Some?
    ensures Moves(m, pos, ch, SwitchMethod(m, pos, ch).value)
  {
    hide Moves;
    match m
    case POST => TableP();
    case PUT => TableP();
    case MKCOL => TableM();
    case UNLOCK => TableU();
    case PROPFIND => TableU();
    case _ => TableC();
  }

  lemma FirstSound(ch: char)
    requires FirstLetter(ch).Some?
    ensures MethodString(FirstLetter(ch).value)[..1] == [ch]
  {
  }

  /** What the bytes read so far have to do with method and index. */
  ghost predicate Tracks(c: Core, w: seq<char>) {
    if c.state.StartReq? then Strip(w) == []
    else if c.state.ReqMethod? then
      c.index <= |MethodString(c.verb)| && Strip(w) == MethodString(c.verb)[..c.index]
    else c.state.ReqSpacesBeforeUrl? && Strip(w) == MethodString(c.verb) + [' ']
  }

  lemma StartTracks(c: Core, w: seq<char>, ch: char)
    requires CoreOk(c) && c.state.StartReq? && Tracks(c, w)
    ensures Switch(c, ch).Next? ==> Tracks(Switch(c, ch).core, w + [ch])
  {
    StripSnoc(w, ch);
    if FirstLetter(ch).Some? {
      FirstSound(ch);
      MethodLengths(FirstLetter(ch).value);
    }
    hide MethodString, FirstLetter;
  }

  lemma MethodTracks(c: Core, w: seq<char>, ch: char)
    requires CoreOk(c) && c.state.ReqMethod? && Tracks(c, w)
    ensures Switch(c, ch).Next? ==> Tracks(Switch(c, ch).core, w + [ch])
  {
    hide MethodString, SwitchMethod, MethodLength, Switch, MethodByte, Strip, CoreOk;
    assert Switch(c, ch) == MethodByte(c, ch) by { MethodSwitch(c, ch); }
    ByteTracks(c, w, ch);
  }

  lemma MethodSwitch(c: Core, ch: char)
    requires CoreOk(c) && c.state.ReqMethod?
    ensures Switch(c, ch) == MethodByte(c, ch)
  {
    hide MethodByte, GuardOk;
  }

  lemma ByteTracks(c: Core, w: seq<char>, ch: char)
    requires CoreOk(c) && c.state.ReqMethod? && Tracks(c, w)
    ensures MethodByte(c, ch).Next? ==> Tracks(MethodByte(c, ch).core, w + [ch])
  {
    hide MethodString, SwitchMethod, MethodLength, Strip;
    MethodLengths(c.verb);
    if SwitchMethod(c.verb, c.index, ch).Some? {
      TableSound(c.verb, c.index, ch);
    }
    StripSnoc(w, ch);
    var s := MethodString(c.verb);
    if c.index < |s| {
      assert s[..c.index + 1] == s[..c.index] + [s[c.index]];
      if SwitchMethod(c.verb, c.index, ch).Some? {
        var t := MethodString(SwitchMethod(c.verb, c.index, ch).value);
        assert t[..c.index + 1] == t[..c.index] + [ch];
      }
    } else {
      assert s[..c.index] == s;
    }
  }

  /** The key invariant: the bytes consumed are the first `index` letters of the current method. */
  lemma {:induction false} ReadsTracks(c: Core, w: seq<char>)
    requires CoreOk(c) && c.state.StartReq? && Reads(c, w).Some?
    ensures Tracks(Reads(c, w).value, w)
  {
    hide Switch, CoreOk, MethodString;
    if w != [] {
      var v, ch := w[..|w| - 1], w[|w| - 1];
      assert w == v + [ch];
      ReadsTracks(c, v);
      var d := Reads(c, v).value;
      if d.state.StartReq? {
        StartTracks(d, v, ch);
      } else {
        MethodTracks(d, v, ch);
      }
    }
  }

  // ------------------------------------------------------------------ completeness

  /** The method the parser holds after `k` letters of `m`'s name. */
  function Via(m: Method, k: nat): Method {
    match m
    case PUT => if k < 2 then POST else PUT
    case PATCH => if k < 2 then POST else PATCH
    case PROPFIND => if k < 2 then POST else PROPFIND
    case PROPPATCH => if k < 2 then POST else if k < 5 then PROPFIND else PROPPATCH
    case PURGE => if k < 2 then POST else if k < 3 then PUT else PURGE
    case CHECKOUT => if k < 2 then CONNECT else CHECKOUT
    case COPY => if k < 3 then CONNECT else COPY
    case MOVE => if k < 2 then MKCOL else MOVE
    case MERGE => if k < 2 then MKCOL else MERGE
    case MSEARCH => if k < 2 then MKCOL else MSEARCH
    case MKACTIVITY => if k < 3 then MKCOL else MKACTIVITY
    case MKCALENDAR => if k < 4 then MKCOL else MKCALENDAR
    case SEARCH => if k < 2 then SUBSCRIBE else SEARCH
    case REBIND => if k < 3 then REPORT else REBIND
    case LINK => if k < 2 then LOCK else LINK
    case UNSUBSCRIBE => if k < 3 then UNLOCK else UNSUBSCRIBE
    case UNBIND => if k < 3 then UNLOCK else UNBIND
    case UNLINK => if k < 4 then UNLOCK else UNLINK
    case _ => m
  }

  function NextVerb(v: Method, k: nat, ch: char): Option<Method> {
    if ch == At(MethodString(v), k) then Some(v)
    else if 'A' <= ch <= 'Z' || ch == '-' then SwitchMethod(v, k, ch) else None
  }

  /** Letter k of a method's name takes the parser along the path of that method. */
  lemma ViaStep(m: Method, k: nat)
    requires 1 <= k < |MethodString(m)|
    ensures NextVerb(Via(m, k), k, MethodString(m)[k]) == Some(Via(m, k + 1))
  {
    if Via(m, k) != Via(m, k + 1) {
      ViaSwitch(m, k);
    } else {
      ViaStay(m, k);
    }
  }

  lemma ViaSwitch(m: Method, k: nat)
    requires 1 <= k < |MethodString(m)| && Via(m, k) != Via(m, k + 1)
    ensures NextVerb(Via(m, k), k, MethodString(m)[k]) == Some(Via(m, k + 1))
  {
  }

  lemma ViaStay(m: Method, k: nat)
    requires 1 <= k < |MethodString(m)| && Via(m, k) == Via(m, k + 1)
    ensures At(MethodString(Via(m, k)), k) == MethodString(m)[k]
  {
  }

  lemma {:induction false} ReadsName(c: Core, m: Method, k: nat)
    requires CoreOk(c) && c.state.StartReq? && 1 <= k <= |MethodString(m)|
    ensures var r := Reads(c, MethodString(m)[..k]);
            r.Some? && r.value.state.ReqMethod? && r.value.verb == Via(m, k) && r.value.index == k
  {
    hide MethodString, Switch, CoreOk, FirstLetter, SwitchMethod, Via;
    var w := MethodString(m)[..k];
    var v, ch := w[..k - 1], w[k - 1];
    assert v == MethodString(m)[..k - 1] && ch == MethodString(m)[k - 1];
    LetterOk(m, k - 1);
    if k == 1 {
      assert Reads(c, v) == Some(c);
      FirstComplete(m);
      FirstByteIs(c, ch);
    } else {
      ReadsName(c, m, k - 1);
      ViaStep(m, k - 1);
      MethodByteIs(Reads(c, v).value, ch);
    }
  }

  lemma LetterOk(m: Method, k: nat)
    requires k < |MethodString(m)|
    ensures MethodString(m)[k] != ' ' && MethodString(m)[k] != '\0'
  {
    hide MethodString;
    NoBlanks(m);
  }

  ghost predicate Blankless(s: string) { forall k :: 0 <= k < |s| ==> s[k] != ' ' && s[k] != '\0' }

  lemma NoBlanks(m: Method)
    ensures Blankless(MethodString(m))
  {
    hide MethodString, Blankless;
    CommonNoBlanks(m);
    OtherNoBlanks(m);
    LateNoBlanks(m);
  }

  predicate IsCommon(m: Method) {
    m.DELETE? || m.GET? || m.HEAD? || m.POST? || m.PUT? || m.CONNECT? || m.OPTIONS? || m.TRACE? || m.COPY? || m.LOCK? || m.MKCOL?
  }

  predicate IsOther(m: Method) {
    m.MOVE? || m.PROPFIND? || m.PROPPATCH? || m.SEARCH? || m.UNLOCK? || m.BIND? || m.REBIND? || m.UNBIND? || m.ACL? || m.REPORT?
  }

  lemma CommonNoBlanks(m: Method)
    ensures IsCommon(m) ==> Blankless(MethodString(m))
  {
  }

  lemma OtherNoBlanks(m: Method)
    ensures IsOther(m) ==> Blankless(MethodString(m))
  {
  }

  lemma LateNoBlanks(m: Method)
    ensures !IsCommon(m) && !IsOther(m) ==> Blankless(MethodString(m))
  {
  }

  lemma FirstByteIs(c: Core, ch: char)
    requires CoreOk(c) && c.state.StartReq? && IsAlpha(ch) && FirstLetter(ch).Some?
    ensures var o := Switch(c, ch);
            o.Next? && o.core.state.ReqMethod? && o.core.verb == FirstLetter(ch).value && o.core.index == 1
  {
    hide FirstLetter;
  }

  lemma MethodByteIs(c: Core, ch: char)
    requires CoreOk(c) && c.state.ReqMethod? && ch != ' ' && ch != '\0' && NextVerb(c.verb, c.index, ch).Some?
    ensures Switch(c, ch) == Go(c.(verb := NextVerb(c.verb, c.index, ch).value, index := c.index + 1))
  {
    hide MethodString, SwitchMethod;
  }

  lemma FirstComplete(m: Method)
    ensures |MethodString(m)| >= 1 && IsAlpha(MethodString(m)[0]) && FirstLetter(MethodString(m)[0]) == Some(Via(m, 1))
  {
  }

  /**
   Sound and complete: reading `w` and a space from s_start_req leads to the URL with
   method `m` exactly when `w`, without leading line ends, is the name of `m`.
   */
  lemma MethodRecognised(c: Core, w: seq<char>, m: Method)
    requires CoreOk(c) && c.state.StartReq?
    ensures var r := Reads(c, w + [' ']);
            (r.Some? && r.value.state.ReqSpacesBeforeUrl? && r.value.verb == m) <==> Strip(w) == MethodString(m)
  {
    hide MethodString, Switch, CoreOk, Reads, Strip;
    var r := Reads(c, w + [' ']);
    if r.Some? && r.value.state.ReqSpacesBeforeUrl? && r.value.verb == m {
      OnlyNames(c, w, m);
    }
    if Strip(w) == MethodString(m) {
      EveryName(c, w, m);
    }
  }

  lemma OnlyNames(c: Core, w: seq<char>, m: Method)
    requires CoreOk(c) && c.state.StartReq? && Reads(c, w + [' ']).Some?
    requires Reads(c, w + [' ']).value.state.ReqSpacesBeforeUrl? && Reads(c, w + [' ']).value.verb == m
    ensures Strip(w) == MethodString(m)
  {
    hide MethodString, Switch, CoreOk, Reads;
    StripSnoc(w, ' ');
    ReadsTracks(c, w + [' ']);
    assert (Strip(w) + [' '])[..|Strip(w)|] == Strip(w);
    assert (MethodString(m) + [' '])[..|MethodString(m)|] == MethodString(m);
  }

  lemma EveryName(c: Core, w: seq<char>, m: Method)
    requires CoreOk(c) && c.state.StartReq? && Strip(w) == MethodString(m)
    ensures var r := Reads(c, w + [' ']); r.Some? && r.value.state.ReqSpacesBeforeUrl? && r.value.verb == m
  {
    hide MethodString, Switch, CoreOk, Strip;
    var s, k := MethodString(m), |w| - |Strip(w)|;
    StripIs(w);
    NameNonEmpty(m);
    ReadsNewlines(c, w[..k]);
    ReadsAfter(c, w[..k], s, |s|);
    ReadsName(c, m, |s|);
    assert s[..|s|] == s && w == w[..k] + s && (w + [' '])[..|w|] == w;
    SpaceEnds(Reads(c, w).value, m);
  }

  lemma NameNonEmpty(m: Method)
    ensures |MethodString(m)| >= 1 && |MethodString(m)| == MethodLength(m) && Via(m, MethodLength(m)) == m
  {
    MethodLengths(m);
  }

  lemma SpaceEnds(c: Core, m: Method)
    requires CoreOk(c) && c.state.ReqMethod? && c.verb == m && c.index == |MethodString(m)|
    ensures Switch(c, ' ').Next? && Switch(c, ' ').core.state.ReqSpacesBeforeUrl? && Switch(c, ' ').core.verb == m
  {
    hide MethodString;
  }

  lemma {:induction false} StripIs(w: seq<char>)
    ensures var k := |w| - |Strip(w)|;
            0 <= k && w[k..] == Strip(w) && forall i :: 0 <= i < k ==> IsNewline(w[i])
  {
    if w != [] && IsNewline(w[0]) {
      StripIs(w[1..]);
      var k := |w| - |Strip(w)|;
      assert w[1..][k - 1..] == w[k..];
      assert forall i :: 1 <= i < k ==> w[i] == w[1..][i - 1];
    }
  }

  /** Line ends before a request change nothing. */
  lemma {:induction false} ReadsNewlines(c: Core, w: seq<char>)
    requires CoreOk(c) && c.state.StartReq? && forall i :: 0 <= i < |w| ==> IsNewline(w[i])
    ensures Reads(c, w) == Some(c)
  {
    if w != [] {
      ReadsNewlines(c, w[..|w| - 1]);
    }
  }

  lemma {:induction false} ReadsAfter(c: Core, v: seq<char>, w: seq<char>, k: nat)
    requires CoreOk(c) && Reads(c, v) == Some(c) && k <= |w|
    ensures Reads(c, v + w[..k]) == Reads(c, w[..k])
  {
    hide Switch, CoreOk;
    if k == 0 {
      assert v + w[..k] == v;
    } else {
      ReadsAfter(c, v, w, k - 1);
      assert (v + w[..k])[..|v| + k - 1] == v + w[..k - 1];
      assert w[..k][..k - 1] == w[..k - 1];
    }
  }
}
