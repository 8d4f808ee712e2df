/**
 Which URLs are accepted, by a grammar: a URL is cut at its delimiters as appendix B of RFC 3986
 cuts it, and every piece has its own characters.
 */
module HttpUrlGrammar {
  import opened Options
  import opened HttpTypes
  import opened HttpSwitch
  import opened HttpUrl

  // -------------------------------------------------------------------------------- grammar

  ghost predicate All(s: seq<char>, p: char -> bool) { forall i :: 0 <= i < |s| ==> p(s[i]) }

  /** The first place of one of the characters, or the end. */
  function Upto(s: seq<char>, stops: set<char>): (k: nat)
    ensures k <= |s| && (k < |s| ==> s[k] in stops)
    ensures forall i :: 0 <= i < k ==> s[i] !in stops
  {
    if s == [] || s[0] in stops then 0 else 1 + Upto(s[1..], stops)
  }

  predicate IsQueryChar(ch: char) { IsUrlChar(ch) || ch == '?' }

  predicate IsFragmentChar(ch: char) { IsUrlChar(ch) || ch == '?' || ch == '#' }

  predicate IsV6Char(ch: char) { IsHex(ch) || ch == ':' || ch == '.' }

  /** Path, query and fragment: from the first '?' on the query, from the first '#' on the fragment. */
  ghost predicate IsTail(w: seq<char>) {
    var h := Upto(w, {'#'});
    var q := Upto(w[..h], {'?'});
    All(w[..q], IsUrlChar) && All(w[q..h], IsQueryChar) && All(w[h..], IsFragmentChar)
  }

  ghost predicate IsPort(w: seq<char>) { w == [] || (w[0] == ':' && |w| > 1 && All(w[1..], IsNum)) }

  /** An IP literal without its brackets: an address, and a zone behind a percent sign. */
  ghost predicate IsV6(w: seq<char>) {
    var k := Upto(w, {'%'});
    k > 0 && All(w[..k], IsV6Char) && (k < |w| ==> k + 1 < |w| && All(w[k + 1..], IsZoneChar))
  }

  ghost predicate IsHostAndPort(w: seq<char>) {
    if w != [] && w[0] == '[' then
      var k := Upto(w, {']'});
      k < |w| && IsV6(w[1..k]) && IsPort(w[k + 1..])
    else
      var k := Upto(w, {':'});
      k > 0 && All(w[..k], IsHostChar) && IsPort(w[k..])
  }

  ghost predicate IsAuthority(w: seq<char>) {
    var k := Upto(w, {'@'});
    if k < |w| then All(w[..k], IsUserInfoChar) && IsHostAndPort(w[k + 1..]) else IsHostAndPort(w)
  }

  const AUTHORITY_ENDS: set<char> := {'/', '?', '#'}

  /** Authority and tail; a fragment cannot follow the authority directly. */
  ghost predicate IsLocation(w: seq<char>) {
    var k := Upto(w, AUTHORITY_ENDS);
    IsAuthority(w[..k]) && (k < |w| ==> w[k] != '#' && IsTail(w[k..]))
  }

  /** Nothing, or a path, or a scheme, "://" and a location. */
  ghost predicate IsUrl(w: seq<char>) {
    if w == [] then true
    else if w[0] == '/' || w[0] == '*' then IsTail(w)
    else
      var k := Upto(w, {':'});
      k > 0 && All(w[..k], IsAlpha) && k + 3 <= |w| && w[k..k + 3] == "://" && IsLocation(w[k + 3..])
  }

  // ----------------------------------------------------------------------- the URL automaton

  function Run(s: State, w: seq<char>): State
    decreases |w|
  {
    if w == [] then s else Run(UrlChar(s, w[0]), w[1..])
  }

  lemma {:induction false} RunDead(w: seq<char>)
    ensures Run(Dead, w).Dead?
    decreases |w|
  {
    if w != [] {
      assert UrlChar(Dead, w[0]).Dead?;
      RunDead(w[1..]);
    }
  }

  lemma {:induction false} RunConcat(s: State, a: seq<char>, b: seq<char>)
    ensures Run(s, a + b) == Run(Run(s, a), b)
    decreases |a|
  {
    hide UrlChar;
    if a == [] {
      assert a + b == b;
    } else {
      assert (a + b)[1..] == a[1..] + b;
      RunConcat(UrlChar(s, a[0]), a[1..], b);
    }
  }

  lemma AllRest(s: seq<char>, p: char -> bool)
    requires s != []
    ensures All(s, p) <==> p(s[0]) && All(s[1..], p)
  {
    if p(s[0]) && All(s[1..], p) {
      forall i | 0 <= i < |s|
        ensures p(s[i])
      {
        assert i > 0 ==> s[i] == s[1..][i - 1];
      }
    }
  }

  lemma AllFront(s: seq<char>, p: char -> bool)
    requires s != [] && All(s, p)
    ensures All(s[..|s| - 1], p) && p(s[|s| - 1])
  {
  }

  lemma {:induction false} FragmentRuns(s: State, w: seq<char>)
    requires s.ReqFragmentStart? || s.ReqFragment?
    ensures !Run(s, w).Dead? <==> All(w, IsFragmentChar)
    decreases |w|
  {
    hide All;
    if w == [] {
      Nothing(IsFragmentChar);
    } else {
      AllRest(w, IsFragmentChar);
      FragmentByte(s, w[0]);
      RunDead(w[1..]);
      hide UrlChar;
      if !UrlChar(s, w[0]).Dead? {
        FragmentRuns(UrlChar(s, w[0]), w[1..]);
      }
    }
  }

  lemma Nothing(p: char -> bool)
    ensures All([], p)
  {
  }

  lemma FragmentByte(s: State, ch: char)
    requires s.ReqFragmentStart? || s.ReqFragment?
    ensures var t := UrlChar(s, ch);
            if IsFragmentChar(ch) then t.ReqFragmentStart? || t.ReqFragment? else t.Dead?
  {
  }

  lemma QueryByte(s: State, ch: char)
    requires s.ReqQueryStringStart? || s.ReqQueryString?
    ensures UrlChar(s, ch) == if IsQueryChar(ch) then ReqQueryString else if ch == '#' then ReqFragmentStart else Dead
    ensures IsQueryChar(ch) ==> ch != '#'
  {
  }

  lemma PathByte(ch: char)
    ensures UrlChar(ReqPath, ch) ==
            if IsUrlChar(ch) then ReqPath else if ch == '?' then ReqQueryStringStart else if ch == '#' then ReqFragmentStart else Dead
    ensures IsUrlChar(ch) ==> ch != '#' && ch != '?'
  {
  }

  /** Query and fragment. */
  ghost predicate IsQueryTail(w: seq<char>) {
    var h := Upto(w, {'#'});
    All(w[..h], IsQueryChar) && All(w[h..], IsFragmentChar)
  }

  lemma QueryTailRest(w: seq<char>)
    requires w != []
    ensures w[0] != '#' ==> (IsQueryTail(w) <==> IsQueryChar(w[0]) && IsQueryTail(w[1..]))
    ensures w[0] == '#' ==> (IsQueryTail(w) <==> All(w[1..], IsFragmentChar))
  {
    hide All;
    var h := Upto(w, {'#'});
    if w[0] == '#' {
      Nothing(IsQueryChar);
      assert w[..0] == [] && w[0..] == w;
      AllRest(w, IsFragmentChar);
    } else {
      assert h == 1 + Upto(w[1..], {'#'});
      assert w[..h][0] == w[0] && w[..h][1..] == w[1..][..h - 1] && w[h..] == w[1..][h - 1..];
      AllRest(w[..h], IsQueryChar);
    }
  }

  lemma {:induction false} QueryRuns(s: State, w: seq<char>)
    requires s.ReqQueryStringStart? || s.ReqQueryString?
    ensures !Run(s, w).Dead? <==> IsQueryTail(w)
    decreases |w|
  {
    hide UrlChar, IsQueryChar;
    if w == [] {
      Nothing(IsQueryChar);
      Nothing(IsFragmentChar);
    } else {
      QueryByte(s, w[0]);
      QueryTailRest(w);
      RunDead(w[1..]);
      hide IsQueryTail, All;
      if IsQueryChar(w[0]) {
        QueryRuns(ReqQueryString, w[1..]);
      } else if w[0] == '#' {
        FragmentRuns(ReqFragmentStart, w[1..]);
      }
    }
  }

  lemma TailRest(w: seq<char>)
    requires w != []
    ensures w[0] == '#' ==> (IsTail(w) <==> All(w[1..], IsFragmentChar))
    ensures w[0] == '?' ==> (IsTail(w) <==> IsQueryTail(w[1..]))
    ensures w[0] != '#' && w[0] != '?' ==> (IsTail(w) <==> IsUrlChar(w[0]) && IsTail(w[1..]))
  {
    hide All;
    var h := Upto(w, {'#'});
    var q := Upto(w[..h], {'?'});
    Nothing(IsUrlChar);
    Nothing(IsQueryChar);
    if w[0] == '#' {
      assert h == 0 && w[..0] == [] && w[0..] == w && q == 0 && w[0..0] == [];
      AllRest(w, IsFragmentChar);
    } else {
      assert h == 1 + Upto(w[1..], {'#'});
      var v := w[1..];
      assert w[..h][1..] == v[..h - 1] && w[h..] == v[h - 1..];
      if w[0] == '?' {
        assert q == 0 && w[..0] == [] && w[0..h] == w[..h] && w[..h][0] == '?';
        AllRest(w[..h], IsQueryChar);
        assert IsQueryChar('?');
      } else {
        assert q == 1 + Upto(v[..h - 1], {'?'});
        assert w[..q][0] == w[0] && w[..q][1..] == v[..q - 1] && w[q..h] == v[q - 1..h - 1];
        AllRest(w[..q], IsUrlChar);
      }
    }
  }

  lemma {:induction false} PathRuns(w: seq<char>)
    ensures !Run(ReqPath, w).Dead? <==> IsTail(w)
    decreases |w|
  {
    hide UrlChar, IsUrlChar, IsTail, IsQueryTail, All;
    if w == [] {
      EmptyTail();
    } else {
      PathByte(w[0]);
      TailRest(w);
      RunDead(w[1..]);
      if IsUrlChar(w[0]) {
        PathRuns(w[1..]);
      } else if w[0] == '?' {
        QueryRuns(ReqQueryStringStart, w[1..]);
      } else if w[0] == '#' {
        FragmentRuns(ReqFragmentStart, w[1..]);
      }
    }
  }

  lemma EmptyTail()
    ensures IsTail([])
  {
  }

  predicate InServer(s: State) { s.ReqServerStart? || s.ReqServer? || s.ReqServerWithAt? }

  lemma ServerByte(s: State, ch: char)
    requires InServer(s)
    ensures var t := UrlChar(s, ch);
            && (ch == '/' ==> t.ReqPath?) && (ch == '?' ==> t.ReqQueryStringStart?) && (ch == '#' ==> t.Dead?)
            && (ch !in AUTHORITY_ENDS ==> t.Dead? || t == if ch == '@' then ReqServerWithAt else ReqServer)
            && (ch !in AUTHORITY_ENDS && ch != '@' ==> (t.ReqServer? <==> IsUserInfoChar(ch) || ch == '[' || ch == ']'))
            && (ch == '@' ==> (t.Dead? <==> s.ReqServerWithAt?))
  {
  }

  lemma {:induction false} InsideServer(s: State, a: seq<char>)
    requires InServer(s) && forall i :: 0 <= i < |a| ==> a[i] !in AUTHORITY_ENDS
    ensures Run(s, a).Dead? || InServer(Run(s, a))
    decreases |a|
  {
    hide UrlChar;
    if a != [] {
      ServerByte(s, a[0]);
      RunDead(a[1..]);
      if !UrlChar(s, a[0]).Dead? {
        InsideServer(UrlChar(s, a[0]), a[1..]);
      }
    }
  }

  lemma BehindServer(s: State, r: seq<char>)
    requires InServer(s) && r != [] && r[0] in AUTHORITY_ENDS
    ensures !Run(s, r).Dead? <==> r[0] != '#' && IsTail(r)
  {
    hide UrlChar, IsTail, IsQueryTail, IsUrlChar, All, InServer;
    ServerByte(s, r[0]);
    TailRest(r);
    RunDead(r[1..]);
    PathRuns(r[1..]);
    QueryRuns(ReqQueryStringStart, r[1..]);
    SlashIsUrl();
  }

  /** An authority, and what may come behind it. */
  lemma ServerRuns(s: State, w: seq<char>)
    requires InServer(s)
    ensures var k := Upto(w, AUTHORITY_ENDS);
            !Run(s, w).Dead? <==> !Run(s, w[..k]).Dead? && (k < |w| ==> w[k] != '#' && IsTail(w[k..]))
  {
    hide UrlChar, IsTail, Run, InServer;
    var k := Upto(w, AUTHORITY_ENDS);
    var a, r := w[..k], w[k..];
    assert w == a + r;
    RunConcat(s, a, r);
    InsideServer(s, a);
    RunDead(r);
    RunNothing(Run(s, a));
    if k < |w| && InServer(Run(s, a)) {
      BehindServer(Run(s, a), r);
    }
    if Run(s, a).Dead? {
    } else {
      assert k == |w| ==> r == [];
    }
  }

  lemma RunNothing(s: State)
    ensures Run(s, []) == s && (InServer(s) ==> !s.Dead?)
  {
  }

  lemma SlashIsUrl()
    ensures IsUrlChar('/') && IsUrlChar('*')
  {
  }

  // ---------------------------------------------------------------------- the host automaton

  function HostRun(s: HostState, w: seq<char>): HostState
    decreases |w|
  {
    if w == [] then s else HostRun(HostChar(s, w[0]), w[1..])
  }

  /** The rest of the authority is accepted from this state. */
  predicate Accepts(s: HostState, w: seq<char>) { HostEnds(HostRun(s, w)) }

  lemma {:induction false} HostRunDead(w: seq<char>)
    ensures HostRun(HostDead, w).HostDead?
    decreases |w|
  {
    if w != [] {
      HostRunDead(w[1..]);
    }
  }

  lemma {:induction false} HostRunSnoc(s: HostState, w: seq<char>, ch: char)
    ensures HostRun(s, w + [ch]) == HostChar(HostRun(s, w), ch)
    decreases |w|
  {
    hide HostChar;
    if w == [] {
      assert [] + [ch] == [ch] && [ch][1..] == [];
      assert HostRun(s, [ch]) == HostRun(HostChar(s, ch), []);
    } else {
      assert (w + [ch])[1..] == w[1..] + [ch];
      HostRunSnoc(HostChar(s, w[0]), w[1..], ch);
    }
  }

  lemma {:induction false} PortRuns(w: seq<char>)
    ensures Accepts(PortDigits, w) <==> All(w, IsNum)
    ensures Accepts(PortStart, w) <==> w != [] && All(w, IsNum)
    decreases |w|
  {
    hide All, IsNum;
    if w == [] {
      Nothing(IsNum);
    } else {
      AllRest(w, IsNum);
      HostRunDead(w[1..]);
      PortRuns(w[1..]);
    }
  }

  lemma ColonRuns(w: seq<char>)
    ensures Accepts(HostV6End, w) <==> IsPort(w)
  {
    hide All;
    if w != [] {
      HostRunDead(w[1..]);
      PortRuns(w[1..]);
    }
  }

  lemma HostNameByte(ch: char)
    ensures HostChar(HostName, ch) == if IsHostChar(ch) then HostName else if ch == ':' then PortStart else HostDead
    ensures IsHostChar(ch) ==> ch != ':'
  {
  }

  ghost predicate IsNameAndPort(w: seq<char>) {
    var k := Upto(w, {':'});
    All(w[..k], IsHostChar) && IsPort(w[k..])
  }

  lemma {:induction false} HostNameRuns(w: seq<char>)
    ensures Accepts(HostName, w) <==> IsNameAndPort(w)
    decreases |w|
  {
    hide All, HostChar, IsHostChar;
    Nothing(IsHostChar);
    if w == [] {
    } else {
      HostNameByte(w[0]);
      HostRunDead(w[1..]);
      if w[0] == ':' {
        PortRuns(w[1..]);
        assert w[..0] == [] && w[0..] == w;
      } else {
        var k := Upto(w[1..], {':'});
        assert w[..k + 1][0] == w[0] && w[..k + 1][1..] == w[1..][..k] && w[k + 1..] == w[1..][k..];
        AllRest(w[..k + 1], IsHostChar);
        hide IsPort;
        if IsHostChar(w[0]) {
          HostNameRuns(w[1..]);
        }
      }
    }
  }

  ghost predicate IsZoneEnd(w: seq<char>) {
    var k := Upto(w, {']'});
    k < |w| && All(w[..k], IsZoneChar) && IsPort(w[k + 1..])
  }

  lemma ZoneByte(ch: char)
    ensures HostChar(HostV6Zone, ch) == if ch == ']' then HostV6End else if IsZoneChar(ch) then HostV6Zone else HostDead
    ensures HostChar(HostV6ZoneStart, ch) == if IsZoneChar(ch) then HostV6Zone else HostDead
    ensures IsZoneChar(ch) ==> ch != ']'
  {
  }

  lemma {:induction false} ZoneRuns(w: seq<char>)
    ensures Accepts(HostV6Zone, w) <==> IsZoneEnd(w)
    decreases |w|
  {
    hide All, HostChar, IsZoneChar, IsPort;
    Nothing(IsZoneChar);
    if w != [] {
      ZoneByte(w[0]);
      HostRunDead(w[1..]);
      if w[0] == ']' {
        ColonRuns(w[1..]);
        assert w[..0] == [];
      } else {
        var k := Upto(w[1..], {']'});
        assert w[..k + 1][0] == w[0] && w[..k + 1][1..] == w[1..][..k] && w[k + 1..] == w[1..][k..];
        AllRest(w[..k + 1], IsZoneChar);
        if k < |w[1..]| {
          assert w[k + 2..] == w[1..][k + 1..];
        }
        if IsZoneChar(w[0]) {
          ZoneRuns(w[1..]);
        }
      }
    }
  }

  /** An address, of which the first part may have been read, and a zone. */
  ghost predicate IsV6Rest(x: seq<char>) {
    var k := Upto(x, {'%'});
    All(x[..k], IsV6Char) && (k < |x| ==> k + 1 < |x| && All(x[k + 1..], IsZoneChar))
  }

  ghost predicate IsV6End(w: seq<char>) {
    var k := Upto(w, {']'});
    k < |w| && IsV6Rest(w[..k]) && IsPort(w[k + 1..])
  }

  lemma V6Byte(ch: char)
    ensures HostChar(HostV6, ch) ==
            if ch == ']' then HostV6End else if IsV6Char(ch) then HostV6 else if ch == '%' then HostV6ZoneStart else HostDead
    ensures HostChar(HostV6Start, ch) == if IsV6Char(ch) then HostV6 else HostDead
    ensures IsV6Char(ch) ==> ch != ']' && ch != '%'
  {
  }

  lemma V6RestOf(x: seq<char>)
    requires x != []
    ensures x[0] == '%' ==> (IsV6Rest(x) <==> |x| > 1 && All(x[1..], IsZoneChar))
    ensures x[0] != '%' ==> (IsV6Rest(x) <==> IsV6Char(x[0]) && IsV6Rest(x[1..]))
  {
    hide All;
    Nothing(IsV6Char);
    if x[0] == '%' {
      assert x[..0] == [];
    } else {
      var k := Upto(x[1..], {'%'});
      assert x[..k + 1][0] == x[0] && x[..k + 1][1..] == x[1..][..k];
      AllRest(x[..k + 1], IsV6Char);
      if k < |x[1..]| {
        assert x[k + 2..] == x[1..][k + 1..];
      }
    }
  }

  lemma {:induction false} V6Runs(w: seq<char>)
    ensures Accepts(HostV6, w) <==> IsV6End(w)
    decreases |w|
  {
    hide All, HostChar, IsV6Char, IsZoneChar, IsPort, IsV6Rest;
    if w != [] {
      V6Byte(w[0]);
      HostRunDead(w[1..]);
      var k := Upto(w[1..], {']'});
      if w[0] == ']' {
        ColonRuns(w[1..]);
        assert w[..0] == [];
        NoV6Rest();
      } else {
        var x := w[..k + 1];
        assert Upto(w, {']'}) == k + 1;
        assert x[0] == w[0] && x[1..] == w[1..][..k];
        V6RestOf(x);
        if k < |w[1..]| {
          assert w[k + 2..] == w[1..][k + 1..];
        }
        if w[0] == '%' {
          ZoneStarts(w[1..]);
        } else if IsV6Char(w[0]) {
          V6Runs(w[1..]);
        }
      }
    }
  }

  lemma NoV6Rest()
    ensures IsV6Rest([])
  {
  }

  lemma ZoneStarts(w: seq<char>)
    ensures Accepts(HostV6ZoneStart, w) <==> IsZoneEnd(w) && Upto(w, {']'}) > 0
  {
    hide All, HostChar, IsZoneChar, IsPort;
    if w != [] {
      ZoneByte(w[0]);
      HostRunDead(w[1..]);
      ZoneRuns(w);
      if w[0] == ']' {
        ZoneExcludes();
      }
    }
  }

  lemma ZoneExcludes()
    ensures !IsZoneChar(']')
  {
  }

  /** Cutting a string at a stop, seen from its first character. */
  lemma CutFirst(w: seq<char>, stops: set<char>)
    requires w != []
    ensures w[0] in stops ==> Upto(w, stops) == 0 && w[..0] == []
    ensures w[0] !in stops ==>
              var k := Upto(w[1..], stops);
              && Upto(w, stops) == k + 1 && w[..k + 1][0] == w[0] && w[..k + 1][1..] == w[1..][..k]
              && (k < |w[1..]| ==> w[k + 2..] == w[1..][k + 1..])
  {
  }

  ghost predicate IsUserInfoEnd(w: seq<char>) {
    var k := Upto(w, {'@'});
    k < |w| && All(w[..k], IsUserInfoChar) && Accepts(HostStart, w[k + 1..])
  }

  lemma UserInfoEndFirst(w: seq<char>)
    requires w != []
    ensures IsUserInfoEnd(w) <==> if w[0] == '@' then Accepts(HostStart, w[1..]) else IsUserInfoChar(w[0]) && IsUserInfoEnd(w[1..])
  {
    hide All, Upto, IsUserInfoChar, Accepts;
    CutFirst(w, {'@'});
    Nothing(IsUserInfoChar);
    if w[0] != '@' {
      AllRest(w[..Upto(w, {'@'})], IsUserInfoChar);
    }
  }

  lemma {:induction false} UserInfoRuns(s: HostState, w: seq<char>)
    requires s.UserInfoStart? || s.UserInfo?
    ensures Accepts(s, w) <==> IsUserInfoEnd(w)
    decreases |w|
  {
    if w == [] {
    } else {
      hide All, HostChar, IsUserInfoChar, Upto, IsUserInfoEnd;
      UserInfoByte(s, w[0]);
      HostRunDead(w[1..]);
      UserInfoEndFirst(w);
      if w[0] != '@' && IsUserInfoChar(w[0]) {
        UserInfoRuns(UserInfo, w[1..]);
      }
    }
  }

  lemma UserInfoByte(s: HostState, ch: char)
    requires s.UserInfoStart? || s.UserInfo?
    ensures HostChar(s, ch) == if ch == '@' then HostStart else if IsUserInfoChar(ch) then UserInfo else HostDead
    ensures IsUserInfoChar(ch) ==> ch != '@'
  {
  }

  lemma HostStartByte(ch: char)
    ensures HostChar(HostStart, ch) == if ch == '[' then HostV6Start else if IsHostChar(ch) then HostName else HostDead
    ensures !IsHostChar('[') && !IsHostChar(':') && !IsV6Char(']') && !IsV6Char('%')
  {
  }

  lemma HostPortRuns(w: seq<char>)
    ensures Accepts(HostStart, w) <==> IsHostAndPort(w)
  {
    hide HostChar, IsHostChar, IsV6Char, IsZoneChar, IsPort, All;
    if w != [] {
      HostStartByte(w[0]);
      HostRunDead(w[1..]);
      if w[0] == '[' {
        LiteralRuns(w);
      } else if w[0] == ':' {
      } else {
        var k := Upto(w[1..], {':'});
        assert w[..k + 1][0] == w[0] && w[..k + 1][1..] == w[1..][..k] && w[k + 1..] == w[1..][k..];
        AllRest(w[..k + 1], IsHostChar);
        HostNameRuns(w[1..]);
      }
    }
  }

  /** An address in brackets. */
  lemma LiteralRuns(w: seq<char>)
    requires w != [] && w[0] == '['
    ensures Accepts(HostStart, w) <==> IsHostAndPort(w)
  {
    hide HostChar, IsHostChar, IsV6Char, IsZoneChar, IsPort, All, IsV6Rest;
    HostStartByte(w[0]);
    var v := w[1..];
    assert Upto(w, {']'}) == 1 + Upto(v, {']'});
    var k := Upto(v, {']'});
    assert w[1..k + 1] == v[..k];
    if k < |v| {
      assert w[k + 2..] == v[k + 1..];
    }
    assert Accepts(HostStart, w) == Accepts(HostV6Start, v);
    if v != [] {
      V6Byte(v[0]);
      HostRunDead(v[1..]);
      V6Runs(v);
      FirstOfV6(v[..k]);
    }
  }

  /** An address is not empty, unlike the rest of one. */
  lemma FirstOfV6(x: seq<char>)
    ensures IsV6(x) <==> x != [] && IsV6Char(x[0]) && IsV6Rest(x)
  {
    hide IsV6Char, IsZoneChar, All;
    if x != [] {
      var k := Upto(x, {'%'});
      HostStartByte('[');
      if k > 0 {
        AllRest(x[..k], IsV6Char);
        assert x[..k][0] == x[0];
      }
    }
  }

  // ------------------------------------------------------------------------- the authority

  predicate IsServerChar(ch: char) { IsUserInfoChar(ch) || ch == '[' || ch == ']' }

  lemma Chars()
    ensures forall ch :: IsHostChar(ch) || IsNum(ch) || IsZoneChar(ch) || IsV6Char(ch) || ch == ':' || ch == '%' ==> IsServerChar(ch)
    ensures forall ch :: IsServerChar(ch) ==> ch != '@' && ch !in AUTHORITY_ENDS
  {
  }

  /** The characters of host and port are those the URL automaton takes inside an authority. */
  lemma HostPortChars(w: seq<char>)
    requires IsHostAndPort(w)
    ensures w != [] && All(w, IsServerChar)
  {
    Chars();
    hide IsHostChar, IsNum, IsZoneChar, IsV6Char, IsServerChar;
    if w[0] == '[' {
      var k := Upto(w, {']'});
      var x := w[1..k];
      var j := Upto(x, {'%'});
      forall i | 0 <= i < |w|
        ensures IsServerChar(w[i])
      {
        if i == 0 || i == k {
          assert IsServerChar('[') && IsServerChar(']') by { Brackets(); }
        } else if i < k {
          assert x[i - 1] == w[i];
          if i - 1 < j {
            assert x[..j][i - 1] == w[i];
          } else if i - 1 > j {
            assert x[j + 1..][i - 1 - (j + 1)] == w[i];
          }
        } else {
          PortChar(w[k + 1..], i - (k + 1));
        }
      }
    } else {
      var k := Upto(w, {':'});
      forall i | 0 <= i < |w|
        ensures IsServerChar(w[i])
      {
        if i < k {
          assert w[..k][i] == w[i];
        } else {
          PortChar(w[k..], i - k);
        }
      }
    }
  }

  lemma Brackets()
    ensures IsServerChar('[') && IsServerChar(']')
  {
  }

  lemma PortChar(w: seq<char>, i: nat)
    requires IsPort(w) && i < |w|
    ensures IsServerChar(w[i])
  {
    Chars();
    hide IsServerChar, IsNum;
    if i > 0 {
      assert w[1..][i - 1] == w[i];
    }
  }

  lemma {:induction false} ServerChars(s: State, a: seq<char>)
    requires InServer(s) && All(a, IsServerChar)
    ensures Run(s, a) == if a == [] then s else ReqServer
    decreases |a|
  {
    hide UrlChar, IsServerChar;
    Chars();
    if a != [] {
      assert IsServerChar(a[0]);
      ServerByte(s, a[0]);
      IsServer(a[0]);
      assert All(a[1..], IsServerChar) by { AllRest(a, IsServerChar); }
      ServerChars(ReqServer, a[1..]);
    }
  }

  lemma IsServer(ch: char)
    ensures IsServerChar(ch) <==> IsUserInfoChar(ch) || ch == '[' || ch == ']'
  {
  }

  predicate NoEnds(a: seq<char>) { forall i :: 0 <= i < |a| ==> a[i] !in AUTHORITY_ENDS }

  lemma ServerCharsOnly(a: seq<char>)
    requires All(a, IsServerChar)
    ensures NoEnds(a)
  {
    hide IsServerChar;
    Chars();
    assert forall i :: 0 <= i < |a| ==> IsServerChar(a[i]);
  }

  /** Userinfo may be empty; host and port are not. */
  lemma JoinedAt(x: seq<char>, y: seq<char>)
    requires All(x, IsServerChar) && All(y, IsServerChar) && y != []
    ensures !Run(ReqServerStart, x + ['@'] + y).Dead? && NoEnds(x + ['@'] + y)
  {
    hide All, UrlChar, Run;
    ServerChars(ReqServerStart, x);
    OneAt(Run(ReqServerStart, x));
    ServerChars(ReqServerWithAt, y);
    RunConcat(ReqServerStart, x, ['@']);
    RunConcat(ReqServerStart, x + ['@'], y);
    ServerCharsOnly(x);
    ServerCharsOnly(y);
  }

  lemma UserInfoChars(x: seq<char>)
    requires All(x, IsUserInfoChar)
    ensures All(x, IsServerChar)
  {
    hide IsUserInfoChar, IsServerChar;
    forall i | 0 <= i < |x|
      ensures IsServerChar(x[i])
    {
      assert IsUserInfoChar(x[i]);
      IsServer(x[i]);
    }
  }

  /** An authority passes the URL automaton. */
  lemma AuthorityRead(a: seq<char>)
    requires IsAuthority(a)
    ensures a != [] && !Run(ReqServerStart, a).Dead? && NoEnds(a)
  {
    hide IsHostAndPort, All, NoEnds, Run;
    var k := Upto(a, {'@'});
    if k == |a| {
      HostPortChars(a);
      ServerChars(ReqServerStart, a);
      ServerCharsOnly(a);
    } else {
      var x, y := a[..k], a[k + 1..];
      UserInfoChars(x);
      HostPortChars(y);
      JoinedAt(x, y);
      assert a == x + ['@'] + y;
    }
  }

  lemma OneAt(s: State)
    requires s.ReqServerStart? || s.ReqServer?
    ensures Run(s, ['@']) == ReqServerWithAt
  {
    ServerByte(s, '@');
    hide UrlChar;
    assert ['@'][1..] == [];
    RunNothing(UrlChar(s, '@'));
  }

  /** The host automaton accepts exactly the authorities. */
  lemma AuthorityRuns(a: seq<char>)
    ensures Accepts(if '@' in a then UserInfoStart else HostStart, a) <==> IsAuthority(a)
  {
    hide HostRun, IsHostAndPort, All;
    var k := Upto(a, {'@'});
    assert '@' in a <==> k < |a| by {
      if '@' in a {
        var i :| 0 <= i < |a| && a[i] == '@';
      }
    }
    if k < |a| {
      UserInfoRuns(UserInfoStart, a);
      HostPortRuns(a[k + 1..]);
    } else {
      HostPortRuns(a);
    }
  }

  // ------------------------------------------------------------------- against what is parsed

  function StartOf(isConnect: bool): State { if isConnect then ReqServerStart else ReqSpacesBeforeUrl }

  lemma {:induction false} FoldRun(buf: seq<char>, isConnect: bool, n: nat)
    requires n <= |buf|
    ensures UrlFold(buf, isConnect, n).Some? <==> !Run(StartOf(isConnect), buf[..n]).Dead?
    ensures UrlFold(buf, isConnect, n).Some? ==> UrlFold(buf, isConnect, n).value.state == Run(StartOf(isConnect), buf[..n])
  {
    hide UrlChar, Place;
    var s := StartOf(isConnect);
    if n == 0 {
      RunNothing(s);
      assert buf[..0] == [];
    } else {
      FoldRun(buf, isConnect, n - 1);
      var a, ch := buf[..n - 1], buf[n - 1];
      assert buf[..n] == a + [ch];
      RunConcat(s, a, [ch]);
      RunOne(Run(s, a), ch);
    }
  }

  lemma RunOne(s: State, ch: char)
    ensures Run(s, [ch]) == UrlChar(s, ch) && UrlChar(Dead, ch).Dead?
  {
    assert [ch][1..] == [];
    assert Run(UrlChar(s, ch), []) == UrlChar(s, ch);
  }

  lemma {:induction false} HostFoldRun(buf: seq<char>, foundAt: bool, lo: nat, n: nat)
    requires lo <= n <= |buf|
    ensures var s := if foundAt then UserInfoStart else HostStart;
            var f := HostFold(buf, foundAt, lo, n);
            (f.Some? <==> !HostRun(s, buf[lo..n]).HostDead?) && (f.Some? ==> f.value.state == HostRun(s, buf[lo..n]))
    decreases n
  {
    hide HostChar, PlaceHost, HostScanning;
    if n == lo {
      assert buf[lo..n] == [];
    } else {
      HostFoldRun(buf, foundAt, lo, n - 1);
      assert buf[lo..n] == buf[lo..n - 1] + [buf[n - 1]];
      HostRunSnoc(if foundAt then UserInfoStart else HostStart, buf[lo..n - 1], buf[n - 1]);
      assert HostChar(HostDead, buf[n - 1]).HostDead? by { HostRunDead([buf[n - 1]]); DeadStays(buf[n - 1]); }
    }
  }

  lemma DeadStays(ch: char)
    ensures HostChar(HostDead, ch).HostDead?
  {
  }

  /** While an authority is read, it is the host part. */
  lemma {:induction false} HostSpan(buf: seq<char>, isConnect: bool, m: nat, n: nat)
    requires m < n <= |buf| && UrlFold(buf, isConnect, m).Some? && UrlFold(buf, isConnect, n).Some?
    requires var d := UrlFold(buf, isConnect, m).value; d.state.ReqServerStart? && !d.foundAt && d.raw.host.Unset? && d.last != Host
    requires forall i :: m <= i < n ==> buf[i] !in AUTHORITY_ENDS
    ensures var d, e := UrlFold(buf, isConnect, m).value, UrlFold(buf, isConnect, n).value;
            && e.raw == d.raw.(host := Span(m, n - m)) && e.last == Host
            && (e.state.ReqServer? || e.state.ReqServerWithAt?) && (e.foundAt <==> '@' in buf[m..n])
    decreases n
  {
    hide UrlChar;
    assert buf[m..n] == buf[m..n - 1] + [buf[n - 1]];
    var c := UrlFold(buf, isConnect, n - 1).value;
    if n - 1 > m {
      HostSpan(buf, isConnect, m, n - 1);
    } else {
      assert buf[m..n - 1] == [];
    }
    ServerByte(c.state, buf[n - 1]);
  }

  predicate InTail(s: State) {
    s.ReqPath? || s.ReqQueryStringStart? || s.ReqQueryString? || s.ReqFragmentStart? || s.ReqFragment?
  }

  lemma TailByte(s: State, ch: char)
    ensures InTail(s) ==> UrlChar(s, ch).Dead? || InTail(UrlChar(s, ch))
  {
    if s.ReqPath? {
      PathByte(ch);
    } else if s.ReqQueryStringStart? || s.ReqQueryString? {
      QueryByte(s, ch);
    } else if s.ReqFragmentStart? || s.ReqFragment? {
      FragmentByte(s, ch);
    }
    hide UrlChar;
  }

  /** What comes behind changes neither scheme nor host. */
  lemma {:induction false} TailKeeps(buf: seq<char>, isConnect: bool, m: nat, n: nat)
    requires m <= n <= |buf| && UrlFold(buf, isConnect, m).Some? && UrlFold(buf, isConnect, n).Some?
    requires InTail(UrlFold(buf, isConnect, m).value.state)
    ensures var d, e := UrlFold(buf, isConnect, m).value, UrlFold(buf, isConnect, n).value;
            InTail(e.state) && e.raw.schema == d.raw.schema && e.raw.host == d.raw.host && e.foundAt == d.foundAt
    decreases n
  {
    hide UrlChar;
    if m < n {
      TailKeeps(buf, isConnect, m, n - 1);
      TailByte(UrlFold(buf, isConnect, n - 1).value.state, buf[n - 1]);
    }
  }

  lemma SplitRun(buf: seq<char>, isConnect: bool, m: nat)
    requires m <= |buf| && UrlFold(buf, isConnect, m).Some?
    ensures UrlFold(buf, isConnect, |buf|).Some? <==> !Run(UrlFold(buf, isConnect, m).value.state, buf[m..]).Dead?
  {
    hide UrlFold, Run;
    FoldRun(buf, isConnect, m);
    FoldRun(buf, isConnect, |buf|);
    RunConcat(StartOf(isConnect), buf[..m], buf[m..]);
    assert buf[..|buf|] == buf[..m] + buf[m..];
  }

  lemma FoldReached(buf: seq<char>, isConnect: bool, m: nat)
    requires m <= |buf| && UrlFold(buf, isConnect, |buf|).Some?
    ensures UrlFold(buf, isConnect, m).Some?
  {
    hide UrlFold;
    if UrlFold(buf, isConnect, m).None? {
      UrlStuck(buf, isConnect, m, |buf|);
    }
  }

  /** The host part of a URL that is read to its end. */
  lemma HostFound(buf: seq<char>, isConnect: bool, m: nat, k: nat)
    requires m <= |buf| && UrlFold(buf, isConnect, m).Some? && UrlFold(buf, isConnect, |buf|).Some?
    requires var d := UrlFold(buf, isConnect, m).value; d.state.ReqServerStart? && !d.foundAt && d.raw.host.Unset? && d.last != Host
    requires k == Upto(buf[m..], AUTHORITY_ENDS)
    ensures var d, e := UrlFold(buf, isConnect, m).value, UrlFold(buf, isConnect, |buf|).value;
            && e.raw.schema == d.raw.schema
            && e.raw.host == (if k == 0 then Unset else Span(m, k))
            && (k > 0 ==> (e.foundAt <==> '@' in buf[m..m + k]))
  {
    hide UrlFold;
    var n := m + k;
    FoldReached(buf, isConnect, n);
    forall i | m <= i < n
      ensures buf[i] !in AUTHORITY_ENDS
    {
      assert buf[i] == buf[m..][i - m];
    }
    if k > 0 {
      HostSpan(buf, isConnect, m, n);
    }
    if n < |buf| {
      assert buf[m..][k] == buf[n];
      FoldReached(buf, isConnect, n + 1);
      IntoTail(buf, isConnect, n);
      TailKeeps(buf, isConnect, n + 1, |buf|);
    }
  }

  lemma IntoTail(buf: seq<char>, isConnect: bool, n: nat)
    requires n < |buf| && buf[n] in AUTHORITY_ENDS && UrlFold(buf, isConnect, n).Some? && UrlFold(buf, isConnect, n + 1).Some?
    requires InServer(UrlFold(buf, isConnect, n).value.state)
    ensures var d, e := UrlFold(buf, isConnect, n).value, UrlFold(buf, isConnect, n + 1).value;
            InTail(e.state) && e.raw.schema == d.raw.schema && e.raw.host == d.raw.host && e.foundAt == d.foundAt
  {
    hide UrlChar;
    ServerByte(UrlFold(buf, isConnect, n).value.state, buf[n]);
  }

  /** What becomes of the host part. */
  lemma HostJudged(buf: seq<char>, foundAt: bool, lo: nat, hi: nat)
    requires lo <= hi <= |buf|
    ensures var f := HostFold(buf, foundAt, lo, hi);
            && (f.Some? && HostEnds(f.value.state) <==> Accepts(if foundAt then UserInfoStart else HostStart, buf[lo..hi]))
            && (f.Some? && HostEnds(f.value.state) ==> f.value.parts.host.Span?)
  {
    hide HostFold, HostRun, HostScanning;
    HostFoldRun(buf, foundAt, lo, hi);
    var f := HostFold(buf, foundAt, lo, hi);
    if f.Some? {
      HostDone(buf, f.value.parts, f.value.state, lo, hi);
    }
  }

  lemma NoAuthority()
    ensures !IsAuthority([])
  {
  }

  /** From where an authority starts: the URL is accepted, with a host, exactly if a location follows. */
  lemma LocationParsed(buf: seq<char>, isConnect: bool, m: nat)
    requires m <= |buf| && UrlFold(buf, isConnect, m).Some?
    requires var d := UrlFold(buf, isConnect, m).value; d.state.ReqServerStart? && !d.foundAt && d.raw.host.Unset? && d.last != Host
    ensures UrlResult(buf, isConnect).Some? && UrlResult(buf, isConnect).value.host.Span? <==> IsLocation(buf[m..])
    ensures !IsLocation(buf[m..]) && UrlFold(buf, isConnect, m).value.raw.schema.Span? ==> UrlResult(buf, isConnect).None?
  {
    hide UrlFold, HostFold, Scanning, HostScanning, IsAuthority, IsTail, Run, UrlChar, HostEnds;
    var w := buf[m..];
    var k := Upto(w, AUTHORITY_ENDS);
    var a, n := w[..k], |buf|;
    SplitRun(buf, isConnect, m);
    ServerRuns(ReqServerStart, w);
    if UrlFold(buf, isConnect, n).Some? {
      HostFound(buf, isConnect, m, k);
      if k > 0 {
        assert buf[m..m + k] == a;
        HostJudged(buf, '@' in a, m, m + k);
        AuthorityRuns(a);
      }
      NoAuthority();
    } else if IsLocation(w) {
      AuthorityRead(a);
    }
  }

  // --------------------------------------------------------------------------- the theorems

  /** After a scheme. */
  lemma {:induction false} AfterScheme(buf: seq<char>, k: nat)
    requires 0 < k <= |buf| && All(buf[..k], IsAlpha)
    ensures UrlFold(buf, false, k) == Some(UrlScan(NO_RAW.(schema := Span(0, k)), Schema, ReqSchema, false))
  {
    assert IsAlpha(buf[..k][k - 1]);
    if k == 1 {
      assert UrlFold(buf, false, 0) == Some(UrlScan(NO_RAW, NoPart, ReqSpacesBeforeUrl, false));
    } else {
      hide All, IsAlpha;
      AllFront(buf[..k], IsAlpha);
      assert buf[..k][..k - 1] == buf[..k - 1];
      AfterScheme(buf, k - 1);
    }
    SchemeByte(buf[k - 1]);
  }

  lemma SchemeByte(ch: char)
    ensures UrlChar(ReqSchema, ch) == if IsAlpha(ch) then ReqSchema else if ch == ':' then ReqSchemaSlash else Dead
    ensures UrlChar(ReqSpacesBeforeUrl, ch) == if ch == '/' || ch == '*' then ReqPath else if IsAlpha(ch) then ReqSchema else Dead
    ensures IsAlpha(ch) ==> ch != ':' && ch != '/' && ch != '*'
  {
  }

  /** One delimiter behind a scheme: nothing is added to any part. */
  lemma Slash(buf: seq<char>, n: nat)
    requires n < |buf| && UrlFold(buf, false, n).Some?
    requires var s := UrlFold(buf, false, n).value.state; s.ReqSchemaSlash? || s.ReqSchemaSlashSlash? || (s.ReqSchema? && !IsAlpha(buf[n]))
    ensures var d := UrlFold(buf, false, n).value;
            UrlFold(buf, false, n + 1) ==
            if d.state.ReqSchema? then (if buf[n] == ':' then Some(d.(state := ReqSchemaSlash)) else None)
            else if buf[n] == '/' then Some(d.(state := if d.state.ReqSchemaSlash? then ReqSchemaSlashSlash else ReqServerStart))
            else None
  {
    SchemeByte(buf[n]);
  }

  /** Whatever starts with a letter but not with a scheme and "://" is refused. */
  lemma NoScheme(buf: seq<char>)
    requires buf != [] && IsAlpha(buf[0])
    ensures var k := Upto(buf, {':'});
            if All(buf[..k], IsAlpha) && k + 3 <= |buf| && buf[k..k + 3] == "://" then
              UrlFold(buf, false, k + 3) == Some(UrlScan(NO_RAW.(schema := Span(0, k)), Schema, ReqServerStart, false))
            else UrlResult(buf, false).None?
  {
    hide UrlFold, UrlResult, IsAlpha, Scanning, All, Upto;
    var k := Upto(buf, {':'});
    if !All(buf[..k], IsAlpha) {
      var j := NoLetterIn(buf[..k]);
      BadScheme(buf, j);
      Refused(buf);
    } else {
      FirstIsNoColon(buf);
      AfterScheme(buf, k);
      if k == |buf| {
        Refused(buf);
      } else {
        BehindScheme(buf, k);
      }
    }
  }

  lemma NoLetterIn(s: seq<char>) returns (j: nat)
    requires !All(s, IsAlpha)
    ensures j < |s| && !IsAlpha(s[j])
  {
    hide IsAlpha;
    j :| j < |s| && !IsAlpha(s[j]);
  }

  /** The two slashes. */
  lemma BehindScheme(buf: seq<char>, k: nat)
    requires k < |buf| && buf[k] == ':' && UrlFold(buf, false, k) == Some(UrlScan(NO_RAW.(schema := Span(0, k)), Schema, ReqSchema, false))
    ensures if k + 3 <= |buf| && buf[k..k + 3] == "://" then
              UrlFold(buf, false, k + 3) == Some(UrlScan(NO_RAW.(schema := Span(0, k)), Schema, ReqServerStart, false))
            else UrlResult(buf, false).None?
  {
    hide UrlFold, UrlResult, IsAlpha;
    ColonIsNoLetter();
    Slash(buf, k);
    if k + 1 == |buf| {
      Refused(buf);
    } else {
      Slash(buf, k + 1);
      if buf[k + 1] != '/' {
        Broken(buf, k + 2);
      } else if k + 2 == |buf| {
        Refused(buf);
      } else {
        Slash(buf, k + 2);
        if buf[k + 2] != '/' {
          Broken(buf, k + 3);
        } else {
          assert buf[k..k + 3] == [buf[k], buf[k + 1], buf[k + 2]];
        }
      }
      assert k + 3 <= |buf| && buf[k..k + 3] == "://" ==> buf[k..k + 3][1] == buf[k + 1] && buf[k..k + 3][2] == buf[k + 2];
    }
  }

  lemma Broken(buf: seq<char>, n: nat)
    requires n <= |buf| && UrlFold(buf, false, n).None?
    ensures UrlResult(buf, false).None?
  {
    hide UrlFold, UrlResult;
    UrlStuck(buf, false, n, |buf|);
    Refused(buf);
  }

  lemma FirstIsNoColon(buf: seq<char>)
    requires buf != [] && IsAlpha(buf[0])
    ensures Upto(buf, {':'}) > 0
  {
  }

  lemma ColonIsNoLetter()
    ensures !IsAlpha(':')
  {
  }

  /** A URL that is not read to its end, or has a scheme and no host, is refused. */
  lemma Refused(buf: seq<char>)
    requires var f := UrlFold(buf, false, |buf|); f.None? || (f.value.raw.schema.Span? && f.value.raw.host.Unset?)
    ensures UrlResult(buf, false).None?
  {
    hide UrlFold, Scanning, HostFold;
  }

  /** A character that is no letter in front of the first colon. */
  lemma BadScheme(buf: seq<char>, j: nat)
    requires j < Upto(buf, {':'}) && IsAlpha(buf[0]) && !IsAlpha(buf[j])
    ensures UrlFold(buf, false, |buf|).None?
  {
    hide IsAlpha, UrlFold;
    var i := FirstBad(buf, j);
    assert All(buf[..i], IsAlpha);
    AfterScheme(buf, i);
    Slash(buf, i);
    UrlStuck(buf, false, i + 1, |buf|);
  }

  lemma {:induction false} FirstBad(buf: seq<char>, j: nat) returns (i: nat)
    requires j < |buf| && !IsAlpha(buf[j])
    ensures i <= j && !IsAlpha(buf[i]) && forall l :: 0 <= l < i ==> IsAlpha(buf[l])
  {
    hide IsAlpha;
    if l :| 0 <= l < j && !IsAlpha(buf[l]) {
      i := FirstBad(buf, l);
    } else {
      i := j;
    }
  }

  /** A URL that starts with a path. */
  lemma PathParsed(buf: seq<char>)
    requires buf != [] && (buf[0] == '/' || buf[0] == '*')
    ensures UrlResult(buf, false).Some? <==> IsTail(buf)
  {
    hide UrlFold, HostFold, Scanning, IsTail, Run, UrlChar;
    FirstOfPath(buf);
    SplitRun(buf, false, 1);
    PathRuns(buf[1..]);
    TailRest(buf);
    SlashIsUrl();
    if UrlFold(buf, false, |buf|).Some? {
      TailKeeps(buf, false, 1, |buf|);
    }
  }

  lemma FirstOfPath(buf: seq<char>)
    requires buf != [] && (buf[0] == '/' || buf[0] == '*')
    ensures UrlFold(buf, false, 1) == Some(UrlScan(NO_RAW.(path := Span(0, 1)), Path, ReqPath, false))
  {
    SchemeByte(buf[0]);
    assert UrlFold(buf, false, 0) == Some(UrlScan(NO_RAW, NoPart, ReqSpacesBeforeUrl, false));
  }

  /** Everything but CONNECT: a URL has components if and only if it is one by the grammar. */
  lemma UrlGrammar(buf: seq<char>)
    ensures UrlResult(buf, false).Some? <==> IsUrl(buf)
  {
    hide UrlResult, IsTail, IsLocation, IsAlpha, UrlFold;
    if buf == [] {
      EmptyUrl();
    } else if buf[0] == '/' || buf[0] == '*' {
      PathParsed(buf);
    } else {
      var k := Upto(buf, {':'});
      if IsAlpha(buf[0]) {
        NoScheme(buf);
        FirstIsNoColon(buf);
        if All(buf[..k], IsAlpha) && k + 3 <= |buf| && buf[k..k + 3] == "://" {
          LocationParsed(buf, false, k + 3);
          SchemeNeedsHost(buf, k);
        }
      } else {
        NoLetter(buf);
        if k > 0 {
          assert buf[..k][0] == buf[0];
        }
      }
    }
  }

  lemma EmptyUrl()
    ensures UrlResult([], false).Some?
  {
    hide Scanning;
  }

  lemma NoLetter(buf: seq<char>)
    requires buf != [] && buf[0] != '/' && buf[0] != '*' && !IsAlpha(buf[0])
    ensures UrlResult(buf, false).None?
  {
    hide IsAlpha;
    SchemeByte(buf[0]);
    assert UrlFold(buf, false, 0) == Some(UrlScan(NO_RAW, NoPart, ReqSpacesBeforeUrl, false));
    assert UrlFold(buf, false, 1).None?;
    UrlStuck(buf, false, 1, |buf|);
    Refused(buf);
  }

  /** For CONNECT: a host is found if and only if the target is a location. */
  lemma ConnectGrammar(buf: seq<char>)
    ensures UrlResult(buf, true).Some? && UrlResult(buf, true).value.host.Span? <==> IsLocation(buf)
  {
    hide UrlResult, IsLocation;
    assert UrlFold(buf, true, 0) == Some(UrlScan(NO_RAW, NoPart, ReqServerStart, false));
    assert buf[0..] == buf;
    LocationParsed(buf, true, 0);
  }

  lemma SchemeNeedsHost(buf: seq<char>, k: nat)
    requires k + 3 <= |buf|
    requires UrlFold(buf, false, k + 3) == Some(UrlScan(NO_RAW.(schema := Span(0, k)), Schema, ReqServerStart, false))
    requires UrlResult(buf, false).Some? && UrlResult(buf, false).value.host.Span? <==> IsLocation(buf[k + 3..])
    requires !IsLocation(buf[k + 3..]) ==> UrlResult(buf, false).None?
    ensures UrlResult(buf, false).Some? <==> IsLocation(buf[k + 3..])
  {
  }
}
