/** Request ids as text: six fields joined by underscores. */
module ReqIds {
  import opened Octets
  import opened Registry
  import opened Callbacks
  import opened HttpTypes
  import opened HttpLengths
  import opened HttpResponse

  function IntText(n: int): seq<char> {
    if n < 0 then "-" + ToDecimal(-n) else ToDecimal(n)
  }

  function Join(fields: seq<seq<char>>): seq<char> {
    if fields == [] then [] else fields[0] + "_" + Join(fields[1..])
  }

  /** What GenReqID writes for process `pid` on host `ip`, with the sequence number last. */
  function ReqIdText(pid: nat, ip: seq<char>, id: ReqId): seq<char> {
    Join([ToDecimal(pid), ToDecimal(id.thread), IntText(id.fd), ToDecimal(id.time), ip]) + ToDecimal(id.seqid)
  }

  ghost predicate NoUnderscore(s: seq<char>) { forall i :: 0 <= i < |s| ==> s[i] != '_' }

  /** The first underscore ends the first field. */
  lemma FieldUnique(a: seq<char>, b: seq<char>, x: seq<char>, y: seq<char>)
    requires NoUnderscore(a) && NoUnderscore(b) && a + "_" + x == b + "_" + y
    ensures a == b && x == y
  {
    var w, v := a + "_" + x, b + "_" + y;
    assert w[|a|] == '_' && v[|b|] == '_';
    assert forall i :: 0 <= i < |a| ==> w[i] == a[i];
    assert forall i :: 0 <= i < |b| ==> v[i] == b[i];
    assert |a| == |b|;
    assert a == w[..|a|] && b == v[..|b|];
    assert x == w[|a| + 1..] && y == v[|b| + 1..];
  }

  lemma {:induction false} FieldsUnique(a: seq<seq<char>>, b: seq<seq<char>>, x: seq<char>, y: seq<char>)
    requires |a| == |b| && Join(a) + x == Join(b) + y
    requires forall i :: 0 <= i < |a| ==> NoUnderscore(a[i]) && NoUnderscore(b[i])
    ensures a == b && x == y
    decreases |a|
  {
    hide NoUnderscore;
    if a != [] {
      assert Join(a) + x == a[0] + "_" + (Join(a[1..]) + x);
      assert Join(b) + y == b[0] + "_" + (Join(b[1..]) + y);
      FieldUnique(a[0], b[0], Join(a[1..]) + x, Join(b[1..]) + y);
      FieldsUnique(a[1..], b[1..], x, y);
      assert a == [a[0]] + a[1..] && b == [b[0]] + b[1..];
    } else {
      assert [] + x == x && [] + y == y;
    }
  }

  lemma NumberText(n: nat)
    ensures NoUnderscore(ToDecimal(n))
  {
  }

  lemma NumberUnique(m: nat, n: nat)
    requires ToDecimal(m) == ToDecimal(n)
    ensures m == n
  {
    DecimalRoundTrip(m);
    DecimalRoundTrip(n);
  }

  lemma IntUnique(m: int, n: int)
    requires IntText(m) == IntText(n)
    ensures m == n
  {
    var a, b := if m < 0 then -m else m, if n < 0 then -n else n;
    assert IsNum(ToDecimal(a)[0]) && IsNum(ToDecimal(b)[0]) && !IsNum('-');
    hide ToDecimal;
    if m < 0 && n < 0 {
      assert IntText(m)[1..] == ToDecimal(a) && IntText(n)[1..] == ToDecimal(b);
    }
    assert m < 0 <==> n < 0;
    NumberUnique(a, b);
  }

  lemma IntField(n: int)
    ensures NoUnderscore(IntText(n))
  {
    NumberText(if n < 0 then -n else n);
  }

  /** Different ids are written differently. */
  lemma TextUnique(pid: nat, ip: seq<char>, a: ReqId, b: ReqId)
    requires NoUnderscore(ip) && ReqIdText(pid, ip, a) == ReqIdText(pid, ip, b)
    ensures a == b
  {
    NumberText(pid);
    NumberText(a.thread);
    NumberText(b.thread);
    NumberText(a.time);
    NumberText(b.time);
    IntField(a.fd);
    IntField(b.fd);
    hide ToDecimal, IntText, NoUnderscore, Join;
    var x := [ToDecimal(pid), ToDecimal(a.thread), IntText(a.fd), ToDecimal(a.time), ip];
    var y := [ToDecimal(pid), ToDecimal(b.thread), IntText(b.fd), ToDecimal(b.time), ip];
    FieldsUnique(x, y, ToDecimal(a.seqid), ToDecimal(b.seqid));
    assert x[1] == y[1] && x[2] == y[2] && x[3] == y[3];
    NumberUnique(a.thread, b.thread);
    IntUnique(a.fd, b.fd);
    NumberUnique(a.time, b.time);
    NumberUnique(a.seqid, b.seqid);
  }

  /**
   No two requests of one client are ever written with the same id, in any run of any number
   of threads with fewer than 2^32 sends, although the sequence number is read unlocked.
   */
  lemma RequestIdsUnique(pid: nat, ip: seq<char>, n: nat, actions: seq<Action>, j: nat, k: nat)
    requires NoUnderscore(ip) && Run(n, actions).Some? && Run(n, actions).value.sh.sends < TWO32
    requires j < |Run(n, actions).value.sh.reqs| && k < |Run(n, actions).value.sh.reqs| && j != k
    ensures ReqIdText(pid, ip, Run(n, actions).value.sh.reqs[j].id) != ReqIdText(pid, ip, Run(n, actions).value.sh.reqs[k].id)
  {
    UniqueIds(n, actions, j, k);
    hide ReqIdText, Run;
    var a, b := Run(n, actions).value.sh.reqs[j].id, Run(n, actions).value.sh.reqs[k].id;
    if ReqIdText(pid, ip, a) == ReqIdText(pid, ip, b) {
      TextUnique(pid, ip, a, b);
    }
  }
}
