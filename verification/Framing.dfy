/**
 The length-prefixed framing shared by both directions of the RPC protocol: a frame is the
 big-endian length of a package followed by the package.
 */
module Framing {
  import opened Octets

  function Frame(p: Bytes): (f: Bytes)
    ensures |f| == 4 + |p|
  {
    Be32(|p|) + p
  }

  /** A whole number of frames, one after the other. */
  function Encode(pkgs: seq<Bytes>): Bytes {
    if pkgs == [] then [] else Frame(pkgs[0]) + Encode(pkgs[1..])
  }

  /** Packages whose length fits the prefix. */
  ghost predicate Fits(pkgs: seq<Bytes>) {
    forall i :: 0 <= i < |pkgs| ==> |pkgs[i]| < TWO32
  }

  /** Bytes that do not yet make up a whole frame. */
  predicate Incomplete(b: Bytes) {
    |b| < 4 || |b| < 4 + U32(b[..4])
  }

  lemma {:induction false} EncodeConcat(a: seq<Bytes>, b: seq<Bytes>)
    ensures Encode(a + b) == Encode(a) + Encode(b)
    decreases |a|
  {
    hide Frame;
    if a == [] {
      assert a + b == b;
    } else {
      EncodeConcat(a[1..], b);
      assert (a + b)[1..] == a[1..] + b;
    }
  }

  lemma EncodeOne(p: Bytes)
    ensures Encode([p]) == Frame(p)
  {
    assert [p][1..] == [];
  }

  lemma EncodeSnoc(a: seq<Bytes>, p: Bytes)
    ensures Encode(a + [p]) == Encode(a) + Frame(p)
  {
    EncodeConcat(a, [p]);
    EncodeOne(p);
  }

  lemma EncodeHead(a: seq<Bytes>, x: Bytes)
    ensures Encode(a) + x == if a == [] then x else Frame(a[0]) + (Encode(a[1..]) + x)
  {
    hide Frame;
  }

  /** Two frames that start the same bytes are the same frame. */
  lemma FrameUnique(p: Bytes, q: Bytes, x: Bytes, y: Bytes)
    requires |p| < TWO32 && |q| < TWO32
    requires Frame(p) + x == Frame(q) + y
    ensures p == q && x == y
  {
    U32OfBe32(|p|);
    U32OfBe32(|q|);
    hide U32;
    var w := Frame(p) + x;
    assert w[..4] == Be32(|p|);
    assert w[..4] == Be32(|q|);
    hide Be32;
    assert |p| == |q|;
    assert p == w[4..4 + |p|] == q;
    assert x == w[4 + |p|..] == y;
  }

  /** A frame is not incomplete, and neither is anything that starts with one. */
  lemma FrameComplete(p: Bytes, x: Bytes)
    requires |p| < TWO32
    ensures !Incomplete(Frame(p) + x)
  {
    U32OfBe32(|p|);
    hide U32;
    assert (Frame(p) + x)[..4] == Be32(|p|);
  }

  /**
   Framing can be read in one way only: however far a reader and a writer are, if the
   reader's whole frames and rest are what the writer's whole frames and rest start with, the
   reader's packages are the first of the writer's. With nothing left on the way and both
   rests incomplete, they are all of them.
   */
  lemma {:induction false} FramingUnique(a: seq<Bytes>, b: seq<Bytes>, x: Bytes, y: Bytes)
    requires Fits(a) && Fits(b) && Incomplete(y)
    requires Encode(a) + x == Encode(b) + y
    ensures a <= b && (Incomplete(x) ==> a == b && x == y)
    decreases |a|
  {
    hide Frame, Encode, Incomplete;
    EncodeHead(a, x);
    EncodeHead(b, y);
    if a == [] {
      if Incomplete(x) && b != [] {
        FrameComplete(b[0], Encode(b[1..]) + y);
        assert false;
      }
    } else if b == [] {
      FrameComplete(a[0], Encode(a[1..]) + x);
      assert false;
    } else {
      FrameUnique(a[0], b[0], Encode(a[1..]) + x, Encode(b[1..]) + y);
      FramingUnique(a[1..], b[1..], x, y);
      assert a == [a[0]] + a[1..] && b == [b[0]] + b[1..];
    }
  }

  /** What a reader has of the frame it is in: nothing, or the length and the first bytes of the package. */
  function Started(size: nat, got: Bytes): Bytes {
    if size == 0 then [] else Be32(size) + got
  }

  /** A started frame with bytes still to come is not a whole frame. */
  lemma StartedIncomplete(size: nat, got: Bytes)
    requires size < TWO32 && (size > 0 ==> |got| < size)
    ensures Incomplete(Started(size, got))
  {
    U32OfBe32(size);
    hide U32;
    if size > 0 {
      assert Started(size, got)[..4] == Be32(size);
    }
  }

  lemma StartedMore(e: Bytes, size: nat, got: Bytes, more: Bytes)
    requires size > 0
    ensures e + Started(size, got) + more == e + Started(size, got + more)
    ensures size < TWO32 && |got| + |more| == size ==> Started(size, got + more) == Frame(got + more)
  {
  }

  /** A proper start of a frame is not a whole frame. */
  lemma TornIncomplete(p: Bytes, k: nat)
    requires |p| < TWO32 && k < |Frame(p)|
    ensures Incomplete(Frame(p)[..k])
  {
    U32OfBe32(|p|);
    hide U32;
    if k >= 4 {
      assert Frame(p)[..k][..4] == Be32(|p|);
    }
  }

  /** The packages a reader hands out: it swallows empty ones. */
  function Handed(pkgs: seq<Bytes>): seq<Bytes> {
    if pkgs == [] then []
    else Handed(pkgs[..|pkgs| - 1]) + if pkgs[|pkgs| - 1] == [] then [] else [pkgs[|pkgs| - 1]]
  }

  lemma HandedSnoc(pkgs: seq<Bytes>, p: Bytes)
    ensures Handed(pkgs + [p]) == Handed(pkgs) + if p == [] then [] else [p]
  {
    assert (pkgs + [p])[..|pkgs|] == pkgs;
  }

  lemma {:induction false} HandedConcat(a: seq<Bytes>, b: seq<Bytes>)
    ensures Handed(a + b) == Handed(a) + Handed(b)
    decreases |b|
  {
    if b == [] {
      assert a + b == a;
    } else {
      var c, p := b[..|b| - 1], b[|b| - 1];
      assert b == c + [p] && a + b == (a + c) + [p];
      HandedConcat(a, c);
      HandedSnoc(a + c, p);
      HandedSnoc(c, p);
    }
  }

  /** With no empty package, what is received is what is handed out. */
  lemma {:induction false} AllHanded(pkgs: seq<Bytes>)
    requires forall i :: 0 <= i < |pkgs| ==> pkgs[i] != []
    ensures Handed(pkgs) == pkgs
    decreases |pkgs|
  {
    if pkgs != [] {
      AllHanded(pkgs[..|pkgs| - 1]);
    }
  }

  lemma NoPrefix(a: Bytes, b: Bytes, c: Bytes)
    requires [] + a + b == [] + c
    ensures a + b == c
  {
    assert [] + a == a && [] + c == c;
  }

  lemma StartedNothing(size: nat, got: Bytes)
    requires size > 0 && got == []
    ensures Started(size, got) == Be32(size)
  {
  }

  lemma FrameOfNothing()
    ensures Frame([]) == Be32(0)
  {
  }

  lemma FitsSnoc(pkgs: seq<Bytes>, p: Bytes)
    requires |p| < TWO32
    ensures Fits(pkgs) ==> Fits(pkgs + [p])
  {
  }

  lemma Regroup(a: Bytes, b: Bytes, c: Bytes)
    ensures a + b + c == a + (b + c)
  {
  }

  lemma NothingTorn(a: Bytes, b: Bytes)
    ensures a + [] == a && [] + b == b && (a + b) + [] == a + b
  {
  }
}
