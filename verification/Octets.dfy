/** Byte strings, and the four-byte big-endian numbers htonl and ntohl put in them. */
module Octets {
  type Octet = c: char | c as int < 256

  type Bytes = seq<Octet>

  const TWO32 := 0x1_0000_0000

  function Low(n: nat): Octet {
    (n % 256) as char
  }

  /** htonl of a number cut to 32 bits. */
  function Be32(n: nat): (b: Bytes)
    ensures |b| == 4
  {
    [Low(n / 0x100_0000), Low(n / 0x1_0000), Low(n / 0x100), Low(n)]
  }

  /** ntohl of four bytes. */
  function U32(b: Bytes): (n: nat)
    requires |b| == 4
    ensures n < TWO32
  {
    ((b[0] as int * 256 + b[1] as int) * 256 + b[2] as int) * 256 + b[3] as int
  }

  /** Reading back a written number gives its low 32 bits, so every number below 2^32 survives. */
  lemma U32OfBe32(n: nat)
    ensures U32(Be32(n)) == n % TWO32 && (n < TWO32 ==> U32(Be32(n)) == n)
  {
    var a, b, c := n / 256, n / 0x1_0000, n / 0x100_0000;
    assert b == a / 256 && c == b / 256;
    assert n == 256 * a + n % 256 && a == 256 * b + a % 256 && b == 256 * c + b % 256;
    var d := c / 256;
    assert c == 256 * d + c % 256;
    assert n == TWO32 * d + U32(Be32(n));
  }

  /** The most significant byte comes first. */
  lemma NetworkOrder()
    ensures Be32(1) == [0 as char, 0 as char, 0 as char, 1 as char] && Be32(0x100_0000) == [1 as char, 0 as char, 0 as char, 0 as char]
  {
  }

  lemma OctetsOf(a: nat, b: nat)
    requires b < 256
    ensures (256 * a + b) / 256 == a && (256 * a + b) % 256 == b
  {
  }

  /** Any four bytes are what writing the number they stand for gives. */
  lemma Be32OfU32(b: Bytes)
    requires |b| == 4
    ensures Be32(U32(b)) == b
  {
    var n1 := b[0] as int;
    var n2 := 256 * n1 + b[1] as int;
    var n3 := 256 * n2 + b[2] as int;
    var n := 256 * n3 + b[3] as int;
    OctetsOf(n3, b[3] as int);
    OctetsOf(n2, b[2] as int);
    OctetsOf(n1, b[1] as int);
    assert n == U32(b);
    assert n / 0x100 == n3 && n / 0x1_0000 == n2 && n / 0x100_0000 == n1;
  }

  /** memcpy into a buffer. */
  method Copy<T>(buf: array<T>, at: nat, s: seq<T>)
    requires at + |s| <= buf.Length
    modifies buf
    ensures buf[..at + |s|] == old(buf[..at]) + s && buf[at + |s|..] == old(buf[at + |s|..])
  {
    for i := 0 to |s|
      invariant forall j :: 0 <= j < buf.Length ==> buf[j] == if at <= j < at + i then s[j - at] else old(buf[j])
    {
      buf[at + i] := s[i];
    }
  }
}
