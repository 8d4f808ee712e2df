/** The server's HTTP responses as the broker prints them, and numbers in decimal. */
module HttpResponse {
  import opened HttpTypes
  import opened HttpLengths

  function Digit(d: nat): (c: char)
    requires d < 10
    ensures IsNum(c) && DigitValue(c) == d
  {
    ('0' as int + d) as char
  }

  /** A number as an output stream prints it. */
  function ToDecimal(n: nat): (s: seq<char>)
    ensures s != [] && IsNum(s[0]) && IsDecimal(s)
  {
    if n < 10 then [Digit(n)] else ToDecimal(n / 10) + [Digit(n % 10)]
  }

  function StatusLine(status: nat): seq<char> { "HTTP/1.1 " + ToDecimal(status) + CRLF }

  /** setupHttpHdr. */
  function HttpHeader(status: nat, len: nat): seq<char> {
    StatusLine(status) +
    ("Content-Type" + ": " + "text/html" + CRLF) +
    ("Content-Length" + ": " + ToDecimal(len) + CRLF) +
    ("Connection" + ": " + "close" + CRLF) +
    CRLF
  }

  /** The package allocHttpResp builds. */
  function HttpPackage(status: nat, resp: seq<char>): seq<char> { HttpHeader(status, |resp|) + resp }

  lemma {:induction false} DecimalSnoc(n: nat, s: seq<char>, ch: char)
    requires IsDecimal(s) && IsNum(ch)
    ensures Decimal(n, s + [ch]) == Decimal(n, s) * 10 + DigitValue(ch)
    decreases |s|
  {
    if s == [] {
      assert s + [ch] == [ch] && [ch][1..] == [];
    } else {
      assert (s + [ch])[1..] == s[1..] + [ch];
      DecimalSnoc(if s[0] == ' ' then n else n * 10 + DigitValue(s[0]), s[1..], ch);
    }
  }

  lemma {:induction false} DecimalRoundTrip(n: nat)
    ensures Decimal(0, ToDecimal(n)) == n
  {
    if n < 10 {
      assert [Digit(n)][1..] == [];
    } else {
      DecimalRoundTrip(n / 10);
      DecimalSnoc(0, ToDecimal(n / 10), Digit(n % 10));
    }
  }

  function Pow10(k: nat): nat { if k == 0 then 1 else 10 * Pow10(k - 1) }

  lemma {:induction false} DecimalLength(n: nat, k: nat)
    requires k >= 1 && n < Pow10(k)
    ensures |ToDecimal(n)| <= k
  {
    if n >= 10 {
      assert Pow10(k) == 10 * Pow10(k - 1);
      assert Pow10(0) == 1 && Pow10(1) == 10 * Pow10(0);
      DecimalLength(n / 10, k - 1);
    }
  }

  lemma DecimalShort(n: nat)
    requires n <= MAX_DECIMAL
    ensures |ToDecimal(n)| <= 20
  {
    assert Pow10(4) == 10000;
    assert Pow10(8) == 10000 * 10000;
    assert Pow10(12) == 10000 * 10000 * 10000;
    assert Pow10(16) == 10000 * 10000 * 10000 * 10000;
    assert Pow10(20) == 10000 * 10000 * 10000 * 10000 * 10000;
    DecimalLength(n, 20);
  }

  lemma CodeDigits(status: nat)
    requires 100 <= status <= 999
    ensures ToDecimal(status) == [Digit(status / 100), Digit(status / 10 % 10), Digit(status % 10)]
  {
    assert ToDecimal(status) == ToDecimal(status / 10) + [Digit(status % 10)];
    assert ToDecimal(status / 10) == ToDecimal(status / 100) + [Digit(status / 10 % 10)];
    assert ToDecimal(status / 100) == [Digit(status / 100)];
  }
}
