/**
 * The bytes the server puts on the wire: the decimal rendering of a length,
 * the fixed `200 OK` response with its `Content-Length` header, a reader of
 * that framing (what an HTTP client does with the segment it receives), and
 * the way Rust's `write!` fills a fixed-size byte slice.
 */
module Wire {
  import opened Wrappers

  /** An octet. */
  type byte = x: int | 0 <= x < 256

  const CR: byte := 13
  const LF: byte := 10
  const ZERO: byte := 48

  /** The bytes of an ASCII string literal. */
  function Ascii(s: string): seq<byte> {
    seq(|s|, i requires 0 <= i < |s| => (s[i] as int) % 256)
  }

  /** Status line of section 4 of RFC 9112, then the name of the Content-Length field. */
  const RESPONSE_HEAD: seq<byte> := Ascii("HTTP/1.1 200 OK\r\nContent-Length: ")

  /** End of the Content-Length field line, then the empty line that ends the header section. */
  const HEADER_END: seq<byte> := [CR, LF, CR, LF]

  predicate IsDigit(b: byte) {
    ZERO <= b <= ZERO + 9
  }

  predicate AllDigits(s: seq<byte>) {
    forall i :: 0 <= i < |s| ==> IsDigit(s[i])
  }

  /** `Display` for `usize`: the shortest decimal rendering of `n`. */
  function Decimal(n: nat): (r: seq<byte>)
    ensures 1 <= |r| && AllDigits(r)
    // no leading zero: only 0 itself starts with the digit 0
    ensures r[0] == ZERO ==> n == 0 && r == [ZERO]
  {
    if n < 10 then [ZERO + n] else Decimal(n / 10) + [ZERO + n % 10]
  }

  /** The value of a string of decimal digits, most significant first. */
  function ParseDecimal(s: seq<byte>): nat
    requires AllDigits(s)
  {
    if s == [] then 0 else 10 * ParseDecimal(s[..|s| - 1]) + (s[|s| - 1] - ZERO)
  }

  lemma {:induction false} DecimalRoundTrip(n: nat)
    ensures ParseDecimal(Decimal(n)) == n
  {
    if n >= 10 {
      var d := Decimal(n / 10);
      var last: byte := ZERO + n % 10;
      assert Decimal(n) == d + [last];
      assert (d + [last])[..|d|] == d;
      DecimalRoundTrip(n / 10);
    }
  }

  function Pow10(k: nat): (p: nat)
    ensures p >= 1
  {
    if k == 0 then 1 else 10 * Pow10(k - 1)
  }

  /** `Decimal(n)` has at most `k` digits exactly when `n < 10^k`. */
  lemma {:induction false} DecimalLength(n: nat, k: nat)
    requires 1 <= k
    ensures |Decimal(n)| <= k <==> n < Pow10(k)
  {
    if n >= 10 {
      assert |Decimal(n)| == |Decimal(n / 10)| + 1;
      if k > 1 {
        DecimalLength(n / 10, k - 1);
        assert n / 10 < Pow10(k - 1) <==> n < 10 * Pow10(k - 1);
      }
    }
  }

  /** The response `process_data` formats: status line, Content-Length, blank line, body. */
  function Response(contents: seq<byte>): (r: seq<byte>)
    ensures |r| == |RESPONSE_HEAD| + |Decimal(|contents|)| + |HEADER_END| + |contents|
    ensures r[..|RESPONSE_HEAD|] == RESPONSE_HEAD
    // the body is the last `|contents|` bytes
    ensures r[|r| - |contents|..] == contents
  {
    RESPONSE_HEAD + Decimal(|contents|) + HEADER_END + contents
  }

  /** Length of the longest prefix of `s` made of digits. */
  function DigitRun(s: seq<byte>): (k: nat)
    ensures k <= |s| && AllDigits(s[..k])
    ensures k < |s| ==> !IsDigit(s[k])
  {
    if s == [] || !IsDigit(s[0]) then 0
    else
      var k := 1 + DigitRun(s[1..]);
      assert forall i :: 1 <= i < k ==> s[..k][i] == s[1..][..k - 1][i - 1];
      k
  }

  lemma {:induction false} DigitRunOfDigitsThenStop(d: seq<byte>, x: seq<byte>)
    requires AllDigits(d) && |x| > 0 && !IsDigit(x[0])
    ensures DigitRun(d + x) == |d|
  {
    if d != [] {
      assert (d + x)[0] == d[0];
      assert (d + x)[1..] == d[1..] + x;
      DigitRunOfDigitsThenStop(d[1..], x);
    } else {
      assert d + x == x;
    }
  }

  /**
   * How a client reads one response of this shape: it checks the status line
   * and the field name, reads the decimal Content-Length, expects the end of
   * the header section and takes exactly that many body bytes, ignoring
   * whatever follows them.
   */
  function ParseResponse(msg: seq<byte>): Option<seq<byte>> {
    if |msg| < |RESPONSE_HEAD| || msg[..|RESPONSE_HEAD|] != RESPONSE_HEAD then None
    else
      var rest := msg[|RESPONSE_HEAD|..];
      var k := DigitRun(rest);
      var after := rest[k..];
      if k == 0 || |after| < |HEADER_END| || after[..|HEADER_END|] != HEADER_END then None
      else
        var length := ParseDecimal(rest[..k]);
        var body := after[|HEADER_END|..];
        if length <= |body| then Some(body[..length]) else None
  }

  /**
   * The Content-Length written equals the byte length of the body that
   * follows the blank line: a reader recovers exactly `contents`, whatever
   * bytes follow the response.
   */
  lemma ResponseRoundTrip(contents: seq<byte>, trailing: seq<byte>)
    ensures ParseResponse(Response(contents) + trailing) == Some(contents)
  {
    var d := Decimal(|contents|);
    var tail := HEADER_END + (contents + trailing);
    var rest := d + tail;
    assert Response(contents) + trailing == RESPONSE_HEAD + rest;
    SplitAt(RESPONSE_HEAD, rest);
    DigitRunOfDigitsThenStop(d, tail);
    SplitAt(d, tail);
    SplitAt(HEADER_END, contents + trailing);
    SplitAt(contents, trailing);
    DecimalRoundTrip(|contents|);
  }

  lemma SplitAt(a: seq<byte>, b: seq<byte>)
    ensures (a + b)[..|a|] == a && (a + b)[|a|..] == b
  {
  }

  /** The state of a byte slice after `write!`, and whether the write succeeded. */
  datatype Written = Written(buf: seq<byte>, ok: bool)

  /**
   * `write!` into a `&mut [u8]`: bytes are copied until the slice is full;
   * output that does not fit leaves the slice full and fails with `WriteZero`.
   */
  function WriteSlice(buf: seq<byte>, data: seq<byte>): (w: Written)
    ensures |w.buf| == |buf|
    ensures w.ok <==> |data| <= |buf|
    ensures w.ok ==> w.buf[..|data|] == data && w.buf[|data|..] == buf[|data|..]
    ensures !w.ok ==> w.buf == data[..|buf|]
  {
    if |data| <= |buf| then Written(data + buf[|data|..], true)
    else Written(data[..|buf|], false)
  }

  /** A response written successfully into a slice is read back intact. */
  lemma WrittenResponseRoundTrip(buf: seq<byte>, contents: seq<byte>)
    requires WriteSlice(buf, Response(contents)).ok
    ensures ParseResponse(WriteSlice(buf, Response(contents)).buf) == Some(contents)
  {
    var r := Response(contents);
    var w := WriteSlice(buf, r).buf;
    assert w == r + w[|r|..];
    ResponseRoundTrip(contents, w[|r|..]);
  }
}
