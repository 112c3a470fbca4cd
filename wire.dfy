/** Little-endian 32-bit integers and ASCII text as they appear on the wire
    (Python's `struct.pack("<I")`, `struct.unpack("<i")` and
    `str.encode("ascii")` / `bytes.decode()` on ASCII data). */
module Wire {
  import opened Errors

  const TWO8: int := 0x100
  const TWO16: int := 0x1_0000
  const TWO24: int := 0x100_0000
  const TWO31: int := 0x8000_0000
  const TWO32: int := 0x1_0000_0000

  /** `struct.pack("<I", n)`: defined for 0 <= n < 2^32 only. */
  function U32LE(n: nat): (r: seq<byte>)
    requires n < TWO32
    ensures |r| == 4
  {
    [n % TWO8, (n / TWO8) % TWO8, (n / TWO8 / TWO8) % TWO8, n / TWO8 / TWO8 / TWO8]
  }

  /** `struct.unpack("<I", b)[0]`. */
  function ReadU32LE(b: seq<byte>): (r: nat)
    requires |b| == 4
    ensures r < TWO32
  {
    b[0] + TWO8 * b[1] + TWO16 * b[2] + TWO24 * b[3]
  }

  /** `struct.unpack("<i", b)[0]`: the same four bytes read as two's complement. */
  function ReadI32LE(b: seq<byte>): (r: int)
    requires |b| == 4
    ensures -TWO31 <= r < TWO31
  {
    var u := ReadU32LE(b);
    if u < TWO31 then u else u - TWO32
  }

  /** Reading back what `U32LE` wrote gives the original value. */
  lemma ReadU32LEOfU32LE(n: nat)
    requires n < TWO32
    ensures ReadU32LE(U32LE(n)) == n
  {
    var q1 := n / TWO8;
    var q2 := q1 / TWO8;
    assert n == n % TWO8 + TWO8 * q1;
    assert q1 == q1 % TWO8 + TWO8 * q2;
    assert q2 == q2 % TWO8 + TWO8 * (q2 / TWO8);
  }

  /** Reading the bytes of an unsigned value back as signed int32 gives the
      value itself exactly when it is below 2^31; above that it wraps. */
  lemma ReadI32LEOfU32LE(n: nat)
    requires n < TWO32
    ensures ReadI32LE(U32LE(n)) == (if n < TWO31 then n else n - TWO32)
  {
    ReadU32LEOfU32LE(n);
  }

  predicate IsAsciiChar(c: char) { c < 128 as char }

  /** The text can be encoded with the "ascii" codec. */
  predicate IsAscii(s: string) {
    forall i :: 0 <= i < |s| ==> IsAsciiChar(s[i])
  }

  /** Every byte is an ASCII code point (so `bytes.decode()` succeeds). */
  predicate IsAsciiBytes(b: seq<byte>) {
    forall i :: 0 <= i < |b| ==> b[i] < 128
  }

  /** `s.encode("ascii")`. */
  function AsciiEncode(s: string): (r: seq<byte>)
    requires IsAscii(s)
    ensures |r| == |s| && IsAsciiBytes(r)
    ensures forall i :: 0 <= i < |s| ==> r[i] == s[i] as int
  {
    seq(|s|, i requires 0 <= i < |s| => s[i] as int)
  }

  /** `b.decode()` on ASCII bytes. */
  function AsciiDecode(b: seq<byte>): (r: string)
    requires IsAsciiBytes(b)
    ensures |r| == |b| && IsAscii(r)
    ensures forall i :: 0 <= i < |b| ==> r[i] as int == b[i]
  {
    seq(|b|, i requires 0 <= i < |b| => b[i] as char)
  }

  /** Decoding undoes encoding. */
  lemma AsciiDecodeEncode(s: string)
    requires IsAscii(s)
    ensures AsciiDecode(AsciiEncode(s)) == s
  {
    var r := AsciiDecode(AsciiEncode(s));
    assert forall i :: 0 <= i < |s| ==> r[i] == s[i];
  }
}
