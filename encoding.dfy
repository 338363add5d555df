/** Byte-level encodings the upload path relies on: `str.encode()` (UTF-8)
    for the name that is hashed, and `hexdigest()` (lower-case hex) for the
    digest that names the stored file and is recorded with it. */
module Encoding {
  import opened Http

  newtype byte = x: int | 0 <= x < 256

  /** The hex digits `hexdigest` uses, lower-case. */
  predicate IsHexDigit(c: char) {
    '0' <= c <= '9' || 'a' <= c <= 'f'
  }

  function HexDigit(n: int): (c: char)
    requires 0 <= n < 16
    ensures IsHexDigit(c)
  {
    if n < 10 then ('0' as int + n) as char else ('a' as int + n - 10) as char
  }

  function HexValue(c: char): (n: int)
    requires IsHexDigit(c)
    ensures 0 <= n < 16
    ensures HexDigit(n) == c
  {
    if c <= '9' then c as int - '0' as int else c as int - 'a' as int + 10
  }

  /** `hexdigest()`: two lower-case hex digits per byte, high nibble first. */
  function Hex(bytes: seq<byte>): (s: string)
    ensures |s| == 2 * |bytes|
    ensures forall i :: 0 <= i < |s| ==> IsHexDigit(s[i])
  {
    if bytes == [] then ""
    else [HexDigit(bytes[0] as int / 16), HexDigit(bytes[0] as int % 16)] + Hex(bytes[1..])
  }

  /** Reads a hex string back into bytes; `None` for odd length or a
      character outside the lower-case hex digits. */
  function Unhex(s: string): (r: Option<seq<byte>>)
    ensures r.Some? ==> 2 * |r.value| == |s|
    decreases |s|
  {
    if s == [] then Some([])
    else if |s| < 2 || !IsHexDigit(s[0]) || !IsHexDigit(s[1]) then None
    else
      match Unhex(s[2..])
      case None => None
      case Some(rest) => Some([(HexValue(s[0]) * 16 + HexValue(s[1])) as byte] + rest)
  }

  lemma HexValueOf(n: int)
    requires 0 <= n < 16
    ensures HexValue(HexDigit(n)) == n
  {
  }

  /** `hexdigest` loses nothing: the bytes can be read back. */
  lemma {:induction false} HexRoundTrip(bytes: seq<byte>)
    ensures Unhex(Hex(bytes)) == Some(bytes)
  {
    if bytes != [] {
      var b := bytes[0] as int;
      var s := Hex(bytes);
      assert s[0] == HexDigit(b / 16) && s[1] == HexDigit(b % 16);
      assert s[2..] == Hex(bytes[1..]);
      HexRoundTrip(bytes[1..]);
      HexValueOf(b / 16);
      HexValueOf(b % 16);
      assert (b / 16) * 16 + b % 16 == b;
      assert ((HexValue(s[0]) * 16 + HexValue(s[1])) as byte) == bytes[0];
      assert [bytes[0]] + bytes[1..] == bytes;
    }
  }

  /** Equal hex digests come from equal byte strings. */
  lemma HexInjective(a: seq<byte>, b: seq<byte>)
    requires Hex(a) == Hex(b)
    ensures a == b
  {
    HexRoundTrip(a);
    HexRoundTrip(b);
  }

  /** The UTF-8 bytes of one character (a Unicode scalar value). */
  function Utf8Char(c: char): (bs: seq<byte>)
    ensures 1 <= |bs| <= 4
  {
    var n := c as int;
    if n < 0x80 then [n as byte]
    else if n < 0x800 then [(0xC0 + n / 64) as byte, (0x80 + n % 64) as byte]
    else if n < 0x10000 then
      [(0xE0 + n / 4096) as byte, (0x80 + n / 64 % 64) as byte, (0x80 + n % 64) as byte]
    else
      [(0xF0 + n / 262144) as byte, (0x80 + n / 4096 % 64) as byte,
       (0x80 + n / 64 % 64) as byte, (0x80 + n % 64) as byte]
  }

  /** `str.encode()`: the UTF-8 encoding of each character, in order. */
  function Utf8(s: string): (bs: seq<byte>)
    ensures |s| <= |bs| <= 4 * |s|
  {
    if s == [] then [] else Utf8Char(s[0]) + Utf8(s[1..])
  }

  /** How many bytes a sequence starting with lead byte `b` takes. */
  function SeqLength(b: byte): nat {
    if b < 0x80 then 1 else if b < 0xE0 then 2 else if b < 0xF0 then 3 else 4
  }

  predicate IsScalar(n: int) {
    0 <= n < 0xD800 || 0xE000 <= n < 0x110000
  }

  /** The code point the first `SeqLength` bytes of `bs` spell. */
  function CodePoint(bs: seq<byte>): int
    requires |bs| >= 1 && |bs| >= SeqLength(bs[0])
  {
    var k := SeqLength(bs[0]);
    if k == 1 then bs[0] as int
    else if k == 2 then (bs[0] as int - 0xC0) * 64 + (bs[1] as int - 0x80)
    else if k == 3 then
      (bs[0] as int - 0xE0) * 4096 + (bs[1] as int - 0x80) * 64 + (bs[2] as int - 0x80)
    else
      (bs[0] as int - 0xF0) * 262144 + (bs[1] as int - 0x80) * 4096 +
      (bs[2] as int - 0x80) * 64 + (bs[3] as int - 0x80)
  }

  lemma Utf8Cons(c: char, rest: string)
    ensures Utf8([c] + rest) == Utf8Char(c) + Utf8(rest)
  {
    assert ([c] + rest)[1..] == rest;
  }

  lemma DecodeStep(bs: seq<byte>, k: nat, c: char, rest: string)
    requires k <= |bs| && Utf8Char(c) == bs[..k] && Utf8(rest) == bs[k..]
    ensures Utf8([c] + rest) == bs
  {
    Utf8Cons(c, rest);
    assert bs == bs[..k] + bs[k..];
  }

  /** Decodes bytes produced by `Utf8`; `None` where the bytes run out in the
      middle of a character, spell no scalar value, or do not re-encode to
      themselves (which rules out every ill-formed sequence). */
  function DecodeUtf8(bs: seq<byte>): (r: Option<string>)
    ensures r.Some? ==> Utf8(r.value) == bs
    decreases |bs|
  {
    if bs == [] then Some("")
    else if |bs| < SeqLength(bs[0]) then None
    else
      var n := CodePoint(bs);
      var k := SeqLength(bs[0]);
      if !IsScalar(n) || Utf8Char(n as char) != bs[..k] then None
      else
        match DecodeUtf8(bs[k..])
        case None => None
        case Some(rest) =>
          DecodeStep(bs, k, n as char, rest);
          Some([n as char] + rest)
  }

  lemma TwoBytes(n: int)
    requires 0x80 <= n < 0x800
    ensures 0xC0 <= 0xC0 + n / 64 < 0xE0 && 0x80 <= 0x80 + n % 64 < 0xC0
    ensures (n / 64) * 64 + n % 64 == n
  {
  }

  lemma ThreeBytes(n: int)
    requires 0x800 <= n < 0x10000
    ensures 0xE0 <= 0xE0 + n / 4096 < 0xF0
    ensures 0x80 <= 0x80 + n / 64 % 64 < 0xC0 && 0x80 <= 0x80 + n % 64 < 0xC0
    ensures (n / 4096) * 4096 + (n / 64 % 64) * 64 + n % 64 == n
  {
    var q := n / 64;
    assert n == q * 64 + n % 64;
    assert q == (q / 64) * 64 + q % 64;
    assert q / 64 == n / 4096;
  }

  lemma FourBytes(n: int)
    requires 0x10000 <= n < 0x110000
    ensures 0xF0 <= 0xF0 + n / 262144 < 0x100
    ensures 0x80 <= 0x80 + n / 4096 % 64 < 0xC0
    ensures 0x80 <= 0x80 + n / 64 % 64 < 0xC0 && 0x80 <= 0x80 + n % 64 < 0xC0
    ensures (n / 262144) * 262144 + (n / 4096 % 64) * 4096 + (n / 64 % 64) * 64 + n % 64 == n
  {
    var q := n / 64;
    var p := q / 64;
    assert n == q * 64 + n % 64;
    assert q == p * 64 + q % 64;
    assert p == (p / 64) * 64 + p % 64;
    assert p == n / 4096;
    assert p / 64 == n / 262144;
  }

  /** Decoding one encoded character gives it back and consumes exactly its bytes. */
  lemma Utf8CharDecodes(c: char, tail: seq<byte>)
    ensures var bs := Utf8Char(c) + tail;
            SeqLength(bs[0]) == |Utf8Char(c)| && CodePoint(bs) == c as int
  {
    var n := c as int;
    var e := Utf8Char(c);
    var bs := e + tail;
    assert bs[..|e|] == e;
    if n < 0x80 {
    } else if n < 0x800 {
      TwoBytes(n);
      assert e[0] as int == 0xC0 + n / 64 && e[1] as int == 0x80 + n % 64;
    } else if n < 0x10000 {
      ThreeBytes(n);
      assert e[0] as int == 0xE0 + n / 4096;
      assert e[1] as int == 0x80 + n / 64 % 64 && e[2] as int == 0x80 + n % 64;
    } else {
      FourBytes(n);
      assert e[0] as int == 0xF0 + n / 262144;
      assert e[1] as int == 0x80 + n / 4096 % 64;
      assert e[2] as int == 0x80 + n / 64 % 64 && e[3] as int == 0x80 + n % 64;
    }
  }

  /** `str.encode()` loses nothing: decoding gives the string back. */
  lemma {:induction false} Utf8RoundTrip(s: string)
    ensures DecodeUtf8(Utf8(s)) == Some(s)
  {
    if s != [] {
      var c := s[0];
      var bs := Utf8(s);
      Utf8CharDecodes(c, Utf8(s[1..]));
      var k := |Utf8Char(c)|;
      assert bs[..k] == Utf8Char(c);
      assert bs[k..] == Utf8(s[1..]);
      assert CodePoint(bs) as char == c;
      Utf8RoundTrip(s[1..]);
      assert [c] + s[1..] == s;
    }
  }

  /** Different names encode to different bytes. */
  lemma Utf8Injective(a: string, b: string)
    requires Utf8(a) == Utf8(b)
    ensures a == b
  {
    Utf8RoundTrip(a);
    Utf8RoundTrip(b);
  }

  /** An ASCII name encodes to one byte per character, its code. */
  lemma {:induction false} Utf8Ascii(s: string)
    requires forall i :: 0 <= i < |s| ==> s[i] as int < 0x80
    ensures |Utf8(s)| == |s|
    ensures forall i :: 0 <= i < |s| ==> Utf8(s)[i] as int == s[i] as int
  {
    if s != [] {
      Utf8Ascii(s[1..]);
    }
  }
}
