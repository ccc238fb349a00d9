/** Characters (Unicode scalar values) and their UTF-8 bytes (section 3 of RFC 3629). */
module Utf8 {

  newtype byte = b: int | 0 <= b < 256

  /** The tail byte 10xxxxxx holding the low six bits of `n`. */
  function Tail(n: nat): byte {
    (0x80 + n % 64) as byte
  }

  function Encode(c: char): (bytes: seq<byte>)
    ensures 1 <= |bytes| <= 4
  {
    var n := c as int;
    if n < 0x80 then [n as byte]
    else if n < 0x800 then [(0xC0 + n / 64) as byte, Tail(n)]
    else if n < 0x10000 then [(0xE0 + n / 4096) as byte, Tail(n / 64), Tail(n)]
    else [(0xF0 + n / 262144) as byte, Tail(n / 4096), Tail(n / 64), Tail(n)]
  }

  /** The number that a UTF-8 sequence stands for, read off its lead byte and the low six bits of the others. */
  function Decode(bytes: seq<byte>): int
    requires bytes != []
  {
    var lead := bytes[0] as int;
    if lead < 0x80 && |bytes| == 1 then lead
    else if 0xC2 <= lead < 0xE0 && |bytes| == 2 then (lead - 0xC0) * 64 + Low(bytes[1])
    else if 0xE0 <= lead < 0xF0 && |bytes| == 3 then (lead - 0xE0) * 4096 + Low(bytes[1]) * 64 + Low(bytes[2])
    else if 0xF0 <= lead < 0xF5 && |bytes| == 4 then (lead - 0xF0) * 262144 + Low(bytes[1]) * 4096 + Low(bytes[2]) * 64 + Low(bytes[3])
    else -1
  }

  function Low(b: byte): int {
    if 0x80 <= b < 0xC0 then b as int - 0x80 else -10_000_000
  }

  /** Decoding gives the character back, and no character takes more bytes than it needs. */
  lemma DecodeInvertsEncode(c: char)
    ensures Decode(Encode(c)) == c as int
    ensures |Encode(c)| == if c as int < 0x80 then 1 else if c as int < 0x800 then 2 else if c as int < 0x10000 then 3 else 4
  {
    var n := c as int;
    SixBits(n);
    TailIs(n);
    TailIs(n / 64);
    TailIs(n / 4096);
    if 0x800 <= n < 0x10000 {
      assert Encode(c) == [(0xE0 + n / 4096) as byte, Tail(n / 64), Tail(n)];
    } else if 0x10000 <= n {
      assert Encode(c) == [(0xF0 + n / 262144) as byte, Tail(n / 4096), Tail(n / 64), Tail(n)];
    }
  }

  lemma SixBits(n: nat)
    ensures n == n / 64 * 64 + n % 64
    ensures n == n / 4096 * 4096 + n / 64 % 64 * 64 + n % 64
    ensures n == n / 262144 * 262144 + n / 4096 % 64 * 4096 + n / 64 % 64 * 64 + n % 64
  {
    var a, b, c := n / 64, n / 4096, n / 262144;
    Quotients(n);
    assert a == b * 64 + a % 64 && b == c * 64 + b % 64;
  }

  lemma Quotients(n: nat)
    ensures n / 64 / 64 == n / 4096 && n / 4096 / 64 == n / 262144
  {
  }

  lemma TailIs(n: nat)
    ensures Low(Tail(n)) == n % 64
  {
  }

  function Bytes(s: string): seq<byte> {
    if s == [] then [] else Bytes(s[..|s| - 1]) + Encode(s[|s| - 1])
  }

  lemma BytesOneMore(a: string, b: string)
    requires b != []
    ensures Bytes(a + b) == Bytes(a + b[..|b| - 1]) + Encode(b[|b| - 1])
  {
    assert (a + b)[..|a + b| - 1] == a + b[..|b| - 1];
  }

  lemma {:induction false} BytesConcat(a: string, b: string)
    ensures Bytes(a + b) == Bytes(a) + Bytes(b)
  {
    if b == [] {
      assert a + b == a;
    } else {
      BytesConcat(a, b[..|b| - 1]);
      BytesOneMore(a, b);
    }
  }

  lemma BytesNonEmpty(s: string)
    requires s != []
    ensures |Bytes(s)| > 0
  {
  }
}
