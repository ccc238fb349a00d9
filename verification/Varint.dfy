/** Unsigned varints: the writer of the repository encoder and the reader of the end-to-end tests. */
module Varint {
  import opened Utf8
  import opened Bits32

  /** Seven bits per byte, low bits first, the high bit set on all bytes but the last. */
  function Uvarint(n: nat): (bytes: seq<byte>)
    ensures |bytes| > 0
  {
    if n < 128 then [n as byte] else [(128 + n % 128) as byte] + Uvarint(n / 128)
  }

  /** The number that groups of seven bits stand for, the low ones first. */
  function SevenBitValue(bytes: seq<byte>): nat {
    if bytes == [] then 0 else bytes[0] as nat % 128 + 128 * SevenBitValue(bytes[1..])
  }

  /** A varint stands for its number, all bytes but the last have the high bit set, and none is wasted. */
  lemma {:induction false} UvarintIs(n: nat)
    ensures var bytes := Uvarint(n);
            && SevenBitValue(bytes) == n
            && (forall k :: 0 <= k < |bytes| ==> (bytes[k] >= 128 <==> k < |bytes| - 1))
            && (|bytes| > 1 ==> bytes[|bytes| - 1] != 0)
  {
    if n >= 128 {
      UvarintIs(n / 128);
      assert Uvarint(n)[1..] == Uvarint(n / 128);
    }
  }

  /** `encode_uvarint`. */
  method EncodeUvarint(n: nat, buf: seq<byte>) returns (out: seq<byte>)
    ensures out == buf + Uvarint(n)
  {
    out := buf;
    var rest := n;
    while true
      invariant out + Uvarint(rest) == buf + Uvarint(n)
      decreases rest
    {
      var low := rest % 128;
      var high := rest / 128;
      if high == 0 {
        out := out + [low as byte];
        return;
      }
      assert out + ([(128 + low) as byte] + Uvarint(high)) == out + [(128 + low) as byte] + Uvarint(high);
      out := out + [(128 + low) as byte];
      rest := high;
    }
  }

  /** Reading past the end of a `Uint8Array` yields `undefined`, which counts as zero here. */
  function ByteAt(buf: seq<byte>, pos: nat): nat {
    if pos < |buf| then buf[pos] as nat else 0
  }

  /** What the reader does from `pos` on, with `result` gathered so far. */
  function ReadFrom(buf: seq<byte>, pos: nat, shift: nat, result: nat): (r: (nat, nat))
    ensures r.1 > pos
    decreases if pos < |buf| then |buf| - pos else 0
  {
    var b := ByteAt(buf, pos);
    var gathered := Or(result, ShiftLeft(b % 128, shift));
    if b < 128 then (gathered, pos + 1) else ReadFrom(buf, pos + 1, shift + 7, gathered)
  }

  /** `readUvarint`: it returns on every input. */
  method ReadUvarint(buf: seq<byte>, offset: nat) returns (value: nat, pos: nat)
    ensures (value, pos) == ReadFrom(buf, offset, 0, 0) && pos > offset
  {
    value := 0;
    var shift := 0;
    pos := offset;
    while true
      invariant pos >= offset
      invariant ReadFrom(buf, pos, shift, value) == ReadFrom(buf, offset, 0, 0)
      decreases if pos < |buf| then |buf| - pos else 0
    {
      var b := ByteAt(buf, pos);
      pos := pos + 1;
      value := Or(value, ShiftLeft(b % 128, shift));
      if b < 128 {
        return;
      }
      shift := shift + 7;
    }
  }

  /** A varint reader as its callers see it: the value at a position, and the position after it. */
  type Reader = (seq<byte>, nat) -> (nat, nat)

  const READER: Reader := (buf: seq<byte>, pos: nat) => ReadFrom(buf, pos, 0, 0)

  /** A varint writer as its callers see it. */
  type Writer = nat -> seq<byte>

  const WRITER: Writer := (n: nat) => Uvarint(n)

  /** A reader inverts a writer on 32-bit numbers, wherever they stand. */
  ghost predicate Inverts(read: Reader, write: Writer) {
    forall buf: seq<byte>, pos: nat, n: nat :: n < TWO_TO_32 && Holds(buf, pos, write(n)) ==> read(buf, pos) == (n, pos + |write(n)|) && |write(n)| > 0
  }

  /** `bytes` stand in `buf` from `pos` on. */
  predicate Holds(buf: seq<byte>, pos: nat, bytes: seq<byte>) {
    pos + |bytes| <= |buf| && buf[pos..pos + |bytes|] == bytes
  }

  lemma Split(low: nat, high: nat, p: nat)
    ensures (low + 128 * high) * p == low * p + high * (p * 128)
  {
  }

  lemma Bounded(low: nat, most: nat, p: nat)
    requires low <= most
    ensures low * p <= most * p
  {
  }

  lemma SevenBits(n: nat, p: nat)
    ensures n * p == (n % 128) * p + (n / 128) * (p * 128)
    ensures (n % 128) * p <= 127 * p && (n % 128) * p <= n * p
  {
    Split(n % 128, n / 128, p);
    Bounded(n % 128, 127, p);
    Bounded(n % 128, n, p);
  }

  /** The value of `n` at bit position `shift`. */
  function At(n: nat, shift: nat): nat { n * Pow2(shift) }

  /** Within 32 bits a shift is a multiplication. */
  lemma ShiftInRange(x: nat, shift: nat)
    requires shift < 32 && At(x, shift) < TWO_TO_32
    ensures ShiftLeft(x, shift) == At(x, shift)
  {
    assert shift % 32 == shift;
  }

  lemma AtParts(n: nat, shift: nat)
    ensures At(n, shift) == At(n % 128, shift) + At(n / 128, shift + 7)
    ensures At(n % 128, shift) <= At(n, shift) && At(n % 128, shift) + Pow2(shift) <= Pow2(shift + 7)
  {
    Pow2Adds(shift, 7);
    SomePowers();
    SevenBits(n, Pow2(shift));
  }

  /** Seven more bits: as long as everything fits in 32 bits, the 32-bit operators are plain arithmetic. */
  lemma GatherStep(result: nat, shift: nat, n: nat)
    requires result < Pow2(shift) && At(n, shift) < TWO_TO_32 && shift < 32
    ensures Or(result, ShiftLeft(n % 128, shift)) == result + At(n % 128, shift)
    ensures result + At(n % 128, shift) < Pow2(shift + 7)
    ensures At(n, shift) == At(n % 128, shift) + At(n / 128, shift + 7)
  {
    AtParts(n, shift);
    ShiftInRange(n % 128, shift);
    OrIsPlus(result, n % 128, shift);
  }

  /** A number not yet exhausted at `shift` leaves room for its next seven bits. */
  lemma RoomLeft(shift: nat, n: nat)
    requires n >= 1 && At(n, shift) < TWO_TO_32
    ensures shift < 32
  {
    SomePowers();
    if 32 <= shift { Pow2Grows(32, shift); }
    Bounded(1, n, Pow2(shift));
  }

  /** One byte of the reader's loop on what the writer wrote. */
  lemma ReadStep(buf: seq<byte>, pos: nat, shift: nat, result: nat, n: nat)
    requires Holds(buf, pos, Uvarint(n))
    ensures ByteAt(buf, pos) % 128 == n % 128 && (ByteAt(buf, pos) < 128 <==> n < 128)
    ensures n >= 128 ==> Holds(buf, pos + 1, Uvarint(n / 128)) && |Uvarint(n)| == 1 + |Uvarint(n / 128)|
  {
    assert buf[pos] == buf[pos..pos + |Uvarint(n)|][0];
    if n >= 128 {
      assert buf[pos + 1..pos + 1 + |Uvarint(n / 128)|] == buf[pos..pos + |Uvarint(n)|][1..];
    }
  }

  lemma {:induction false} ReadGathers(buf: seq<byte>, pos: nat, shift: nat, result: nat, n: nat)
    requires Holds(buf, pos, Uvarint(n)) && shift < 32
    requires result < Pow2(shift) && At(n, shift) < TWO_TO_32
    ensures ReadFrom(buf, pos, shift, result) == (result + At(n, shift), pos + |Uvarint(n)|)
    decreases n
  {
    GatherStep(result, shift, n);
    ReadStep(buf, pos, shift, result, n);
    if n >= 128 {
      RoomLeft(shift + 7, n / 128);
      ReadGathers(buf, pos + 1, shift + 7, result + At(n % 128, shift), n / 128);
    } else {
      assert n % 128 == n;
    }
  }

  /** The program's reader inverts the program's writer. */
  lemma ReaderInverts()
    ensures Inverts(READER, WRITER)
  {
    forall buf: seq<byte>, pos: nat, n: nat | n < TWO_TO_32 && Holds(buf, pos, WRITER(n))
      ensures READER(buf, pos) == (n, pos + |WRITER(n)|) && |WRITER(n)| > 0
    {
      ReadGathers(buf, pos, 0, 0, n);
    }
  }
}
