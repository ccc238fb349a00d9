/** 64-bit ids made of a 48-bit millisecond timestamp and the low 16 bits of a wrapping counter. */
module Snowflake {

  const TWO_TO_16: int := 0x1_0000
  const TWO_TO_32: int := 0x1_0000_0000
  const TWO_TO_47: int := 0x8000_0000_0000
  const TWO_TO_48: int := 0x1_0000_0000_0000
  const TWO_TO_63: int := 0x8000_0000_0000_0000
  const TWO_TO_64: int := 0x1_0000_0000_0000_0000

  /** Instants are nanoseconds since 1970; their milliseconds are rounded down. */
  function Millis(at: int): int { at / 1_000_000 }

  /** The 64-bit pattern read as a signed number. */
  function AsSigned(bits: int): int {
    var pattern := bits % TWO_TO_64;
    if pattern < TWO_TO_63 then pattern else pattern - TWO_TO_64
  }

  /** `x & 0x0000_FFFF_FFFF_FFFF`, also for negative numbers. */
  function Mask48(x: int): (r: int)
    ensures 0 <= r < TWO_TO_48
  {
    x % TWO_TO_48
  }

  /** The id for a timestamp and a counter value: a shift to the left, and an or with bits below it. */
  function Pack(ms: int, counter: nat): int {
    AsSigned(Mask48(ms) * TWO_TO_16 + counter % TWO_TO_16)
  }

  /** `generate_snowflake_id`: a creation time in the future counts as now. */
  function IdFor(createdAt: int, now: int, counter: nat): int {
    Pack(Millis(if createdAt > now then now else createdAt), counter)
  }

  /** `snowflake_id_floor`. */
  function Floor(at: int): int {
    var ms := if Millis(at) > 0 then Millis(at) else 0;
    AsSigned(Mask48(ms) * TWO_TO_16)
  }

  /** `snowflake_id_time`, in milliseconds: an arithmetic shift to the right. */
  function IdMillis(id: int): int { id / TWO_TO_16 }

  /** The process-wide counter; taking a number is atomic. */
  class Sequence {
    var next: nat

    ghost predicate Valid()
      reads this
    {
      next < TWO_TO_32
    }

    constructor ()
      ensures Valid() && next == 0
    {
      next := 0;
    }

    method GenerateSnowflakeId(createdAt: int, now: int) returns (id: int)
      requires Valid()
      modifies this
      ensures Valid() && next == (old(next) + 1) % TWO_TO_32
      ensures id == IdFor(createdAt, now, old(next))
    {
      var targetTime := if createdAt > now then now else createdAt;
      var masked := Mask48(Millis(targetTime));
      var serial := next % TWO_TO_16;
      next := (next + 1) % TWO_TO_32;
      id := AsSigned(masked * TWO_TO_16 + serial);
    }
  }

  /** The two parts of an id, read as numbers. */
  lemma PackIs(ms: int, counter: nat)
    ensures var high := Mask48(ms);
            Pack(ms, counter) == (if high < TWO_TO_47 then high else high - TWO_TO_48) * TWO_TO_16 + counter % TWO_TO_16
  {
  }

  lemma MillisRoundsDown(at: int)
    ensures Millis(at) * 1_000_000 <= at < (Millis(at) + 1) * 1_000_000
  {
  }

  lemma HighIs(ms: int)
    ensures (if Mask48(ms) < TWO_TO_47 then Mask48(ms) else Mask48(ms) - TWO_TO_48) == ms <==> -TWO_TO_47 <= ms < TWO_TO_47
  {
  }

  /** The time comes back exactly if it fits into 48 signed bits. */
  lemma TimeComesBackExactly(ms: int, counter: nat)
    ensures IdMillis(Pack(ms, counter)) == ms <==> -TWO_TO_47 <= ms < TWO_TO_47
  {
    PackIs(ms, counter);
    HighIs(ms);
  }

  /** The floor separates earlier from later ids, exactly unless a time before 1970 meets one before it. */
  lemma FloorSeparatesExactly(ms: int, counter: nat, at: int)
    requires -TWO_TO_47 <= ms < TWO_TO_47 && Millis(at) < TWO_TO_47
    ensures (Pack(ms, counter) >= Floor(at) <==> ms >= Millis(at)) <==> !(Millis(at) <= ms < 0)
  {
    PackIs(ms, counter);
    HighIs(ms);
  }

  /** Ids sort by time. */
  lemma LaterIsGreater(ms: int, counter: nat, ms': int, counter': nat)
    requires -TWO_TO_47 <= ms < ms' < TWO_TO_47
    ensures Pack(ms, counter) < Pack(ms', counter')
  {
    PackIs(ms, counter);
    PackIs(ms', counter');
    HighIs(ms);
    HighIs(ms');
  }

  /** Nothing is dated after now: a creation time in the future counts as now. */
  lemma NeverInTheFuture(createdAt: int, now: int, counter: nat)
    requires -TWO_TO_47 <= Millis(createdAt) && -TWO_TO_47 <= Millis(now) < TWO_TO_47
    ensures IdMillis(IdFor(createdAt, now, counter)) <= Millis(now)
    ensures createdAt <= now ==> IdMillis(IdFor(createdAt, now, counter)) == Millis(createdAt)
    ensures createdAt > now ==> IdMillis(IdFor(createdAt, now, counter)) == Millis(now)
  {
    TimeComesBackExactly(Millis(if createdAt > now then now else createdAt), counter);
  }

  /** The counter after some more calls. */
  function CounterAfter(start: nat, calls: nat): nat {
    (start + calls) % TWO_TO_32
  }

  lemma SerialSurvives(ms: int, counter: nat)
    ensures Pack(ms, counter) % TWO_TO_16 == counter % TWO_TO_16
  {
    PackIs(ms, counter);
  }

  /** The ids of any 65,536 calls in a row are pairwise distinct whatever their times, also where the counter wraps. */
  lemma NeighboursDiffer(start: nat, i: nat, j: nat, ms: int, ms': int)
    requires i < j < i + TWO_TO_16
    ensures Pack(ms, CounterAfter(start, i)) != Pack(ms', CounterAfter(start, j))
  {
    SerialSurvives(ms, CounterAfter(start, i));
    SerialSurvives(ms', CounterAfter(start, j));
    WrapKeepsSerial(start + i);
    WrapKeepsSerial(start + j);
    SerialsDiffer(start + i, start + j);
  }

  lemma SerialsDiffer(a: nat, b: nat)
    requires a < b < a + TWO_TO_16
    ensures a % TWO_TO_16 != b % TWO_TO_16
  {
  }

  lemma WrapKeepsSerial(n: nat)
    ensures (n % TWO_TO_32) % TWO_TO_16 == n % TWO_TO_16
  {
    var q := n / TWO_TO_32;
    assert n == q * TWO_TO_32 + n % TWO_TO_32;
  }
}
