/**
 CAR files (CARv1): the writer of the repository (`encode_car`) and the hand-written parser of the
 end-to-end tests (`parseCarBlocks`), which keeps block bytes under the hex form of their CID.
 */
module Car {
  import opened Utf8
  import opened Bits32
  import opened Varint

  /** A CIDv1: its varint fields and the digest. */
  datatype Cid = Cid(version: nat, codec: nat, hashCode: nat, digest: seq<byte>)

  datatype Entry = Entry(cid: Cid, block: seq<byte>)

  predicate Fits(c: Cid) {
    c.version < TWO_TO_32 && c.codec < TWO_TO_32 && c.hashCode < TWO_TO_32 && |c.digest| < TWO_TO_32
  }

  function CidBytes(write: Writer, c: Cid): seq<byte> {
    write(c.version) + (write(c.codec) + (write(c.hashCode) + (write(|c.digest|) + c.digest)))
  }

  function EntryBytes(write: Writer, e: Entry): seq<byte> {
    write(|CidBytes(write, e.cid)| + |e.block|) + (CidBytes(write, e.cid) + e.block)
  }

  function EntriesBytes(write: Writer, entries: seq<Entry>): seq<byte> {
    if entries == [] then [] else EntryBytes(write, entries[0]) + EntriesBytes(write, entries[1..])
  }

  function CarBytes(write: Writer, header: seq<byte>, entries: seq<Entry>): seq<byte> {
    write(|header|) + (header + EntriesBytes(write, entries))
  }

  lemma Appended(a: seq<byte>, b: seq<byte>, c: seq<byte>, d: seq<byte>, e: seq<byte>)
    ensures a + b + c + d + e == a + ((b + (c + d)) + e)
  {
  }

  /** `encode_car`, given the encoded header. */
  method EncodeCar(header: seq<byte>, entries: seq<Entry>) returns (car: seq<byte>)
    ensures car == CarBytes(WRITER, header, entries)
  {
    car := EncodeUvarint(|header|, []);
    car := car + header;
    var k := 0;
    assert entries[0..] == entries;
    while k < |entries|
      invariant k <= |entries|
      invariant car + EntriesBytes(WRITER, entries[k..]) == CarBytes(WRITER, header, entries)
    {
      ghost var before := car;
      var cidBytes := CidBytes(WRITER, entries[k].cid);
      car := EncodeUvarint(|cidBytes| + |entries[k].block|, car);
      car := car + cidBytes;
      car := car + entries[k].block;
      Appended(before, Uvarint(|cidBytes| + |entries[k].block|), cidBytes, entries[k].block, EntriesBytes(WRITER, entries[k + 1..]));
      assert entries[k..][1..] == entries[k + 1..];
      k := k + 1;
    }
  }

  /* ------------------------------------ the parser ------------------------------------ */

  function HexDigit(n: nat): char
    requires n < 16
  {
    "0123456789abcdef"[n]
  }

  /** `toHex`: two lower-case digits per byte. */
  function ToHex(bytes: seq<byte>): string {
    if bytes == [] then ""
    else [HexDigit(bytes[0] as nat / 16), HexDigit(bytes[0] as nat % 16)] + ToHex(bytes[1..])
  }

  lemma {:induction false} ToHexIsInjective(a: seq<byte>, b: seq<byte>)
    requires ToHex(a) == ToHex(b)
    ensures a == b
  {
    if a != [] && b != [] {
      var digits := "0123456789abcdef";
      assert forall i, j :: 0 <= i < j < 16 ==> digits[i] != digits[j];
      assert ToHex(a)[0] == ToHex(b)[0] && ToHex(a)[1] == ToHex(b)[1];
      assert a[0] == b[0];
      assert ToHex(a)[2..] == ToHex(a[1..]) && ToHex(b)[2..] == ToHex(b[1..]);
      ToHexIsInjective(a[1..], b[1..]);
      assert a == [a[0]] + a[1..] && b == [b[0]] + b[1..];
    } else {
      assert a != [] ==> |ToHex(a)| >= 2;
      assert b != [] ==> |ToHex(b)| >= 2;
    }
  }

  /** The value of a lower-case hex digit. */
  function DigitValue(c: char): nat {
    if '0' <= c <= '9' then c as nat - '0' as nat
    else if 'a' <= c <= 'f' then c as nat - 'a' as nat + 10
    else 256
  }

  /** The numbers that pairs of digits stand for. */
  function ReadHex(hex: string): seq<nat> {
    if |hex| < 2 then [] else [16 * DigitValue(hex[0]) + DigitValue(hex[1])] + ReadHex(hex[2..])
  }

  /** Two digits per byte, which read back as the bytes. */
  lemma {:induction false} HexReadsBack(bytes: seq<byte>)
    ensures |ToHex(bytes)| == 2 * |bytes| && |ReadHex(ToHex(bytes))| == |bytes|
    ensures forall k :: 0 <= k < |bytes| ==> ReadHex(ToHex(bytes))[k] == bytes[k] as nat
  {
    if bytes != [] {
      DigitReadsBack(bytes[0] as nat / 16);
      DigitReadsBack(bytes[0] as nat % 16);
      assert ToHex(bytes)[2..] == ToHex(bytes[1..]);
      HexReadsBack(bytes[1..]);
    }
  }

  lemma DigitReadsBack(n: nat)
    requires n < 16
    ensures DigitValue(HexDigit(n)) == n
  {
  }

  function Min(a: nat, b: nat): nat { if a < b then a else b }

  /** `subarray`: bounds beyond the end are moved to the end, a reversed range is empty. */
  function Subarray(buf: seq<byte>, start: nat, end: nat): seq<byte> {
    var s, e := Min(start, |buf|), Min(end, |buf|);
    if s <= e then buf[s..e] else []
  }

  /** What writer and parser are built from: writing and reading varints, printing hex, `subarray`. */
  datatype Tools = Tools(write: Writer, read: Reader, hex: seq<byte> -> string, cut: (seq<byte>, nat, nat) -> seq<byte>)

  const TOOLS := Tools(WRITER, READER, (bytes: seq<byte>) => ToHex(bytes), (buf: seq<byte>, start: nat, end: nat) => Subarray(buf, start, end))

  ghost predicate CutsOut(cut: (seq<byte>, nat, nat) -> seq<byte>) {
    forall buf: seq<byte>, start: nat, bytes: seq<byte> :: Holds(buf, start, bytes) ==> cut(buf, start, start + |bytes|) == bytes
  }

  /** Where the CID that starts at `offset` ends. */
  function CidEnd(read: Reader, buf: seq<byte>, offset: nat): nat {
    var p1 := read(buf, offset).1;
    var p2 := read(buf, p1).1;
    var p3 := read(buf, p2).1;
    var (digestLen, p4) := read(buf, p3);
    p4 + digestLen
  }

  /** `cidByteLength`. */
  method CidByteLength(buf: seq<byte>, offset: nat) returns (length: nat)
    ensures offset + length == CidEnd(READER, buf, offset)
  {
    var pos := offset;
    var ignored, digestLen;
    ignored, pos := ReadUvarint(buf, pos);
    ignored, pos := ReadUvarint(buf, pos);
    ignored, pos := ReadUvarint(buf, pos);
    digestLen, pos := ReadUvarint(buf, pos);
    pos := pos + digestLen;
    length := pos - offset;
  }

  /** One entry as the parser sees it: the hex form of its CID, its block, and the position after it. */
  datatype Frame = Frame(key: string, block: seq<byte>, end: nat)

  type Framing = (seq<byte>, nat) -> Frame

  function FrameAt(t: Tools, car: seq<byte>, pos: nat): Frame {
    var (entryLen, start) := t.read(car, pos);
    var end, cidEnd := start + entryLen, CidEnd(t.read, car, start);
    Frame(t.hex(t.cut(car, start, cidEnd)), t.cut(car, cidEnd, end), end)
  }

  function FramingOf(t: Tools): Framing {
    (car: seq<byte>, pos: nat) => FrameAt(t, car, pos)
  }

  const FRAMING := FramingOf(TOOLS)

  /**
   The map the parser builds from `pos` on, on any input. A frame always ends further on; for a framing
   that does not advance the function is cut short only to be defined.
   */
  function ParseFrom(frame: Framing, car: seq<byte>, pos: nat, blocks: map<string, seq<byte>>): map<string, seq<byte>>
    decreases if pos < |car| then |car| - pos else 0
  {
    var f := frame(car, pos);
    if pos >= |car| || f.end <= pos then blocks
    else ParseFrom(frame, car, f.end, blocks[f.key := f.block])
  }

  /** Where the first entry starts. */
  function AfterHeader(read: Reader, car: seq<byte>): nat {
    var (headerLen, pos) := read(car, 0);
    pos + headerLen
  }

  function Parse(car: seq<byte>): map<string, seq<byte>> {
    ParseFrom(FRAMING, car, AfterHeader(READER, car), map[])
  }

  /** One round of the loop of `parseCarBlocks`: the entry at `pos` and the position after it. */
  method ParseEntryAt(car: seq<byte>, pos: nat) returns (key: string, block: seq<byte>, end: nat)
    ensures end > pos && FRAMING(car, pos) == Frame(key, block, end)
  {
    var entryLen, entryStart := ReadUvarint(car, pos);
    end := entryStart + entryLen;
    var cidLen := CidByteLength(car, entryStart);
    var cidBytes := Subarray(car, entryStart, entryStart + cidLen);
    block := Subarray(car, entryStart + cidLen, end);
    key := ToHex(cidBytes);
  }

  method SkipHeader(car: seq<byte>) returns (pos: nat)
    ensures pos == AfterHeader(READER, car)
  {
    var headerLen;
    headerLen, pos := ReadUvarint(car, 0);
    pos := pos + headerLen;
  }

  /** `parseCarBlocks`. */
  method ParseCarBlocks(car: seq<byte>) returns (blocks: map<string, seq<byte>>)
    ensures blocks == Parse(car)
  {
    blocks := map[];
    var pos := SkipHeader(car);
    while pos < |car|
      invariant ParseFrom(FRAMING, car, pos, blocks) == Parse(car)
      decreases if pos < |car| then |car| - pos else 0
    {
      var key, block, end := ParseEntryAt(car, pos);
      blocks := blocks[key := block];
      pos := end;
    }
  }

  /* ------------------------------------ the round trip ------------------------------------ */

  lemma HoldsParts(buf: seq<byte>, pos: nat, a: seq<byte>, b: seq<byte>)
    requires Holds(buf, pos, a + b)
    ensures Holds(buf, pos, a) && Holds(buf, pos + |a|, b)
  {
    var all := buf[pos..pos + |a + b|];
    assert all[..|a|] == a && all[|a|..] == b;
    assert buf[pos..pos + |a|] == all[..|a|];
    assert buf[pos + |a|..pos + |a| + |b|] == all[|a|..];
  }

  /** Tools that fit each other: the reader inverts the writer, and `cut` cuts out what stands there. */
  ghost predicate Sound(t: Tools) {
    Inverts(t.read, t.write) && CutsOut(t.cut)
  }

  /** Reading a number that was written, with something after it. */
  lemma ReadNext(t: Tools, buf: seq<byte>, pos: nat, n: nat, rest: seq<byte>) returns (next: nat)
    requires Sound(t) && n < TWO_TO_32 && Holds(buf, pos, t.write(n) + rest)
    ensures t.read(buf, pos) == (n, next) && Holds(buf, next, rest)
    ensures next + |rest| == pos + |t.write(n) + rest| && next > pos
  {
    HoldsParts(buf, pos, t.write(n), rest);
    next := pos + |t.write(n)|;
  }

  /** The fields of a written CID, one read after the other. */
  lemma FieldsFound(t: Tools, buf: seq<byte>, pos: nat, c: Cid) returns (p1: nat, p2: nat, p3: nat, p4: nat)
    requires Sound(t) && Fits(c) && Holds(buf, pos, CidBytes(t.write, c))
    ensures t.read(buf, pos) == (c.version, p1) && t.read(buf, p1) == (c.codec, p2)
    ensures t.read(buf, p2) == (c.hashCode, p3) && t.read(buf, p3) == (|c.digest|, p4)
    ensures Holds(buf, p4, c.digest) && p4 + |c.digest| == pos + |CidBytes(t.write, c)|
  {
    var w := t.write;
    var tail := w(|c.digest|) + c.digest;
    p1 := ReadNext(t, buf, pos, c.version, w(c.codec) + (w(c.hashCode) + tail));
    p2 := ReadNext(t, buf, p1, c.codec, w(c.hashCode) + tail);
    p3 := ReadNext(t, buf, p2, c.hashCode, tail);
    p4 := ReadNext(t, buf, p3, |c.digest|, c.digest);
  }

  /** The parser finds the end of a CID from its own length field. */
  lemma CidEndFound(t: Tools, buf: seq<byte>, pos: nat, c: Cid)
    requires Sound(t) && Fits(c) && Holds(buf, pos, CidBytes(t.write, c))
    ensures CidEnd(t.read, buf, pos) == pos + |CidBytes(t.write, c)|
  {
    var p1, p2, p3, p4 := FieldsFound(t, buf, pos, c);
  }

  predicate EntryFits(write: Writer, e: Entry) {
    Fits(e.cid) && |CidBytes(write, e.cid)| + |e.block| < TWO_TO_32
  }

  predicate AllFit(write: Writer, entries: seq<Entry>) {
    forall k :: 0 <= k < |entries| ==> EntryFits(write, entries[k])
  }

  function Key(t: Tools, c: Cid): string {
    t.hex(CidBytes(t.write, c))
  }

  /** The two parts of a written entry, as the parser finds them. */
  lemma PartsFound(t: Tools, car: seq<byte>, pos: nat, cid: seq<byte>, block: seq<byte>) returns (start: nat)
    requires Sound(t) && |cid| + |block| < TWO_TO_32
    requires Holds(car, pos, t.write(|cid| + |block|) + (cid + block))
    ensures t.read(car, pos) == (|cid| + |block|, start) && Holds(car, start, cid)
    ensures t.cut(car, start, start + |cid|) == cid && t.cut(car, start + |cid|, start + |cid| + |block|) == block
    ensures pos < start && start + |cid| + |block| == pos + |t.write(|cid| + |block|) + (cid + block)| <= |car|
  {
    start := ReadNext(t, car, pos, |cid| + |block|, cid + block);
    HoldsParts(car, start, cid, block);
  }

  /** What the entries say, a later one replacing an earlier one with the same CID. */
  function Blocks(t: Tools, entries: seq<Entry>, blocks: map<string, seq<byte>>): map<string, seq<byte>> {
    if entries == [] then blocks
    else Blocks(t, entries[1..], blocks[Key(t, entries[0].cid) := entries[0].block])
  }

  predicate FindsAt(frame: Framing, t: Tools, car: seq<byte>, pos: nat, e: Entry) {
    EntryFits(t.write, e) && Holds(car, pos, EntryBytes(t.write, e)) ==>
      |EntryBytes(t.write, e)| > 0 && frame(car, pos) == Frame(Key(t, e.cid), e.block, pos + |EntryBytes(t.write, e)|)
  }

  /** The framing finds what was written. */
  ghost predicate Finds(frame: Framing, t: Tools) {
    forall car: seq<byte>, pos: nat, e: Entry :: FindsAt(frame, t, car, pos, e)
  }

  lemma FrameOfParts(t: Tools, car: seq<byte>, pos: nat, start: nat, cid: seq<byte>, block: seq<byte>)
    requires t.read(car, pos) == (|cid| + |block|, start) && CidEnd(t.read, car, start) == start + |cid|
    requires t.cut(car, start, start + |cid|) == cid && t.cut(car, start + |cid|, start + |cid| + |block|) == block
    ensures FrameAt(t, car, pos) == Frame(t.hex(cid), block, start + |cid| + |block|)
  {
  }

  lemma FrameFound(t: Tools, car: seq<byte>, pos: nat, e: Entry)
    requires Sound(t) && EntryFits(t.write, e) && Holds(car, pos, EntryBytes(t.write, e))
    ensures |EntryBytes(t.write, e)| > 0 && FrameAt(t, car, pos) == Frame(Key(t, e.cid), e.block, pos + |EntryBytes(t.write, e)|)
  {
    PartsFramed(t, car, pos, e.cid, CidBytes(t.write, e.cid), e.block);
  }

  lemma PartsFramed(t: Tools, car: seq<byte>, pos: nat, c: Cid, cid: seq<byte>, block: seq<byte>)
    requires Sound(t) && Fits(c) && cid == CidBytes(t.write, c) && |cid| + |block| < TWO_TO_32
    requires Holds(car, pos, t.write(|cid| + |block|) + (cid + block))
    ensures var written := t.write(|cid| + |block|) + (cid + block);
            |written| > 0 && FrameAt(t, car, pos) == Frame(t.hex(cid), block, pos + |written|)
  {
    var start := PartsFound(t, car, pos, cid, block);
    CidEndFound(t, car, start, c);
    FrameOfParts(t, car, pos, start, cid, block);
  }

  lemma FramesFound(t: Tools)
    requires Sound(t)
    ensures Finds(FramingOf(t), t)
  {
    var frame := FramingOf(t);
    forall car: seq<byte>, pos: nat, e: Entry
      ensures FindsAt(frame, t, car, pos, e)
    {
      if EntryFits(t.write, e) && Holds(car, pos, EntryBytes(t.write, e)) {
        FrameFound(t, car, pos, e);
      }
    }
  }

  lemma {:induction false} ParseEntries(frame: Framing, t: Tools, car: seq<byte>, pos: nat, entries: seq<Entry>, blocks: map<string, seq<byte>>)
    requires Finds(frame, t) && AllFit(t.write, entries)
    requires Holds(car, pos, EntriesBytes(t.write, entries)) && pos + |EntriesBytes(t.write, entries)| == |car|
    ensures ParseFrom(frame, car, pos, blocks) == Blocks(t, entries, blocks)
    decreases |entries|
  {
    if entries != [] {
      var e := entries[0];
      HoldsParts(car, pos, EntryBytes(t.write, e), EntriesBytes(t.write, entries[1..]));
      assert FindsAt(frame, t, car, pos, e);
      ParseEntries(frame, t, car, pos + |EntryBytes(t.write, e)|, entries[1..], blocks[Key(t, e.cid) := e.block]);
    }
  }

  /** The parser skips the header, whatever it says. */
  lemma HeaderSkipped(t: Tools, car: seq<byte>, header: seq<byte>, rest: seq<byte>)
    requires Sound(t) && |header| < TWO_TO_32 && car == t.write(|header|) + (header + rest)
    ensures var pos := AfterHeader(t.read, car); Holds(car, pos, rest) && pos + |rest| == |car|
  {
    assert car[0..|car|] == car;
    var start := ReadNext(t, car, 0, |header|, header + rest);
    HoldsParts(car, start, header, rest);
  }

  lemma ToolsAreSound()
    ensures Sound(TOOLS)
  {
    ReaderInverts();
  }

  lemma FramingFinds()
    ensures Finds(FRAMING, TOOLS)
  {
    ToolsAreSound();
    FramesFound(TOOLS);
  }

  /** The parser undoes the writer: a file with repeated CIDs keeps the last block of each. */
  lemma ParseInvertsEncode(header: seq<byte>, entries: seq<Entry>)
    requires |header| < TWO_TO_32 && AllFit(WRITER, entries)
    ensures Parse(CarBytes(WRITER, header, entries)) == Blocks(TOOLS, entries, map[])
  {
    ToolsAreSound();
    FramingFinds();
    var car := CarBytes(WRITER, header, entries);
    HeaderSkipped(TOOLS, car, header, EntriesBytes(WRITER, entries));
    ParseEntries(FRAMING, TOOLS, car, AfterHeader(READER, car), entries, map[]);
  }

  /* ------------------------------ distinct CIDs: exactly that map ------------------------------ */

  /** The CID that stands at `pos`, read field by field. */
  function CidAt(t: Tools, buf: seq<byte>, pos: nat): Cid {
    var (version, p1) := t.read(buf, pos);
    var (codec, p2) := t.read(buf, p1);
    var (hashCode, p3) := t.read(buf, p2);
    var (digestLen, p4) := t.read(buf, p3);
    Cid(version, codec, hashCode, t.cut(buf, p4, p4 + digestLen))
  }

  lemma CidFound(t: Tools, buf: seq<byte>, pos: nat, c: Cid)
    requires Sound(t) && Fits(c) && Holds(buf, pos, CidBytes(t.write, c))
    ensures CidAt(t, buf, pos) == c
  {
    var p1, p2, p3, p4 := FieldsFound(t, buf, pos, c);
  }

  /** Different CIDs get different keys. */
  lemma KeysAreInjective(c: Cid, d: Cid)
    requires Fits(c) && Fits(d) && Key(TOOLS, c) == Key(TOOLS, d)
    ensures c == d
  {
    ToolsAreSound();
    var a, b := CidBytes(WRITER, c), CidBytes(WRITER, d);
    ToHexIsInjective(a, b);
    assert a[0..|a|] == a;
    CidFound(TOOLS, a, 0, c);
    CidFound(TOOLS, a, 0, d);
  }

  predicate KeysDiffer(t: Tools, entries: seq<Entry>) {
    forall i, j :: 0 <= i < j < |entries| ==> Key(t, entries[i].cid) != Key(t, entries[j].cid)
  }

  predicate HasKey(t: Tools, entries: seq<Entry>, key: string) {
    exists k :: 0 <= k < |entries| && Key(t, entries[k].cid) == key
  }

  /** Every entry's block under its key, and nothing else besides what was there. */
  lemma {:induction false} BlocksAreTheEntries(t: Tools, entries: seq<Entry>, blocks: map<string, seq<byte>>)
    requires KeysDiffer(t, entries)
    ensures var all := Blocks(t, entries, blocks);
            && (forall k :: 0 <= k < |entries| ==> Key(t, entries[k].cid) in all && all[Key(t, entries[k].cid)] == entries[k].block)
            && (forall key :: key in all <==> key in blocks || HasKey(t, entries, key))
            && (forall key :: key in blocks && !HasKey(t, entries, key) ==> all[key] == blocks[key])
  {
    if entries != [] {
      var first, rest := Key(t, entries[0].cid), entries[1..];
      BlocksAreTheEntries(t, rest, blocks[first := entries[0].block]);
      assert !HasKey(t, rest, first);
      forall key
        ensures HasKey(t, entries, key) <==> key == first || HasKey(t, rest, key)
      {
        if HasKey(t, rest, key) {
          var k :| 0 <= k < |rest| && Key(t, rest[k].cid) == key;
          assert rest[k] == entries[k + 1];
        }
        if HasKey(t, entries, key) && key != first {
          var k :| 0 <= k < |entries| && Key(t, entries[k].cid) == key;
          assert rest[k - 1] == entries[k];
        }
      }
      var all := Blocks(t, entries, blocks);
      forall k | 0 <= k < |entries|
        ensures Key(t, entries[k].cid) in all && all[Key(t, entries[k].cid)] == entries[k].block
      {
        if k > 0 { assert rest[k - 1] == entries[k]; }
      }
    }
  }

  /** With distinct CIDs the parser returns exactly the map that was written. */
  lemma ParseIsExact(header: seq<byte>, entries: seq<Entry>)
    requires |header| < TWO_TO_32 && AllFit(WRITER, entries)
    requires forall i, j :: 0 <= i < j < |entries| ==> entries[i].cid != entries[j].cid
    ensures var blocks := Parse(CarBytes(WRITER, header, entries));
            && (forall k :: 0 <= k < |entries| ==> Key(TOOLS, entries[k].cid) in blocks && blocks[Key(TOOLS, entries[k].cid)] == entries[k].block)
            && (forall key :: key in blocks <==> HasKey(TOOLS, entries, key))
  {
    ParseInvertsEncode(header, entries);
    forall i, j | 0 <= i < j < |entries|
      ensures Key(TOOLS, entries[i].cid) != Key(TOOLS, entries[j].cid)
    {
      if Key(TOOLS, entries[i].cid) == Key(TOOLS, entries[j].cid) {
        assert EntryFits(WRITER, entries[i]) && EntryFits(WRITER, entries[j]);
        KeysAreInjective(entries[i].cid, entries[j].cid);
      }
    }
    BlocksAreTheEntries(TOOLS, entries, map[]);
  }
}
