/** Bulk transfers holding several received packets: what was put in comes out, in order. */
module RxTransfer {
  import opened RadioTypes
  import opened RxPacket
  import opened Wrappers

  function Concat(packets: seq<Bytes>): Bytes {
    if packets == [] then [] else packets[0] + Concat(packets[1..])
  }

  /** A packet that parses the same whatever follows it, and is at most as long as it claims. */
  ghost predicate Whole(parse: Parser, p: Bytes) {
    && (forall rest: Bytes :: parse(p + rest) == parse(p))
    && parse(p).outcome != NeedMoreData && 0 < |p| <= parse(p).consumed
  }

  predicate Padded(parse: Parser, p: Bytes) {
    parse(p).consumed == |p|
  }

  function ParseEach(parse: Parser, packets: seq<Bytes>): seq<Parsed> {
    seq(|packets|, i requires 0 <= i < |packets| => parse(packets[i]))
  }

  lemma DrainFirst(parse: Parser, first: Bytes, rest: Bytes)
    requires Whole(parse, first) && (rest != [] ==> Padded(parse, first))
    ensures Drain(parse, first + rest) == [parse(first)] + Drain(parse, rest)
  {
    assert parse(first + rest) == parse(first);
    assert (first + rest)[|first|..] == rest;
    assert [parse(first)] + [] == [parse(first)];
  }

  /** The drain loop parses the packets of a transfer one by one, as if each had come alone. */
  lemma {:induction false} DrainSeparates(parse: Parser, packets: seq<Bytes>)
    requires forall i | 0 <= i < |packets| :: Whole(parse, packets[i])
    requires forall i | 0 <= i < |packets| - 1 :: Padded(parse, packets[i])
    ensures Drain(parse, Concat(packets)) == ParseEach(parse, packets)
  {
    if packets != [] {
      var first, rest := packets[0], packets[1..];
      DrainSeparates(parse, rest);
      DrainFirst(parse, first, Concat(rest));
      assert ParseEach(parse, packets) == [parse(first)] + ParseEach(parse, rest);
    }
  }

  // ---------------------------------------------------------------- frames in, frames out

  /** `b` is a received packet carrying `data` and a frame check sequence, with any driver information,
      shift and other descriptor fields, padded at most to the alignment. */
  ghost predicate Carries(b: Bytes, data: Bytes) {
    && |b| >= RX_DESC_SIZE && MIN_FRAME_LEN <= |data| <= MAX_PACKET_LEN - FCS_LEN
    && var h := HeaderOf(b);
    && h.packetLen == |data| + FCS_LEN && !h.crcError
    && DataEnd(h) <= |b| <= Consumed(h)
    && b[DataStart(h)..DataStart(h) + |data|] == data
  }

  lemma CarriedFrameParses(b: Bytes, data: Bytes, channel: Channel)
    requires Carries(b, data)
    ensures var parsed := ParseRxPacket(b, channel);
            parsed.outcome == Frame && parsed.frame.value.data == data && parsed.consumed == Consumed(HeaderOf(b))
  {
    var h := HeaderOf(b);
    assert DataEnd(h) - FCS_LEN == DataStart(h) + |data|;
  }

  function FrameData(parsed: seq<Parsed>): seq<Bytes> {
    if parsed == [] then []
    else (if parsed[0].frame.Some? then [parsed[0].frame.value.data] else []) + FrameData(parsed[1..])
  }

  lemma CarriedFrameIsWhole(b: Bytes, data: Bytes, channel: Channel)
    requires Carries(b, data)
    ensures Whole(Parse(channel), b)
    ensures |b| % 128 == 0 ==> Padded(Parse(channel), b)
  {
    CarriedFrameParses(b, data, channel);
    ConsumedAligned(HeaderOf(b));
    forall rest: Bytes
      ensures Parse(channel)(b + rest) == Parse(channel)(b)
    {
      ParseIsStable(b, rest, channel);
    }
  }

  /** Draining any transfer of packets that carry `frames`, each padded to the 128-byte alignment except
      perhaps the last, returns exactly those frames in order. */
  lemma DrainReturnsFrames(packets: seq<Bytes>, frames: seq<Bytes>, channel: Channel)
    requires |packets| == |frames|
    requires forall i | 0 <= i < |packets| :: Carries(packets[i], frames[i])
    requires forall i | 0 <= i < |packets| - 1 :: |packets[i]| % 128 == 0
    ensures FrameData(Drain(Parse(channel), Concat(packets))) == frames
  {
    var each := ParseEach(Parse(channel), packets);
    forall i | 0 <= i < |packets|
      ensures Whole(Parse(channel), packets[i]) && (|packets[i]| % 128 == 0 ==> Padded(Parse(channel), packets[i]))
      ensures Holds(each[i], frames[i])
    {
      CarriedFrameIsWhole(packets[i], frames[i], channel);
      CarriedFrameParses(packets[i], frames[i], channel);
    }
    DrainSeparates(Parse(channel), packets);
    FrameDataIs(each, frames);
  }

  lemma DrainedAt(packets: seq<Bytes>, frames: seq<Bytes>, k: nat, channel: Channel)
    requires |packets| == |frames| && k < |frames|
    requires forall i | 0 <= i < |packets| :: Carries(packets[i], frames[i])
    requires forall i | 0 <= i < |packets| - 1 :: |packets[i]| % 128 == 0
    ensures var drained := Drain(Parse(channel), Concat(packets));
            |drained| == |frames| && Holds(drained[k], frames[k])
  {
    forall i | 0 <= i < |packets|
      ensures Whole(Parse(channel), packets[i]) && (|packets[i]| % 128 == 0 ==> Padded(Parse(channel), packets[i]))
    {
      CarriedFrameIsWhole(packets[i], frames[i], channel);
    }
    DrainSeparates(Parse(channel), packets);
    CarriedFrameParses(packets[k], frames[k], channel);
  }

  predicate Holds(parsed: Parsed, data: Bytes) {
    parsed.frame.Some? && parsed.frame.value.data == data
  }

  lemma {:induction false} FrameDataIs(parsed: seq<Parsed>, frames: seq<Bytes>)
    requires |parsed| == |frames| && forall i | 0 <= i < |parsed| :: Holds(parsed[i], frames[i])
    ensures FrameData(parsed) == frames
  {
    if parsed != [] {
      FrameDataIs(parsed[1..], frames[1..]);
      assert frames == [frames[0]] + frames[1..];
      assert Holds(parsed[0], frames[0]);
    }
  }

  // ---------------------------------------------------------------- a packet that carries a frame

  /** The first descriptor word for a packet of `len` bytes with `info` eight-byte units of driver
      information and a shift. */
  function FirstWord(len: bv16, info: bv8, shift: bv8): Bytes {
    [Low(len), High8(len) & 0x3f, info & 0x0f, shift & 0x03]
  }

  lemma FirstWordFields(len: bv16, info: bv8, shift: bv8, b: Bytes)
    requires len < 0x4000 && info < 16 && shift < 4
    requires |b| >= 4 && b[0] == Low(len) && b[1] == High8(len) & 0x3f && b[2] == info & 0x0f && b[3] == shift & 0x03
    ensures Le32(b, 0) & 0x3fff == len as bv32
    ensures (Le32(b, 0) >> 14) & 1 == 0
    ensures (Le32(b, 0) >> 16) & 0x0f == info as bv32
    ensures (Le32(b, 0) >> 24) & 0x03 == shift as bv32
  {
  }

  /** A packet of `len` bytes carrying `data`, with `info` units of driver information, a shift, and any
      content in the other descriptor words, the driver information and the frame check sequence. */
  function RxBytes(len: bv16, info: bv8, shift: bv8, words: Bytes, between: Bytes, data: Bytes, fcs: Bytes, padding: Bytes)
    : Bytes
  {
    (FirstWord(len, info, shift) + words + between) + data + (fcs + padding)
  }

  lemma RxBytesLength(
    len: bv16, info: bv8, shift: bv8, words: Bytes, between: Bytes, data: Bytes, fcs: Bytes, padding: Bytes)
    ensures |RxBytes(len, info, shift, words, between, data, fcs, padding)|
         == 4 + |words| + |between| + |data| + |fcs| + |padding|
  {
  }

  lemma Middle(front: Bytes, data: Bytes, back: Bytes)
    ensures (front + data + back)[|front|..|front| + |data|] == data
    ensures |front| >= 4 ==> (front + data + back)[..4] == front[..4]
  {
  }

  /** Such packets exist for every frame that fits, with every amount of driver information and shift. */
  lemma RxBytesCarries(
    len: bv16, info: bv8, shift: bv8, words: Bytes, between: Bytes, data: Bytes, fcs: Bytes, padding: Bytes)
    requires MIN_FRAME_LEN <= |data| <= MAX_PACKET_LEN - FCS_LEN && len as int == |data| + FCS_LEN
    requires info < 16 && shift < 4
    requires |words| == 20 && |between| == info as int * 8 + shift as int && |fcs| == FCS_LEN
    requires (24 + |between| + |data| + 4 + |padding|) % 128 == 0 && |padding| < 128
    ensures Carries(RxBytes(len, info, shift, words, between, data, fcs, padding), data)
  {
    var b := RxBytes(len, info, shift, words, between, data, fcs, padding);
    RxBytesParts(len, info, shift, words, between, data, fcs, padding);
    SmallWord(len);
    FirstWordHeader(len, info, shift, b);
    RxBytesLength(len, info, shift, words, between, data, fcs, padding);
    FullPacketCarries(HeaderOf(b), b, data, |padding|);
  }

  lemma RxBytesParts(
    len: bv16, info: bv8, shift: bv8, words: Bytes, between: Bytes, data: Bytes, fcs: Bytes, padding: Bytes)
    ensures var b, at := RxBytes(len, info, shift, words, between, data, fcs, padding), 4 + |words| + |between|;
            |b| >= at + |data| && b[..4] == FirstWord(len, info, shift) && b[at..at + |data|] == data
  {
    var front := FirstWord(len, info, shift) + words + between;
    Middle(front, data, fcs + padding);
    assert front[..4] == FirstWord(len, info, shift);
  }

  lemma FullPacketCarries(h: Header, b: Bytes, data: Bytes, padding: nat)
    requires |b| >= RX_DESC_SIZE && h == HeaderOf(b) && MIN_FRAME_LEN <= |data| <= MAX_PACKET_LEN - FCS_LEN
    requires h.packetLen == |data| + FCS_LEN && !h.crcError
    requires |b| == DataEnd(h) + padding && padding < 128 && |b| % 128 == 0
    requires b[DataStart(h)..DataStart(h) + |data|] == data
    ensures Carries(b, data)
  {
    PaddedToConsumed(h, |b|);
  }

  lemma SmallWord(len: bv16)
    requires len as int < 0x4000
    ensures len < 0x4000
  {
  }

  lemma Widened(len: bv16, small: bv8)
    ensures (len as bv32) as int == len as int
    ensures (small as bv32) as int == small as int
  {
  }

  lemma FirstWordHeader(len: bv16, info: bv8, shift: bv8, b: Bytes)
    requires len < 0x4000 && info < 16 && shift < 4
    requires |b| >= RX_DESC_SIZE && b[..4] == FirstWord(len, info, shift)
    ensures var h := HeaderOf(b);
            h.packetLen == len as int && !h.crcError && h.driverInfoSize == info as int * 8 && h.shift == shift as int
  {
    assert b[0] == b[..4][0] && b[1] == b[..4][1] && b[2] == b[..4][2] && b[3] == b[..4][3];
    FirstWordFields(len, info, shift, b);
    Widened(len, info);
    Widened(len, shift);
  }

  lemma PaddedToConsumed(h: Header, n: nat)
    requires LengthOk(h) && n % 128 == 0 && DataEnd(h) <= n < DataEnd(h) + 128
    ensures n == Consumed(h)
  {
    ConsumedAligned(h);
    SameMultiple(DataEnd(h), n, Consumed(h));
  }

  lemma SameMultiple(low: nat, m: nat, n: nat)
    requires low <= m < low + 128 && low <= n < low + 128 && m % 128 == 0 && n % 128 == 0
    ensures m == n
  {
    assert m == m / 128 * 128 && n == n / 128 * 128;
  }
}
