/** The receive path of crates/radio-core/src/rtl8812au.rs (`parse_rx_packet`) and the drain loop of
    `read_rx_packets` in crates/wfb-radio-runtime/src/lib.rs that walks a bulk transfer with it. */
module RxPacket {
  import opened RadioTypes
  import opened TxRates
  import opened Align
  import opened Wrappers

  const RX_DESC_SIZE := 24
  const RX_ALIGNMENT := 128
  const MAX_PACKET_LEN := 4096
  const FCS_LEN := 4
  const PHY_STATUS_MIN_LEN := 17

  datatype Outcome = Frame | Drop | NeedMoreData

  datatype RssiSource = BestPath | FirstByte | NoPhyStatus

  datatype RxFrame = RxFrame(
    data: Bytes, rssiDbm: I8, rssiValid: bool, rssiSource: RssiSource, noiseDbm: Option<I8>, snrDb: Option<I8>,
    channel: Channel, phyStatus: bool, driverInfoSize: nat, rxShift: nat, rawPhyStatus: Bytes,
    rxRateRaw: bv8, rxRate: Option<TxRate>, rxBandwidthRaw: bv8, rxBandwidth: Option<Bandwidth>,
    shortGi: bool, ldpc: bool, stbc: bool, crcError: bool)

  datatype Parsed = Parsed(consumed: nat, outcome: Outcome, frame: Option<RxFrame>)

  // ---------------------------------------------------------------- the descriptor

  function Le32(b: Bytes, at: nat): bv32
    requires at + 4 <= |b|
  {
    (b[at + 3] as bv32 << 24) | (b[at + 2] as bv32 << 16) | (b[at + 1] as bv32 << 8) | (b[at] as bv32)
  }

  /** What the 24-byte descriptor in front of a packet says. */
  datatype Header = Header(
    packetLen: nat, crcError: bool, driverInfoSize: nat, shift: nat, phyStatus: bool,
    rate: bv8, bandwidth: bv8, shortGi: bool, ldpc: bool, stbc: bool)

  function HeaderOf(b: Bytes): (h: Header)
    requires |b| >= RX_DESC_SIZE
    ensures h.packetLen < 0x4000 && h.driverInfoSize <= 120 && h.shift <= 3
  {
    var dw0, dw3, dw4 := Le32(b, 0), Le32(b, 12), Le32(b, 16);
    Header(
      (dw0 & 0x3fff) as int, (dw0 >> 14) & 1 != 0, ((dw0 >> 16) & 0x0f) as int * 8, ((dw0 >> 24) & 0x03) as int,
      (dw0 >> 26) & 1 != 0, (dw3 & 0x7f) as bv8, ((dw4 >> 4) & 0x03) as bv8,
      dw4 & 1 != 0, (dw4 >> 1) & 1 != 0, (dw4 >> 2) & 1 != 0)
  }

  function DataStart(h: Header): nat {
    RX_DESC_SIZE + h.driverInfoSize + h.shift
  }

  function DataEnd(h: Header): nat {
    DataStart(h) + h.packetLen
  }

  predicate LengthOk(h: Header) {
    0 < h.packetLen <= MAX_PACKET_LEN && h.driverInfoSize <= 120 && h.shift <= 3
  }

  function Consumed(h: Header): nat
    requires LengthOk(h)
  {
    AlignUp(DataEnd(h), RX_ALIGNMENT)
  }

  // ---------------------------------------------------------------- signal quality

  function Clamp(v: int, low: int, high: int): (c: int)
    requires low <= high
    ensures low <= c <= high
  {
    if v < low then low else if v > high then high else v
  }

  datatype Metrics = Metrics(rssiDbm: I8, snrDb: I8, noiseDbm: I8)

  function Signed(b: bv8): I8 {
    if b < 0x80 then b as int else b as int - 0x100
  }

  function PathMetrics(gain: bv8, rawSnr: bv8): (m: Metrics)
    ensures -127 <= m.rssiDbm <= 0 && -127 <= m.noiseDbm <= 0
  {
    var rssi := Clamp((gain & 0x7f) as int - 110, -127, 0);
    var snr := Signed(rawSnr) / 2;   // an arithmetic shift rounds down, as division by two does here
    Metrics(rssi, snr, Clamp(rssi - snr, -127, 0))
  }

  function PhyMetrics(raw: Bytes, rate: bv8): Option<Metrics> {
    if |raw| < PHY_STATUS_MIN_LEN || rate <= 0x03 then None
    else
      var a, b := PathMetrics(raw[0], raw[15]), PathMetrics(raw[1], raw[16]);
      Some(if b.rssiDbm > a.rssiDbm then b else a)
  }

  function BandwidthFromRaw(raw: bv8): Option<Bandwidth> {
    if raw == 0 then Some(Mhz20) else if raw == 1 then Some(Mhz40) else if raw == 2 then Some(Mhz80) else None
  }

  // ---------------------------------------------------------------- one packet

  function RawPhyStatus(h: Header, b: Bytes): Bytes
    requires DataEnd(h) <= |b|
  {
    if h.phyStatus && h.driverInfoSize > 0
    then b[RX_DESC_SIZE..RX_DESC_SIZE + if h.driverInfoSize < 32 then h.driverInfoSize else 32] else []
  }

  function FrameOf(h: Header, data: Bytes, raw: Bytes, channel: Channel): RxFrame {
    var metrics := PhyMetrics(raw, h.rate);
    var (rssi, valid, source) :=
      if metrics.Some? then (metrics.value.rssiDbm, true, BestPath)
      else if raw != [] then (Clamp(raw[0] as int - 110, -127, 0), true, FirstByte)
      else (-80, false, NoPhyStatus);
    RxFrame(
      data, rssi, valid, source,
      if metrics.Some? then Some(metrics.value.noiseDbm) else None,
      if metrics.Some? then Some(metrics.value.snrDb) else None,
      channel, h.phyStatus, h.driverInfoSize, h.shift, raw, h.rate, RxRateFromHw(h.rate),
      h.bandwidth, BandwidthFromRaw(h.bandwidth), h.shortGi, h.ldpc, h.stbc, h.crcError)
  }

  function ParseWith(h: Header, b: Bytes, channel: Channel): Parsed {
    if !LengthOk(h) then Parsed(RX_DESC_SIZE, Drop, None)
    else if DataEnd(h) > |b| then Parsed(0, NeedMoreData, None)
    else if h.crcError || h.packetLen < MIN_FRAME_LEN + FCS_LEN then Parsed(Consumed(h), Drop, None)
    else Parsed(Consumed(h), Frame,
                Some(FrameOf(h, b[DataStart(h)..DataEnd(h) - FCS_LEN], RawPhyStatus(h, b), channel)))
  }

  function ParseRxPacket(b: Bytes, channel: Channel): Parsed {
    if |b| < RX_DESC_SIZE then Parsed(0, NeedMoreData, None) else ParseWith(HeaderOf(b), b, channel)
  }

  lemma ConsumedAligned(h: Header)
    requires LengthOk(h)
    ensures DataEnd(h) <= Consumed(h) < DataEnd(h) + 128 && Consumed(h) % 128 == 0
    ensures forall m: nat | m % 128 == 0 && DataEnd(h) <= m :: Consumed(h) <= m
  {
    assert Pow2(7) == 128;
    AlignUpIsLeastMultiple(DataEnd(h), 128, 7);
  }

  lemma HeaderPrefix(b: Bytes, more: Bytes)
    requires |b| >= RX_DESC_SIZE
    ensures HeaderOf(b + more) == HeaderOf(b)
  {
    assert forall i | 0 <= i < RX_DESC_SIZE :: (b + more)[i] == b[i];
  }

  lemma ParseWithStable(h: Header, b: Bytes, more: Bytes, channel: Channel)
    requires ParseWith(h, b, channel).outcome != NeedMoreData
    ensures ParseWith(h, b + more, channel) == ParseWith(h, b, channel)
  {
    if LengthOk(h) {
      assert (b + more)[DataStart(h)..DataEnd(h)] == b[DataStart(h)..DataEnd(h)];
      if h.packetLen >= FCS_LEN {
        assert (b + more)[DataStart(h)..DataEnd(h) - FCS_LEN] == b[DataStart(h)..DataEnd(h) - FCS_LEN];
      }
      assert RawPhyStatus(h, b + more) == RawPhyStatus(h, b);
    }
  }

  /** Once there is enough data, more of it changes nothing. */
  lemma ParseIsStable(b: Bytes, more: Bytes, channel: Channel)
    ensures ParseRxPacket(b, channel).outcome == NeedMoreData
            || ParseRxPacket(b + more, channel) == ParseRxPacket(b, channel)
  {
    if ParseRxPacket(b, channel).outcome != NeedMoreData {
      HeaderPrefix(b, more);
      ParseWithStable(HeaderOf(b), b, more, channel);
    }
  }

  // ---------------------------------------------------------------- a whole transfer

  type Parser = Bytes -> Parsed

  function Drain(parse: Parser, buffer: Bytes): seq<Parsed>
    decreases |buffer|
  {
    if buffer == [] then []
    else
      var parsed := parse(buffer);
      if parsed.outcome == NeedMoreData || parsed.consumed == 0 || parsed.consumed >= |buffer| then [parsed]
      else [parsed] + Drain(parse, buffer[parsed.consumed..])
  }

  datatype Tally = Tally(rxFrames: int, droppedFrames: int)

  function CountOne(t: Tally, parsed: Parsed): Tally {
    match parsed.outcome
    case Frame => t.(rxFrames := t.rxFrames + 1)
    case Drop => t.(droppedFrames := t.droppedFrames + 1)
    case NeedMoreData => t
  }

  function CountAll(t: Tally, parsed: seq<Parsed>): Tally
    decreases |parsed|
  {
    if parsed == [] then t else CountAll(CountOne(t, parsed[0]), parsed[1..])
  }

  method DrainTransfer(parse: Parser, buffer: Bytes) returns (packets: seq<Parsed>, tally: Tally)
    ensures packets == Drain(parse, buffer)
    ensures tally == CountAll(Tally(0, 0), packets)
  {
    packets, tally := [], Tally(0, 0);
    var offset := 0;
    ghost var rest := Drain(parse, buffer);
    while offset < |buffer|
      invariant 0 <= offset
      invariant rest == if offset <= |buffer| then Drain(parse, buffer[offset..]) else []
      invariant Drain(parse, buffer) == packets + rest
      invariant CountAll(tally, rest) == CountAll(Tally(0, 0), Drain(parse, buffer))
    {
      var parsed := parse(buffer[offset..]);
      assert rest == [parsed] + rest[1..];
      tally := CountOne(tally, parsed);
      assert (packets + [parsed]) + rest[1..] == packets + rest;
      packets := packets + [parsed];
      rest := rest[1..];
      if parsed.outcome == NeedMoreData || parsed.consumed == 0 {
        break;
      }
      if offset + parsed.consumed <= |buffer| {
        assert buffer[offset..][parsed.consumed..] == buffer[offset + parsed.consumed..];
      }
      offset := offset + parsed.consumed;
    }
  }

  function Parse(channel: Channel): Parser {
    (b: Bytes) => ParseRxPacket(b, channel)
  }

  method ReadRxPackets(buffer: Bytes, channel: Channel) returns (packets: seq<Parsed>, tally: Tally)
    ensures packets == Drain(Parse(channel), buffer)
    ensures tally == CountAll(Tally(0, 0), packets)
  {
    packets, tally := DrainTransfer(Parse(channel), buffer);
  }
}
