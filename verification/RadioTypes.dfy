/** Channels, rates and transmit options of crates/radio-core (channel.rs, frame.rs, rtl8812au.rs). */
module RadioTypes {
  import opened Wrappers

  type Bytes = seq<bv8>

  type I8 = v: int | -128 <= v <= 127

  datatype Band = Ghz2 | Ghz5

  datatype Bandwidth = Mhz20 | Mhz40 | Mhz80

  datatype Channel = Channel(number: bv8, frequencyMhz: bv16, band: Band)

  datatype TxRate =
    | Cck1m | Cck2m | Cck5m | Cck11m
    | Ofdm6m | Ofdm9m | Ofdm12m | Ofdm18m | Ofdm24m | Ofdm36m | Ofdm48m | Ofdm54m
    | Mcs(mcs: bv8)
    | Vht(vhtMcs: bv8, nss: bv8)

  datatype TxQueue = Auto | Be | Bk | Vi | Vo | High | Mgnt

  datatype TxOptions = TxOptions(
    rate: TxRate, bandwidth: Bandwidth, channelBandwidth: Option<Bandwidth>, queue: TxQueue,
    macId: bv8, rateId: Option<bv8>, retries: bv8, hardwareSequence: bool, firstSegment: bool,
    disableRateFallback: bool, rateFallbackLimit: bv8, aggregateBreak: bool,
    shortGi: bool, ldpc: bool, stbc: bool, protect: bool, noRetry: bool)

  datatype FrameType = Management | Control | Data | Extension

  const MIN_FRAME_LEN := 10   // the shortest IEEE 802.11 frame that is accepted

  function FrameTypeOf(frame: Bytes): FrameType
    requires |frame| >= MIN_FRAME_LEN
  {
    if frame[0] & 0x0c == 0x00 then Management
    else if frame[0] & 0x0c == 0x04 then Control
    else if frame[0] & 0x0c == 0x08 then Data
    else Extension
  }

  const WIDE_CHANNELS: set<bv8> := {
    36, 40, 44, 48, 52, 56, 60, 64, 100, 104, 108, 112, 116, 120, 124, 128, 132, 136, 140, 144, 149, 153, 157, 161}

  predicate SupportsBandwidth(channel: Channel, bandwidth: Bandwidth) {
    match (channel.band, bandwidth)
    case (_, Mhz20) => true
    case (Ghz2, Mhz40) => 1 <= channel.number <= 13
    case (Ghz2, Mhz80) => false
    case (Ghz5, Mhz40) => true
    case (Ghz5, Mhz80) => channel.number in WIDE_CHANNELS
  }

  /** What an event adds to a counter. */
  function One(b: bool): int {
    if b then 1 else 0
  }

  function Bit(b: bool, mask: bv8): bv8 {
    if b then mask else 0
  }

  function Le16(low: bv8, high: bv8): bv16 {
    (high as bv16 << 8) | (low as bv16)
  }

  function Low(w: bv16): bv8 {
    (w & 0xff) as bv8
  }

  function High8(w: bv16): bv8 {
    (w >> 8) as bv8
  }

  lemma Le16OfBytes(w: bv16)
    ensures Le16(Low(w), High8(w)) == w
  {
  }

  /** Overwrites part of a buffer. */
  method CopyInto(a: array<bv8>, at: nat, bytes: Bytes)
    requires at + |bytes| <= a.Length
    modifies a
    ensures a[..] == old(a[..at]) + bytes + old(a[at + |bytes|..])
  {
    forall i | 0 <= i < |bytes| {
      a[at + i] := bytes[i];
    }
  }
}
