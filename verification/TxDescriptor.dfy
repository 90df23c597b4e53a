/** The transmit descriptor of crates/radio-core/src/rtl8812au.rs: 40 bytes built in place in front of an
    IEEE 802.11 frame, and the decoder that reads every field back. */
module TxDescriptor {
  import opened RadioTypes
  import opened TxRates
  import opened Wrappers

  const TX_DESC_SIZE := 40
  const USB2_BULK_PACKET_SIZE := 512

  const QSLT_BE: bv8 := 0x00
  const QSLT_BK: bv8 := 0x02
  const QSLT_VI: bv8 := 0x05
  const QSLT_VO: bv8 := 0x07
  const QSLT_HIGH: bv8 := 0x11
  const QSLT_MGNT: bv8 := 0x12

  /** What a descriptor says. */
  datatype Fields = Fields(
    usbLen: bv16, bmc: bool, firstSegment: bool, macId: bv8, queue: bv8, rateId: bv8, aggregateBreak: bool,
    noFallback: bool, protect: bool, rate: bv8, fallbackLimit: bv8, retries: bv8, secondary: bv8,
    bandwidth: Bandwidth, shortGi: bool, ldpc: bool, stbc: bool, hardwareSequence: bool, sequence: bv16)

  function BandwidthCode(b: Bandwidth): bv8 {
    match b case Mhz20 => 0 case Mhz40 => 1 case Mhz80 => 2
  }

  function Zeros(n: nat): Bytes {
    seq(n, _ => 0)
  }

  function StartBytes(s: Bytes, f: Fields): (t: Bytes)
    requires |s| >= TX_DESC_SIZE
    ensures |t| == |s|
  {
    s[0 := Low(f.usbLen)][1 := High8(f.usbLen)][2 := 40][3 := 0x84 | Bit(f.firstSegment, 0x08) | Bit(f.bmc, 0x01)]
     [4 := f.macId][5 := f.queue][6 := f.rateId][0x0a := Bit(f.aggregateBreak, 0x01)]
  }

  function RetryBytes(s: Bytes, f: Fields): (t: Bytes)
    requires |s| >= TX_DESC_SIZE
    ensures |t| == |s|
  {
    s[0x0d := 0x01 | Bit(f.noFallback, 0x04) | Bit(f.protect, 0x30)][0x13 := Bit(f.protect, 0x04)]
     [0x10 := f.rate][0x11 := f.fallbackLimit][0x12 := 0x02 | (f.retries << 2)]
  }

  function ModeBytes(s: Bytes, f: Fields): (t: Bytes)
    requires |s| >= TX_DESC_SIZE
    ensures |t| == |s|
  {
    s[0x14 := f.secondary | (BandwidthCode(f.bandwidth) << 5) | Bit(f.shortGi, 0x10) | Bit(f.ldpc, 0x80)]
     [0x15 := Bit(f.stbc, 0x01)]
  }

  function SequenceBytes(s: Bytes, f: Fields): (t: Bytes)
    requires |s| >= TX_DESC_SIZE
    ensures |t| == |s|
  {
    s[0x21 := Bit(f.hardwareSequence, 0x80)][0x25 := Low((f.sequence & 0x0f) << 4)][0x26 := Low(f.sequence >> 4)]
  }

  /** A zeroed buffer of `n` bytes with every field filled in, before the checksum. */
  function Draft(n: nat, f: Fields): (t: Bytes)
    requires n >= TX_DESC_SIZE
    ensures |t| == n
  {
    SequenceBytes(ModeBytes(RetryBytes(StartBytes(Zeros(n), f), f), f), f)
  }

  /** The little-endian words of `bytes`, folded into `acc` by exclusive or. */
  function Fold(acc: bv16, bytes: Bytes): bv16
    decreases |bytes|
  {
    if |bytes| < 2 then acc else Fold(acc ^ Le16(bytes[0], bytes[1]), bytes[2..])
  }

  function Checksum(bytes: Bytes): bv16 {
    Fold(0, bytes)
  }

  function Checksummed(s: Bytes): (t: Bytes)
    requires |s| >= TX_DESC_SIZE
    ensures |t| == |s|
  {
    s[0x1c := Low(Checksum(s[..32]))][0x1d := High8(Checksum(s[..32]))]
  }

  // ---------------------------------------------------------------- what is sent for a frame

  function DefaultRateId(rate: TxRate): bv8 {
    match rate
    case Cck1m => 8
    case Cck2m => 8
    case Cck5m => 8
    case Cck11m => 8
    case Mcs(mcs) => if mcs <= 7 then 3 else if mcs <= 15 then 2 else 14
    case Vht(_, nss) => if nss == 1 then 10 else if nss == 2 then 9 else 13
    case _ => 7
  }

  function QueueCode(queue: TxQueue, frameType: FrameType): bv8 {
    match queue
    case Auto => (match frameType
      case Management => QSLT_MGNT
      case Control => QSLT_VO
      case Data => QSLT_BE
      case Extension => QSLT_MGNT)
    case Be => QSLT_BE
    case Bk => QSLT_BK
    case Vi => QSLT_VI
    case Vo => QSLT_VO
    case High => QSLT_HIGH
    case Mgnt => QSLT_MGNT
  }

  function Retries(opts: TxOptions): bv8 {
    if opts.noRetry then 0 else if opts.retries < 63 then opts.retries else 63
  }

  /** The frame's length, one more where descriptor and frame would fill whole bulk packets. */
  function UsbLen(frameLen: nat): nat {
    if (frameLen + TX_DESC_SIZE) % USB2_BULK_PACKET_SIZE == 0 then frameLen + 1 else frameLen
  }

  function SequenceOf(frame: Bytes, opts: TxOptions): bv16 {
    if opts.hardwareSequence || |frame| < 24 then 0 else (Le16(frame[22], frame[23]) >> 4) & 0x0fff
  }

  function FieldsOf(frame: Bytes, opts: TxOptions, rate: bv8, secondary: bv8): Fields
    requires |frame| >= MIN_FRAME_LEN
  {
    Fields(
      (UsbLen(|frame|) % 0x1_0000) as bv16, frame[4] & 0x01 != 0, opts.firstSegment, opts.macId & 0x7f,
      QueueCode(opts.queue, FrameTypeOf(frame)) & 0x1f,
      (if opts.rateId.Some? then opts.rateId.value else DefaultRateId(opts.rate)) & 0x1f,
      FrameTypeOf(frame).Data? && opts.aggregateBreak, opts.disableRateFallback, opts.protect, rate & 0x7f,
      opts.rateFallbackLimit & 0x1f, Retries(opts) & 0x3f, secondary, opts.bandwidth,
      opts.shortGi, opts.ldpc, opts.stbc, opts.hardwareSequence, SequenceOf(frame, opts))
  }

  /** The fields chosen for a frame, or the first reason to refuse it. */
  function Plan(frame: Bytes, channel: Channel, opts: TxOptions): Result<Fields, TxError> {
    if |frame| < MIN_FRAME_LEN then Err(FrameTooShort(|frame|))
    else if !SupportsBandwidth(channel, opts.bandwidth) then Err(UnsupportedBandwidth(channel.number, opts.bandwidth))
    else
      var channelBandwidth := if opts.channelBandwidth.Some? then opts.channelBandwidth.value else opts.bandwidth;
      match TxRateToHw(opts.rate, channel)
      case Err(e) => Err(e)
      case Ok(rate) =>
        match SecondaryChannel(channel, channelBandwidth, opts.bandwidth)
        case Err(e) => Err(e)
        case Ok(secondary) => Ok(FieldsOf(frame, opts, rate, secondary))
  }

  function TxPacket(frame: Bytes, channel: Channel, opts: TxOptions): Result<Bytes, TxError> {
    match Plan(frame, channel, opts)
    case Err(e) => Err(e)
    case Ok(f) =>
      var filled := Checksummed(Draft(TX_DESC_SIZE + UsbLen(|frame|), f));
      Ok(filled[..TX_DESC_SIZE] + frame + filled[TX_DESC_SIZE + |frame|..])
  }

  // ---------------------------------------------------------------- decoding

  function DecodeBandwidth(b: bv8): Option<Bandwidth> {
    if b == 0 then Some(Mhz20) else if b == 1 then Some(Mhz40) else if b == 2 then Some(Mhz80) else None
  }

  function Decode(p: Bytes): Option<Fields>
    requires |p| >= TX_DESC_SIZE
  {
    match DecodeBandwidth((p[0x14] >> 5) & 0x03)
    case None => None
    case Some(bandwidth) =>
      Some(Fields(
        Le16(p[0], p[1]), p[3] & 0x01 != 0, p[3] & 0x08 != 0, p[4] & 0x7f, p[5] & 0x1f, p[6] & 0x1f,
        p[0x0a] & 0x01 != 0, p[0x0d] & 0x04 != 0, p[0x0d] & 0x30 != 0, p[0x10] & 0x7f, p[0x11] & 0x1f,
        (p[0x12] >> 2) & 0x3f, p[0x14] & 0x0f, bandwidth, p[0x14] & 0x10 != 0, p[0x14] & 0x80 != 0,
        p[0x15] & 0x01 != 0, p[0x21] & 0x80 != 0, ((p[0x25] >> 4) as bv16) | (p[0x26] as bv16 << 4)))
  }

  /** Every field within the width the descriptor gives it. */
  predicate Fits(f: Fields) {
    && f.macId & 0x7f == f.macId && f.queue & 0x1f == f.queue && f.rateId & 0x1f == f.rateId
    && f.rate & 0x7f == f.rate && f.fallbackLimit & 0x1f == f.fallbackLimit && f.retries & 0x3f == f.retries
    && f.secondary & 0x0f == f.secondary && f.sequence & 0x0fff == f.sequence
  }

  lemma FlagByte(first: bool, bmc: bool)
    ensures (0x84 | Bit(first, 0x08) | Bit(bmc, 0x01)) & 0x01 != 0 <==> bmc
    ensures (0x84 | Bit(first, 0x08) | Bit(bmc, 0x01)) & 0x08 != 0 <==> first
  {
  }

  lemma FallbackByte(noFallback: bool, protect: bool)
    ensures (0x01 | Bit(noFallback, 0x04) | Bit(protect, 0x30)) & 0x04 != 0 <==> noFallback
    ensures (0x01 | Bit(noFallback, 0x04) | Bit(protect, 0x30)) & 0x30 != 0 <==> protect
  {
  }

  lemma RetryByte(retries: bv8)
    ensures ((0x02 | (retries << 2)) >> 2) & 0x3f == retries & 0x3f
  {
  }

  lemma ModeByte(secondary: bv8, bandwidth: Bandwidth, shortGi: bool, ldpc: bool)
    requires secondary & 0x0f == secondary
    ensures var b := secondary | (BandwidthCode(bandwidth) << 5) | Bit(shortGi, 0x10) | Bit(ldpc, 0x80);
      && b & 0x0f == secondary && DecodeBandwidth((b >> 5) & 0x03) == Some(bandwidth)
      && (b & 0x10 != 0 <==> shortGi) && (b & 0x80 != 0 <==> ldpc)
  {
  }

  lemma SequenceBits(sequence: bv16)
    requires sequence & 0x0fff == sequence
    ensures ((Low((sequence & 0x0f) << 4) >> 4) as bv16) | (Low(sequence >> 4) as bv16 << 4) == sequence
  {
  }

  predicate Carries(p: Bytes, f: Fields) {
    |p| >= TX_DESC_SIZE && p[..TX_DESC_SIZE] == Checksummed(Draft(|p|, f))[..TX_DESC_SIZE]
  }

  lemma DraftByte(f: Fields, p: Bytes, i: nat)
    requires Carries(p, f) && i < TX_DESC_SIZE && i != 0x1c && i != 0x1d
    ensures p[i] == Draft(|p|, f)[i]
  {
    assert p[i] == p[..TX_DESC_SIZE][i];
  }

  lemma DecodedStart(f: Fields, p: Bytes)
    requires Carries(p, f)
    ensures Le16(p[0], p[1]) == f.usbLen
    ensures (p[3] & 0x01 != 0 <==> f.bmc) && (p[3] & 0x08 != 0 <==> f.firstSegment)
    ensures p[4] == f.macId && p[5] == f.queue && p[6] == f.rateId
  {
    DraftByte(f, p, 0);
    DraftByte(f, p, 1);
    DraftByte(f, p, 3);
    DraftByte(f, p, 4);
    DraftByte(f, p, 5);
    DraftByte(f, p, 6);
    Le16OfBytes(f.usbLen);
    FlagByte(f.firstSegment, f.bmc);
  }

  lemma DecodedRetry(f: Fields, p: Bytes)
    requires Carries(p, f) && f.retries & 0x3f == f.retries
    ensures p[0x10] == f.rate && p[0x11] == f.fallbackLimit && (p[0x12] >> 2) & 0x3f == f.retries
  {
    DraftByte(f, p, 0x10);
    DraftByte(f, p, 0x11);
    DraftByte(f, p, 0x12);
    RetryByte(f.retries);
  }

  lemma DecodedFallback(f: Fields, p: Bytes)
    requires Carries(p, f)
    ensures (p[0x0d] & 0x04 != 0 <==> f.noFallback) && (p[0x0d] & 0x30 != 0 <==> f.protect)
    ensures p[0x0a] & 0x01 != 0 <==> f.aggregateBreak
  {
    DraftByte(f, p, 0x0a);
    DraftByte(f, p, 0x0d);
    FallbackByte(f.noFallback, f.protect);
  }

  lemma DecodedMode(f: Fields, p: Bytes)
    requires Carries(p, f) && f.secondary & 0x0f == f.secondary
    ensures p[0x14] & 0x0f == f.secondary && DecodeBandwidth((p[0x14] >> 5) & 0x03) == Some(f.bandwidth)
    ensures (p[0x14] & 0x10 != 0 <==> f.shortGi) && (p[0x14] & 0x80 != 0 <==> f.ldpc)
    ensures p[0x15] & 0x01 != 0 <==> f.stbc
  {
    DraftByte(f, p, 0x14);
    DraftByte(f, p, 0x15);
    ModeByte(f.secondary, f.bandwidth, f.shortGi, f.ldpc);
  }

  lemma DecodedSequence(f: Fields, p: Bytes)
    requires Carries(p, f) && f.sequence & 0x0fff == f.sequence
    ensures p[0x21] & 0x80 != 0 <==> f.hardwareSequence
    ensures ((p[0x25] >> 4) as bv16) | (p[0x26] as bv16 << 4) == f.sequence
  {
    DraftByte(f, p, 0x21);
    DraftByte(f, p, 0x25);
    DraftByte(f, p, 0x26);
    SequenceBits(f.sequence);
  }

  /** Decoding a descriptor gives the fields it was built from. */
  lemma DecodeInvertsDescriptor(f: Fields, p: Bytes)
    requires Fits(f) && Carries(p, f)
    ensures Decode(p) == Some(f)
  {
    DecodedStart(f, p);
    DecodedRetry(f, p);
    DecodedFallback(f, p);
    DecodedMode(f, p);
    DecodedSequence(f, p);
  }

  // ---------------------------------------------------------------- the checksum

  lemma {:induction false} FoldConcat(acc: bv16, a: Bytes, b: Bytes)
    requires |a| % 2 == 0
    ensures Fold(acc, a + b) == Fold(Fold(acc, a), b)
    decreases |a|
  {
    if a == [] {
      assert a + b == b;
    } else {
      assert (a + b)[2..] == a[2..] + b;
      FoldConcat(acc ^ Le16(a[0], a[1]), a[2..], b);
    }
  }

  lemma FoldWord(acc: bv16, w: Bytes)
    requires |w| == 2
    ensures Fold(acc, w) == acc ^ Le16(w[0], w[1])
  {
    assert w[2..] == [];
  }

  lemma FoldThree(front: Bytes, v: Bytes, w: Bytes)
    requires |front| % 2 == 0 && |v| % 2 == 0
    ensures Fold(0, front + (v + w)) == Fold(Fold(Fold(0, front), v), w)
  {
    FoldConcat(0, front, v + w);
    FoldConcat(Fold(0, front), v, w);
  }

  lemma FoldTail(front: Bytes, v: Bytes, w: Bytes, a: bv16)
    requires |front| % 2 == 0 && |v| == 2 && |w| == 2 && a == Fold(0, front)
    ensures Fold(0, front + (v + w)) == (a ^ Le16(v[0], v[1])) ^ Le16(w[0], w[1])
  {
    FoldThree(front, v, w);
    FoldWord(a, v);
    FoldWord(a ^ Le16(v[0], v[1]), w);
  }

  lemma XorCancels(a: bv16, v: bv16)
    ensures (a ^ ((a ^ 0) ^ v)) ^ v == 0
  {
  }

  /** With the checksum in place the sixteen words of the descriptor's head cancel out. */
  lemma ChecksumCancels(s: Bytes)
    requires |s| >= TX_DESC_SIZE && s[0x1c] == 0 && s[0x1d] == 0
    ensures Checksum(Checksummed(s)[..32]) == 0
  {
    var front, c, last := s[..0x1c], Checksum(s[..32]), s[0x1e..0x20];
    assert s[..32] == front + ([0, 0] + last);
    FoldTail(front, [0, 0], last, Fold(0, front));
    assert Checksummed(s)[..32] == front + ([Low(c), High8(c)] + last);
    FoldTail(front, [Low(c), High8(c)], last, Fold(0, front));
    Le16OfBytes(c);
    assert Le16(0, 0) == 0;
    XorCancels(Fold(0, front), Le16(last[0], last[1]));
  }

  // ---------------------------------------------------------------- the packet

  lemma MasksFit(a: bv8, w: bv16)
    ensures (a & 0x7f) & 0x7f == a & 0x7f && (a & 0x1f) & 0x1f == a & 0x1f && (a & 0x3f) & 0x3f == a & 0x3f
    ensures (w & 0x0fff) & 0x0fff == w & 0x0fff
    ensures a <= 10 ==> a & 0x0f == a
    ensures a <= 0x53 ==> a & 0x7f == a
  {
  }

  lemma PlanFits(frame: Bytes, channel: Channel, opts: TxOptions)
    requires Plan(frame, channel, opts).Ok?
    ensures Fits(Plan(frame, channel, opts).value)
    ensures RxRateFromHw(Plan(frame, channel, opts).value.rate) == Some(NormalRate(opts.rate, channel))
  {
    var channelBandwidth := if opts.channelBandwidth.Some? then opts.channelBandwidth.value else opts.bandwidth;
    var rate := TxRateToHw(opts.rate, channel).value;
    var secondary := SecondaryChannel(channel, channelBandwidth, opts.bandwidth).value;
    RateRoundTrip(opts.rate, channel);
    SecondaryFits(channel, channelBandwidth, opts.bandwidth);
    MasksFit(opts.macId, 0);
    MasksFit(QueueCode(opts.queue, FrameTypeOf(frame)), 0);
    MasksFit(if opts.rateId.Some? then opts.rateId.value else DefaultRateId(opts.rate), 0);
    MasksFit(rate, 0);
    MasksFit(opts.rateFallbackLimit, 0);
    MasksFit(Retries(opts), 0);
    MasksFit(secondary, if |frame| < 24 then 0 else Le16(frame[22], frame[23]) >> 4);
  }

  lemma UsbLenAvoidsBulkBoundary(frameLen: nat)
    ensures (UsbLen(frameLen) + TX_DESC_SIZE) % USB2_BULK_PACKET_SIZE != 0
    ensures UsbLen(frameLen) == frameLen + 1 <==> (frameLen + TX_DESC_SIZE) % USB2_BULK_PACKET_SIZE == 0
    ensures frameLen <= UsbLen(frameLen) <= frameLen + 1
  {
  }

  /** Past the descriptor and the frame a draft is still zero. */
  lemma DraftTail(n: nat, f: Fields, i: nat)
    requires TX_DESC_SIZE <= i < n || (i == 0x1c && n >= TX_DESC_SIZE) || (i == 0x1d && n >= TX_DESC_SIZE)
    ensures Draft(n, f)[i] == 0
  {
  }

  lemma DraftCancels(n: nat, f: Fields)
    requires n >= TX_DESC_SIZE
    ensures Checksum(Checksummed(Draft(n, f))[..32]) == 0
  {
    DraftTail(n, f, 0x1c);
    DraftTail(n, f, 0x1d);
    ChecksumCancels(Draft(n, f));
  }

  lemma Spliced(filled: Bytes, frame: Bytes)
    requires |filled| >= TX_DESC_SIZE + |frame|
    ensures var p := filled[..TX_DESC_SIZE] + frame + filled[TX_DESC_SIZE + |frame|..];
            && |p| == |filled| && p[..TX_DESC_SIZE] == filled[..TX_DESC_SIZE] && p[..32] == filled[..32]
            && p[TX_DESC_SIZE..TX_DESC_SIZE + |frame|] == frame
            && forall i | TX_DESC_SIZE + |frame| <= i < |p| :: p[i] == filled[i]
  {
  }

  lemma Packed(frame: Bytes, f: Fields, p: Bytes)
    requires Fits(f) && |p| == TX_DESC_SIZE + UsbLen(|frame|)
    requires var filled := Checksummed(Draft(TX_DESC_SIZE + UsbLen(|frame|), f));
             p == filled[..TX_DESC_SIZE] + frame + filled[TX_DESC_SIZE + |frame|..]
    ensures Checksum(p[..32]) == 0 && Decode(p) == Some(f)
    ensures p[TX_DESC_SIZE..TX_DESC_SIZE + |frame|] == frame
    ensures forall i | TX_DESC_SIZE + |frame| <= i < |p| :: p[i] == 0
  {
    Spliced(Checksummed(Draft(|p|, f)), frame);
    DecodeInvertsDescriptor(f, p);
    DraftCancels(|p|, f);
    forall i | TX_DESC_SIZE + |frame| <= i < |p|
      ensures p[i] == 0
    {
      DraftTail(|p|, f, i);
    }
  }

  /** Every packet that is built never fills whole bulk packets, cancels to zero over its first 32 bytes,
      carries the frame from byte 40 on, padded by one zero byte exactly at a bulk boundary, and decodes
      to the fields planned for it. */
  lemma TxPacketCorrect(frame: Bytes, channel: Channel, opts: TxOptions)
    requires TxPacket(frame, channel, opts).Ok?
    ensures var p := TxPacket(frame, channel, opts).value;
            && |p| == TX_DESC_SIZE + UsbLen(|frame|) && |p| % USB2_BULK_PACKET_SIZE != 0
            && Checksum(p[..32]) == 0
            && p[TX_DESC_SIZE..TX_DESC_SIZE + |frame|] == frame
            && (forall i | TX_DESC_SIZE + |frame| <= i < |p| :: p[i] == 0)
            && Decode(p) == Some(Plan(frame, channel, opts).value)
  {
    var f := Plan(frame, channel, opts).value;
    var p := TxPacket(frame, channel, opts).value;
    UsbLenAvoidsBulkBoundary(|frame|);
    PlanFits(frame, channel, opts);
    Packed(frame, f, p);
  }

  /** What was asked for is what a receiver of the descriptor reads: the rate (CCK aside), the bandwidth,
      the coding flags, at most 63 retries or none, and the frame's own 12-bit sequence number where the
      hardware does not count. */
  lemma OptionsRecovered(frame: Bytes, channel: Channel, opts: TxOptions)
    requires TxPacket(frame, channel, opts).Ok?
    ensures var p := TxPacket(frame, channel, opts).value;
      |p| >= TX_DESC_SIZE && Decode(p).Some? && Asked(Decode(p).value, frame, channel, opts)
  {
    TxPacketCorrect(frame, channel, opts);
    PlanFits(frame, channel, opts);
    RetriesSmall(opts);
    MasksFit(0, if |frame| < 24 then 0 else Le16(frame[22], frame[23]) >> 4);
    if |frame| >= 24 {
      SequenceNumber(Le16(frame[22], frame[23]));
    }
  }

  predicate Asked(f: Fields, frame: Bytes, channel: Channel, opts: TxOptions) {
    && RxRateFromHw(f.rate) == Some(NormalRate(opts.rate, channel)) && f.bandwidth == opts.bandwidth
    && f.shortGi == opts.shortGi && f.ldpc == opts.ldpc && f.stbc == opts.stbc && f.protect == opts.protect
    && (opts.noRetry ==> f.retries == 0)
    && (!opts.noRetry && opts.retries <= 63 ==> f.retries == opts.retries)
    && (!opts.noRetry && opts.retries > 63 ==> f.retries == 63)
    && f.hardwareSequence == opts.hardwareSequence
    && (!opts.hardwareSequence && |frame| >= 24 ==> f.sequence == Le16(frame[22], frame[23]) >> 4)
  }

  lemma RetriesSmall(opts: TxOptions)
    ensures Retries(opts) & 0x3f == Retries(opts)
  {
  }

  lemma SequenceNumber(control: bv16)
    ensures (control >> 4) & 0x0fff == control >> 4
  {
  }
}
