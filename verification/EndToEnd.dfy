/** From a payload at one bridge to the datagram at another: every codec on the way composed. */
module EndToEnd {
  import opened RadioTypes
  import opened Radiotap
  import opened RxPacket
  import opened RxTransfer
  import opened TxRates
  import opened WfbForward
  import opened WfbFrame
  import opened WfbBridge
  import opened Wrappers
  import TxDescriptor
  import Words

  /** The frame a distributor hands over for a payload. */
  function SentFrame(c: ChannelId, sequence: bv16, payload: Bytes): Bytes {
    DataHeader(c, sequence) + payload
  }

  /** What a transmitter sends of a bulk packet: as many bytes behind the descriptor as its length field
      says, the two sequence control bytes (IEEE Std 802.11-2020, section 9.2.4.4) replaced by any. */
  function OnAir(packet: Bytes, low: bv8, high: bv8): (air: Bytes)
    requires |packet| >= TxDescriptor.TX_DESC_SIZE && TxDescriptor.Decode(packet).Some?
    requires 24 <= TxDescriptor.Decode(packet).value.usbLen as int <= |packet| - TxDescriptor.TX_DESC_SIZE
  {
    packet[TxDescriptor.TX_DESC_SIZE..][..TxDescriptor.Decode(packet).value.usbLen as int][22 := low][23 := high]
  }

  /** What arrives of a payload: one zero byte more exactly where frame and descriptor would have filled
      whole bulk packets. */
  function Arriving(payload: Bytes): Bytes {
    if (HEADER_LEN + |payload| + 40) % 512 == 0 then payload + [0] else payload
  }

  lemma PlannedLength(frame: Bytes, channel: Channel, opts: TxOptions)
    requires TxDescriptor.Plan(frame, channel, opts).Ok?
    ensures var length := TxDescriptor.Plan(frame, channel, opts).value.usbLen as int;
            length < 0x1_0000 && (TxDescriptor.UsbLen(|frame|) < 0x1_0000 ==> length == TxDescriptor.UsbLen(|frame|))
  {
    if TxDescriptor.UsbLen(|frame|) < 0x1_0000 {
      Words.WordOfSmall(TxDescriptor.UsbLen(|frame|));
    }
  }

  /** The descriptor's sixteen-bit length field says how long the rest of the packet is, exactly for
      lengths below 65536. */
  lemma DescriptorTellsLength(frame: Bytes, channel: Channel, opts: TxOptions)
    requires TxDescriptor.TxPacket(frame, channel, opts).Ok?
    ensures var p := TxDescriptor.TxPacket(frame, channel, opts).value;
      && |p| == TxDescriptor.TX_DESC_SIZE + TxDescriptor.UsbLen(|frame|) && TxDescriptor.Decode(p).Some?
      && (TxDescriptor.Decode(p).value.usbLen as int == |p| - TxDescriptor.TX_DESC_SIZE
          <==> TxDescriptor.UsbLen(|frame|) < 0x1_0000)
  {
    TxDescriptor.TxPacketCorrect(frame, channel, opts);
    PlannedLength(frame, channel, opts);
  }

  /** The payloads whose frames the length field can describe; every UDP datagram's is one. */
  predicate Sendable(payload: Bytes) {
    TxDescriptor.UsbLen(HEADER_LEN + |payload|) < 0x1_0000
  }

  lemma BehindIs(p: Bytes, header: Bytes, payload: Bytes)
    requires |header| == HEADER_LEN
    requires |p| == TxDescriptor.TX_DESC_SIZE + TxDescriptor.UsbLen(HEADER_LEN + |payload|)
    requires p[TxDescriptor.TX_DESC_SIZE..TxDescriptor.TX_DESC_SIZE + (HEADER_LEN + |payload|)] == header + payload
    requires forall i | TxDescriptor.TX_DESC_SIZE + (HEADER_LEN + |payload|) <= i < |p| :: p[i] == 0
    ensures p[TxDescriptor.TX_DESC_SIZE..] == header + Arriving(payload)
  {
    var split := TxDescriptor.TX_DESC_SIZE + (HEADER_LEN + |payload|);
    assert p[TxDescriptor.TX_DESC_SIZE..] == (header + payload) + p[split..];
    assert p[split..] == if |p| == split then [] else [0];
  }

  /** The bytes behind the descriptor are the frame, with the padding byte if there is one. */
  lemma BehindDescriptor(c: ChannelId, sequence: bv16, payload: Bytes, channel: Channel, opts: TxOptions)
    requires TxDescriptor.TxPacket(SentFrame(c, sequence, payload), channel, opts).Ok?
    ensures var p := TxDescriptor.TxPacket(SentFrame(c, sequence, payload), channel, opts).value;
      |p| >= TxDescriptor.TX_DESC_SIZE && p[TxDescriptor.TX_DESC_SIZE..] == DataHeader(c, sequence) + Arriving(payload)
  {
    var frame := SentFrame(c, sequence, payload);
    TxDescriptor.TxPacketCorrect(frame, channel, opts);
    BehindIs(TxDescriptor.TxPacket(frame, channel, opts).value, DataHeader(c, sequence), payload);
  }

  lemma HeaderIgnoresSequence(c: ChannelId, sequence: bv16)
    ensures DataHeader(c, sequence)[..SEQ] == DataHeader(c, 0)[..SEQ]
  {
  }

  lemma RewrittenIsHeaded(c: ChannelId, sequence: bv16, body: Bytes, low: bv8, high: bv8)
    ensures var air := (DataHeader(c, sequence) + body)[22 := low][23 := high];
            Headed(air, c) && air[HEADER_LEN..] == body
  {
    HeaderIgnoresSequence(c, sequence);
  }

  lemma OnAirIs(p: Bytes, body: Bytes, c: ChannelId, sequence: bv16, low: bv8, high: bv8)
    requires |p| >= TxDescriptor.TX_DESC_SIZE && TxDescriptor.Decode(p).Some?
    requires TxDescriptor.Decode(p).value.usbLen as int == |p| - TxDescriptor.TX_DESC_SIZE
    requires p[TxDescriptor.TX_DESC_SIZE..] == DataHeader(c, sequence) + body
    ensures |p| - TxDescriptor.TX_DESC_SIZE >= 24
    ensures Headed(OnAir(p, low, high), c) && OnAir(p, low, high)[HEADER_LEN..] == body
  {
    var behind := p[TxDescriptor.TX_DESC_SIZE..];
    assert |behind| == 24 + |body|;
    assert behind[..TxDescriptor.Decode(p).value.usbLen as int] == behind;
    RewrittenIsHeaded(c, sequence, body, low, high);
  }

  /** On the air a payload is behind the header of its channel, whatever becomes of the sequence control. */
  lemma AirFrame(
    c: ChannelId, sequence: bv16, payload: Bytes, channel: Channel, opts: TxOptions, low: bv8, high: bv8)
    requires TxDescriptor.TxPacket(SentFrame(c, sequence, payload), channel, opts).Ok? && Sendable(payload)
    ensures var p := TxDescriptor.TxPacket(SentFrame(c, sequence, payload), channel, opts).value;
      && |p| >= TxDescriptor.TX_DESC_SIZE && TxDescriptor.Decode(p).Some?
      && 24 <= TxDescriptor.Decode(p).value.usbLen as int <= |p| - TxDescriptor.TX_DESC_SIZE
      && Headed(OnAir(p, low, high), c) && OnAir(p, low, high)[HEADER_LEN..] == Arriving(payload)
  {
    var p := TxDescriptor.TxPacket(SentFrame(c, sequence, payload), channel, opts).value;
    DescriptorTellsLength(SentFrame(c, sequence, payload), channel, opts);
    BehindDescriptor(c, sequence, payload, channel, opts);
    OnAirIs(p, Arriving(payload), c, sequence, low, high);
  }

  /** The way out: a payload goes into a datagram, and from there onto the air. */
  ghost predicate Transmits(
    c: ChannelId, sequence: bv16, payload: Bytes, fwmark: bv32, tap: ParsedTap, channel: Channel, air: Bytes)
    requires Expressible(tap)
  {
    var datagram := TxDatagramBytes(TxDatagram(fwmark, tap, SentFrame(c, sequence, payload)));
    && ParseTxDatagram(datagram).Ok?
    && var parsed := ParseTxDatagram(datagram).value;
    var packet := TxDescriptor.TxPacket(parsed.frame, channel, parsed.tap.options);
    && packet.Ok? && |packet.value| >= TxDescriptor.TX_DESC_SIZE && TxDescriptor.Decode(packet.value).Some?
    && 24 <= TxDescriptor.Decode(packet.value).value.usbLen as int <= |packet.value| - TxDescriptor.TX_DESC_SIZE
    && exists low: bv8, high: bv8 :: air == OnAir(packet.value, low, high)
  }

  lemma TransmittedFrame(
    c: ChannelId, sequence: bv16, payload: Bytes, fwmark: bv32, tap: ParsedTap, channel: Channel, air: Bytes)
    requires Expressible(tap) && Sendable(payload) && Transmits(c, sequence, payload, fwmark, tap, channel, air)
    ensures Headed(air, c) && air[HEADER_LEN..] == Arriving(payload)
  {
    var frame := SentFrame(c, sequence, payload);
    DatagramRoundTrip(TxDatagram(fwmark, tap, frame));
    var packet := TxDescriptor.TxPacket(frame, channel, tap.options).value;
    var low: bv8, high: bv8 :| air == OnAir(packet, low, high);
    AirFrame(c, sequence, payload, channel, tap.options, low, high);
  }

  /** A distributor's frame is refused for its bandwidth or its rate, and for nothing else. */
  predicate RadioTakes(channel: Channel, opts: TxOptions) {
    SupportsBandwidth(channel, opts.bandwidth) && RateCode(opts.rate).Some?
  }

  lemma RefusedForBandwidthOrRate(c: ChannelId, sequence: bv16, payload: Bytes, tap: ParsedTap, channel: Channel)
    requires Expressible(tap)
    ensures TxDescriptor.TxPacket(SentFrame(c, sequence, payload), channel, tap.options).Ok?
       <==> RadioTakes(channel, tap.options)
  {
    assert tap.options.channelBandwidth == None;
  }

  /** A payload is transmitted unless the radio refuses the bandwidth or the rate. */
  lemma EveryPayloadIsTransmitted(
    c: ChannelId, sequence: bv16, payload: Bytes, fwmark: bv32, tap: ParsedTap, channel: Channel)
    requires Expressible(tap) && Sendable(payload)
    ensures (exists air :: Transmits(c, sequence, payload, fwmark, tap, channel, air))
       <==> RadioTakes(channel, tap.options)
  {
    var frame := SentFrame(c, sequence, payload);
    DatagramRoundTrip(TxDatagram(fwmark, tap, frame));
    RefusedForBandwidthOrRate(c, sequence, payload, tap, channel);
    if RadioTakes(channel, tap.options) {
      AirFrame(c, sequence, payload, channel, tap.options, 0, 0);
      var air := OnAir(TxDescriptor.TxPacket(frame, channel, tap.options).value, 0, 0);
      assert Transmits(c, sequence, payload, fwmark, tap, channel, air);
    }
  }

  /** A frame with the header of channel `c` is forwarded as header and body on the same channel, and
      filtered on every other. */
  lemma ForwardedFrame(frame: RxFrame, c: ChannelId, config: RxConfig)
    requires Headed(frame.data, c)
    requires NewChannelId(c.linkId, c.radioPort).Ok?
    requires NewChannelId(config.channelId.linkId, config.channelId.radioPort).Ok?
    ensures ForwardDatagram(frame, config)
         == if c == config.channelId then Ok(ToBytes(HeaderFor(frame, config)) + frame.data[HEADER_LEN..])
            else Err(ChannelIdMismatch)
  {
    ExtractOnChannel(frame.data, c, config.channelId);
    OnlyOwnChannel(frame.data, c, config.channelId);
  }

  /** The main result. A payload is sent on channel id `c`; what goes on the air is received among any
      other frames in a bulk transfer, with any driver information, padding and check sequences. The
      frame drained in its place is forwarded exactly by the bridges configured for `c`, and what stands
      behind the forward header is the payload, or the payload and one zero byte exactly when the frame's
      length and 40 make a multiple of 512. */
  lemma PayloadArrives(
    c: ChannelId, sequence: bv16, payload: Bytes, fwmark: bv32, tap: ParsedTap, txChannel: Channel, air: Bytes,
    packets: seq<Bytes>, frames: seq<Bytes>, k: nat, rxChannel: Channel, config: RxConfig)
    requires Expressible(tap) && Sendable(payload) && Transmits(c, sequence, payload, fwmark, tap, txChannel, air)
    requires |packets| == |frames| && k < |frames| && frames[k] == air
    requires forall i | 0 <= i < |packets| :: Carries(packets[i], frames[i])
    requires forall i | 0 <= i < |packets| - 1 :: |packets[i]| % 128 == 0
    requires NewChannelId(c.linkId, c.radioPort).Ok?
    requires NewChannelId(config.channelId.linkId, config.channelId.radioPort).Ok?
    ensures var drained := Drain(Parse(rxChannel), Concat(packets));
      && |drained| == |frames| && drained[k].frame.Some?
      && var received := drained[k].frame.value;
      ForwardDatagram(received, config)
      == if c == config.channelId then Ok(ToBytes(HeaderFor(received, config)) + Arriving(payload))
         else Err(ChannelIdMismatch)
  {
    TransmittedFrame(c, sequence, payload, fwmark, tap, txChannel, air);
    DrainedAt(packets, frames, k, rxChannel);
    ForwardedFrame(Drain(Parse(rxChannel), Concat(packets))[k].frame.value, c, config);
  }

  /** The rate arrives too: where the receiver reports the code that the transmitter's descriptor holds,
      the forward header names the MCS the distributor asked for. */
  lemma RateArrives(frame: Bytes, channel: Channel, opts: TxOptions, received: RxFrame, config: RxConfig)
    requires TxDescriptor.TxPacket(frame, channel, opts).Ok?
    requires received.rxRate == RxRateFromHw(TxDescriptor.Plan(frame, channel, opts).value.rate)
    ensures opts.rate.Mcs? ==> HeaderFor(received, config).mcsIndex == opts.rate.mcs
    ensures opts.rate.Vht? ==> HeaderFor(received, config).mcsIndex == opts.rate.vhtMcs
    ensures !opts.rate.Mcs? && !opts.rate.Vht? ==> HeaderFor(received, config).mcsIndex == config.mcsIndex
  {
    TxDescriptor.PlanFits(frame, channel, opts);
  }

  /** Zeros up to the next multiple of 128. */
  function Padding(n: nat): (p: Bytes)
    ensures |p| < 128 && (n + |p|) % 128 == 0
  {
    TxDescriptor.Zeros((128 - n % 128) % 128)
  }

  /** A packet around a frame, with nothing between and zero padding up to the alignment. */
  function PlainPacket(len: bv16, air: Bytes): Bytes {
    RxBytes(len, 0, 0, TxDescriptor.Zeros(20), [], air, TxDescriptor.Zeros(4), Padding(28 + |air|))
  }

  lemma FillerSizes(n: nat, shift: bv8)
    requires shift == 0
    ensures |TxDescriptor.Zeros(n)| == n && shift < 4 && shift as int * 8 + shift as int == 0
  {
  }

  lemma AlignedLength(n: nat)
    ensures (24 + 0 + n + 4 + |Padding(28 + n)|) % 128 == 0 && |Padding(28 + n)| < 128
  {
    assert 24 + 0 + n + 4 == 28 + n;
  }

  lemma PlainLength(len: bv16, air: Bytes)
    ensures |PlainPacket(len, air)| % 128 == 0
  {
    AlignedLength(|air|);
    RxBytesLength(len, 0, 0, TxDescriptor.Zeros(20), [], air, TxDescriptor.Zeros(4), Padding(28 + |air|));
  }

  lemma FilledCarries(len: bv16, air: Bytes, none: bv8, words: Bytes, fcs: Bytes, padding: Bytes)
    requires MIN_FRAME_LEN <= |air| <= MAX_PACKET_LEN - FCS_LEN && len as int == |air| + FCS_LEN
    requires none < 4 && none as int * 8 + none as int == 0 && |words| == 20 && |fcs| == FCS_LEN
    requires (24 + 0 + |air| + 4 + |padding|) % 128 == 0 && |padding| < 128
    ensures Carries(RxBytes(len, none, none, words, [], air, fcs, padding), air)
  {
    RxBytesCarries(len, none, none, words, [], air, fcs, padding);
  }

  lemma PlainPacketCarries(len: bv16, air: Bytes)
    requires MIN_FRAME_LEN <= |air| <= MAX_PACKET_LEN - FCS_LEN && len as int == |air| + FCS_LEN
    ensures Carries(PlainPacket(len, air), air)
  {
    FillerSizes(20, 0);
    FillerSizes(4, 0);
    AlignedLength(|air|);
    FilledCarries(len, air, 0, TxDescriptor.Zeros(20), TxDescriptor.Zeros(4), Padding(28 + |air|));
  }

  /** Any frame of a length that a receiver takes arrives in some packet. */
  lemma SomePacketCarries(air: Bytes)
    requires MIN_FRAME_LEN <= |air| <= MAX_PACKET_LEN - FCS_LEN
    ensures exists packet :: Carries(packet, air) && |packet| % 128 == 0
  {
    var n := |air| + FCS_LEN;
    var len := (n % 0x1_0000) as bv16;
    Words.WordOfSmall(n);
    PlainPacketCarries(len, air);
    PlainLength(len, air);
  }

  lemma ShortPayloads(payload: Bytes)
    requires HEADER_LEN + |payload| <= MAX_PACKET_LEN - FCS_LEN
    ensures Sendable(payload) && HEADER_LEN + |Arriving(payload)| <= MAX_PACKET_LEN - FCS_LEN
  {
  }

  lemma SomeAir(
    c: ChannelId, sequence: bv16, payload: Bytes, fwmark: bv32, tap: ParsedTap, channel: Channel) returns (air: Bytes)
    requires Expressible(tap) && Sendable(payload) && RadioTakes(channel, tap.options)
    ensures Transmits(c, sequence, payload, fwmark, tap, channel, air)
    ensures |air| == HEADER_LEN + |Arriving(payload)|
  {
    EveryPayloadIsTransmitted(c, sequence, payload, fwmark, tap, channel);
    air :| Transmits(c, sequence, payload, fwmark, tap, channel, air);
    TransmittedFrame(c, sequence, payload, fwmark, tap, channel, air);
  }

  /** Every payload that the radio does not refuse and a receiver can take has such a journey. */
  lemma EveryPayloadCanArrive(
    c: ChannelId, sequence: bv16, payload: Bytes, fwmark: bv32, tap: ParsedTap, channel: Channel)
    requires Expressible(tap) && HEADER_LEN + |payload| <= MAX_PACKET_LEN - FCS_LEN
    requires RadioTakes(channel, tap.options)
    ensures exists air, packet ::
              Transmits(c, sequence, payload, fwmark, tap, channel, air) && Carries(packet, air) && |packet| % 128 == 0
  {
    ShortPayloads(payload);
    var air := SomeAir(c, sequence, payload, fwmark, tap, channel);
    SomePacketCarries(air);
  }
}
