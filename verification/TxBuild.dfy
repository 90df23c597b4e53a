/** `build_tx_packet` of crates/radio-core/src/rtl8812au.rs as it fills its buffer in place, part by part. */
module TxBuild {
  import opened RadioTypes
  import opened TxRates
  import opened TxDescriptor
  import opened Wrappers

  method ChecksumOf(bytes: Bytes) returns (sum: bv16)
    ensures sum == Checksum(bytes)
  {
    sum := 0;
    var rest := bytes;
    while |rest| >= 2
      invariant Checksum(bytes) == Fold(sum, rest)
      decreases |rest|
    {
      sum := sum ^ Le16(rest[0], rest[1]);
      rest := rest[2..];
    }
  }

  method FillStart(packet: array<bv8>, f: Fields)
    requires packet.Length >= TX_DESC_SIZE && packet[0x0a] == 0
    modifies packet
    ensures packet[..] == StartBytes(old(packet[..]), f)
  {
    packet[0x00] := Low(f.usbLen);
    packet[0x01] := High8(f.usbLen);
    packet[0x02] := 40;
    packet[0x03] := 0x84;
    packet[0x03] := packet[0x03] | Bit(f.firstSegment, 0x08);
    packet[0x03] := packet[0x03] | Bit(f.bmc, 0x01);
    packet[0x04] := f.macId;
    packet[0x05] := f.queue;
    packet[0x06] := f.rateId;
    packet[0x0a] := packet[0x0a] | Bit(f.aggregateBreak, 0x01);
  }

  method FillRetry(packet: array<bv8>, f: Fields)
    requires packet.Length >= TX_DESC_SIZE && packet[0x13] == 0
    modifies packet
    ensures packet[..] == RetryBytes(old(packet[..]), f)
  {
    packet[0x0d] := 0x01;
    packet[0x0d] := packet[0x0d] | Bit(f.noFallback, 0x04);
    packet[0x0d] := packet[0x0d] | Bit(f.protect, 0x30);
    packet[0x13] := Bit(f.protect, 0x04);
    packet[0x10] := f.rate;
    packet[0x11] := f.fallbackLimit;
    packet[0x12] := 0x02 | (f.retries << 2);
  }

  method FillMode(packet: array<bv8>, f: Fields)
    requires packet.Length >= TX_DESC_SIZE && packet[0x14] == 0 && packet[0x15] == 0
    modifies packet
    ensures packet[..] == ModeBytes(old(packet[..]), f)
  {
    packet[0x14] := packet[0x14] | f.secondary;
    packet[0x14] := packet[0x14] | (BandwidthCode(f.bandwidth) << 5);
    packet[0x14] := packet[0x14] | Bit(f.shortGi, 0x10);
    packet[0x14] := packet[0x14] | Bit(f.ldpc, 0x80);
    packet[0x15] := packet[0x15] | Bit(f.stbc, 0x01);
  }

  method FillSequence(packet: array<bv8>, frame: Bytes, opts: TxOptions, ghost f: Fields)
    requires packet.Length >= TX_DESC_SIZE && packet[0x21] == 0 && packet[0x25] == 0 && packet[0x26] == 0
    requires f.hardwareSequence == opts.hardwareSequence && f.sequence == SequenceOf(frame, opts)
    modifies packet
    ensures packet[..] == SequenceBytes(old(packet[..]), f)
  {
    if opts.hardwareSequence {
      packet[0x21] := 0x80;
    } else if |frame| >= 24 {
      var sequence := (Le16(frame[22], frame[23]) >> 4) & 0x0fff;
      packet[0x25] := packet[0x25] | Low((sequence & 0x0f) << 4);
      packet[0x26] := Low(sequence >> 4);
    }
    assert Low((0 & 0x0f) << 4) == 0 && Low(0 >> 4) == 0;
  }

  method BuildTxPacket(frame: Bytes, channel: Channel, opts: TxOptions) returns (r: Result<Bytes, TxError>)
    ensures r == TxPacket(frame, channel, opts)
  {
    if |frame| < MIN_FRAME_LEN {
      return Err(FrameTooShort(|frame|));
    }
    if !SupportsBandwidth(channel, opts.bandwidth) {
      return Err(UnsupportedBandwidth(channel.number, opts.bandwidth));
    }
    var rate := TxRateToHw(opts.rate, channel);
    if rate.Err? {
      return Err(rate.error);
    }
    var channelBandwidth := if opts.channelBandwidth.Some? then opts.channelBandwidth.value else opts.bandwidth;
    var secondary := SecondaryChannel(channel, channelBandwidth, opts.bandwidth);
    if secondary.Err? {
      return Err(secondary.error);
    }
    var f := FieldsOf(frame, opts, rate.value, secondary.value);
    var packet := Assemble(frame, opts, f);
    return Ok(packet[..]);
  }

  lemma StillZero(n: nat, f: Fields)
    requires n >= TX_DESC_SIZE
    ensures var started := StartBytes(Zeros(n), f);
            started[0x13] == 0 && RetryBytes(started, f)[0x14] == 0 && RetryBytes(started, f)[0x15] == 0
    ensures var moded := ModeBytes(RetryBytes(StartBytes(Zeros(n), f), f), f);
            moded[0x21] == 0 && moded[0x25] == 0 && moded[0x26] == 0
  {
  }

  /** A zeroed buffer of `n` bytes, filled in part by part. */
  method Fill(n: nat, frame: Bytes, opts: TxOptions, f: Fields) returns (packet: array<bv8>)
    requires n >= TX_DESC_SIZE
    requires f.hardwareSequence == opts.hardwareSequence && f.sequence == SequenceOf(frame, opts)
    ensures fresh(packet) && packet[..] == Draft(n, f)
  {
    packet := new bv8[n](_ => 0);
    assert packet[..] == Zeros(n);
    StillZero(n, f);
    FillStart(packet, f);
    assert packet[0x13] == packet[..][0x13];
    FillRetry(packet, f);
    assert packet[0x14] == packet[..][0x14] && packet[0x15] == packet[..][0x15];
    FillMode(packet, f);
    assert packet[0x21] == packet[..][0x21] && packet[0x25] == packet[..][0x25] && packet[0x26] == packet[..][0x26];
    FillSequence(packet, frame, opts, f);
  }

  /** The filled buffer, then the checksum over its head, then the frame. */
  method Assemble(frame: Bytes, opts: TxOptions, f: Fields) returns (packet: array<bv8>)
    requires f.hardwareSequence == opts.hardwareSequence && f.sequence == SequenceOf(frame, opts)
    ensures fresh(packet)
    ensures var filled := Checksummed(Draft(TX_DESC_SIZE + UsbLen(|frame|), f));
            packet[..] == filled[..TX_DESC_SIZE] + frame + filled[TX_DESC_SIZE + |frame|..]
  {
    packet := Fill(TX_DESC_SIZE + UsbLen(|frame|), frame, opts, f);
    ghost var draft := packet[..];
    var checksum := ChecksumOf(packet[..32]);
    assert packet[..32] == draft[..32];
    packet[0x1c] := Low(checksum);
    packet[0x1d] := High8(checksum);
    assert packet[..] == Checksummed(draft);
    CopyInto(packet, TX_DESC_SIZE, frame);
  }
}
