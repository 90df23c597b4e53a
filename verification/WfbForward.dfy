/** The 17-byte header in front of every forwarded payload: crates/wfb-bridge/src/forward.rs. */
module WfbForward {
  import opened RadioTypes
  import Words
  import opened Wrappers

  const RX_ANT_MAX := 4
  const FORWARD_LEN := 17

  datatype ForwardHeader = ForwardHeader(
    wlanIdx: bv8, antenna: Bytes, rssi: seq<I8>, noise: seq<I8>, freqMhz: bv16, mcsIndex: bv8, bandwidthMhz: bv8)

  predicate WellFormed(h: ForwardHeader) {
    |h.antenna| == RX_ANT_MAX && |h.rssi| == RX_ANT_MAX && |h.noise| == RX_ANT_MAX
  }

  function SingleAntenna(
    wlanIdx: bv8, rssi: I8, noise: Option<I8>, freqMhz: bv16, mcsIndex: bv8, bandwidthMhz: bv8): (h: ForwardHeader)
    ensures WellFormed(h)
  {
    ForwardHeader(
      wlanIdx, [0, 0xff, 0xff, 0xff], [rssi, -128, -128, -128],
      [if noise.Some? then noise.value else 127, 127, 127, 127], freqMhz, mcsIndex, bandwidthMhz)
  }

  /** The two's complement byte of a signed value, as a cast gives it. */
  function AsByte(v: I8): bv8 {
    ((if v < 0 then v + 256 else v) % 256) as bv8
  }

  function FromByte(b: bv8): I8 {
    if b < 0x80 then b as int else b as int - 256
  }

  lemma SignedByte(v: I8)
    ensures FromByte(AsByte(v)) == v
  {
    Words.ByteOfSmall(if v < 0 then v + 256 else v);
    Halves(AsByte(v));
  }

  lemma Halves(b: bv8)
    ensures b < 0x80 <==> b as int < 128
  {
  }

  function AsBytes(values: seq<I8>): (b: Bytes)
    ensures |b| == |values| && forall i | 0 <= i < |b| :: b[i] == AsByte(values[i])
  {
    seq(|values|, i requires 0 <= i < |values| => AsByte(values[i]))
  }

  function FromBytes(b: Bytes): (values: seq<I8>)
    ensures |values| == |b| && forall i | 0 <= i < |b| :: values[i] == FromByte(b[i])
  {
    seq(|b|, i requires 0 <= i < |b| => FromByte(b[i]))
  }

  function ToBytes(h: ForwardHeader): (b: Bytes)
    requires WellFormed(h)
    ensures |b| == FORWARD_LEN
  {
    [h.wlanIdx] + h.antenna + AsBytes(h.rssi) + AsBytes(h.noise)
      + [High8(h.freqMhz), Low(h.freqMhz), h.mcsIndex, h.bandwidthMhz]
  }

  /** Stores the bytes of the values from `at` on. */
  method FillSigned(out: array<bv8>, at: nat, values: seq<I8>)
    requires at + |values| <= out.Length
    modifies out
    ensures out[..] == old(out[..at]) + AsBytes(values) + old(out[at + |values|..])
  {
    for i := 0 to |values|
      invariant forall k | 0 <= k < out.Length ::
        out[k] == if at <= k < at + i then AsByte(values[k - at]) else old(out[k])
    {
      out[at + i] := AsByte(values[i]);
    }
  }

  /** Fills a header in place, field by field. */
  method WriteHeader(h: ForwardHeader) returns (out: array<bv8>)
    requires WellFormed(h)
    ensures fresh(out) && out[..] == ToBytes(h)
  {
    out := new bv8[FORWARD_LEN](_ => 0);
    out[0] := h.wlanIdx;
    CopyInto(out, 1, h.antenna);
    assert out[..5] == [h.wlanIdx] + h.antenna;
    FillSigned(out, 5, h.rssi);
    assert out[..9] == [h.wlanIdx] + h.antenna + AsBytes(h.rssi);
    FillSigned(out, 9, h.noise);
    assert out[..13] == [h.wlanIdx] + h.antenna + AsBytes(h.rssi) + AsBytes(h.noise);
    CopyInto(out, 13, [High8(h.freqMhz), Low(h.freqMhz), h.mcsIndex, h.bandwidthMhz]);
  }

  method PrependToPayload(h: ForwardHeader, payload: Bytes) returns (out: Bytes)
    requires WellFormed(h)
    ensures out == ToBytes(h) + payload
  {
    var header := WriteHeader(h);
    out := header[..] + payload;
  }

  // ---------------------------------------------------------------- reading it back

  function ReadHeader(b: Bytes): ForwardHeader
    requires |b| >= FORWARD_LEN
  {
    ForwardHeader(b[0], b[1..5], FromBytes(b[5..9]), FromBytes(b[9..13]), Le16(b[14], b[13]), b[15], b[16])
  }

  lemma BytesBack(values: seq<I8>)
    ensures FromBytes(AsBytes(values)) == values
  {
    forall i | 0 <= i < |values|
      ensures FromBytes(AsBytes(values))[i] == values[i]
    {
      SignedByte(values[i]);
    }
  }

  lemma HeaderParts(h: ForwardHeader, payload: Bytes)
    requires WellFormed(h)
    ensures var b := ToBytes(h) + payload;
            && b[0] == h.wlanIdx && b[1..5] == h.antenna && b[5..9] == AsBytes(h.rssi) && b[9..13] == AsBytes(h.noise)
            && b[13] == High8(h.freqMhz) && b[14] == Low(h.freqMhz) && b[15] == h.mcsIndex && b[16] == h.bandwidthMhz
  {
  }

  /** A receiver reads back every field of the header and the payload behind it. */
  lemma HeaderRoundTrip(h: ForwardHeader, payload: Bytes)
    requires WellFormed(h)
    ensures var b := ToBytes(h) + payload;
            |b| >= FORWARD_LEN && ReadHeader(b) == h && b[FORWARD_LEN..] == payload
  {
    HeaderParts(h, payload);
    BytesBack(h.rssi);
    BytesBack(h.noise);
    Le16OfBytes(h.freqMhz);
  }

  /** What a receiver takes the noise of the first antenna to be: the filler means there is none. */
  function NoiseOf(h: ForwardHeader): Option<I8>
    requires WellFormed(h)
  {
    if h.noise[0] == 127 then None else Some(h.noise[0])
  }

  /** The filler is a value too: a header tells a noise level from its absence exactly when the level is
      not 127 dBm. */
  lemma NoiseIsTold(wlanIdx: bv8, rssi: I8, noise: Option<I8>, freqMhz: bv16, mcsIndex: bv8, bandwidthMhz: bv8)
    ensures NoiseOf(SingleAntenna(wlanIdx, rssi, noise, freqMhz, mcsIndex, bandwidthMhz)) == noise <==> noise != Some(127)
  {
  }
}
