/** The radiotap headers a WFB transmitter puts in front of its frames: crates/wfb-bridge/src/radiotap.rs. */
module Radiotap {
  import opened RadioTypes
  import opened Wrappers

  const MIN_LEN := 8
  const HT_LEN := 13
  const VHT_LEN := 22
  const HT_PRESENT: bv32 := 0x0008_8000     // TX flags (bit 15) and MCS (bit 19)
  const VHT_PRESENT: bv32 := 0x0020_8000    // TX flags (bit 15) and VHT (bit 21)

  datatype ParsedTap = ParsedTap(headerLen: nat, isVht: bool, noAck: bool, options: TxOptions)

  datatype TapError =
    | TapTooShort(actualLen: nat)
    | UnsupportedVersion(version: bv8)
    | LengthExceedsPacket(headerLen: nat, packetLen: nat)
    | UnsupportedPresentFlags(present: bv32)
    | UnsupportedHtBandwidth(bits: bv8)
    | UnsupportedVhtBandwidth(bw: bv8)

  predicate Has(b: bv8, mask: bv8) {
    b & mask != 0
  }

  function Present(p: Bytes): bv32
    requires |p| >= MIN_LEN
  {
    (p[7] as bv32 << 24) | (p[6] as bv32 << 16) | (p[5] as bv32 << 8) | (p[4] as bv32)
  }

  /** The options of a received radiotap header: what it says, and fixed choices for all the rest. */
  function Options(rate: TxRate, bandwidth: Bandwidth, shortGi: bool, ldpc: bool, stbc: bool, noAck: bool): TxOptions {
    TxOptions(rate, bandwidth, None, Auto, 0, None, 12, true, true, true, 0x1f, true, shortGi, ldpc, stbc, false, noAck)
  }

  function HtBandwidth(known: bv8, flags: bv8): Option<Bandwidth> {
    if !Has(known, 0x01) || flags & 0x03 == 0 then Some(Mhz20)
    else if flags & 0x03 == 1 then Some(Mhz40)
    else None
  }

  function HtOptions(known: bv8, flags: bv8, mcs: bv8, bandwidth: Bandwidth, noAck: bool): TxOptions {
    Options(
      if Has(known, 0x02) then Mcs(mcs) else Ofdm6m, bandwidth,
      Has(known, 0x04) && Has(flags, 0x04), Has(known, 0x10) && Has(flags, 0x10), Has(known, 0x20) && Has(flags, 0x60),
      noAck)
  }

  function ParseHt(p: Bytes): Result<ParsedTap, TapError>
    requires |p| >= HT_LEN
  {
    match HtBandwidth(p[10], p[11])
    case None => Err(UnsupportedHtBandwidth(p[11] & 0x03))
    case Some(bandwidth) =>
      Ok(ParsedTap(HT_LEN, false, Has(p[8], 0x08), HtOptions(p[10], p[11], p[12], bandwidth, Has(p[8], 0x08))))
  }

  function VhtBandwidth(code: bv8): Option<Bandwidth> {
    if code == 0 then Some(Mhz20) else if code == 1 then Some(Mhz40) else if code == 4 then Some(Mhz80) else None
  }

  function VhtOptions(flags: bv8, mcsNss: bv8, coding: bv8, bandwidth: Bandwidth, noAck: bool): TxOptions {
    Options(
      Vht((mcsNss >> 4) & 0x0f, mcsNss & 0x0f), bandwidth,
      Has(flags, 0x04), Has(coding, 0x01), Has(flags, 0x01), noAck)
  }

  function ParseVht(p: Bytes): Result<ParsedTap, TapError>
    requires |p| >= VHT_LEN
  {
    match VhtBandwidth(p[13])
    case None => Err(UnsupportedVhtBandwidth(p[13]))
    case Some(bandwidth) =>
      Ok(ParsedTap(VHT_LEN, true, Has(p[8], 0x08), VhtOptions(p[12], p[14], p[18], bandwidth, Has(p[8], 0x08))))
  }

  function LengthField(p: Bytes): nat
    requires |p| >= MIN_LEN
  {
    p[2] as int + 0x100 * p[3] as int
  }

  function ParseRadiotap(p: Bytes): Result<ParsedTap, TapError> {
    if |p| < MIN_LEN then Err(TapTooShort(|p|))
    else if p[0] != 0 then Err(UnsupportedVersion(p[0]))
    else if LengthField(p) > |p| then Err(LengthExceedsPacket(LengthField(p), |p|))
    else if LengthField(p) == HT_LEN && Present(p) == HT_PRESENT then ParseHt(p)
    else if LengthField(p) == VHT_LEN && Present(p) == VHT_PRESENT then ParseVht(p)
    else Err(UnsupportedPresentFlags(Present(p)))
  }

  // ---------------------------------------------------------------- what headers can say

  /** The descriptions that some header of this form has. */
  predicate Expressible(t: ParsedTap) {
    var o := t.options;
    && o == Options(o.rate, o.bandwidth, o.shortGi, o.ldpc, o.stbc, t.noAck)
    && if t.isVht
       then t.headerLen == VHT_LEN && o.rate.Vht? && o.rate.vhtMcs < 16 && o.rate.nss < 16
       else t.headerLen == HT_LEN && o.bandwidth != Mhz80 && (o.rate.Mcs? || o.rate.Ofdm6m?)
  }

  function HtKnown(rate: TxRate): bv8 {
    0x35 | Bit(rate.Mcs?, 0x02)
  }

  function HtFlags(o: TxOptions): bv8 {
    Bit(o.bandwidth == Mhz40, 0x01) | Bit(o.shortGi, 0x04) | Bit(o.ldpc, 0x10) | Bit(o.stbc, 0x20)
  }

  function VhtFlags(o: TxOptions): bv8 {
    Bit(o.stbc, 0x01) | Bit(o.shortGi, 0x04)
  }

  function VhtBandwidthCode(b: Bandwidth): bv8 {
    match b case Mhz20 => 0 case Mhz40 => 1 case Mhz80 => 4
  }

  function Nibbles(mcs: bv8, nss: bv8): bv8 {
    (mcs << 4) | nss
  }

  /** A header with the given description. */
  function Encode(t: ParsedTap): (b: Bytes)
    requires Expressible(t)
    ensures |b| == t.headerLen
  {
    Start(t) + if t.isVht then VhtField(t.options) else HtField(t.options)
  }

  function Start(t: ParsedTap): (b: Bytes)
    ensures |b| == 10
  {
    [0, 0, if t.isVht then 22 else 13, 0, 0x00, 0x80, if t.isVht then 0x20 else 0x08, 0, Bit(t.noAck, 0x08), 0]
  }

  function HtField(o: TxOptions): (b: Bytes)
    ensures |b| == 3
  {
    [HtKnown(o.rate), HtFlags(o), if o.rate.Mcs? then o.rate.mcs else 0]
  }

  function VhtField(o: TxOptions): (b: Bytes)
    requires o.rate.Vht?
    ensures |b| == 12
  {
    [0x45, 0, VhtFlags(o), VhtBandwidthCode(o.bandwidth), Nibbles(o.rate.vhtMcs, o.rate.nss), 0, 0, 0,
     Bit(o.ldpc, 0x01), 0, 0, 0]
  }

  lemma HtKnownBits(m: bool)
    ensures Has(0x35 | Bit(m, 0x02), 0x02) <==> m
    ensures Has(0x35 | Bit(m, 0x02), 0x01) && Has(0x35 | Bit(m, 0x02), 0x04)
    ensures Has(0x35 | Bit(m, 0x02), 0x10) && Has(0x35 | Bit(m, 0x02), 0x20)
  {
  }

  lemma HtFlagBits(wide: bool, gi: bool, ldpc: bool, stbc: bool)
    ensures var f := Bit(wide, 0x01) | Bit(gi, 0x04) | Bit(ldpc, 0x10) | Bit(stbc, 0x20);
            && (f & 0x03 == if wide then 1 else 0)
            && (Has(f, 0x04) <==> gi) && (Has(f, 0x10) <==> ldpc) && (Has(f, 0x60) <==> stbc)
  {
  }

  lemma VhtFlagBits(gi: bool, stbc: bool)
    ensures var f := Bit(stbc, 0x01) | Bit(gi, 0x04);
            (Has(f, 0x04) <==> gi) && (Has(f, 0x01) <==> stbc)
  {
  }

  lemma NibblesSplit(mcs: bv8, nss: bv8)
    requires mcs < 16 && nss < 16
    ensures (Nibbles(mcs, nss) >> 4) & 0x0f == mcs && Nibbles(mcs, nss) & 0x0f == nss
  {
  }

  lemma SingleBit(b: bool)
    ensures Has(Bit(b, 0x08), 0x08) <==> b
    ensures Has(Bit(b, 0x01), 0x01) <==> b
  {
  }

  lemma NibblesSmall(x: bv8)
    ensures (x >> 4) & 0x0f < 16 && x & 0x0f < 16
  {
  }

  lemma PresentWords(p: Bytes)
    requires |p| >= MIN_LEN && p[4] == 0 && p[5] == 0x80 && p[7] == 0
    ensures p[6] == 0x08 ==> Present(p) == HT_PRESENT
    ensures p[6] == 0x20 ==> Present(p) == VHT_PRESENT
  {
  }

  lemma StartBytes(t: ParsedTap, p: Bytes)
    requires |p| >= 10 && p[..10] == Start(t)
    ensures p[0] == 0 && p[8] == Bit(t.noAck, 0x08)
    ensures LengthField(p) == if t.isVht then VHT_LEN else HT_LEN
    ensures Present(p) == if t.isVht then VHT_PRESENT else HT_PRESENT
  {
    assert forall i | 0 <= i < 10 :: p[i] == p[..10][i];
    PresentWords(p);
  }

  lemma FieldBytes(t: ParsedTap, p: Bytes)
    requires Expressible(t) && |p| >= t.headerLen && p[..t.headerLen] == Encode(t)
    ensures p[..10] == Start(t)
    ensures p[10..t.headerLen] == if t.isVht then VhtField(t.options) else HtField(t.options)
  {
    assert p[..10] == p[..t.headerLen][..10];
    assert p[10..t.headerLen] == p[..t.headerLen][10..];
  }

  lemma EncodeHtParses(t: ParsedTap, p: Bytes)
    requires Expressible(t) && !t.isVht && |p| >= HT_LEN && p[..HT_LEN] == Encode(t)
    ensures ParseRadiotap(p) == Ok(t)
  {
    var o := t.options;
    FieldBytes(t, p);
    StartBytes(t, p);
    assert forall i | 0 <= i < 3 :: p[10 + i] == p[10..HT_LEN][i];
    HtKnownBits(o.rate.Mcs?);
    HtFlagBits(o.bandwidth == Mhz40, o.shortGi, o.ldpc, o.stbc);
    SingleBit(t.noAck);
    assert p[11] == p[10..HT_LEN][1] && p[12] == p[10..HT_LEN][2];
  }

  lemma VhtOptionsBack(o: TxOptions, noAck: bool)
    requires o == Options(o.rate, o.bandwidth, o.shortGi, o.ldpc, o.stbc, noAck)
    requires o.rate.Vht? && o.rate.vhtMcs < 16 && o.rate.nss < 16
    ensures VhtOptions(VhtFlags(o), Nibbles(o.rate.vhtMcs, o.rate.nss), Bit(o.ldpc, 0x01), o.bandwidth, noAck) == o
  {
    VhtFlagBits(o.shortGi, o.stbc);
    NibblesSplit(o.rate.vhtMcs, o.rate.nss);
    SingleBit(o.ldpc);
  }

  lemma VhtBandwidthBack(b: Bandwidth)
    ensures VhtBandwidth(VhtBandwidthCode(b)) == Some(b)
  {
  }

  lemma VhtBytes(o: TxOptions, p: Bytes)
    requires o.rate.Vht? && |p| >= VHT_LEN && p[10..VHT_LEN] == VhtField(o)
    ensures p[12] == VhtFlags(o) && p[13] == VhtBandwidthCode(o.bandwidth)
    ensures p[14] == Nibbles(o.rate.vhtMcs, o.rate.nss) && p[18] == Bit(o.ldpc, 0x01)
  {
    var f := p[10..VHT_LEN];
    assert p[12] == f[2] && p[13] == f[3] && p[14] == f[4] && p[18] == f[8];
  }

  lemma EncodeVhtParses(t: ParsedTap, p: Bytes)
    requires Expressible(t) && t.isVht && |p| >= VHT_LEN && p[..VHT_LEN] == Encode(t)
    ensures ParseRadiotap(p) == Ok(t)
  {
    FieldBytes(t, p);
    StartBytes(t, p);
    VhtBytes(t.options, p);
    VhtOptionsBack(t.options, t.noAck);
    VhtBandwidthBack(t.options.bandwidth);
    SingleBit(t.noAck);
    assert ParseVht(p) == Ok(t);
  }

  /** Every expressible description is read back from its header, whatever follows it. */
  lemma EncodeParses(t: ParsedTap, rest: Bytes)
    requires Expressible(t)
    ensures ParseRadiotap(Encode(t) + rest) == Ok(t)
  {
    var p := Encode(t) + rest;
    assert p[..t.headerLen] == Encode(t);
    if t.isVht {
      EncodeVhtParses(t, p);
    } else {
      EncodeHtParses(t, p);
    }
  }

  /** Whatever is accepted has an expressible description and is at least as long as its header. */
  lemma ParsedIsExpressible(p: Bytes)
    requires ParseRadiotap(p).Ok?
    ensures Expressible(ParseRadiotap(p).value)
    ensures ParseRadiotap(p).value.headerLen <= |p|
  {
    if LengthField(p) == VHT_LEN && Present(p) == VHT_PRESENT {
      NibblesSmall(p[14]);
    }
  }

  lemma PrefixDecides(p: Bytes, q: Bytes)
    requires ParseRadiotap(p).Ok? && |q| >= LengthField(p) && q[..LengthField(p)] == p[..LengthField(p)]
    ensures ParseRadiotap(q) == ParseRadiotap(p)
  {
    var n := LengthField(p);
    assert forall i | 0 <= i < n :: q[i] == q[..n][i] == p[..n][i] == p[i];
  }

  /** An accepted header decides alone: the frame behind it can be exchanged freely. */
  lemma HeaderDecides(p: Bytes, rest: Bytes)
    requires ParseRadiotap(p).Ok?
    ensures var n := ParseRadiotap(p).value.headerLen;
            n <= |p| && ParseRadiotap(p[..n] + rest) == ParseRadiotap(p)
  {
    ParsedIsExpressible(p);
    var n := ParseRadiotap(p).value.headerLen;
    PrefixDecides(p, p[..n] + rest);
  }
}
