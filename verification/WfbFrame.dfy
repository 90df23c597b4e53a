/** The WFB frame header of crates/wfb-bridge/src/frame.rs: an IEEE 802.11 data header whose two MAC
    addresses carry the channel id. */
module WfbFrame {
  import opened RadioTypes
  import Words
  import opened Wrappers

  const HEADER_LEN := 24
  const SRC_PREFIX := 10
  const SRC_ID := 12
  const DST_PREFIX := 16
  const DST_ID := 18
  const SEQ := 22

  datatype ChannelId = ChannelId(linkId: bv32, radioPort: bv8)

  datatype WfbError = InvalidLinkId(linkId: bv32) | TooShort(actualLen: nat) | PrefixMismatch | ChannelIdMismatch

  function NewChannelId(linkId: bv32, radioPort: bv8): Result<ChannelId, WfbError> {
    if linkId > 0x00ff_ffff then Err(InvalidLinkId(linkId)) else Ok(ChannelId(linkId, radioPort))
  }

  function Raw(c: ChannelId): bv32 {
    Words.Pack(c.linkId, c.radioPort)
  }

  function RawBytes(c: ChannelId): (b: Bytes)
    ensures |b| == 4
  {
    Words.BigEndian(Raw(c))
  }

  const PREFIX: Bytes := [0x57, 0x42]

  const OPENING: Bytes := [0x08, 0x01, 0x00, 0x00, 0xff, 0xff, 0xff, 0xff, 0xff, 0xff]

  /** The header for a channel with its sequence control bytes. */
  function DataHeader(c: ChannelId, sequence: bv16): (h: Bytes)
    ensures |h| == HEADER_LEN
  {
    OPENING + PREFIX + RawBytes(c) + PREFIX + RawBytes(c) + [Low(sequence), High8(sequence)]
  }

  method BuildDataHeader(c: ChannelId, sequence: bv16) returns (header: array<bv8>)
    ensures fresh(header) && header[..] == DataHeader(c, sequence)
  {
    var blank: Bytes := OPENING + PREFIX + [0, 0, 0, 0] + PREFIX + [0, 0, 0, 0, 0, 0];
    header := new bv8[HEADER_LEN](i requires 0 <= i < HEADER_LEN => blank[i]);
    assert header[..] == blank;
    var channel := RawBytes(c);
    CopyInto(header, SRC_ID, channel);
    assert header[..] == OPENING + PREFIX + channel + PREFIX + [0, 0, 0, 0, 0, 0];
    CopyInto(header, DST_ID, channel);
    assert header[..] == OPENING + PREFIX + channel + PREFIX + channel + [0, 0];
    CopyInto(header, SEQ, [Low(sequence), High8(sequence)]);
  }

  function ExtractPayload(frame: Bytes, expected: ChannelId): Result<Bytes, WfbError> {
    if |frame| < HEADER_LEN then Err(TooShort(|frame|))
    else if frame[SRC_PREFIX..SRC_ID] != PREFIX || frame[DST_PREFIX..DST_ID] != PREFIX then Err(PrefixMismatch)
    else if frame[SRC_ID..SRC_ID + 4] != RawBytes(expected) || frame[DST_ID..DST_ID + 4] != RawBytes(expected)
      then Err(ChannelIdMismatch)
    else Ok(frame[HEADER_LEN..])
  }

  /** The top eight bits of a link id are shifted out of the header. */
  predicate LookAlike(c: ChannelId, d: ChannelId) {
    c.radioPort == d.radioPort && Words.Low24(c.linkId) == Words.Low24(d.linkId)
  }

  lemma SameBytesSameRaw(c: ChannelId, d: ChannelId)
    requires RawBytes(c) == RawBytes(d)
    ensures Raw(c) == Raw(d)
  {
    Words.BigEndianInjective(Raw(c), Raw(d));
  }

  lemma SamePort(l: bv32, p: bv8, m: bv32, q: bv8)
    requires Words.Pack(l, p) == Words.Pack(m, q)
    ensures p == q && Words.Low24(l) == Words.Low24(m)
  {
    Words.PackedPort(l, p, m, q);
    Words.PackedLink(l, p, m, q);
  }

  lemma SameBytesLookAlike(c: ChannelId, d: ChannelId)
    requires RawBytes(c) == RawBytes(d)
    ensures LookAlike(c, d)
  {
    SameBytesSameRaw(c, d);
    SamePort(c.linkId, c.radioPort, d.linkId, d.radioPort);
  }

  lemma LookAlikesHaveSameBytes(c: ChannelId, d: ChannelId)
    requires LookAlike(c, d)
    ensures RawBytes(c) == RawBytes(d)
  {
    Words.PackIgnoresTop(c.linkId, c.radioPort, d.linkId);
  }

  /** Two channel ids have the same bytes on the air exactly when their ports and the low 24 bits of their
      link ids agree. */
  lemma RawCollides(c: ChannelId, d: ChannelId)
    ensures RawBytes(c) == RawBytes(d) <==> LookAlike(c, d)
  {
    if RawBytes(c) == RawBytes(d) {
      SameBytesLookAlike(c, d);
    }
    if LookAlike(c, d) {
      LookAlikesHaveSameBytes(c, d);
    }
  }

  lemma SmallLinkIds(c: ChannelId, d: ChannelId)
    requires NewChannelId(c.linkId, c.radioPort).Ok? && NewChannelId(d.linkId, d.radioPort).Ok?
    ensures LookAlike(c, d) ==> c == d
  {
    Words.SmallLow24(c.linkId);
    Words.SmallLow24(d.linkId);
  }

  /** `frame` begins with the header of channel `c`, its sequence control bytes being anything. */
  ghost predicate Headed(frame: Bytes, c: ChannelId) {
    |frame| >= HEADER_LEN && frame[..SEQ] == DataHeader(c, 0)[..SEQ]
  }

  /** A headed frame yields its payload on exactly the channel ids that look alike, and is a channel
      mismatch on every other. */
  lemma ExtractOnChannel(frame: Bytes, c: ChannelId, d: ChannelId)
    requires Headed(frame, c)
    ensures ExtractPayload(frame, d)
         == if RawBytes(c) == RawBytes(d) then Ok(frame[HEADER_LEN..]) else Err(ChannelIdMismatch)
  {
    var h := DataHeader(c, 0);
    assert frame[SRC_PREFIX..SRC_ID] == frame[..SEQ][SRC_PREFIX..SRC_ID] == h[SRC_PREFIX..SRC_ID] == PREFIX;
    assert frame[DST_PREFIX..DST_ID] == frame[..SEQ][DST_PREFIX..DST_ID] == h[DST_PREFIX..DST_ID] == PREFIX;
    assert frame[SRC_ID..SRC_ID + 4] == frame[..SEQ][SRC_ID..SRC_ID + 4] == h[SRC_ID..SRC_ID + 4] == RawBytes(c);
    assert frame[DST_ID..DST_ID + 4] == frame[..SEQ][DST_ID..DST_ID + 4] == h[DST_ID..DST_ID + 4] == RawBytes(c);
  }

  /** Among ids made by the checked constructor a frame is only ever accepted on its own. */
  lemma OnlyOwnChannel(frame: Bytes, c: ChannelId, d: ChannelId)
    requires Headed(frame, c)
    requires NewChannelId(c.linkId, c.radioPort).Ok? && NewChannelId(d.linkId, d.radioPort).Ok?
    ensures ExtractPayload(frame, d).Ok? <==> c == d
  {
    ExtractOnChannel(frame, c, d);
    RawCollides(c, d);
    SmallLinkIds(c, d);
  }
}
