/** The two halves of the bridge: datagrams from a distributor to the radio (crates/wfb-bridge/src/tx.rs)
    and frames from the radio to an aggregator (crates/wfb-bridge/src/rx.rs). */
module WfbBridge {
  import opened RadioTypes
  import opened Radiotap
  import opened RxPacket
  import opened WfbForward
  import opened WfbFrame
  import opened Wrappers
  import Words

  // ---------------------------------------------------------------- towards the radio

  const FWMARK_LEN := 4

  datatype TxDatagram = TxDatagram(fwmark: bv32, tap: ParsedTap, frame: Bytes)

  datatype DatagramError = DatagramTooShort(actualLen: nat) | BadRadiotap(error: TapError) | MissingFrame

  function ParseTxDatagram(packet: Bytes): Result<TxDatagram, DatagramError> {
    if |packet| < FWMARK_LEN + MIN_LEN then Err(DatagramTooShort(|packet|))
    else
      var rest := packet[FWMARK_LEN..];
      match ParseRadiotap(rest)
      case Err(e) => Err(BadRadiotap(e))
      case Ok(tap) =>
        ParsedIsExpressible(rest);
        if |rest| == tap.headerLen then Err(MissingFrame)
        else Ok(TxDatagram(Words.FromBigEndian(packet[..FWMARK_LEN]), tap, rest[tap.headerLen..]))
  }

  function TxDatagramBytes(d: TxDatagram): Bytes
    requires Expressible(d.tap)
  {
    Words.BigEndian(d.fwmark) + (Encode(d.tap) + d.frame)
  }

  /** A distributor's datagram is taken apart into what it was put together from. */
  lemma DatagramRoundTrip(d: TxDatagram)
    requires Expressible(d.tap) && d.frame != []
    ensures ParseTxDatagram(TxDatagramBytes(d)) == Ok(d)
  {
    var packet := TxDatagramBytes(d);
    assert packet[..FWMARK_LEN] == Words.BigEndian(d.fwmark);
    assert packet[FWMARK_LEN..] == Encode(d.tap) + d.frame;
    EncodeParses(d.tap, d.frame);
    Words.BigEndianBack(d.fwmark);
  }

  /** Whatever is accepted has a frame, and means the same as the datagram written from its parts. */
  lemma AcceptedDatagram(packet: Bytes)
    requires ParseTxDatagram(packet).Ok?
    ensures var d := ParseTxDatagram(packet).value;
      && d.frame != [] && Expressible(d.tap)
      && packet == packet[..FWMARK_LEN + d.tap.headerLen] + d.frame
      && ParseTxDatagram(TxDatagramBytes(d)) == ParseTxDatagram(packet)
  {
    ParsedIsExpressible(packet[FWMARK_LEN..]);
    DatagramRoundTrip(ParseTxDatagram(packet).value);
  }

  datatype TxCounters = TxCounters(incoming: int, injected: int, dropped: int, malformed: int, unsupported: int)

  datatype BridgeError =
    | BadDatagram(datagram: DatagramError)
    | FrameTooShort(actualLen: nat)
    | RadioFailed(reason: string)

  type TxResult = Result<(Bytes, TxOptions), BridgeError>

  predicate IsUnsupported(e: DatagramError) {
    e.BadRadiotap?
    && (e.error.UnsupportedPresentFlags? || e.error.UnsupportedHtBandwidth? || e.error.UnsupportedVhtBandwidth?)
  }

  /** What happens to a datagram, the radio's answer to a frame being given; the value on success is the
      frame that went to the radio with its options. */
  function SubmitOutcome(packet: Bytes, radio: (Bytes, TxOptions) -> Option<string>): TxResult {
    match ParseTxDatagram(packet)
    case Err(e) => Err(BadDatagram(e))
    case Ok(d) =>
      if |d.frame| < MIN_FRAME_LEN then Err(FrameTooShort(|d.frame|))
      else match radio(d.frame, d.tap.options)
        case Some(reason) => Err(RadioFailed(reason))
        case None => Ok((d.frame, d.tap.options))
  }

  class TxBridge {
    var counters: TxCounters

    constructor ()
      ensures counters == TxCounters(0, 0, 0, 0, 0)
    {
      counters := TxCounters(0, 0, 0, 0, 0);
    }

    method Submit(packet: Bytes, radio: (Bytes, TxOptions) -> Option<string>)
      returns (result: TxResult)
      modifies this
      ensures result == SubmitOutcome(packet, radio)
      ensures counters == Count(old(counters), result)
    {
      counters := counters.(incoming := counters.incoming + 1);
      match ParseTxDatagram(packet)
      case Err(e) =>
        counters := counters.(dropped := counters.dropped + 1, malformed := counters.malformed + 1);
        if IsUnsupported(e) {
          counters := counters.(unsupported := counters.unsupported + 1);
        }
        result := Err(BadDatagram(e));
      case Ok(d) =>
        if |d.frame| < MIN_FRAME_LEN {
          counters := counters.(dropped := counters.dropped + 1, malformed := counters.malformed + 1);
          return Err(FrameTooShort(|d.frame|));
        }
        var refusal := radio(d.frame, d.tap.options);
        if refusal.Some? {
          counters := counters.(dropped := counters.dropped + 1);
          return Err(RadioFailed(refusal.value));
        }
        counters := counters.(injected := counters.injected + 1);
        result := Ok((d.frame, d.tap.options));
    }
  }

  predicate Malformed(r: TxResult) {
    r.Err? && !r.error.RadioFailed?
  }

  predicate Unsupported(r: TxResult) {
    r.Err? && r.error.BadDatagram? && IsUnsupported(r.error.datagram)
  }

  function Count(c: TxCounters, r: TxResult): TxCounters {
    TxCounters(
      c.incoming + 1, c.injected + One(r.Ok?), c.dropped + One(r.Err?), c.malformed + One(Malformed(r)),
      c.unsupported + One(Unsupported(r)))
  }

  function CountRun(results: seq<TxResult>): TxCounters {
    if results == [] then TxCounters(0, 0, 0, 0, 0)
    else Count(CountRun(results[..|results| - 1]), results[|results| - 1])
  }

  /** Over any run every datagram is injected or dropped, and the malformed and unsupported ones are
      among the dropped. */
  lemma {:induction false} TxLedger(results: seq<TxResult>)
    ensures var c := CountRun(results);
      && c.incoming == |results| == c.injected + c.dropped
      && 0 <= c.unsupported <= c.malformed <= c.dropped && 0 <= c.injected
  {
    if results != [] {
      TxLedger(results[..|results| - 1]);
    }
  }

  // ---------------------------------------------------------------- towards the aggregator

  datatype RxConfig = RxConfig(channelId: ChannelId, wlanIdx: bv8, mcsIndex: bv8, bandwidthMhz: bv8)

  datatype RxCounters = RxCounters(
    received: int, matched: int, forwarded: int, filtered: int, malformed: int, sendFailed: int)

  datatype Delivery = Forwarded(bytes: nat) | Filtered | MalformedFrame | SendFailed

  function McsIndex(rate: Option<TxRate>): Option<bv8> {
    if rate == None then None
    else match rate.value
      case Mcs(mcs) => Some(mcs)
      case Vht(mcs, _) => Some(mcs)
      case _ => None
  }

  function Mhz(b: Bandwidth): bv8 {
    match b case Mhz20 => 20 case Mhz40 => 40 case Mhz80 => 80
  }

  function HeaderFor(frame: RxFrame, config: RxConfig): (h: ForwardHeader)
    ensures WellFormed(h)
  {
    var mcs := McsIndex(frame.rxRate);
    SingleAntenna(
      config.wlanIdx, frame.rssiDbm, frame.noiseDbm, frame.channel.frequencyMhz,
      if mcs.Some? then mcs.value else config.mcsIndex,
      if frame.rxBandwidth.Some? then Mhz(frame.rxBandwidth.value) else config.bandwidthMhz)
  }

  function ForwardDatagram(frame: RxFrame, config: RxConfig): Result<Bytes, WfbError> {
    match ExtractPayload(frame.data, config.channelId)
    case Err(e) => Err(e)
    case Ok(payload) => Ok(ToBytes(HeaderFor(frame, config)) + payload)
  }

  function CountFrame(c: RxCounters, r: Result<Bytes, WfbError>): RxCounters {
    var short := r.Err? && (r.error.TooShort? || r.error.InvalidLinkId?);
    c.(received := c.received + 1, matched := c.matched + One(r.Ok?), filtered := c.filtered + One(r.Err? && !short),
       malformed := c.malformed + One(short))
  }

  function CountDelivery(c: RxCounters, r: Result<Bytes, WfbError>, sent: bool): RxCounters {
    var d := CountFrame(c, r);
    d.(forwarded := d.forwarded + One(r.Ok? && sent), sendFailed := d.sendFailed + One(r.Ok? && !sent))
  }

  class RxForwarder {
    const config: RxConfig
    var counters: RxCounters

    constructor (config: RxConfig)
      ensures this.config == config && counters == RxCounters(0, 0, 0, 0, 0, 0)
    {
      this.config := config;
      counters := RxCounters(0, 0, 0, 0, 0, 0);
    }

    method BuildForwardDatagram(frame: RxFrame) returns (datagram: Option<Bytes>)
      modifies this
      ensures var r := ForwardDatagram(frame, config);
        && datagram == (if r.Ok? then Some(r.value) else None)
        && counters == CountFrame(old(counters), r)
    {
      counters := counters.(received := counters.received + 1);
      match ExtractPayload(frame.data, config.channelId)
      case Err(e) =>
        if e.PrefixMismatch? || e.ChannelIdMismatch? {
          counters := counters.(filtered := counters.filtered + 1);
        } else {
          counters := counters.(malformed := counters.malformed + 1);
        }
        datagram := None;
      case Ok(payload) =>
        counters := counters.(matched := counters.matched + 1);
        var out := PrependToPayload(HeaderFor(frame, config), payload);
        datagram := Some(out);
    }

    /** Hands a frame's datagram to a socket; `sent` says whether the socket takes it. */
    method ForwardFrame(frame: RxFrame, sent: bool) returns (delivery: Delivery)
      modifies this
      ensures var r := ForwardDatagram(frame, config);
        && counters == CountDelivery(old(counters), r, sent)
        && delivery == match r
                       case Ok(datagram) => (if sent then Forwarded(|datagram|) else SendFailed)
                       case Err(TooShort(_)) => MalformedFrame
                       case Err(_) => Filtered
    {
      var malformedBefore := counters.malformed;
      var datagram := BuildForwardDatagram(frame);
      if datagram == None {
        return if counters.malformed > malformedBefore then MalformedFrame else Filtered;
      }
      if sent {
        counters := counters.(forwarded := counters.forwarded + 1);
        delivery := Forwarded(|datagram.value|);
      } else {
        counters := counters.(sendFailed := counters.sendFailed + 1);
        delivery := SendFailed;
      }
    }
  }

  function CountDeliveries(results: seq<(Result<Bytes, WfbError>, bool)>): RxCounters {
    if results == [] then RxCounters(0, 0, 0, 0, 0, 0)
    else
      var last := results[|results| - 1];
      CountDelivery(CountDeliveries(results[..|results| - 1]), last.0, last.1)
  }

  /** Over any run every frame is matched, filtered or malformed, and every matched one is forwarded or
      failed to be sent. */
  lemma {:induction false} RxLedger(results: seq<(Result<Bytes, WfbError>, bool)>)
    ensures var c := CountDeliveries(results);
      && c.received == |results| == c.matched + c.filtered + c.malformed
      && c.matched == c.forwarded + c.sendFailed
      && 0 <= c.filtered && 0 <= c.malformed && 0 <= c.forwarded && 0 <= c.sendFailed
  {
    if results != [] {
      RxLedger(results[..|results| - 1]);
    }
  }
}
