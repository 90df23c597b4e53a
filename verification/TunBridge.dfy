/** The loop of `run_tun_bridge_macos` in crates/wfb-tun/src/lib.rs. What the operating system
    decides (which descriptors are ready, the bytes read, the clock) is an argument of each turn;
    sends and tunnel-device writes succeed. */
module TunBridge {
  import opened Wrappers
  import opened Tunnel
  import opened TunnelRuns

  const AF_INET := 2
  const AF_INET6 := 30   // the macOS values; the bridge is built for macOS only

  /** The four-byte address-family header of an IP packet. */
  function UtunAfHeader(packet: Bytes): Result<Bytes, TunError> {
    if packet == [] then Err(EmptyIpPacket)
    else
      var version := packet[0] / 0x10;
      if version == 4 then Ok([0, 0, 0, AF_INET])
      else if version == 6 then Ok([0, 0, 0, AF_INET6])
      else Err(UnsupportedIpVersion(version))
  }

  function StripUtunHeader(frame: Bytes): Result<Bytes, TunError> {
    if |frame| < 5 then Err(UtunFrameTooShort)
    else
      var family := frame[0] as int * 0x100_0000 + frame[1] as int * 0x1_0000 + frame[2] as int * 0x100 + frame[3] as int;
      if family != AF_INET && family != AF_INET6 then Err(UnsupportedAddressFamily(family))
      else Ok(frame[4..])
  }

  /** A packet written to the device reads back unchanged, and exactly IPv4 and IPv6 packets can be
      written. */
  lemma UtunHeaderRoundTrip(packet: Bytes)
    ensures UtunAfHeader(packet).Ok? <==> packet != [] && packet[0] / 0x10 in {4, 6}
    ensures UtunAfHeader(packet).Ok? ==> StripUtunHeader(UtunAfHeader(packet).value + packet) == Ok(packet)
  {
    if UtunAfHeader(packet).Ok? {
      assert (UtunAfHeader(packet).value + packet)[4..] == packet;
    }
  }

  /** What one turn of the loop sees. */
  datatype Turn = Turn(tunFrame: Option<Bytes>, readAt: int, datagram: Option<Bytes>, now: int, keepaliveDue: bool)

  datatype Bridge = Bridge(counters: Counters, agg: Agg)

  function CountSent(c: Counters, messages: seq<Bytes>): Counters {
    c.(tunnelDatagramsOut := c.tunnelDatagramsOut + |messages|,
       tunnelBytesOut := c.tunnelBytesOut + TotalLen(messages))
  }

  function CountRead(c: Counters, packet: Bytes): Counters {
    c.(tunPacketsIn := c.tunPacketsIn + 1, tunBytesIn := c.tunBytesIn + |packet|)
  }

  /** Packets written to the device up to the first one that has no address family. */
  function Deliver(c: Counters, packets: seq<Packet>): (Counters, Option<TunError>)
    decreases |packets|
  {
    if packets == [] then (c, None)
    else match UtunAfHeader(packets[0])
      case Err(e) => (c, Some(e))
      case Ok(_) =>
        Deliver(c.(tunPacketsOut := c.tunPacketsOut + 1, tunBytesOut := c.tunBytesOut + |packets[0]|), packets[1..])
  }

  function FromTun(b: Bridge, frame: Bytes, now: int): (Bridge, Option<TunError>) {
    match StripUtunHeader(frame)
    case Err(e) => (b, Some(e))
    case Ok(packet) =>
      var counted := CountRead(b.counters, packet);
      var (agg, result) := Add(b.agg, packet, now);
      match result
      case Err(e) => (Bridge(counted, agg), Some(e))
      case Ok(messages) => (Bridge(CountSent(counted, messages), agg), None)
  }

  function FromRadio(b: Bridge, message: Bytes): (Bridge, Option<TunError>) {
    var counted := b.counters.(tunnelDatagramsIn := b.counters.tunnelDatagramsIn + 1,
                               tunnelBytesIn := b.counters.tunnelBytesIn + |message|);
    var parsed := Parse(message);
    var (delivered, error) := Deliver(CountTail(counted, parsed.tail), parsed.packets);
    (b.(counters := delivered), error)
  }

  function Housekeeping(b: Bridge, turn: Turn): Bridge {
    var (agg, message) := FlushDue(b.agg, turn.now);
    var flushed := if message.Some? then CountSent(b.counters, [message.value]) else b.counters;
    Bridge(if turn.keepaliveDue then flushed.(keepalivesOut := flushed.keepalivesOut + 1) else flushed, agg)
  }

  /** One turn: the device first, then the radio, then the due flush and the keepalive. */
  function TurnStep(b: Bridge, turn: Turn): (Bridge, Option<TunError>) {
    var (b1, e1) := if turn.tunFrame.Some? then FromTun(b, turn.tunFrame.value, turn.readAt) else (b, None);
    if e1.Some? then (b1, e1)
    else
      var (b2, e2) := if turn.datagram.Some? then FromRadio(b1, turn.datagram.value) else (b1, None);
      if e2.Some? then (b2, e2) else (Housekeeping(b2, turn), None)
  }

  const ZERO := Counters(0, 0, 0, 0, 0, 0, 0, 0, 0, 0, 0)

  function Continue(b: Bridge, turn: Turn): Result<Bridge, TunError> {
    var (after, error) := TurnStep(b, turn);
    if error.Some? then Err(error.value) else Ok(after)
  }

  /** The state after all turns, or the error that ended the loop. */
  function Loop(radioMtu: nat, timeout: nat, turns: seq<Turn>): Result<Bridge, TunError> {
    if turns == [] then Ok(Bridge(ZERO, NewAgg(radioMtu, timeout)))
    else
      var before := Loop(radioMtu, timeout, turns[..|turns| - 1]);
      if before.Err? then before else Continue(before.value, turns[|turns| - 1])
  }

  class LoopState {
    var counters: Counters
    const aggregator: Aggregator

    function View(): Bridge
      reads this, aggregator
    {
      Bridge(counters, aggregator.View())
    }

    constructor (radioMtu: nat, timeout: nat)
      ensures View() == Bridge(ZERO, NewAgg(radioMtu, timeout))
      ensures fresh(aggregator)
    {
      counters := ZERO;
      aggregator := new Aggregator(radioMtu, timeout);
    }

    method SendAll(messages: seq<Bytes>)
      modifies this
      ensures View() == old(View()).(counters := CountSent(old(counters), messages))
    {
      var i := 0;
      while i < |messages|
        invariant i <= |messages|
        invariant counters == CountSent(old(counters), messages[..i])
      {
        counters := counters.(tunnelDatagramsOut := counters.tunnelDatagramsOut + 1,
                              tunnelBytesOut := counters.tunnelBytesOut + |messages[i]|);
        assert messages[..i + 1] == messages[..i] + [messages[i]];
        SentLen(messages[..i], messages[i]);
        i := i + 1;
      }
      assert messages[..i] == messages;
    }

    method WriteAll(packets: seq<Packet>) returns (error: Option<TunError>)
      modifies this
      ensures (counters, error) == Deliver(old(counters), packets)
    {
      var i := 0;
      while i < |packets|
        invariant i <= |packets|
        invariant Deliver(counters, packets[i..]) == Deliver(old(counters), packets)
      {
        var header := UtunAfHeader(packets[i]);
        if header.Err? {
          return Some(header.error);
        }
        counters := counters.(tunPacketsOut := counters.tunPacketsOut + 1,
                              tunBytesOut := counters.tunBytesOut + |packets[i]|);
        assert packets[i..][1..] == packets[i + 1..];
        i := i + 1;
      }
      return None;
    }

    /** A frame from the device goes into the aggregator; what that emits is sent. */
    method HandleDevice(frame: Bytes, now: int) returns (error: Option<TunError>)
      modifies this, aggregator
      ensures (View(), error) == FromTun(old(View()), frame, now)
    {
      var stripped := StripUtunHeader(frame);
      if stripped.Err? {
        return Some(stripped.error);
      }
      counters := CountRead(counters, stripped.value);
      var added := aggregator.AddPacket(stripped.value, now);
      if added.Err? {
        return Some(added.error);
      }
      SendAll(added.value);
      return None;
    }

    /** A datagram from the radio is parsed and its packets written to the device. */
    method HandleRadio(message: Bytes) returns (error: Option<TunError>)
      modifies this
      ensures (View(), error) == FromRadio(old(View()), message)
    {
      counters := counters.(tunnelDatagramsIn := counters.tunnelDatagramsIn + 1,
                            tunnelBytesIn := counters.tunnelBytesIn + |message|);
      var packets, counted := ParseTunnelMessage(message, counters);
      counters := counted;
      error := WriteAll(packets);
    }

    method Housekeep(turn: Turn)
      modifies this, aggregator
      ensures View() == Housekeeping(old(View()), turn)
    {
      var due := aggregator.FlushIfDue(turn.now);
      if due.Some? {
        SendAll([due.value]);
      }
      if turn.keepaliveDue {
        counters := counters.(keepalivesOut := counters.keepalivesOut + 1);
      }
    }

    method Iterate(turn: Turn) returns (error: Option<TunError>)
      modifies this, aggregator
      ensures (View(), error) == TurnStep(old(View()), turn)
    {
      if turn.tunFrame.Some? {
        error := HandleDevice(turn.tunFrame.value, turn.readAt);
        if error.Some? {
          return;
        }
      }
      if turn.datagram.Some? {
        error := HandleRadio(turn.datagram.value);
        if error.Some? {
          return;
        }
      }
      Housekeep(turn);
      return None;
    }
  }

  // ---------------------------------------------------------------- the byte ledger

  /** Bytes read from the device, with two header bytes a packet, less bytes sent or pending. */
  function SendGap(b: Bridge): int {
    b.counters.tunBytesIn + 2 * b.counters.tunPacketsIn - b.counters.tunnelBytesOut - |b.agg.parts|
  }

  /** Bytes received from the radio, less those written to the device with their record headers. */
  function ReceiveGap(c: Counters): int {
    c.tunnelBytesIn - c.tunBytesOut - 2 * c.tunPacketsOut
  }

  lemma TotalLenSmall(a: Bytes, b: Bytes)
    ensures TotalLen([]) == 0 && TotalLen([a]) == |a| && TotalLen([a, b]) == |a| + |b|
  {
    SentLen([], a);
    SentLen([a], b);
    assert [] + [a] == [a] && [a] + [b] == [a, b];
  }

  lemma FromTunBalances(b: Bridge, frame: Bytes, now: int)
    requires FromTun(b, frame, now).1 == None
    ensures var after := FromTun(b, frame, now).0;
            && SendGap(after) == SendGap(b) && ReceiveGap(after.counters) == ReceiveGap(b.counters)
            && after.counters.corruptMessages == b.counters.corruptMessages
            && after.counters.truncatedMessages == b.counters.truncatedMessages
  {
    var packet := StripUtunHeader(frame).value;
    var room := if Overflows(b.agg, |packet| + 2) then Flush(b.agg) else b.agg;
    var full := Append(room, packet, now);
    TotalLenSmall(b.agg.parts, full.parts);
    TotalLenSmall(full.parts, []);
    var messages := Add(b.agg, packet, now).1.value;
    assert [b.agg.parts] + [full.parts] == [b.agg.parts, full.parts] && [] + [full.parts] == [full.parts];
  }

  lemma {:induction false} DeliverAll(c: Counters, packets: seq<Packet>)
    requires Deliver(c, packets).1 == None
    ensures var after := Deliver(c, packets).0;
            && after.tunBytesOut + 2 * after.tunPacketsOut == c.tunBytesOut + 2 * c.tunPacketsOut + |Encode(packets)|
            && after == c.(tunPacketsOut := after.tunPacketsOut, tunBytesOut := after.tunBytesOut)
    decreases |packets|
  {
    if packets != [] {
      DeliverAll(c.(tunPacketsOut := c.tunPacketsOut + 1, tunBytesOut := c.tunBytesOut + |packets[0]|), packets[1..]);
    }
  }

  lemma FromRadioBalances(b: Bridge, message: Bytes)
    requires FromRadio(b, message).1 == None
    ensures var (after, tail) := (FromRadio(b, message).0, Parse(message).tail);
            && SendGap(after) == SendGap(b)
            && ReceiveGap(after.counters) == ReceiveGap(b.counters) + |tail|
            && after.counters.corruptMessages + after.counters.truncatedMessages
               == b.counters.corruptMessages + b.counters.truncatedMessages + (if tail == [] then 0 else 1)
  {
    var counted := b.counters.(tunnelDatagramsIn := b.counters.tunnelDatagramsIn + 1,
                               tunnelBytesIn := b.counters.tunnelBytesIn + |message|);
    ParseSound(message);
    DeliverAll(CountTail(counted, Parse(message).tail), Parse(message).packets);
  }

  ghost predicate Balanced(b: Bridge) {
    && SendGap(b) == 0
    && ReceiveGap(b.counters) >= 0
    && (ReceiveGap(b.counters) == 0 <==> b.counters.corruptMessages == b.counters.truncatedMessages == 0)
  }

  lemma HousekeepingBalances(b: Bridge, turn: Turn)
    requires Balanced(b)
    ensures Balanced(Housekeeping(b, turn))
  {
    TotalLenSmall(b.agg.parts, []);
  }

  lemma TunKeepsBalance(b: Bridge, frame: Bytes, now: int)
    requires Balanced(b) && FromTun(b, frame, now).1 == None
    ensures Balanced(FromTun(b, frame, now).0)
  {
    FromTunBalances(b, frame, now);
  }

  lemma RadioKeepsBalance(b: Bridge, message: Bytes)
    requires Balanced(b) && FromRadio(b, message).1 == None
    ensures Balanced(FromRadio(b, message).0)
  {
    FromRadioBalances(b, message);
  }

  lemma TurnKeepsBalance(b: Bridge, turn: Turn)
    requires Balanced(b) && Continue(b, turn).Ok?
    ensures Balanced(Continue(b, turn).value)
  {
    var (b1, e1) := if turn.tunFrame.Some? then FromTun(b, turn.tunFrame.value, turn.readAt) else (b, None);
    assert e1 == None;
    if turn.tunFrame.Some? {
      TunKeepsBalance(b, turn.tunFrame.value, turn.readAt);
    }
    var (b2, e2) := if turn.datagram.Some? then FromRadio(b1, turn.datagram.value) else (b1, None);
    if turn.datagram.Some? {
      RadioKeepsBalance(b1, turn.datagram.value);
    }
    HousekeepingBalances(b2, turn);
  }

  /** The byte ledger: in every state an error-free run reaches, what was read from the device is sent
      or pending, and what was received is written, short exactly when some datagram was damaged. */
  lemma {:induction false} LedgerBalances(radioMtu: nat, timeout: nat, turns: seq<Turn>)
    requires Loop(radioMtu, timeout, turns).Ok?
    ensures Balanced(Loop(radioMtu, timeout, turns).value)
  {
    if turns != [] {
      var prefix := turns[..|turns| - 1];
      LedgerBalances(radioMtu, timeout, prefix);
      TurnKeepsBalance(Loop(radioMtu, timeout, prefix).value, turns[|turns| - 1]);
    }
  }

  /** After the flush at the end of the loop nothing is left pending: bytes out equal bytes in. */
  lemma FinalFlushSettles(radioMtu: nat, timeout: nat, turns: seq<Turn>)
    requires Loop(radioMtu, timeout, turns).Ok?
    ensures var b := Loop(radioMtu, timeout, turns).value;
            var sent := CountSent(b.counters, NonEmpty([b.agg.parts]));
            sent.tunnelBytesOut == sent.tunBytesIn + 2 * sent.tunPacketsIn
  {
    LedgerBalances(radioMtu, timeout, turns);
    TotalLenSmall(Loop(radioMtu, timeout, turns).value.agg.parts, []);
  }
}
