/** The tunnel wire format and the aggregator of crates/wfb-tun/src/lib.rs.

    A tunnel message is a sequence of records, each a big-endian 16-bit length followed by an
    IP packet. The aggregator appends records to one flat buffer and emits it when the next
    record would overflow it, when its deadline passes, or when it is told to. */
module Tunnel {
  import opened Wrappers

  type byte = x: int | 0 <= x < 0x100
  type Bytes = seq<byte>

  const MAX_PACKET := 0xffff   // the largest length a record header can declare
  type Packet = p: Bytes | |p| <= MAX_PACKET

  datatype TunError =
    | PacketRecordTooLarge(recordLen: nat, maxSize: nat)
    | EmptyIpPacket
    | UnsupportedIpVersion(version: nat)
    | UtunFrameTooShort
    | UnsupportedAddressFamily(family: nat)

  datatype Counters = Counters(
    tunPacketsIn: nat, tunBytesIn: nat, tunnelDatagramsOut: nat, tunnelBytesOut: nat,
    tunnelDatagramsIn: nat, tunnelBytesIn: nat, tunPacketsOut: nat, tunBytesOut: nat,
    keepalivesOut: nat, corruptMessages: nat, truncatedMessages: nat)

  // ---------------------------------------------------------------- records

  function Record(packet: Packet): Bytes {
    [|packet| / 0x100, |packet| % 0x100] + packet
  }

  function Encode(packets: seq<Packet>): Bytes {
    if packets == [] then [] else Record(packets[0]) + Encode(packets[1..])
  }

  function DeclaredLen(message: Bytes): nat
    requires |message| >= 2
  {
    message[0] as int * 0x100 + message[1] as int
  }

  predicate StartsWithRecord(message: Bytes) {
    |message| >= 2 && |message| >= 2 + DeclaredLen(message)
  }

  datatype Parsed = Parsed(packets: seq<Packet>, tail: Bytes)

  /** The complete records at the front of a message, and what is left after them. */
  function Parse(message: Bytes): Parsed
    decreases |message|
  {
    if !StartsWithRecord(message) then Parsed([], message)
    else
      var end := 2 + DeclaredLen(message);
      var rest := Parse(message[end..]);
      Parsed([message[2..end]] + rest.packets, rest.tail)
  }

  /** The two corruption counters after a message whose unparsed tail is `tail`. */
  function CountTail(counters: Counters, tail: Bytes): Counters {
    if tail == [] then counters
    else if |tail| == 1 then counters.(corruptMessages := counters.corruptMessages + 1)
    else counters.(truncatedMessages := counters.truncatedMessages + 1)
  }

  /** Parsing goes on with `message` after it has given `packets`. */
  function ParseFrom(packets: seq<Packet>, message: Bytes): Parsed
    decreases |message|
  {
    if !StartsWithRecord(message) then Parsed(packets, message)
    else
      var end := 2 + DeclaredLen(message);
      ParseFrom(packets + [message[2..end]], message[end..])
  }

  lemma {:induction false} ParseFromIsParse(packets: seq<Packet>, message: Bytes)
    ensures ParseFrom(packets, message) == Parsed(packets + Parse(message).packets, Parse(message).tail)
    decreases |message|
  {
    if StartsWithRecord(message) {
      var end := 2 + DeclaredLen(message);
      var first: seq<Packet>, more := [message[2..end]], Parse(message[end..]).packets;
      ParseFromIsParse(packets + first, message[end..]);
      assert (packets + first) + more == packets + (first + more);
    } else {
      assert packets + [] == packets;
    }
  }

  /** Where the next record at `offset` ends, if it is complete. */
  function RecordEnd(message: Bytes, offset: nat): (end: nat)
    requires offset + 2 <= |message|
    ensures offset + 2 <= end <= offset + 2 + MAX_PACKET
  {
    offset + 2 + (message[offset] as int * 0x100 + message[offset + 1] as int)
  }

  lemma RecordAt(message: Bytes, offset: nat)
    requires offset <= |message|
    ensures StartsWithRecord(message[offset..])
       <==> offset + 2 <= |message| && RecordEnd(message, offset) <= |message|
  {
    if offset + 2 <= |message| {
      assert message[offset..][0] == message[offset] && message[offset..][1] == message[offset + 1];
    }
  }

  lemma TakeRecord(packets: seq<Packet>, message: Bytes, offset: nat)
    requires offset + 2 <= |message| && RecordEnd(message, offset) <= |message|
    ensures var end := RecordEnd(message, offset);
            ParseFrom(packets, message[offset..]) == ParseFrom(packets + [message[offset + 2..end]], message[end..])
  {
    var rest, end := message[offset..], RecordEnd(message, offset);
    RecordAt(message, offset);
    assert rest[0] == message[offset] && rest[1] == message[offset + 1];
    assert rest[2..end - offset] == message[offset + 2..end] && rest[end - offset..] == message[end..];
  }

  lemma NoRecord(packets: seq<Packet>, message: Bytes, offset: nat)
    requires offset <= |message| && !(offset + 2 <= |message| && RecordEnd(message, offset) <= |message|)
    ensures ParseFrom(packets, message[offset..]) == Parsed(packets, message[offset..])
  {
    RecordAt(message, offset);
  }

  /** `from` tells what a parse gives that has taken `packets` and stands at `offset`. */
  ghost predicate Continues(from: (seq<Packet>, nat) -> Parsed, message: Bytes, packets: seq<Packet>, offset: nat)
    requires offset <= |message|
  {
    if offset + 2 <= |message| && RecordEnd(message, offset) <= |message|
    then from(packets, offset)
      == from(packets + [message[offset + 2..RecordEnd(message, offset)]], RecordEnd(message, offset))
    else from(packets, offset) == Parsed(packets, message[offset..])
  }

  method ParseRecords(message: Bytes, counters: Counters, ghost from: (seq<Packet>, nat) -> Parsed)
    returns (packets: seq<Packet>, counted: Counters)
    requires forall p: seq<Packet>, o: nat | o <= |message| :: Continues(from, message, p, o)
    ensures packets == from([], 0).packets
    ensures counted == CountTail(counters, from([], 0).tail)
  {
    packets, counted := [], counters;
    var offset := 0;
    while offset < |message|
      invariant offset <= |message| && from(packets, offset) == from([], 0)
    {
      assert Continues(from, message, packets, offset);
      if |message| - offset < 2 {
        counted := counted.(corruptMessages := counted.corruptMessages + 1);
        return;
      }
      var packetLen: nat := message[offset] as int * 0x100 + message[offset + 1] as int;
      offset := offset + 2;
      if |message| - offset < packetLen {
        counted := counted.(truncatedMessages := counted.truncatedMessages + 1);
        return;
      }
      packets := packets + [message[offset..offset + packetLen]];
      offset := offset + packetLen;
    }
    assert Continues(from, message, packets, offset);
  }

  function From(message: Bytes): (seq<Packet>, nat) -> Parsed {
    (packets: seq<Packet>, offset: nat) =>
      if offset <= |message| then ParseFrom(packets, message[offset..]) else Parsed(packets, [])
  }

  method ParseTunnelMessage(message: Bytes, counters: Counters) returns (packets: seq<Packet>, counted: Counters)
    ensures packets == Parse(message).packets
    ensures counted == CountTail(counters, Parse(message).tail)
  {
    forall p: seq<Packet>, o: nat | o <= |message|
      ensures Continues(From(message), message, p, o)
    {
      if o + 2 <= |message| && RecordEnd(message, o) <= |message| {
        TakeRecord(p, message, o);
      } else {
        NoRecord(p, message, o);
      }
    }
    ParseFromIsParse([], message);
    assert message[0..] == message;
    packets, counted := ParseRecords(message, counters, From(message));
  }

  lemma FrontRecord(message: Bytes)
    requires StartsWithRecord(message)
    ensures var end := 2 + DeclaredLen(message);
            end - 2 <= MAX_PACKET && message == Record(message[2..end]) + message[end..]
  {
    var end := 2 + DeclaredLen(message);
    assert |message[2..end]| == DeclaredLen(message);
    assert message == [message[0], message[1]] + message[2..end] + message[end..];
  }

  lemma Regroup(a: Bytes, b: Bytes, c: Bytes)
    ensures a + (b + c) == (a + b) + c
  {
  }

  /** Every message is the encoding of its packets followed by a tail holding no complete record. */
  lemma {:induction false} ParseSound(message: Bytes)
    ensures message == Encode(Parse(message).packets) + Parse(message).tail
    ensures !StartsWithRecord(Parse(message).tail)
    decreases |message|
  {
    if StartsWithRecord(message) {
      var end := 2 + DeclaredLen(message);
      var rest := message[end..];
      ParseSound(rest);
      FrontRecord(message);
      var packets: seq<Packet> := [message[2..end]] + Parse(rest).packets;
      assert packets[1..] == Parse(rest).packets;
      Regroup(Record(message[2..end]), Encode(Parse(rest).packets), Parse(rest).tail);
    }
  }

  lemma ParseRecord(packet: Packet, rest: Bytes)
    ensures Parse(Record(packet) + rest) == Parsed([packet] + Parse(rest).packets, Parse(rest).tail)
  {
    var message := Record(packet) + rest;
    assert DeclaredLen(message) == |packet|;
    assert message[2..2 + |packet|] == packet && message[2 + |packet|..] == rest;
  }

  /** That decomposition is unique: parsing inverts encoding, whatever incomplete tail follows. */
  lemma {:induction false} ParseInvertsEncode(packets: seq<Packet>, tail: Bytes)
    requires !StartsWithRecord(tail)
    ensures Parse(Encode(packets) + tail) == Parsed(packets, tail)
  {
    if packets == [] {
      assert Encode(packets) + tail == tail;
    } else {
      ParseInvertsEncode(packets[1..], tail);
      ParseRecord(packets[0], Encode(packets[1..]) + tail);
      Regroup(Record(packets[0]), Encode(packets[1..]), tail);
    }
  }

  /** The counters say exactly what the tail was: one step of `corrupt` for a lone byte, one step of
      `truncated` for a header that promises more than there is, and nothing for a clean message. */
  lemma CountersNameTheTail(message: Bytes, counters: Counters)
    ensures var after := CountTail(counters, Parse(message).tail);
            && (after == counters <==> exists packets :: message == Encode(packets))
            && (after.corruptMessages > counters.corruptMessages
                <==> exists packets, b :: message == Encode(packets) + [b])
            && after.corruptMessages + after.truncatedMessages
               <= counters.corruptMessages + counters.truncatedMessages + 1
  {
    ParseSound(message);
    var parsed := Parse(message);
    forall packets | message == Encode(packets) ensures parsed.tail == [] {
      ParseInvertsEncode(packets, []);
      assert message == Encode(packets) + [];
    }
    forall packets, b | message == Encode(packets) + [b] ensures parsed.tail == [b] {
      ParseInvertsEncode(packets, [b]);
    }
    if parsed.tail == [] {
      assert message == Encode(parsed.packets);
    }
    if |parsed.tail| == 1 {
      assert parsed.tail == [parsed.tail[0]];
    }
  }

  lemma {:induction false} ParseAppend(message: Bytes, packet: Packet)
    requires Parse(message).tail == []
    ensures Parse(message + Record(packet)) == Parsed(Parse(message).packets + [packet], [])
  {
    ParseSound(message);
    var packets := Parse(message).packets;
    EncodeAppend(packets, packet);
    assert message + Record(packet) == Encode(packets + [packet]) + [];
    ParseInvertsEncode(packets + [packet], []);
  }

  lemma {:induction false} EncodeAppend(packets: seq<Packet>, packet: Packet)
    ensures Encode(packets + [packet]) == Encode(packets) + Record(packet)
  {
    if packets == [] {
      assert [packet][1..] == [];
      assert Encode([packet]) == Record(packet);
    } else {
      EncodeAppend(packets[1..], packet);
      assert (packets + [packet])[1..] == packets[1..] + [packet];
    }
  }

  // ---------------------------------------------------------------- aggregator

  /** The aggregator's fields; times and durations are integers on one clock. */
  datatype Agg = Agg(maxSize: nat, timeout: nat, parts: Bytes, deadline: Option<int>)

  function NewAgg(maxSize: nat, timeout: nat): Agg {
    Agg(maxSize, timeout, [], None)
  }

  function Flush(a: Agg): Agg {
    a.(parts := [], deadline := None)
  }

  predicate Overflows(a: Agg, recordLen: nat) {
    a.parts != [] && |a.parts| + recordLen > a.maxSize
  }

  function Append(a: Agg, packet: Packet, now: int): Agg {
    a.(parts := a.parts + Record(packet),
       deadline := if a.deadline == None then Some(now + a.timeout) else a.deadline)
  }

  /** One `add`: the state it leaves, and the messages it emits or the error it returns. */
  function Add(a: Agg, packet: Bytes, now: int): (Agg, Result<seq<Bytes>, TunError>) {
    var recordLen := |packet| + 2;
    if recordLen > a.maxSize then (a, Err(PacketRecordTooLarge(recordLen, a.maxSize)))
    else
      var spilled := if Overflows(a, recordLen) then [a.parts] else [];
      var room := if Overflows(a, recordLen) then Flush(a) else a;
      if |packet| > MAX_PACKET then (room, Err(PacketRecordTooLarge(recordLen, a.maxSize)))
      else
        var full := Append(room, packet, now);
        if a.timeout == 0 then (Flush(full), Ok(spilled + [full.parts])) else (full, Ok(spilled))
  }

  /** One `flush_due`: the state it leaves and the message it emits, if its deadline has passed. */
  function FlushDue(a: Agg, now: int): (Agg, Option<Bytes>) {
    if a.deadline.Some? && now >= a.deadline.value
    then (Flush(a), if a.parts == [] then None else Some(a.parts))
    else (a, None)
  }

  function NonEmpty(messages: seq<Bytes>): seq<Bytes> {
    if messages == [] then []
    else (if messages[0] == [] then [] else [messages[0]]) + NonEmpty(messages[1..])
  }

  lemma {:induction false} NonEmptyKeeps(messages: seq<Bytes>)
    requires forall i | 0 <= i < |messages| :: messages[i] != []
    ensures NonEmpty(messages) == messages
  {
    if messages != [] {
      assert messages == [messages[0]] + messages[1..];
      NonEmptyKeeps(messages[1..]);
    }
  }

  class Aggregator {
    const maxSize: nat
    const timeout: nat
    var parts: Bytes
    var deadline: Option<int>

    function View(): Agg
      reads this
    {
      Agg(maxSize, timeout, parts, deadline)
    }

    constructor (maxSize: nat, timeout: nat)
      ensures View() == NewAgg(maxSize, timeout)
    {
      this.maxSize, this.timeout := maxSize, timeout;
      parts, deadline := [], None;
    }

    method TakeParts() returns (message: Bytes)
      modifies this
      ensures message == old(parts) && View() == Flush(old(View()))
    {
      deadline := None;
      message, parts := parts, [];
    }

    method AddPacket(packet: Bytes, now: int) returns (r: Result<seq<Bytes>, TunError>)
      modifies this
      ensures (View(), r) == Add(old(View()), packet, now)
    {
      var recordLen := |packet| + 2;
      if recordLen > maxSize {
        return Err(PacketRecordTooLarge(recordLen, maxSize));
      }
      var out: seq<Bytes> := [];
      if parts != [] && |parts| + recordLen > maxSize {
        var message := TakeParts();
        out := out + [message];
      }
      if |packet| > 0xffff {
        return Err(PacketRecordTooLarge(recordLen, maxSize));
      }
      var high: byte, low: byte := |packet| / 0x100, |packet| % 0x100;
      var before := parts;
      parts := parts + [high, low];
      parts := parts + packet;
      assert parts == before + Record(packet);
      if timeout == 0 {
        var message := TakeParts();
        out := out + [message];
      } else if deadline == None {
        deadline := Some(now + timeout);
      }
      NonEmptyKeeps(out);
      assert out == Add(old(View()), packet, now).1.value;
      return Ok(NonEmpty(out));
    }

    method FlushIfDue(now: int) returns (message: Option<Bytes>)
      modifies this
      ensures (View(), message) == FlushDue(old(View()), now)
    {
      if deadline.Some? && now >= deadline.value {
        var data := TakeParts();
        message := if data == [] then None else Some(data);
      } else {
        message := None;
      }
    }
  }

  // ---------------------------------------------------------------- runs

  datatype Op = OpAdd(packet: Bytes, now: int) | OpFlushDue(now: int) | OpFlush | OpKeepalive

  datatype Stamped = Stamped(packet: Packet, time: int)

  /** An aggregator with the history of its run: every datagram sent, every packet accepted. */
  datatype Run = Run(agg: Agg, sent: seq<Bytes>, accepted: seq<Stamped>)

  function Step(r: Run, op: Op): Run {
    match op
    case OpAdd(packet, now) =>
      var (agg, result) := Add(r.agg, packet, now);
      if result.Ok? then Run(agg, r.sent + result.value, r.accepted + [Stamped(packet, now)])
      else r.(agg := agg)
    case OpFlushDue(now) =>
      var (agg, message) := FlushDue(r.agg, now);
      Run(agg, if message.Some? then r.sent + [message.value] else r.sent, r.accepted)
    case OpFlush =>
      Run(Flush(r.agg), if r.agg.parts == [] then r.sent else r.sent + [r.agg.parts], r.accepted)
    case OpKeepalive =>
      r.(sent := r.sent + [[]])
  }

  function Exec(maxSize: nat, timeout: nat, ops: seq<Op>): Run {
    if ops == [] then Run(NewAgg(maxSize, timeout), [], [])
    else Step(Exec(maxSize, timeout, ops[..|ops| - 1]), ops[|ops| - 1])
  }

  function Packets(stamped: seq<Stamped>): seq<Packet> {
    seq(|stamped|, i requires 0 <= i < |stamped| => stamped[i].packet)
  }

  /** What a receiver gets from a list of datagrams, in order. */
  function Delivered(messages: seq<Bytes>): seq<Packet> {
    if messages == [] then []
    else Delivered(messages[..|messages| - 1]) + Parse(messages[|messages| - 1]).packets
  }

  /** A failing `add` on this state throws away a batch that was already flushed. */
  predicate DropsBatch(a: Agg, packet: Bytes) {
    MAX_PACKET < |packet| <= a.maxSize - 2 && Overflows(a, |packet| + 2)
  }

  predicate Drops(r: Run, op: Op) {
    op.OpAdd? && DropsBatch(r.agg, op.packet)
  }

  /** No call of the run drops a batch. */
  predicate NoDrop(maxSize: nat, timeout: nat, ops: seq<Op>) {
    ops == [] ||
    (NoDrop(maxSize, timeout, ops[..|ops| - 1]) && !Drops(Exec(maxSize, timeout, ops[..|ops| - 1]), ops[|ops| - 1]))
  }

  /** A rejected packet leaves the aggregator as it was, except exactly when a batch is dropped. */
  lemma RejectionLeavesState(a: Agg, packet: Bytes, now: int)
    requires Add(a, packet, now).1.Err?
    ensures Add(a, packet, now).0 == a <==> !DropsBatch(a, packet)
    ensures a.maxSize <= MAX_PACKET + 2 ==> !DropsBatch(a, packet)
  {
  }

  /** A batch really can be lost: a 65536-byte packet is refused after its predecessor was flushed. */
  lemma DropWitness(packet: Bytes)
    requires |packet| == MAX_PACKET + 1
    ensures var r := Exec(MAX_PACKET + 3, 5, [OpAdd([7], 0), OpAdd(packet, 1), OpFlush]);
            Packets(r.accepted) == [[7]] && r.sent == []
  {
    var ops := [OpAdd([7], 0), OpAdd(packet, 1), OpFlush];
    assert ops[..2][..1][..0] == [] && ops[..2][..1] == [ops[0]] && ops[..2] == [ops[0], ops[1]];
    var r0 := Exec(MAX_PACKET + 3, 5, []);
    var r1 := Step(r0, ops[0]);
    assert Exec(MAX_PACKET + 3, 5, ops[..2][..1]) == r1;
    assert r1.agg.parts == [0, 1, 7] && r1.accepted == [Stamped([7], 0)];
    var r2 := Step(r1, ops[1]);
    assert Exec(MAX_PACKET + 3, 5, ops[..2]) == r2;
    assert Exec(MAX_PACKET + 3, 5, ops) == Step(r2, ops[2]);
  }

  function PendingCount(r: Run): nat {
    |Parse(r.agg.parts).packets|
  }

  /** Every datagram sent and the pending buffer are undamaged and within the size limit. */
  ghost predicate Clean(r: Run) {
    && Parse(r.agg.parts).tail == [] && |r.agg.parts| <= r.agg.maxSize
    && forall m <- r.sent :: Parse(m).tail == [] && |m| <= r.agg.maxSize
  }

  /** What a receiver gets from the datagrams sent, and then would get from the pending buffer. */
  function Received(r: Run): seq<Packet> {
    Delivered(r.sent) + Parse(r.agg.parts).packets
  }

  lemma {:induction false} SendOne(sent: seq<Bytes>, message: Bytes)
    ensures Delivered(sent + [message]) == Delivered(sent) + Parse(message).packets
  {
    assert (sent + [message])[..|sent|] == sent;
  }

  lemma PacketsAppend(accepted: seq<Stamped>, s: Stamped)
    ensures Packets(accepted + [s]) == Packets(accepted) + [s.packet]
  {
  }

  function Flushed(r: Run): Run {
    Run(Flush(r.agg), r.sent + [r.agg.parts], r.accepted)
  }

  function Appended(r: Run, packet: Packet, now: int): Run {
    Run(Append(r.agg, packet, now), r.sent, r.accepted + [Stamped(packet, now)])
  }

  lemma FlushReceives(r: Run)
    requires Clean(r)
    ensures Clean(Flushed(r)) && Received(Flushed(r)) == Received(r)
  {
    SendOne(r.sent, r.agg.parts);
  }

  lemma AppendReceives(r: Run, packet: Packet, now: int)
    requires Clean(r) && |r.agg.parts| + |packet| + 2 <= r.agg.maxSize
    ensures Clean(Appended(r, packet, now)) && Received(Appended(r, packet, now)) == Received(r) + [packet]
  {
    ParseAppend(r.agg.parts, packet);
  }

  /** An accepted packet is appended to the batch, or to a new one, and without a timeout sent at once. */
  lemma AddInSteps(r: Run, packet: Packet, now: int)
    requires |packet| + 2 <= r.agg.maxSize
    ensures var full := Appended(if Overflows(r.agg, |packet| + 2) then Flushed(r) else r, packet, now);
            Step(r, OpAdd(packet, now)) == if r.agg.timeout == 0 then Flushed(full) else full
  {
    assert [r.agg.parts] + [Append(Flush(r.agg), packet, now).parts]
        == [r.agg.parts, Append(Flush(r.agg), packet, now).parts];
    assert r.sent + [] == r.sent;
  }

  lemma AddReceives(r: Run, packet: Packet, now: int)
    requires Clean(r) && |packet| + 2 <= r.agg.maxSize
    ensures var s := Step(r, OpAdd(packet, now));
            Clean(s) && Received(s) == Received(r) + [packet] && s.accepted == r.accepted + [Stamped(packet, now)]
  {
    var room := if Overflows(r.agg, |packet| + 2) then Flushed(r) else r;
    FlushReceives(r);
    AppendReceives(room, packet, now);
    FlushReceives(Appended(room, packet, now));
    AddInSteps(r, packet, now);
  }

  lemma KeepaliveReceives(r: Run)
    requires Clean(r)
    ensures Clean(Step(r, OpKeepalive)) && Received(Step(r, OpKeepalive)) == Received(r)
  {
    SendOne(r.sent, []);
    assert Delivered(r.sent + [[]]) == Delivered(r.sent);
  }

  /** Emptying the buffer, and sending what was in it if anything was. */
  function Emptied(r: Run): Run {
    if r.agg.parts == [] then r.(agg := Flush(r.agg)) else Flushed(r)
  }

  lemma EmptyingReceives(r: Run)
    requires Clean(r)
    ensures Clean(Emptied(r)) && Received(Emptied(r)) == Received(r)
  {
    FlushReceives(r);
  }

  lemma FlushOpsEmpty(r: Run, now: int)
    ensures Step(r, OpFlush) == Emptied(r)
    ensures Step(r, OpFlushDue(now)) == Emptied(r) || Step(r, OpFlushDue(now)) == r
  {
  }

  lemma FlushOpsReceive(r: Run, now: int)
    requires Clean(r)
    ensures Clean(Step(r, OpFlush)) && Received(Step(r, OpFlush)) == Received(r)
    ensures Clean(Step(r, OpFlushDue(now))) && Received(Step(r, OpFlushDue(now))) == Received(r)
  {
    EmptyingReceives(r);
    FlushOpsEmpty(r, now);
  }

  lemma {:induction false} BatchHasPackets(parts: Bytes)
    requires parts != [] && Parse(parts).tail == []
    ensures Parse(parts).packets != []
  {
    ParseSound(parts);
  }

  /** A step that drops nothing adds to what is received just what it accepts; one that drops a batch
      accepts nothing and takes the packets of the batch away. */
  lemma StepReceives(r: Run, op: Op)
    requires Clean(r)
    ensures var s := Step(r, op);
      && Clean(s)
      && (if Drops(r, op) then s.accepted == r.accepted && Received(s) == Delivered(r.sent) && PendingCount(r) > 0
          else Accepts(r, s))
  {
    match op
    case OpAdd(packet, now) =>
      if Drops(r, op) {
        BatchHasPackets(r.agg.parts);
        assert Received(Step(r, op)) == Delivered(r.sent) + [];
      } else if |packet| <= MAX_PACKET && |packet| + 2 <= r.agg.maxSize {
        AddReceives(r, packet, now);
      }
    case OpKeepalive => KeepaliveReceives(r);
    case OpFlush => FlushOpsReceive(r, 0);
    case OpFlushDue(now) => FlushOpsReceive(r, now);
  }

  /** From `r` to `s` the same is received and accepted, or one packet more. */
  predicate Accepts(r: Run, s: Run) {
    || (s.accepted == r.accepted && Received(s) == Received(r))
    || (|s.accepted| == |r.accepted| + 1 && s.accepted[..|r.accepted|] == r.accepted
        && Received(s) == Received(r) + [s.accepted[|r.accepted|].packet])
  }

  lemma AcceptsKeepsFidelity(r: Run, s: Run)
    requires Accepts(r, s)
    ensures |s.accepted| - |Received(s)| == |r.accepted| - |Received(r)|
    ensures Received(r) == Packets(r.accepted) ==> Received(s) == Packets(s.accepted)
  {
    if |s.accepted| == |r.accepted| + 1 {
      PacketsAppend(r.accepted, s.accepted[|r.accepted|]);
      assert s.accepted == r.accepted + [s.accepted[|r.accepted|]];
    }
  }

  lemma {:induction false} ExecConfig(maxSize: nat, timeout: nat, ops: seq<Op>)
    ensures Exec(maxSize, timeout, ops).agg.maxSize == maxSize
    ensures Exec(maxSize, timeout, ops).agg.timeout == timeout
  {
    if ops != [] {
      ExecConfig(maxSize, timeout, ops[..|ops| - 1]);
    }
  }

  /** Over every run: nothing sent is damaged, and what is received falls short of what was accepted
      exactly if a batch was dropped. */
  lemma {:induction false} RunReceives(maxSize: nat, timeout: nat, ops: seq<Op>)
    ensures var r := Exec(maxSize, timeout, ops);
      && Clean(r)
      && if NoDrop(maxSize, timeout, ops) then Received(r) == Packets(r.accepted) else |Received(r)| < |r.accepted|
  {
    if ops != [] {
      var prefix, op := ops[..|ops| - 1], ops[|ops| - 1];
      var r := Exec(maxSize, timeout, prefix);
      RunReceives(maxSize, timeout, prefix);
      StepReceives(r, op);
      if !Drops(r, op) {
        AcceptsKeepsFidelity(r, Step(r, op));
      }
    }
  }

  /** Stream fidelity: over every run what the datagrams and then the pending buffer decode to is exactly
      the accepted packets in order if and only if no call drops a batch, and fewer packets otherwise.
      In every run no datagram is corrupt, truncated or over-long. */
  lemma StreamFidelity(maxSize: nat, timeout: nat, ops: seq<Op>)
    ensures var r := Exec(maxSize, timeout, ops);
            var received := Delivered(r.sent + [r.agg.parts]);
            && (received == Packets(r.accepted) <==> NoDrop(maxSize, timeout, ops))
            && (|received| < |r.accepted| <==> !NoDrop(maxSize, timeout, ops))
            && (forall m <- r.sent :: |m| <= maxSize)
            && (forall m <- r.sent, c: Counters :: CountTail(c, Parse(m).tail) == c)
  {
    var r := Exec(maxSize, timeout, ops);
    RunReceives(maxSize, timeout, ops);
    ExecConfig(maxSize, timeout, ops);
    SendOne(r.sent, r.agg.parts);
  }

  /** At 65537 and below, or with no packet above 65535, nothing is ever dropped. */
  lemma {:induction false} SmallRunsDropNothing(maxSize: nat, timeout: nat, ops: seq<Op>)
    requires maxSize <= MAX_PACKET + 2 || forall i | 0 <= i < |ops| && ops[i].OpAdd? :: |ops[i].packet| <= MAX_PACKET
    ensures NoDrop(maxSize, timeout, ops)
  {
    if ops != [] {
      SmallRunsDropNothing(maxSize, timeout, ops[..|ops| - 1]);
      ExecConfig(maxSize, timeout, ops[..|ops| - 1]);
    }
  }
}
