/** Timing, packing and accounting of whole aggregator runs. */
module TunnelRuns {
  import opened Wrappers
  import opened Tunnel

  // ---------------------------------------------------------------- latency

  function OldestPending(r: Run): int {
    |r.accepted| - PendingCount(r)
  }

  /** The pending packets are the last accepted ones, and the deadline is that of the oldest. */
  ghost predicate Timely(r: Run) {
    && Parse(r.agg.parts).tail == []
    && 0 <= OldestPending(r)
    && Parse(r.agg.parts).packets == Packets(r.accepted)[OldestPending(r)..]
    && (r.agg.parts == [] <==> PendingCount(r) == 0)
    && r.agg.deadline == (if r.agg.parts == [] then None
                          else Some(r.accepted[OldestPending(r)].time + r.agg.timeout))
  }

  lemma TimelyFlush(r: Run)
    requires Timely(r)
    ensures Timely(Flushed(r))
  {
    assert Parse([]).packets == [];
  }

  lemma TimelyAppend(r: Run, packet: Packet, now: int)
    requires Timely(r)
    ensures Timely(Appended(r, packet, now))
  {
    ParseAppend(r.agg.parts, packet);
    PacketsAppend(r.accepted, Stamped(packet, now));
    SuffixGrows(Packets(r.accepted), OldestPending(r), packet);
  }

  lemma TimelyAdd(r: Run, packet: Packet, now: int)
    requires Timely(r) && |packet| + 2 <= r.agg.maxSize
    ensures Timely(Step(r, OpAdd(packet, now)))
  {
    var room := if Overflows(r.agg, |packet| + 2) then Flushed(r) else r;
    TimelyFlush(r);
    TimelyAppend(room, packet, now);
    TimelyFlush(Appended(room, packet, now));
    AddInSteps(r, packet, now);
  }

  lemma SuffixGrows(packets: seq<Packet>, from: nat, packet: Packet)
    requires from <= |packets|
    ensures packets[from..] + [packet] == (packets + [packet])[from..]
  {
  }

  /** In every run, also one that drops a batch, the deadline is set exactly when bytes are pending,
      and it is the acceptance time of the oldest pending packet plus the timeout. */
  lemma {:induction false} DeadlineIsOldestPlusTimeout(maxSize: nat, timeout: nat, ops: seq<Op>)
    ensures Timely(Exec(maxSize, timeout, ops))
  {
    if ops != [] {
      var prefix, op := ops[..|ops| - 1], ops[|ops| - 1];
      DeadlineIsOldestPlusTimeout(maxSize, timeout, prefix);
      var r := Exec(maxSize, timeout, prefix);
      if op.OpAdd? && |op.packet| <= MAX_PACKET && |op.packet| + 2 <= r.agg.maxSize {
        TimelyAdd(r, op.packet, op.now);
      }
    }
  }

  ghost predicate AddsInOrder(ops: seq<Op>) {
    forall i, j | 0 <= i < j < |ops| && ops[i].OpAdd? && ops[j].OpAdd? :: ops[i].now <= ops[j].now
  }

  lemma {:induction false} AcceptedInOrder(maxSize: nat, timeout: nat, ops: seq<Op>)
    requires AddsInOrder(ops)
    ensures var accepted := Exec(maxSize, timeout, ops).accepted;
            && (forall s <- accepted :: exists i :: 0 <= i < |ops| && ops[i].OpAdd? && ops[i].now == s.time)
            && (forall i, j | 0 <= i < j < |accepted| :: accepted[i].time <= accepted[j].time)
  {
    if ops != [] {
      var prefix := ops[..|ops| - 1];
      AcceptedInOrder(maxSize, timeout, prefix);
      var before, after := Exec(maxSize, timeout, prefix).accepted, Exec(maxSize, timeout, ops).accepted;
      var op := ops[|ops| - 1];
      assert after == before || (op.OpAdd? && after == before + [Stamped(op.packet, op.now)]);
      forall s <- before
        ensures exists i :: 0 <= i < |ops| && ops[i].OpAdd? && ops[i].now == s.time
      {
        var i :| 0 <= i < |prefix| && prefix[i].OpAdd? && prefix[i].now == s.time;
        assert ops[i] == prefix[i];
      }
    }
  }

  /** Bounded latency: after a `flush_due` at `now`, every packet still pending was accepted later
      than `now - timeout`. */
  lemma FlushDueBoundsLatency(maxSize: nat, timeout: nat, ops: seq<Op>, now: int)
    requires AddsInOrder(ops)
    ensures var r := Exec(maxSize, timeout, ops + [OpFlushDue(now)]);
            && 0 <= OldestPending(r)
            && forall i | OldestPending(r) <= i < |r.accepted| :: r.accepted[i].time > now - timeout
  {
    var run := ops + [OpFlushDue(now)];
    assert run[..|ops|] == ops;
    AcceptedInOrder(maxSize, timeout, run);
    DeadlineIsOldestPlusTimeout(maxSize, timeout, run);
    ExecConfig(maxSize, timeout, ops);
  }

  // ---------------------------------------------------------------- packing

  function Flatten(groups: seq<seq<Packet>>): seq<Packet> {
    if groups == [] then [] else Flatten(groups[..|groups| - 1]) + groups[|groups| - 1]
  }

  ghost predicate Fits(maxSize: nat, groups: seq<seq<Packet>>) {
    forall g <- groups :: |Encode(g)| <= maxSize
  }

  /** Only packets and deadline polls that do not fire: nothing but overflow can emit a message. */
  predicate Quiet(maxSize: nat, timeout: nat, ops: seq<Op>) {
    ops == [] ||
    var prefix, op := ops[..|ops| - 1], ops[|ops| - 1];
    && Quiet(maxSize, timeout, prefix)
    && (|| op.OpAdd?
        || (op.OpFlushDue? && FlushDue(Exec(maxSize, timeout, prefix).agg, op.now).1 == None))
  }

  /** The greedy buffer stays ahead of every other split: it has sent fewer messages, or as many with
      no more pending bytes than the split's last group. */
  ghost predicate Ahead(r: Run, groups: seq<seq<Packet>>)
    requires groups != []
  {
    || |r.sent| + 1 < |groups|
    || (|r.sent| + 1 == |groups| && |r.agg.parts| <= |Encode(groups[|groups| - 1])|)
  }

  lemma LastOf<T>(a: seq<T>, x: T, b: seq<T>, y: T)
    requires a + [x] == b + [y]
    ensures a == b && x == y
  {
    assert (a + [x])[|a|] == x && (b + [y])[|b|] == y;
    assert a == (a + [x])[..|a|] && b == (b + [y])[..|b|];
  }

  lemma {:induction false} GreedyStaysAhead(maxSize: nat, timeout: nat, ops: seq<Op>, groups: seq<seq<Packet>>)
    requires 0 < timeout && Quiet(maxSize, timeout, ops)
    requires groups != [] && Fits(maxSize, groups)
    requires Flatten(groups) == Packets(Exec(maxSize, timeout, ops).accepted)
    ensures Ahead(Exec(maxSize, timeout, ops), groups)
    decreases |ops|, |groups|
  {
    if ops != [] {
      var prefix, op := ops[..|ops| - 1], ops[|ops| - 1];
      var before, after := Exec(maxSize, timeout, prefix), Exec(maxSize, timeout, ops);
      var front, last := groups[..|groups| - 1], groups[|groups| - 1];
      ExecConfig(maxSize, timeout, prefix);
      DeadlineIsOldestPlusTimeout(maxSize, timeout, prefix);
      if after.accepted == before.accepted {
        GreedyStaysAhead(maxSize, timeout, prefix, groups);
        NothingAcceptedStaysAhead(before, op, groups);
      } else if last == [] {
        PacketsAppend(before.accepted, Stamped(op.packet, op.now));
        assert front != [] && Flatten(front) == Flatten(groups);
        GreedyStaysAhead(maxSize, timeout, ops, front);
      } else {
        PacketsAppend(before.accepted, Stamped(op.packet, op.now));
        var shorter := last[..|last| - 1];
        assert last == shorter + [last[|last| - 1]];
        assert Flatten(groups) == (Flatten(front) + shorter) + [last[|last| - 1]];
        LastOf(Flatten(front) + shorter, last[|last| - 1], Packets(before.accepted), op.packet);
        EncodeAppend(shorter, op.packet);
        var fewer := front + [shorter];
        assert fewer[..|front|] == front && Flatten(fewer) == Flatten(front) + shorter;
        assert last in groups;
        GreedyStaysAhead(maxSize, timeout, prefix, fewer);
        AheadAfterAdd(before, op.packet, op.now, fewer, groups);
      }
    }
  }

  lemma NothingAcceptedStaysAhead(r: Run, op: Op, groups: seq<seq<Packet>>)
    requires op.OpAdd? || (op.OpFlushDue? && FlushDue(r.agg, op.now).1 == None)
    requires Timely(r) && Step(r, op).accepted == r.accepted && groups != [] && Ahead(r, groups)
    ensures Ahead(Step(r, op), groups)
  {
    var s := Step(r, op);
    assert s.sent == r.sent && (s.agg.parts == r.agg.parts || s.agg.parts == []);
  }

  lemma AheadAfterAdd(r: Run, packet: Packet, now: int, fewer: seq<seq<Packet>>, groups: seq<seq<Packet>>)
    requires 0 < r.agg.timeout && |packet| + 2 <= r.agg.maxSize
    requires |fewer| == |groups| > 0 && Ahead(r, fewer)
    requires |Encode(groups[|groups| - 1])| == |Encode(fewer[|groups| - 1])| + |packet| + 2 <= r.agg.maxSize
    ensures Ahead(Step(r, OpAdd(packet, now)), groups)
  {
  }

  /** Optimal packing: with a positive timeout that never fires, no split of the accepted packets
      into consecutive groups of encoded size at most `maxSize` uses fewer messages. */
  lemma PackingIsOptimal(maxSize: nat, timeout: nat, ops: seq<Op>, groups: seq<seq<Packet>>)
    requires 0 < timeout && Quiet(maxSize, timeout, ops)
    requires Fits(maxSize, groups)
    requires Flatten(groups) == Packets(Exec(maxSize, timeout, ops).accepted)
    ensures |Exec(maxSize, timeout, ops + [OpFlush]).sent| <= |groups|
  {
    var r := Exec(maxSize, timeout, ops);
    assert (ops + [OpFlush])[..|ops|] == ops;
    if groups == [] {
      NothingAccepted(maxSize, timeout, ops);
    } else {
      GreedyStaysAhead(maxSize, timeout, ops, groups);
      if |r.sent| + 1 == |groups| && r.agg.parts == [] {
        assert |Step(r, OpFlush).sent| == |r.sent|;
      }
    }
  }

  lemma {:induction false} NothingAccepted(maxSize: nat, timeout: nat, ops: seq<Op>)
    requires 0 < timeout && Quiet(maxSize, timeout, ops)
    requires Exec(maxSize, timeout, ops).accepted == []
    ensures Exec(maxSize, timeout, ops) == Run(NewAgg(maxSize, timeout), [], [])
  {
    if ops != [] {
      NothingAccepted(maxSize, timeout, ops[..|ops| - 1]);
    }
  }

  // ---------------------------------------------------------------- bytes

  function TotalLen(messages: seq<Bytes>): nat {
    if messages == [] then 0 else TotalLen(messages[..|messages| - 1]) + |messages[|messages| - 1]|
  }

  /** Bytes sent or pending, less payload and two header bytes for every accepted packet. */
  function Imbalance(r: Run): int {
    TotalLen(r.sent) + |r.agg.parts| - TotalLen(Packets(r.accepted)) - 2 * |r.accepted|
  }

  /** Every accepted payload byte and two header bytes a packet are sent or still pending, exactly if no
      call of the run drops a batch; otherwise bytes are missing. */
  lemma {:induction false} BytesConserved(maxSize: nat, timeout: nat, ops: seq<Op>)
    ensures Imbalance(Exec(maxSize, timeout, ops)) <= 0
    ensures Imbalance(Exec(maxSize, timeout, ops)) == 0 <==> NoDrop(maxSize, timeout, ops)
  {
    if ops != [] {
      var prefix := ops[..|ops| - 1];
      BytesConserved(maxSize, timeout, prefix);
      StepConserves(Exec(maxSize, timeout, prefix), ops[|ops| - 1]);
    }
  }

  lemma SentLen(sent: seq<Bytes>, message: Bytes)
    ensures TotalLen(sent + [message]) == TotalLen(sent) + |message|
  {
    assert (sent + [message])[..|sent|] == sent;
  }

  lemma StepConserves(r: Run, op: Op)
    ensures Imbalance(Step(r, op)) == Imbalance(r) - if Drops(r, op) then |r.agg.parts| else 0
    ensures Drops(r, op) ==> r.agg.parts != []
  {
    match op
    case OpAdd(packet, now) =>
      if !Drops(r, op) {
        AddConserves(r, packet, now);
      }
    case OpKeepalive => SentLen(r.sent, []);
    case _ => SentLen(r.sent, r.agg.parts);
  }

  lemma FlushConserves(r: Run)
    ensures Imbalance(Flushed(r)) == Imbalance(r)
  {
    SentLen(r.sent, r.agg.parts);
  }

  lemma AppendConserves(r: Run, packet: Packet, now: int)
    ensures Imbalance(Appended(r, packet, now)) == Imbalance(r)
  {
    PacketsAppend(r.accepted, Stamped(packet, now));
    SentLen(Packets(r.accepted), packet);
  }

  lemma AddConserves(r: Run, packet: Bytes, now: int)
    requires !DropsBatch(r.agg, packet)
    ensures Imbalance(Step(r, OpAdd(packet, now))) == Imbalance(r)
  {
    if |packet| <= MAX_PACKET && |packet| + 2 <= r.agg.maxSize {
      var room := if Overflows(r.agg, |packet| + 2) then Flushed(r) else r;
      FlushConserves(r);
      AppendConserves(room, packet, now);
      FlushConserves(Appended(room, packet, now));
      AddInSteps(r, packet, now);
    }
  }
}
