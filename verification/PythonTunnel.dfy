/** The aggregator of scripts/development/wfb-mac-wf-tun.py, which keeps a list of records and a
    running size, and the proof that the flat-buffer aggregator simulates it. */
module PythonTunnel {
  import opened Wrappers
  import opened Tunnel

  datatype PyError = OverflowError | ValueError

  datatype PyAgg = PyAgg(maxSize: nat, timeout: nat, parts: seq<Bytes>, size: nat, deadline: Option<int>)

  function Join(parts: seq<Bytes>): Bytes {
    if parts == [] then [] else Join(parts[..|parts| - 1]) + parts[|parts| - 1]
  }

  function PyFlush(a: PyAgg): PyAgg {
    a.(parts := [], size := 0, deadline := None)
  }

  predicate PySpills(a: PyAgg, recordLen: nat) {
    a.size != 0 && a.size + recordLen > a.maxSize
  }

  function PyAppend(a: PyAgg, record: Bytes, now: int): PyAgg {
    a.(parts := a.parts + [record], size := a.size + |record|,
       deadline := if a.timeout != 0 && a.deadline == None then Some(now + a.timeout) else a.deadline)
  }

  /** One `add`. Building the record comes first, so an over-long packet raises before anything else. */
  function PyAdd(a: PyAgg, packet: Bytes, now: int): (PyAgg, Result<seq<Bytes>, PyError>) {
    if |packet| > MAX_PACKET then (a, Err(OverflowError))
    else
      var record := Record(packet);
      if |record| > a.maxSize then (a, Err(ValueError))
      else
        var spilled := if PySpills(a, |record|) then [Join(a.parts)] else [];
        var room := if PySpills(a, |record|) then PyFlush(a) else a;
        var full := PyAppend(room, record, now);
        if a.timeout == 0 then (PyFlush(full), Ok(NonEmpty(spilled + [Join(full.parts)])))
        else (full, Ok(NonEmpty(spilled)))
  }

  function PyFlushDue(a: PyAgg, now: int): (PyAgg, Option<Bytes>) {
    if a.deadline.Some? && now >= a.deadline.value then (PyFlush(a), Some(Join(a.parts))) else (a, None)
  }

  class Aggregator {
    const maxSize: nat
    const timeout: nat
    var parts: seq<Bytes>
    var size: nat
    var deadline: Option<int>

    function View(): PyAgg
      reads this
    {
      PyAgg(maxSize, timeout, parts, size, deadline)
    }

    constructor (maxSize: nat, timeout: nat)
      ensures View() == PyAgg(maxSize, timeout, [], 0, None)
    {
      this.maxSize, this.timeout := maxSize, timeout;
      parts, size, deadline := [], 0, None;
    }

    method Flush() returns (data: Bytes)
      modifies this
      ensures data == Join(old(parts)) && View() == PyFlush(old(View()))
    {
      data := Join(parts);
      parts, size, deadline := [], 0, None;
    }

    method AddPacket(packet: Bytes, now: int) returns (r: Result<seq<Bytes>, PyError>)
      modifies this
      ensures (View(), r) == PyAdd(old(View()), packet, now)
    {
      if |packet| > 0xffff {
        return Err(OverflowError);
      }
      var record := Record(packet);
      if |record| > maxSize {
        return Err(ValueError);
      }
      var out: seq<Bytes> := [];
      if size != 0 && size + |record| > maxSize {
        var message := Flush();
        out := out + [message];
      }
      ghost var room := View();
      ghost var spilled := out;
      parts := parts + [record];
      size := size + |record|;
      if timeout == 0 {
        var message := Flush();
        out := out + [message];
        assert out == spilled + [Join(PyAppend(room, record, now).parts)];
      } else if deadline == None {
        deadline := Some(now + timeout);
      }
      assert room == if PySpills(old(View()), |record|) then PyFlush(old(View())) else old(View());
      assert View() == if timeout == 0 then PyFlush(room) else PyAppend(room, record, now);
      assert spilled == if PySpills(old(View()), |record|) then [Join(old(parts))] else [];
      return Ok(NonEmpty(out));
    }
  }

  // ---------------------------------------------------------------- simulation

  /** The two aggregators hold the same bytes, settings and deadline; the deadline is set iff they
      hold any. */
  ghost predicate Simulates(a: Agg, p: PyAgg) {
    && a.maxSize == p.maxSize && a.timeout == p.timeout && a.deadline == p.deadline
    && a.parts == Join(p.parts) && p.size == |a.parts|
    && (a.parts == [] <==> a.deadline == None)
  }

  predicate SameVerdict(rust: Result<seq<Bytes>, TunError>, python: Result<seq<Bytes>, PyError>) {
    match (rust, python)
    case (Ok(m), Ok(n)) => m == n
    case (Err(_), Err(_)) => true
    case _ => false
  }

  lemma JoinOne(parts: seq<Bytes>, record: Bytes)
    ensures Join(parts + [record]) == Join(parts) + record
  {
    assert (parts + [record])[..|parts|] == parts;
  }

  lemma AppendSimulates(a: Agg, p: PyAgg, packet: Packet, now: int)
    requires Simulates(a, p)
    ensures Append(a, packet, now).parts == Join(PyAppend(p, Record(packet), now).parts) != []
    ensures a.timeout != 0 ==> Simulates(Append(a, packet, now), PyAppend(p, Record(packet), now))
  {
    JoinOne(p.parts, Record(packet));
  }

  /** From related states, one `add` emits or rejects the same on both sides; the states stay related
      exactly when the flat-buffer version does not throw a flushed batch away. */
  lemma AddSimulates(a: Agg, p: PyAgg, packet: Bytes, now: int)
    requires Simulates(a, p)
    ensures SameVerdict(Add(a, packet, now).1, PyAdd(p, packet, now).1)
    ensures Simulates(Add(a, packet, now).0, PyAdd(p, packet, now).0) <==> !DropsBatch(a, packet)
  {
    if |packet| <= MAX_PACKET && |packet| + 2 <= a.maxSize {
      var spills := Overflows(a, |packet| + 2);
      assert spills == PySpills(p, |Record(packet)|);
      if spills {
        AppendSimulates(Flush(a), PyFlush(p), packet, now);
      } else {
        AppendSimulates(a, p, packet, now);
      }
      NonEmptyKeeps(Add(a, packet, now).1.value);
    }
  }

  lemma FlushDueSimulates(a: Agg, p: PyAgg, now: int)
    requires Simulates(a, p)
    ensures FlushDue(a, now).1 == PyFlushDue(p, now).1
    ensures Simulates(FlushDue(a, now).0, PyFlushDue(p, now).0)
  {
  }

  datatype PyRun = PyRun(agg: PyAgg, sent: seq<Bytes>, accepted: seq<Stamped>)

  function PyStep(r: PyRun, op: Op): PyRun {
    match op
    case OpAdd(packet, now) =>
      var (agg, result) := PyAdd(r.agg, packet, now);
      if result.Ok? then PyRun(agg, r.sent + result.value, r.accepted + [Stamped(packet, now)])
      else r.(agg := agg)
    case OpFlushDue(now) =>
      var (agg, message) := PyFlushDue(r.agg, now);
      PyRun(agg, if message.Some? then r.sent + [message.value] else r.sent, r.accepted)
    case OpFlush =>
      var message := Join(r.agg.parts);
      PyRun(PyFlush(r.agg), if message == [] then r.sent else r.sent + [message], r.accepted)
    case OpKeepalive =>
      r.(sent := r.sent + [[]])
  }

  function PyExec(maxSize: nat, timeout: nat, ops: seq<Op>): PyRun {
    if ops == [] then PyRun(PyAgg(maxSize, timeout, [], 0, None), [], [])
    else PyStep(PyExec(maxSize, timeout, ops[..|ops| - 1]), ops[|ops| - 1])
  }

  /** While no call drops a batch, the same calls give the same datagrams, acceptances, sizes and deadlines
      on both sides. */
  lemma {:induction false} StepsSimulate(maxSize: nat, timeout: nat, ops: seq<Op>)
    requires NoDrop(maxSize, timeout, ops)
    ensures SameRun(Exec(maxSize, timeout, ops), PyExec(maxSize, timeout, ops))
  {
    if ops != [] {
      var prefix, op := ops[..|ops| - 1], ops[|ops| - 1];
      StepsSimulate(maxSize, timeout, prefix);
      var rust, python := Exec(maxSize, timeout, prefix), PyExec(maxSize, timeout, prefix);
      match op
      case OpAdd(packet, now) => AddSimulates(rust.agg, python.agg, packet, now);
      case OpFlushDue(now) => FlushDueSimulates(rust.agg, python.agg, now);
      case _ =>
    }
  }

  ghost predicate SameRun(rust: Run, python: PyRun) {
    rust.sent == python.sent && rust.accepted == python.accepted && Simulates(rust.agg, python.agg)
  }

  /** The run without the packets that no record header can describe. */
  function Encodable(ops: seq<Op>): seq<Op> {
    if ops == [] then []
    else
      var before, op := Encodable(ops[..|ops| - 1]), ops[|ops| - 1];
      if op.OpAdd? && |op.packet| > MAX_PACKET then before else before + [op]
  }

  /** The list of records ignores those packets, wherever they come. */
  lemma {:induction false} PythonIgnoresOverlong(maxSize: nat, timeout: nat, ops: seq<Op>)
    ensures PyExec(maxSize, timeout, ops) == PyExec(maxSize, timeout, Encodable(ops))
    ensures forall op <- Encodable(ops) :: op.OpAdd? ==> |op.packet| <= MAX_PACKET
  {
    if ops != [] {
      var before, op := Encodable(ops[..|ops| - 1]), ops[|ops| - 1];
      PythonIgnoresOverlong(maxSize, timeout, ops[..|ops| - 1]);
      assert (before + [op])[..|before|] == before;
    }
  }

  lemma SameRunsReceiveTheSame(r: Run, s: Run, python: PyRun)
    requires SameRun(r, python) && SameRun(s, python)
    ensures Received(r) == Received(s) && r.accepted == s.accepted
  {
  }

  /** The flat buffer and the list of records give the same datagrams, acceptances, sizes and deadlines in
      exactly the runs in which no call drops a batch. */
  lemma RustSimulatesPython(maxSize: nat, timeout: nat, ops: seq<Op>)
    ensures SameRun(Exec(maxSize, timeout, ops), PyExec(maxSize, timeout, ops)) <==> NoDrop(maxSize, timeout, ops)
  {
    if NoDrop(maxSize, timeout, ops) {
      StepsSimulate(maxSize, timeout, ops);
    }
    if SameRun(Exec(maxSize, timeout, ops), PyExec(maxSize, timeout, ops)) {
      var encodable := Encodable(ops);
      PythonIgnoresOverlong(maxSize, timeout, ops);
      SmallRunsDropNothing(maxSize, timeout, encodable);
      StepsSimulate(maxSize, timeout, encodable);
      SameRunsReceiveTheSame(
        Exec(maxSize, timeout, ops), Exec(maxSize, timeout, encodable), PyExec(maxSize, timeout, ops));
      RunReceives(maxSize, timeout, ops);
      RunReceives(maxSize, timeout, encodable);
    }
  }
}
