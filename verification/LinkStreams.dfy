/** Managed streams (crates/wfb-link/src/lib.rs): streams are mapped to radio sockets, written into the
    runtime configuration and read back from it as endpoints, and endpoints are checked for conflicts. */
module LinkStreams {
  import opened LinkTypes
  import opened Wrappers

  datatype Stream = Stream(
    name: string, direction: Direction, linkId: Option<nat>, radioPort: nat, appUdp: Addr, radioUdp: Option<Addr>)

  datatype Mapping = Mapping(direction: Direction, linkId: Option<nat>, radioPort: nat, appUdp: Addr, radioUdp: Addr)

  datatype ReserveError = ReserveError(message: string)

  // ---------------------------------------------------------------- mappings

  /** Reserves a free socket outside the given set. */
  type Reserve = f: set<Addr> -> Result<Addr, ReserveError> | Avoids(f) witness _ => Err(ReserveError(""))

  ghost predicate Avoids(f: set<Addr> -> Result<Addr, ReserveError>) {
    forall used :: f(used).Ok? ==> f(used).value !in used
  }

  function Sockets(mappings: seq<Mapping>): set<Addr> {
    set m | m in mappings :: m.radioUdp
  }

  function MapStream(s: Stream, radioUdp: Addr): Mapping {
    Mapping(s.direction, s.linkId, s.radioPort, s.appUdp, radioUdp)
  }

  function Mappings(streams: seq<Stream>, reserve: Reserve): Result<seq<Mapping>, ReserveError> {
    if streams == [] then Ok([])
    else
      var s := streams[|streams| - 1];
      match Mappings(streams[..|streams| - 1], reserve)
      case Err(e) => Err(e)
      case Ok(before) =>
        match (if s.radioUdp.Some? then Ok(s.radioUdp.value) else reserve(Sockets(before)))
        case Err(e) => Err(e)
        case Ok(a) => Ok(before + [MapStream(s, a)])
  }

  method MapStreams(streams: seq<Stream>, reserve: Reserve) returns (r: Result<seq<Mapping>, ReserveError>)
    ensures r == Mappings(streams, reserve)
  {
    var used: set<Addr> := {};
    var mappings: seq<Mapping> := [];
    for i := 0 to |streams|
      invariant used == Sockets(mappings)
      invariant Mappings(streams[..i], reserve) == Ok(mappings)
    {
      var s := streams[i];
      assert streams[..i + 1][..i] == streams[..i];
      var chosen := if s.radioUdp.Some? then Ok(s.radioUdp.value) else reserve(used);
      if chosen.Err? {
        FailureStays(streams, i + 1, reserve);
        return Err(chosen.error);
      }
      used := used + {chosen.value};
      mappings := mappings + [MapStream(s, chosen.value)];
    }
    assert streams[..|streams|] == streams;
    r := Ok(mappings);
  }

  lemma {:induction false} FailureStays(streams: seq<Stream>, k: nat, reserve: Reserve)
    requires k <= |streams| && Mappings(streams[..k], reserve).Err?
    ensures Mappings(streams, reserve) == Mappings(streams[..k], reserve)
    decreases |streams|
  {
    if k < |streams| {
      assert streams[..|streams| - 1][..k] == streams[..k];
      FailureStays(streams[..|streams| - 1], k, reserve);
    } else {
      assert streams[..k] == streams;
    }
  }

  /** The stream's own radio socket is one that an earlier stream already has. */
  predicate Clashes(streams: seq<Stream>, mappings: seq<Mapping>, i: nat)
    requires i < |streams| && i <= |mappings|
  {
    streams[i].radioUdp.Some? && streams[i].radioUdp.value in Sockets(mappings[..i])
  }

  function Radio(mappings: seq<Mapping>): (s: seq<Addr>)
    ensures |s| == |mappings|
  {
    seq(|mappings|, i requires 0 <= i < |mappings| => mappings[i].radioUdp)
  }

  /** Each stream gets its own mapping, on the socket it asks for if it does; and all sockets are distinct
      exactly if no stream asks for a socket that an earlier one has, be it asked for or reserved. */
  lemma {:induction false} MappingsFollowStreams(streams: seq<Stream>, reserve: Reserve)
    requires Mappings(streams, reserve).Ok?
    ensures var m := Mappings(streams, reserve).value;
      && |m| == |streams|
      && (forall i | 0 <= i < |m| :: m[i] == MapStream(streams[i], m[i].radioUdp)
                                  && (streams[i].radioUdp.Some? ==> m[i].radioUdp == streams[i].radioUdp.value))
      && (Distinct(Radio(m)) <==> forall i | 0 <= i < |m| :: !Clashes(streams, m, i))
  {
    if streams != [] {
      var last := |streams| - 1;
      MappingsFollowStreams(streams[..last], reserve);
      var m, before := Mappings(streams, reserve).value, Mappings(streams[..last], reserve).value;
      assert m[..last] == before;
      assert forall i | 0 <= i < last :: m[..i] == before[..i];
      LastSocket(before, m[last]);
      if Distinct(Radio(before)) && !Clashes(streams, m, last) {
        assert m[last].radioUdp !in Sockets(before);
      }
      if m[last].radioUdp in Sockets(before) {
        assert Clashes(streams, m, last);
      }
      assert forall i | 0 <= i < last :: Clashes(streams, m, i) <==> Clashes(streams[..last], before, i);
    }
  }

  lemma InSockets(mappings: seq<Mapping>, a: Addr)
    ensures a in Sockets(mappings) <==> a in Radio(mappings)
  {
    if a in Sockets(mappings) {
      var b :| b in mappings && b.radioUdp == a;
      var i :| 0 <= i < |mappings| && mappings[i] == b;
      assert Radio(mappings)[i] == a;
    }
  }

  lemma DistinctGrows(s: seq<Addr>, a: Addr)
    ensures Distinct(s + [a]) <==> Distinct(s) && a !in s
  {
    var t := s + [a];
    assert t[|s|] == a && forall i | 0 <= i < |s| :: t[i] == s[i];
    if Distinct(t) {
      assert forall i | 0 <= i < |s| :: t[i] != t[|s|];
    }
  }

  lemma LastSocket(before: seq<Mapping>, m: Mapping)
    ensures Distinct(Radio(before + [m])) <==> Distinct(Radio(before)) && m.radioUdp !in Sockets(before)
  {
    assert Radio(before + [m]) == Radio(before) + [m.radioUdp];
    InSockets(before, m.radioUdp);
    DistinctGrows(Radio(before), m.radioUdp);
  }

  // ---------------------------------------------------------------- into the configuration

  function Going(mappings: seq<Mapping>, d: Direction): seq<Mapping> {
    if mappings == [] then []
    else (if mappings[0].direction == d then [mappings[0]] else []) + Going(mappings[1..], d)
  }

  function ForwardOf(m: Mapping): RxForward {
    RxForward(m.linkId, m.radioPort, Some(m.radioUdp))
  }

  function Forwards(mappings: seq<Mapping>): (f: seq<RxForward>)
    ensures |f| == |mappings|
  {
    seq(|mappings|, i requires 0 <= i < |mappings| => ForwardOf(mappings[i]))
  }

  function Applied(c: Config, mappings: seq<Mapping>): Config {
    var tx, rx := Radio(Going(mappings, Tx)), Going(mappings, Rx);
    Config(
      if tx == [] then c.bindAddr else tx[0],
      if tx == [] then [] else tx[1..],
      if rx == [] then PrimaryForward(None, None, None)
      else PrimaryForward(rx[0].linkId, Some(rx[0].radioPort), Some(rx[0].radioUdp)),
      if rx == [] then [] else Forwards(rx[1..]))
  }

  // ---------------------------------------------------------------- endpoints of a configuration

  function Decimal(n: nat): (s: string)
    ensures |s| > 0 && forall i | 0 <= i < |s| :: '0' <= s[i] <= '9'
  {
    if n < 10 then ['0' + n as char] else Decimal(n / 10) + ['0' + (n % 10) as char]
  }

  function TxEndpoint(i: nat, a: Addr): Endpoint {
    Endpoint("tx" + Decimal(i), Tx, a, Required, None)
  }

  function TxEndpoints(binds: seq<Addr>): (e: seq<Endpoint>)
    ensures |e| == |binds|
  {
    seq(|binds|, i requires 0 <= i < |binds| => TxEndpoint(i, binds[i]))
  }

  function RxEndpoint(name: string, linkId: Option<nat>, radioPort: nat, a: Addr): Endpoint {
    Endpoint(name, Rx, a, Required, Some(StreamId(linkId, radioPort)))
  }

  function PrimaryEndpoints(p: PrimaryForward): seq<Endpoint> {
    if p.aggregator.Some? && p.radioPort.Some?
    then [RxEndpoint("rx-primary", p.linkId, p.radioPort.value, p.aggregator.value)] else []
  }

  function ForwardEndpoints(forwards: seq<RxForward>): seq<Endpoint> {
    if forwards == [] then []
    else
      var last := |forwards| - 1;
      var f := forwards[last];
      ForwardEndpoints(forwards[..last])
      + (if f.aggregator.None? then [] else [RxEndpoint("rx" + Decimal(last), f.linkId, f.radioPort, f.aggregator.value)])
  }

  function EndpointsOf(c: Config): seq<Endpoint> {
    TxEndpoints(Binds(c)) + PrimaryEndpoints(c.primary) + ForwardEndpoints(c.rxForwards)
  }

  // ---------------------------------------------------------------- reading back

  datatype Triple = Triple(localUdp: Addr, linkId: Option<nat>, radioPort: nat)

  function TripleOfMapping(m: Mapping): Triple {
    Triple(m.radioUdp, m.linkId, m.radioPort)
  }

  function MappingTriples(mappings: seq<Mapping>): (t: seq<Triple>)
    ensures |t| == |mappings|
  {
    seq(|mappings|, i requires 0 <= i < |mappings| => TripleOfMapping(mappings[i]))
  }

  function TxSocket(e: Endpoint): seq<Addr> {
    if e.direction == Tx then [e.localUdp] else []
  }

  function RxTriple(e: Endpoint): seq<Triple> {
    if e.direction == Rx && e.stream.Some?
    then [Triple(e.localUdp, e.stream.value.linkId, e.stream.value.radioPort)] else []
  }

  function TxSockets(e: seq<Endpoint>): seq<Addr> {
    if e == [] then [] else TxSocket(e[0]) + TxSockets(e[1..])
  }

  function RxTriples(e: seq<Endpoint>): seq<Triple> {
    if e == [] then [] else RxTriple(e[0]) + RxTriples(e[1..])
  }

  lemma {:induction false} TxSplits(e: seq<Endpoint>, f: seq<Endpoint>)
    ensures TxSockets(e + f) == TxSockets(e) + TxSockets(f)
  {
    if e == [] {
      assert e + f == f;
    } else {
      assert (e + f)[1..] == e[1..] + f;
      TxSplits(e[1..], f);
    }
  }

  lemma {:induction false} RxSplits(e: seq<Endpoint>, f: seq<Endpoint>)
    ensures RxTriples(e + f) == RxTriples(e) + RxTriples(f)
  {
    if e == [] {
      assert e + f == f;
    } else {
      assert (e + f)[1..] == e[1..] + f;
      RxSplits(e[1..], f);
    }
  }

  lemma {:induction false} TxRead(e: seq<Endpoint>, binds: seq<Addr>)
    requires |e| == |binds| && forall i | 0 <= i < |e| :: e[i].direction == Tx && e[i].localUdp == binds[i]
    ensures TxSockets(e) == binds && RxTriples(e) == []
  {
    if e != [] {
      TxRead(e[1..], binds[1..]);
      assert binds == [binds[0]] + binds[1..];
    }
  }

  lemma {:induction false} AllRx(e: seq<Endpoint>)
    requires forall i | 0 <= i < |e| :: e[i].direction == Rx
    ensures TxSockets(e) == []
  {
    if e != [] {
      AllRx(e[1..]);
    }
  }

  lemma {:induction false} ForwardsAreRx(forwards: seq<RxForward>)
    ensures forall i | 0 <= i < |ForwardEndpoints(forwards)| :: ForwardEndpoints(forwards)[i].direction == Rx
  {
    if forwards != [] {
      ForwardsAreRx(forwards[..|forwards| - 1]);
    }
  }

  lemma OneTriple(e: Endpoint)
    ensures RxTriples([e]) == RxTriple(e)
  {
    assert [e][1..] == [];
  }

  lemma {:induction false} ForwardsRead(mappings: seq<Mapping>)
    ensures RxTriples(ForwardEndpoints(Forwards(mappings))) == MappingTriples(mappings)
  {
    if mappings != [] {
      var last := |mappings| - 1;
      ForwardsRead(mappings[..last]);
      var m := mappings[last];
      var e := RxEndpoint("rx" + Decimal(last), m.linkId, m.radioPort, m.radioUdp);
      assert Forwards(mappings)[..last] == Forwards(mappings[..last]);
      assert Forwards(mappings)[last] == ForwardOf(m);
      RxSplits(ForwardEndpoints(Forwards(mappings[..last])), [e]);
      OneTriple(e);
      assert MappingTriples(mappings) == MappingTriples(mappings[..last]) + [TripleOfMapping(m)];
    }
  }

  lemma PrimaryRead(first: Mapping)
    ensures var e := PrimaryEndpoints(PrimaryForward(first.linkId, Some(first.radioPort), Some(first.radioUdp)));
            RxTriples(e) == [TripleOfMapping(first)]
  {
    OneTriple(RxEndpoint("rx-primary", first.linkId, first.radioPort, first.radioUdp));
  }

  lemma ReceivingRead(rx: seq<Mapping>, d: Config)
    requires d.primary == (if rx == [] then PrimaryForward(None, None, None)
                           else PrimaryForward(rx[0].linkId, Some(rx[0].radioPort), Some(rx[0].radioUdp)))
    requires d.rxForwards == if rx == [] then [] else Forwards(rx[1..])
    ensures RxTriples(PrimaryEndpoints(d.primary)) + RxTriples(ForwardEndpoints(d.rxForwards)) == MappingTriples(rx)
  {
    if rx != [] {
      PrimaryRead(rx[0]);
      ForwardsRead(rx[1..]);
      assert MappingTriples(rx) == [TripleOfMapping(rx[0])] + MappingTriples(rx[1..]);
    }
  }

  /** What is written is read back: the receive triples always, in order; the transmit sockets in order
      exactly if there are any, for without one the configuration keeps its old bind address. */
  lemma ReadBack(c: Config, mappings: seq<Mapping>)
    ensures var e := EndpointsOf(Applied(c, mappings));
      && RxTriples(e) == MappingTriples(Going(mappings, Rx))
      && TxSockets(e) == (if Going(mappings, Tx) == [] then [c.bindAddr] else Radio(Going(mappings, Tx)))
      && (TxSockets(e) == Radio(Going(mappings, Tx)) <==> Going(mappings, Tx) != [])
  {
    var d := Applied(c, mappings);
    EndpointsRead(d);
    ReceivingRead(Going(mappings, Rx), d);
    BindsApplied(c, mappings);
  }

  lemma EndpointsRead(d: Config)
    ensures TxSockets(EndpointsOf(d)) == Binds(d)
    ensures RxTriples(EndpointsOf(d))
         == RxTriples(PrimaryEndpoints(d.primary)) + RxTriples(ForwardEndpoints(d.rxForwards))
  {
    var t, p, f := TxEndpoints(Binds(d)), PrimaryEndpoints(d.primary), ForwardEndpoints(d.rxForwards);
    TxRead(t, Binds(d));
    AllRx(p);
    ForwardsAreRx(d.rxForwards);
    AllRx(f);
    SocketsOfParts(t, p, f);
    TriplesOfParts(t, p, f);
  }

  lemma SocketsOfParts(t: seq<Endpoint>, p: seq<Endpoint>, f: seq<Endpoint>)
    requires TxSockets(p) == [] && TxSockets(f) == []
    ensures TxSockets(t + p + f) == TxSockets(t)
  {
    TxSplits(t, p);
    TxSplits(t + p, f);
  }

  lemma TriplesOfParts(t: seq<Endpoint>, p: seq<Endpoint>, f: seq<Endpoint>)
    requires RxTriples(t) == []
    ensures RxTriples(t + p + f) == RxTriples(p) + RxTriples(f)
  {
    RxSplits(t, p);
    RxSplits(t + p, f);
  }

  lemma BindsApplied(c: Config, mappings: seq<Mapping>)
    ensures Binds(Applied(c, mappings))
         == if Going(mappings, Tx) == [] then [c.bindAddr] else Radio(Going(mappings, Tx))
  {
    var tx := Radio(Going(mappings, Tx));
    assert tx != [] ==> [tx[0]] + tx[1..] == tx;
  }

  // ---------------------------------------------------------------- conflicts

  datatype BuilderError =
    | DuplicateStreamName(name: string)
    | DuplicateLocalUdp(localUdp: Addr)
    | DuplicatePort(direction: Direction, radioPort: nat)

  predicate SamePort(a: Endpoint, b: Endpoint) {
    a.stream.Some? && b.stream.Some? && a.direction == b.direction && a.stream.value.radioPort == b.stream.value.radioPort
  }

  predicate Apart(a: Endpoint, b: Endpoint) {
    a.name != b.name && a.localUdp != b.localUdp && !SamePort(a, b)
  }

  /** Names, sockets and, where a stream has one, direction and radio port are pairwise distinct. */
  predicate AllApart(e: seq<Endpoint>) {
    forall i, j | 0 <= i < j < |e| :: Apart(e[i], e[j])
  }

  function Names(e: seq<Endpoint>): set<string> {
    set s | s in e :: s.name
  }

  function LocalSockets(e: seq<Endpoint>): set<Addr> {
    set s | s in e :: s.localUdp
  }

  function PortOf(s: Endpoint): (Direction, nat)
    requires s.stream.Some?
  {
    (s.direction, s.stream.value.radioPort)
  }

  function Ports(e: seq<Endpoint>): set<(Direction, nat)> {
    set s | s in e && s.stream.Some? :: PortOf(s)
  }

  /** The first thing stream `j` has in common with an earlier one: its name, else its socket, else its
      direction and port. */
  function ConflictAt(e: seq<Endpoint>, j: nat): Option<BuilderError>
    requires j < |e|
  {
    var s := e[j];
    if s.name in Names(e[..j]) then Some(DuplicateStreamName(s.name))
    else if s.localUdp in LocalSockets(e[..j]) then Some(DuplicateLocalUdp(s.localUdp))
    else if s.stream.Some? && PortOf(s) in Ports(e[..j]) then Some(DuplicatePort(s.direction, s.stream.value.radioPort))
    else None
  }

  lemma NoConflictIsApart(before: seq<Endpoint>, s: Endpoint)
    ensures (forall i | 0 <= i < |before| :: Apart(before[i], s))
       <==> s.name !in Names(before) && s.localUdp !in LocalSockets(before)
            && (s.stream.Some? ==> PortOf(s) !in Ports(before))
  {
    if forall i | 0 <= i < |before| :: Apart(before[i], s) {
      assert forall b | b in before :: Apart(b, s);
    } else {
      var i :| 0 <= i < |before| && !Apart(before[i], s);
      assert before[i] in before;
      if SamePort(before[i], s) {
        assert PortOf(before[i]) == PortOf(s);
      }
    }
  }

  lemma ApartGrows(e: seq<Endpoint>, j: nat)
    requires j < |e|
    ensures AllApart(e[..j + 1]) <==> AllApart(e[..j]) && ConflictAt(e, j) == None
    ensures AllApart(e) ==> AllApart(e[..j + 1])
  {
    NoConflictIsApart(e[..j], e[j]);
    assert forall i | 0 <= i < j :: e[..j + 1][i] == e[..j][i];
    assert e[..j + 1][j] == e[j];
  }

  lemma SetsGrow(before: seq<Endpoint>, s: Endpoint)
    ensures Names(before + [s]) == Names(before) + {s.name}
    ensures LocalSockets(before + [s]) == LocalSockets(before) + {s.localUdp}
    ensures Ports(before + [s]) == Ports(before) + if s.stream.Some? then {PortOf(s)} else {}
  {
  }

  /** Accepts exactly the endpoints that are all apart; otherwise the error is that of the first stream in
      conflict with the ones before it. */
  method Validate(e: seq<Endpoint>) returns (r: Result<(), BuilderError>)
    ensures r.Ok? <==> AllApart(e)
    ensures r.Err? ==> exists j :: 0 <= j < |e| && AllApart(e[..j]) && ConflictAt(e, j) == Some(r.error)
  {
    var names: set<string> := {};
    var sockets: set<Addr> := {};
    var ports: set<(Direction, nat)> := {};
    for j := 0 to |e|
      invariant names == Names(e[..j]) && sockets == LocalSockets(e[..j]) && ports == Ports(e[..j])
      invariant AllApart(e[..j])
    {
      var s := e[j];
      ApartGrows(e, j);
      if s.name in names {
        return Err(DuplicateStreamName(s.name));
      }
      if s.localUdp in sockets {
        return Err(DuplicateLocalUdp(s.localUdp));
      }
      if s.stream.Some? {
        if PortOf(s) in ports {
          return Err(DuplicatePort(s.direction, s.stream.value.radioPort));
        }
        ports := ports + {PortOf(s)};
      }
      names, sockets := names + {s.name}, sockets + {s.localUdp};
      SetsGrow(e[..j], s);
      assert e[..j + 1] == e[..j] + [s];
    }
    assert e[..|e|] == e;
    r := Ok(());
  }

  // ---------------------------------------------------------------- names

  lemma DigitChar(a: nat, b: nat)
    requires a < 10 && b < 10 && '0' + a as char == '0' + b as char
    ensures a == b
  {
  }

  lemma {:induction false} DecimalInjective(m: nat, n: nat)
    requires Decimal(m) == Decimal(n)
    ensures m == n
  {
    var s, t := Decimal(m), Decimal(n);
    assert s[|s| - 1] == t[|t| - 1];
    DigitChar(m % 10, n % 10);
    if m >= 10 && n >= 10 {
      assert s[..|s| - 1] == Decimal(m / 10) && t[..|t| - 1] == Decimal(n / 10);
      DecimalInjective(m / 10, n / 10);
    }
  }

  lemma NamesDiffer(prefix: string, m: nat, n: nat)
    requires m != n
    ensures prefix + Decimal(m) != prefix + Decimal(n)
  {
    if prefix + Decimal(m) == prefix + Decimal(n) {
      assert Decimal(m) == (prefix + Decimal(m))[|prefix|..] == (prefix + Decimal(n))[|prefix|..] == Decimal(n);
      DecimalInjective(m, n);
    }
  }

  /** Receive forward endpoints are named by the place of their forward, each by its own. */
  ghost predicate NamedBelow(e: Endpoint, k: nat) {
    exists i: nat :: i < k && e.name == "rx" + Decimal(i)
  }

  lemma {:induction false} ForwardNames(forwards: seq<RxForward>)
    ensures forall x | x in ForwardEndpoints(forwards) :: NamedBelow(x, |forwards|)
    ensures forall i, j | 0 <= i < j < |ForwardEndpoints(forwards)| ::
              ForwardEndpoints(forwards)[i].name != ForwardEndpoints(forwards)[j].name
  {
    if forwards != [] {
      var last := |forwards| - 1;
      ForwardNames(forwards[..last]);
      var before := ForwardEndpoints(forwards[..last]);
      forall x | x in before
        ensures x.name != "rx" + Decimal(last) && NamedBelow(x, |forwards|)
      {
        var i: nat :| i < last && x.name == "rx" + Decimal(i);
        NamesDiffer("rx", i, last);
      }
    }
  }

  lemma ForwardIsNotPrimary(x: Endpoint, k: nat)
    requires NamedBelow(x, k)
    ensures x.name[..2] == "rx" && x.name != "rx-primary"
  {
    var i: nat :| i < k && x.name == "rx" + Decimal(i);
    assert x.name[2] == Decimal(i)[0];
  }

  lemma TxNames(binds: seq<Addr>)
    ensures forall i, j | 0 <= i < j < |binds| :: TxEndpoints(binds)[i].name != TxEndpoints(binds)[j].name
    ensures forall x | x in TxEndpoints(binds) :: |x.name| >= 2 && x.name[..2] == "tx"
  {
    forall i, j | 0 <= i < j < |binds|
      ensures TxEndpoints(binds)[i].name != TxEndpoints(binds)[j].name
    {
      NamesDiffer("tx", i, j);
    }
  }

  ghost predicate NamesApart(e: seq<Endpoint>) {
    forall i, j | 0 <= i < j < |e| :: e[i].name != e[j].name
  }

  lemma NamesJoin(e: seq<Endpoint>, f: seq<Endpoint>)
    requires NamesApart(e) && NamesApart(f)
    requires forall x, y | x in e && y in f :: x.name != y.name
    ensures NamesApart(e + f)
  {
  }

  /** The names given to the endpoints of a configuration never clash. */
  lemma NamesNeverClash(c: Config)
    ensures NamesApart(EndpointsOf(c))
  {
    var t, p, f := TxEndpoints(Binds(c)), PrimaryEndpoints(c.primary), ForwardEndpoints(c.rxForwards);
    TxNames(Binds(c));
    ForwardNames(c.rxForwards);
    forall x, y | x in p && y in f
      ensures x.name != y.name
    {
      ForwardIsNotPrimary(y, |c.rxForwards|);
    }
    NamesJoin(p, f);
    forall x, y | x in t && y in p + f
      ensures x.name != y.name
    {
      if y in f {
        ForwardIsNotPrimary(y, |c.rxForwards|);
      }
      assert y.name[..2] == "rx";
    }
    NamesJoin(t, p + f);
    assert t + (p + f) == EndpointsOf(c);
  }

  /** So a configuration's endpoints are accepted exactly if sockets and receive ports are distinct. */
  lemma ConfigConflicts(c: Config)
    ensures var e := EndpointsOf(c);
      AllApart(e) <==> forall i, j | 0 <= i < j < |e| :: e[i].localUdp != e[j].localUdp && !SamePort(e[i], e[j])
  {
    NamesNeverClash(c);
  }
}
