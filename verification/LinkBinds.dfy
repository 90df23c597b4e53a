/** The bind preflight of crates/wfb-link/src/lib.rs: best-effort transmit sockets that cannot be bound are
    dropped from the runtime configuration and reported. */
module LinkBinds {
  import opened LinkTypes
  import opened Wrappers

  datatype Degradation = Degradation(name: string, reason: string)

  /** What binding the socket of the i-th stream answers; None is success. */
  type BindOracle = nat -> Option<string>

  function Without(s: seq<Addr>, gone: set<Addr>): seq<Addr> {
    if s == [] then [] else (if s[0] in gone then [] else [s[0]]) + Without(s[1..], gone)
  }

  function Removed(c: Config, a: Addr): Config {
    if c.bindAddr == a then
      if c.txBinds == [] then c.(bindAddr := FALLBACK) else c.(bindAddr := c.txBinds[0], txBinds := c.txBinds[1..])
    else c.(txBinds := Without(c.txBinds, {a}))
  }

  predicate Checked(s: Endpoint) {
    s.direction == Tx && s.criticality == BestEffort
  }

  predicate Fails(streams: seq<Endpoint>, bind: BindOracle, i: nat)
    requires i < |streams|
  {
    Checked(streams[i]) && bind(i).Some?
  }

  function Degrade(s: Endpoint, reason: string): Degradation {
    Degradation(s.name, reason)
  }

  /** The state of the preflight after its first `k` streams. */
  function Preflight(c: Config, streams: seq<Endpoint>, bind: BindOracle, k: nat): (Config, seq<Degradation>)
    requires k <= |streams|
  {
    if k == 0 then (c, [])
    else
      var (d, degraded) := Preflight(c, streams, bind, k - 1);
      var s := streams[k - 1];
      if Fails(streams, bind, k - 1) && s.localUdp in Binds(d)
      then (Removed(d, s.localUdp), degraded + [Degrade(s, bind(k - 1).value)])
      else (d, degraded)
  }

  // ---------------------------------------------------------------- filtering

  lemma {:induction false} WithoutMembers(s: seq<Addr>, gone: set<Addr>)
    ensures forall a :: a in Without(s, gone) <==> a in s && a !in gone
    ensures Distinct(s) ==> Distinct(Without(s, gone))
  {
    if s != [] {
      WithoutMembers(s[1..], gone);
      assert s == [s[0]] + s[1..];
      if Distinct(s) {
        assert s[0] !in s[1..];
      }
    }
  }

  lemma {:induction false} WithoutTwice(s: seq<Addr>, a: set<Addr>, b: set<Addr>)
    ensures Without(Without(s, a), b) == Without(s, a + b)
  {
    if s != [] {
      WithoutTwice(s[1..], a, b);
      if s[0] in a {
        assert Without(s, a) == Without(s[1..], a);
      } else {
        assert Without(s, a) == [s[0]] + Without(s[1..], a);
        assert Without(s, a)[1..] == Without(s[1..], a);
      }
    }
  }

  lemma {:induction false} WithoutAbsent(s: seq<Addr>, gone: set<Addr>)
    requires forall i | 0 <= i < |s| :: s[i] !in gone
    ensures Without(s, gone) == s
  {
    if s != [] {
      WithoutAbsent(s[1..], gone);
    }
  }

  // ---------------------------------------------------------------- one removal

  function OrFallback(binds: seq<Addr>): seq<Addr> {
    if binds == [] then [FALLBACK] else binds
  }

  /** From distinct binds a removal takes just the socket named, keeping the order of the rest. */
  lemma RemovedKeepsOrder(c: Config, a: Addr)
    requires Distinct(Binds(c))
    requires a in Binds(c)
    ensures Binds(Removed(c, a)) == OrFallback(Without(Binds(c), {a}))
  {
    var binds := Binds(c);
    assert binds[1..] == c.txBinds;
    if c.bindAddr == a {
      forall i | 0 <= i < |c.txBinds|
        ensures c.txBinds[i] !in {a}
      {
        assert binds[i + 1] == c.txBinds[i] && binds[0] == a;
      }
      WithoutAbsent(c.txBinds, {a});
    }
  }

  /** With repeated binds it does not: a socket is gone after its removal unless it is both the first bind
      and one of the others, or is the only bind and the fallback that takes its place. */
  lemma RemovedIsGone(c: Config, a: Addr)
    ensures a !in Binds(Removed(c, a))
       <==> !(c.bindAddr == a && (a in c.txBinds || (a == FALLBACK && c.txBinds == [])))
  {
    WithoutMembers(c.txBinds, {a});
  }

  lemma {:induction false} RemovalSparesOthers(c: Config, a: Addr, gone: set<Addr>)
    requires a in gone && FALLBACK in gone
    ensures Without(Binds(Removed(c, a)), gone) == Without(Binds(c), gone)
  {
    assert Binds(c)[1..] == c.txBinds;
    var d := Removed(c, a);
    assert Binds(d)[1..] == d.txBinds;
    if c.bindAddr == a {
      if c.txBinds != [] {
        assert Binds(d) == c.txBinds;
      }
    } else {
      WithoutTwice(c.txBinds, {a}, gone);
      assert {a} + gone == gone;
    }
  }

  // ---------------------------------------------------------------- the whole preflight

  /** The sockets that failed among the first `k` streams. */
  function FailedSockets(streams: seq<Endpoint>, bind: BindOracle, k: nat): set<Addr>
    requires k <= |streams|
  {
    if k == 0 then {}
    else
      var before := FailedSockets(streams, bind, k - 1);
      if Fails(streams, bind, k - 1) then before + {streams[k - 1].localUdp} else before
  }

  /** For all configurations and streams, distinct or not: every bind that did not fail stays, with its
      repetitions and in its place among the others. */
  lemma {:induction false} OtherBindsStay(c: Config, streams: seq<Endpoint>, bind: BindOracle, k: nat, gone: set<Addr>)
    requires k <= |streams| && FALLBACK in gone && FailedSockets(streams, bind, k) <= gone
    ensures Without(Binds(Preflight(c, streams, bind, k).0), gone) == Without(Binds(c), gone)
  {
    if k != 0 {
      OtherBindsStay(c, streams, bind, k - 1, gone);
      var s := streams[k - 1];
      var d := Preflight(c, streams, bind, k - 1).0;
      if Fails(streams, bind, k - 1) && s.localUdp in Binds(d) {
        RemovalSparesOthers(d, s.localUdp, gone);
      }
    }
  }

  /** The failures to report among the first `k` streams: those of sockets that are to be bound. */
  function Reported(binds: seq<Addr>, streams: seq<Endpoint>, bind: BindOracle, k: nat): seq<Degradation>
    requires k <= |streams|
  {
    if k == 0 then []
    else
      var before := Reported(binds, streams, bind, k - 1);
      if Fails(streams, bind, k - 1) && streams[k - 1].localUdp in binds
      then before + [Degrade(streams[k - 1], bind(k - 1).value)] else before
  }

  ghost predicate SocketsDistinct(streams: seq<Endpoint>) {
    && (forall i, j | 0 <= i < j < |streams| && Checked(streams[i]) && Checked(streams[j]) ::
          streams[i].localUdp != streams[j].localUdp)
    && forall i | 0 <= i < |streams| && Checked(streams[i]) :: streams[i].localUdp != FALLBACK
  }

  lemma {:induction false} NotFailedBefore(streams: seq<Endpoint>, bind: BindOracle, k: nat, i: nat)
    requires SocketsDistinct(streams) && k <= i < |streams| && Checked(streams[i])
    ensures streams[i].localUdp !in FailedSockets(streams, bind, k)
  {
    if k != 0 {
      NotFailedBefore(streams, bind, k - 1, i);
    }
  }

  lemma InFallback(kept: seq<Addr>, a: Addr)
    requires a != FALLBACK
    ensures a in OrFallback(kept) <==> a in kept
  {
  }

  lemma PreflightStep(o: Config, c: Config, gone: set<Addr>, a: Addr)
    requires Distinct(Binds(o)) && Leaves(o, c, gone) && a != FALLBACK && a !in gone
    ensures a in Binds(c) <==> a in Binds(o)
    ensures a in Binds(c) ==> Leaves(o, Removed(c, a), gone + {a})
    ensures a !in Binds(c) ==> Leaves(o, c, gone + {a})
  {
    var binds := Binds(o);
    var kept := Without(binds, gone);
    WithoutMembers(binds, gone);
    InFallback(kept, a);
    WithoutTwice(binds, gone, {a});
    if a in Binds(c) {
      RemovedKeepsOrder(c, a);
    } else {
      WithoutAbsent(kept, {a});
    }
  }

  /** `d` has the binds of `c` that are not `gone`, in order, or only the fallback; the rest is as in `c`. */
  predicate Leaves(c: Config, d: Config, gone: set<Addr>) {
    Binds(d) == OrFallback(Without(Binds(c), gone)) && d.primary == c.primary && d.rxForwards == c.rxForwards
  }

  /** With distinct binds and distinct stream sockets, none of them the fallback, the preflight leaves
      exactly the binds that did not fail, in order, or only the fallback if there are none, and reports
      exactly the failed streams in order, whatever the binds answer. */
  lemma {:induction false} PreflightKeepsTheRest(c: Config, streams: seq<Endpoint>, bind: BindOracle, k: nat)
    requires k <= |streams| && Distinct(Binds(c)) && SocketsDistinct(streams)
    ensures var (d, degraded) := Preflight(c, streams, bind, k);
      Leaves(c, d, FailedSockets(streams, bind, k)) && degraded == Reported(Binds(c), streams, bind, k)
  {
    if k == 0 {
      WithoutAbsent(Binds(c), {});
    } else {
      PreflightKeepsTheRest(c, streams, bind, k - 1);
      if Fails(streams, bind, k - 1) {
        NotFailedBefore(streams, bind, k - 1, k - 1);
        var d := Preflight(c, streams, bind, k - 1).0;
        PreflightStep(c, d, FailedSockets(streams, bind, k - 1), streams[k - 1].localUdp);
      }
    }
  }
}
