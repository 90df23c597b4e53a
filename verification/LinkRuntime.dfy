/** The radio runtime configuration that wfb-link changes in place (crates/wfb-link/src/lib.rs). */
module LinkRuntime {
  import opened LinkTypes
  import opened LinkBinds
  import opened LinkStreams
  import opened Wrappers

  class RuntimeConfig {
    var bindAddr: Addr
    var txBinds: seq<Addr>
    var primary: PrimaryForward
    var rxForwards: seq<RxForward>

    constructor (c: Config)
      ensures Value() == c
    {
      bindAddr, txBinds, primary, rxForwards := c.bindAddr, c.txBinds, c.primary, c.rxForwards;
    }

    function Value(): Config
      reads this
    {
      Config(bindAddr, txBinds, primary, rxForwards)
    }

    method RemoveBind(a: Addr)
      modifies this
      ensures Value() == Removed(old(Value()), a)
    {
      if bindAddr == a {
        if txBinds != [] {
          bindAddr := txBinds[0];
          txBinds := txBinds[1..];
        } else {
          bindAddr := FALLBACK;
        }
      } else {
        txBinds := Without(txBinds, {a});
      }
    }

    method ApplyPreflight(streams: seq<Endpoint>, bind: BindOracle) returns (degraded: seq<Degradation>)
      modifies this
      ensures (Value(), degraded) == Preflight(old(Value()), streams, bind, |streams|)
    {
      degraded := [];
      for i := 0 to |streams|
        invariant (Value(), degraded) == Preflight(old(Value()), streams, bind, i)
      {
        var s := streams[i];
        if s.direction != Tx || s.criticality != BestEffort || s.localUdp !in Binds(Value()) {
          continue;
        }
        var failure := bind(i);
        if failure.Some? {
          RemoveBind(s.localUdp);
          degraded := degraded + [Degrade(s, failure.value)];
        }
      }
    }

    method ApplyStreams(mappings: seq<Mapping>)
      modifies this
      ensures Value() == Applied(old(Value()), mappings)
    {
      var tx := Radio(Going(mappings, Tx));
      if tx != [] {
        bindAddr := tx[0];
        txBinds := tx[1..];
      } else {
        txBinds := [];
      }
      var rx := Going(mappings, Rx);
      if rx != [] {
        primary := PrimaryForward(rx[0].linkId, Some(rx[0].radioPort), Some(rx[0].radioUdp));
        rxForwards := Forwards(rx[1..]);
      } else {
        primary := PrimaryForward(None, None, None);
        rxForwards := [];
      }
    }

    method ReadEndpoints() returns (streams: seq<Endpoint>)
      ensures streams == EndpointsOf(Value())
    {
      streams := [];
      var binds := Binds(Value());
      for i := 0 to |binds|
        invariant streams == TxEndpoints(binds[..i])
      {
        streams := streams + [TxEndpoint(i, binds[i])];
      }
      assert binds[..|binds|] == binds;
      if primary.aggregator.Some? && primary.radioPort.Some? {
        streams := streams
          + [RxEndpoint("rx-primary", primary.linkId, primary.radioPort.value, primary.aggregator.value)];
      }
      var before := streams;
      assert before == TxEndpoints(binds) + PrimaryEndpoints(primary);
      for i := 0 to |rxForwards|
        invariant streams == before + ForwardEndpoints(rxForwards[..i])
      {
        assert rxForwards[..i + 1][..i] == rxForwards[..i];
        var f := rxForwards[i];
        if f.aggregator.None? {
          continue;
        }
        streams := streams + [RxEndpoint("rx" + Decimal(i), f.linkId, f.radioPort, f.aggregator.value)];
      }
      assert rxForwards[..|rxForwards|] == rxForwards;
    }
  }

  /** Streams are mapped, written and read back; with at least one transmit stream the sockets and triples
      that come back are those of the streams, in order. */
  method ManagedSockets(config: RuntimeConfig, streams: seq<Stream>, reserve: Reserve)
    returns (r: Result<seq<Endpoint>, ReserveError>)
    modifies config
    ensures match Mappings(streams, reserve)
            case Err(e) => r == Err(e) && config.Value() == old(config.Value())
            case Ok(m) =>
              && r == Ok(EndpointsOf(Applied(old(config.Value()), m)))
              && RxTriples(r.value) == MappingTriples(Going(m, Rx))
              && (Going(m, Tx) != [] ==> TxSockets(r.value) == Radio(Going(m, Tx)))
  {
    var mapped := MapStreams(streams, reserve);
    if mapped.Err? {
      return Err(mapped.error);
    }
    config.ApplyStreams(mapped.value);
    var e := config.ReadEndpoints();
    ReadBack(old(config.Value()), mapped.value);
    r := Ok(e);
  }
}
