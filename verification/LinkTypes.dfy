/** Stream endpoints and the radio runtime's socket configuration (crates/wfb-link/src/lib.rs). */
module LinkTypes {
  import opened Wrappers

  datatype Addr = Addr(host: string, port: nat)

  const FALLBACK := Addr("127.0.0.1", 0)

  datatype Direction = Tx | Rx

  datatype Criticality = Required | BestEffort

  datatype StreamId = StreamId(linkId: Option<nat>, radioPort: nat)

  datatype Endpoint = Endpoint(
    name: string, direction: Direction, localUdp: Addr, criticality: Criticality, stream: Option<StreamId>)

  datatype PrimaryForward = PrimaryForward(linkId: Option<nat>, radioPort: Option<nat>, aggregator: Option<Addr>)

  datatype RxForward = RxForward(linkId: Option<nat>, radioPort: nat, aggregator: Option<Addr>)

  /** The sockets of a runtime configuration, as a value. */
  datatype Config = Config(bindAddr: Addr, txBinds: seq<Addr>, primary: PrimaryForward, rxForwards: seq<RxForward>)

  function Binds(c: Config): (binds: seq<Addr>)
    ensures |binds| == 1 + |c.txBinds|
  {
    [c.bindAddr] + c.txBinds
  }

  predicate Distinct<T(==)>(s: seq<T>) {
    forall i, j | 0 <= i < j < |s| :: s[i] != s[j]
  }
}
