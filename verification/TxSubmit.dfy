/** Submitting frames to the bulk endpoint (crates/radio-core/src/rtl8812au.rs, `submit_tx_frame`). */
module TxSubmit {
  import opened RadioTypes
  import opened TxRates
  import opened TxDescriptor
  import opened TxBuild
  import opened Wrappers

  datatype SubmitError =
    | Build(error: TxError)
    | ShortWrite(expected: nat, actual: nat)
    | Usb(reason: string)

  datatype Counters = Counters(
    attempted: int, rejected: int, submitted: int, failed: int, shortWrites: int, bytesWritten: int)

  const ZERO := Counters(0, 0, 0, 0, 0, 0)

  /** What the endpoint answers to a packet: how many bytes it took, or an error. */
  type Endpoint = Bytes -> Result<nat, string>

  function Submit(frame: Bytes, channel: Channel, opts: TxOptions, write: Endpoint): Result<nat, SubmitError> {
    Handed(TxPacket(frame, channel, opts), write)
  }

  /** What becomes of a packet, if one was built. */
  function Handed(built: Result<Bytes, TxError>, write: Endpoint): Result<nat, SubmitError> {
    match built
    case Err(e) => Err(Build(e))
    case Ok(packet) =>
      match write(packet)
      case Err(reason) => Err(Usb(reason))
      case Ok(written) => if written == |packet| then Ok(written) else Err(ShortWrite(|packet|, written))
  }

  /** How many bytes an outcome says the endpoint took. */
  function Taken(r: Result<nat, SubmitError>): nat {
    match r
    case Ok(written) => written
    case Err(ShortWrite(_, actual)) => actual
    case Err(_) => 0
  }

  function Count(c: Counters, r: Result<nat, SubmitError>): Counters {
    Counters(
      c.attempted + 1, c.rejected + One(r.Err? && r.error.Build?), c.submitted + One(r.Ok?),
      c.failed + One(r.Err? && !r.error.Build?), c.shortWrites + One(r.Err? && r.error.ShortWrite?),
      c.bytesWritten + Taken(r))
  }

  class Submitter {
    var counters: Counters

    constructor ()
      ensures counters == ZERO
    {
      counters := ZERO;
    }

    method SubmitFrame(frame: Bytes, channel: Channel, opts: TxOptions, write: Endpoint)
      returns (r: Result<nat, SubmitError>)
      modifies this
      ensures r == Submit(frame, channel, opts, write) && counters == Count(old(counters), r)
    {
      var packet := BuildTxPacket(frame, channel, opts);
      r := Hand(packet, write);
    }

    method Hand(packet: Result<Bytes, TxError>, write: Endpoint) returns (r: Result<nat, SubmitError>)
      modifies this
      ensures r == Handed(packet, write) && counters == Count(old(counters), r)
    {
      counters := counters.(attempted := counters.attempted + 1);
      if packet.Err? {
        counters := counters.(rejected := counters.rejected + 1);
        return Err(Build(packet.error));
      }
      match write(packet.value)
      case Err(reason) =>
        counters := counters.(failed := counters.failed + 1);
        r := Err(Usb(reason));
      case Ok(written) =>
        counters := counters.(bytesWritten := counters.bytesWritten + written);
        if written == |packet.value| {
          counters := counters.(submitted := counters.submitted + 1);
          r := Ok(written);
        } else {
          counters := counters.(failed := counters.failed + 1, shortWrites := counters.shortWrites + 1);
          r := Err(ShortWrite(|packet.value|, written));
        }
    }
  }

  function CountAll(results: seq<Result<nat, SubmitError>>): Counters {
    if results == [] then ZERO else Count(CountAll(results[..|results| - 1]), results[|results| - 1])
  }

  function TotalTaken(results: seq<Result<nat, SubmitError>>): nat {
    if results == [] then 0 else TotalTaken(results[..|results| - 1]) + Taken(results[|results| - 1])
  }

  /** Over any run every attempt is rejected, submitted or failed, short writes are among the failures, and
      the bytes are those the endpoint took, whole packets or not. */
  lemma {:induction false} SubmitLedger(results: seq<Result<nat, SubmitError>>)
    ensures var c := CountAll(results);
      && c.attempted == |results| == c.rejected + c.submitted + c.failed
      && 0 <= c.shortWrites <= c.failed && 0 <= c.rejected && 0 <= c.submitted
      && c.bytesWritten == TotalTaken(results)
  {
    if results != [] {
      SubmitLedger(results[..|results| - 1]);
    }
  }

  /** A frame counts as submitted only when the endpoint took a packet that decodes to its plan and
      carries it unchanged. */
  lemma SubmittedPacketCarriesFrame(frame: Bytes, channel: Channel, opts: TxOptions, write: Endpoint)
    requires Submit(frame, channel, opts, write).Ok?
    ensures exists packet ::
      && write(packet) == Ok(|packet|) && |packet| >= TX_DESC_SIZE + |frame|
      && packet[TX_DESC_SIZE..TX_DESC_SIZE + |frame|] == frame
      && Plan(frame, channel, opts).Ok? && Decode(packet) == Some(Plan(frame, channel, opts).value)
  {
    TxPacketCorrect(frame, channel, opts);
  }
}
