/** Transmit power from EFUSE bytes (crates/wfb-radio-runtime/src/tx_power.rs): a base index and a
    difference per rate, clamped and packed four lanes to a register. */
module TxPower {
  import opened RadioTypes
  import opened Wrappers
  import Words

  const INDEX_MAX: bv8 := 0x3f
  const REGION_LEN := 84

  datatype Path = PathA | PathB

  datatype Selection = OnlyA | OnlyB | Both

  datatype Family = Ofdm | Ht | Vht

  datatype Profile = MaxIndex | LinuxCh36Ht20

  datatype Lane = Lane(lane: nat, family: Family, streams: nat, byRate: int)

  datatype Spec = Spec(address: nat, path: Path, lanes: seq<Lane>)

  datatype Request = Request(
    channel: Channel, bandwidth: Bandwidth, selection: Selection, profile: Profile, maxIndex: Index)

  type Index = n: nat | n < 0x100

  datatype LaneReport = LaneReport(lane: nat, unclamped: int, clampMax: Index, index: bv8)

  datatype Write = Write(address: nat, path: Path, value: bv32, lanes: seq<LaneReport>)

  datatype PowerError =
    | BandUnsupported
    | GroupUnknown(channel: bv8)
    | BaseOutOfRange(offset: nat)
    | BaseInvalid(base: nat, offset: nat)
    | DiffOutOfRange(offset: nat)
    | StreamsUnsupported(streams: nat)

  // ---------------------------------------------------------------- the registers

  function Lanes(family: Family, streams: nat, r0: int, r1: int, r2: int, r3: int): (lanes: seq<Lane>)
    ensures |lanes| == 4
  {
    [Lane(0, family, streams, r0), Lane(1, family, streams, r1),
     Lane(2, family, streams, r2), Lane(3, family, streams, r3)]
  }

  /** The lanes of the i-th rate register. */
  function RegisterLanes(i: nat): (lanes: seq<Lane>)
    requires i < 11
    ensures |lanes| == 4
  {
    if i == 0 then Lanes(Ofdm, 1, 14, 14, 12, 12)
    else if i == 1 then Lanes(Ofdm, 1, 10, 6, 2, 0)
    else if i == 2 then Lanes(Ht, 1, 16, 16, 14, 12)
    else if i == 3 then Lanes(Ht, 1, 8, 4, 2, 0)
    else if i == 4 then Lanes(Ht, 2, 16, 16, 14, 12)
    else if i == 5 then Lanes(Ht, 2, 8, 4, 2, 0)
    else if i == 6 then Lanes(Family.Vht, 1, 16, 16, 14, 12)
    else if i == 7 then Lanes(Family.Vht, 1, 8, 4, 2, 0)
    else if i == 8 then
      [Lane(0, Family.Vht, 1, -2), Lane(1, Family.Vht, 1, -4), Lane(2, Family.Vht, 2, 16), Lane(3, Family.Vht, 2, 16)]
    else if i == 9 then Lanes(Family.Vht, 2, 14, 12, 8, 4)
    else Lanes(Family.Vht, 2, 2, 0, -2, -4)
  }

  /** The rate registers of a path follow each other from 0x0c24 or 0x0e24 on. */
  function RegisterAddress(path: Path, i: nat): nat {
    (if path.PathA? then 0x0c24 else 0x0e24) + 4 * i
  }

  function PathSpecs(path: Path): (specs: seq<Spec>)
    ensures |specs| == 11
  {
    seq(11, i requires 0 <= i < 11 => Spec(RegisterAddress(path, i), path, RegisterLanes(i)))
  }

  function Paths(selection: Selection): set<Path> {
    match selection case OnlyA => {PathA} case OnlyB => {PathB} case Both => {PathA, PathB}
  }

  function Specs(selection: Selection): seq<Spec> {
    match selection
    case OnlyA => PathSpecs(PathA)
    case OnlyB => PathSpecs(PathB)
    case Both => PathSpecs(PathA) + PathSpecs(PathB)
  }

  // ---------------------------------------------------------------- bases and differences

  function Group(n: bv8): Option<nat> {
    if 15 <= n <= 42 then Some(0)
    else if 44 <= n <= 48 then Some(1)
    else if 50 <= n <= 58 then Some(2)
    else if 60 <= n <= 80 then Some(3)
    else if 82 <= n <= 106 then Some(4)
    else if 108 <= n <= 114 then Some(5)
    else if 116 <= n <= 122 then Some(6)
    else if 124 <= n <= 130 then Some(7)
    else if 132 <= n <= 138 then Some(8)
    else if 140 <= n <= 144 then Some(9)
    else if 149 <= n <= 155 then Some(10)
    else if 157 <= n <= 161 then Some(11)
    else if 165 <= n <= 171 then Some(12)
    else if 173 <= n <= 177 then Some(13)
    else None
  }

  function PathOffset(path: Path): nat {
    if path.PathA? then 18 else 60
  }

  /** A four-bit two's complement number. */
  function SignExtend(nibble: bv8): (v: int)
    ensures -8 <= v <= 7
  {
    var low := nibble & 0x0f;
    Bounded(low);
    if low & 0x08 != 0 then low as int - 16 else low as int
  }

  lemma Bounded(low: bv8)
    requires low <= 0x0f
    ensures low & 0x08 != 0 ==> low >= 8
    ensures low & 0x08 == 0 ==> low <= 7
  {
  }

  function FromNibble(data: Bytes, offset: nat, high: bool): Result<int, PowerError> {
    if offset >= |data| then Err(DiffOutOfRange(offset))
    else Ok(SignExtend(if high then data[offset] >> 4 else data[offset] & 0x0f))
  }

  function Diff(data: Bytes, path: Path, lane: Lane, bandwidth: Bandwidth): Result<int, PowerError> {
    var tx := if lane.streams == 0 then 0 else lane.streams - 1;
    var at := PathOffset(path);
    if tx > 3 then Err(StreamsUnsupported(lane.streams))
    else if lane.family.Ofdm? then
      if tx == 0 then FromNibble(data, at + 14, false)
      else if tx == 1 then FromNibble(data, at + 18, true)
      else if tx == 2 then FromNibble(data, at + 18, false)
      else FromNibble(data, at + 19, false)
    else match bandwidth
      case Mhz20 => if tx == 0 then FromNibble(data, at + 14, true) else FromNibble(data, at + 14 + tx, false)
      case Mhz40 => if tx == 0 then Ok(0) else FromNibble(data, at + 14 + tx, true)
      case Mhz80 => FromNibble(data, at + 20 + tx, true)
  }

  // ---------------------------------------------------------------- the clamp

  function ClampMax(r: Request, path: Path, lane: Lane): (max: Index)
    ensures max <= r.maxIndex
  {
    var profileMax: nat :=
      if r.profile.LinuxCh36Ht20? && r.channel.number == 36 && r.bandwidth.Mhz20? then
        if lane.family.Ofdm? then (if path.PathA? then 0x1b else 0x1d)
        else if lane.streams == 1 then (if path.PathA? then 0x17 else 0x1c)
        else if lane.streams == 2 then (if path.PathA? then 0x15 else 0x1a)
        else r.maxIndex
      else r.maxIndex;
    if profileMax < r.maxIndex then profileMax else r.maxIndex
  }

  function Clamped(unclamped: int, max: Index): (v: Index)
    ensures v <= max && (max > 0 ==> v >= 1)
  {
    var min := if max == 0 then 0 else 1;
    if unclamped < min then min else if unclamped > max then max else unclamped
  }

  function ToByte(v: Index): bv8 {
    (v % 0x100) as bv8
  }

  // ---------------------------------------------------------------- the plan

  function LaneFor(data: Bytes, r: Request, path: Path, base: nat, lane: Lane): Result<LaneReport, PowerError> {
    match Diff(data, path, lane, r.bandwidth)
    case Err(e) => Err(e)
    case Ok(diff) =>
      var unclamped, max := base + diff + lane.byRate, ClampMax(r, path, lane);
      Ok(LaneReport(lane.lane, unclamped, max, ToByte(Clamped(unclamped, max))))
  }

  type Planner<!X, Y> = X -> Result<Y, PowerError>

  /** The results of `plan` on a list, or its first error. */
  function Collect<X, Y>(plan: Planner<X, Y>, items: seq<X>): Result<seq<Y>, PowerError> {
    if items == [] then Ok([])
    else
      match Collect(plan, items[..|items| - 1])
      case Err(e) => Err(e)
      case Ok(before) =>
        match plan(items[|items| - 1])
        case Err(e) => Err(e)
        case Ok(y) => Ok(before + [y])
  }

  function LanePlanner(data: Bytes, r: Request, path: Path, base: nat): Planner<Lane, LaneReport> {
    (lane: Lane) => LaneFor(data, r, path, base, lane)
  }

  function LanesFor(data: Bytes, r: Request, path: Path, base: nat, lanes: seq<Lane>)
    : Result<seq<LaneReport>, PowerError>
  {
    Collect(LanePlanner(data, r, path, base), lanes)
  }

  /** A byte shifted to its lane; lanes go from 0 to 3. */
  function InLane(b: bv8, lane: nat): bv32 {
    if lane == 0 then b as bv32
    else if lane == 1 then b as bv32 << 8
    else if lane == 2 then b as bv32 << 16
    else b as bv32 << 24
  }

  function Word(reports: seq<LaneReport>): bv32 {
    if reports == [] then 0
    else Word(reports[..|reports| - 1]) | InLane(reports[|reports| - 1].index, reports[|reports| - 1].lane)
  }

  function WriteFor(data: Bytes, r: Request, group: nat, spec: Spec): Result<Write, PowerError> {
    var at := PathOffset(spec.path) + group;
    if at >= |data| then Err(BaseOutOfRange(at))
    else if data[at] > INDEX_MAX then Err(BaseInvalid(data[at] as int, at))
    else match LanesFor(data, r, spec.path, data[at] as int, spec.lanes)
      case Err(e) => Err(e)
      case Ok(reports) => Ok(Write(spec.address, spec.path, Word(reports), reports))
  }

  function WritePlanner(data: Bytes, r: Request, group: nat): Planner<Spec, Write> {
    (spec: Spec) => WriteFor(data, r, group, spec)
  }

  function WritesFor(data: Bytes, r: Request, group: nat, specs: seq<Spec>): Result<seq<Write>, PowerError> {
    Collect(WritePlanner(data, r, group), specs)
  }

  function Plan(data: Bytes, r: Request): Result<seq<Write>, PowerError> {
    if r.channel.band != Ghz5 then Err(BandUnsupported)
    else match Group(r.channel.number)
      case None => Err(GroupUnknown(r.channel.number))
      case Some(group) => WritesFor(data, r, group, Specs(r.selection))
  }

  method PlanLanes(data: Bytes, r: Request, path: Path, base: nat, lanes: seq<Lane>)
    returns (planned: Result<(bv32, seq<LaneReport>), PowerError>)
    ensures match LanesFor(data, r, path, base, lanes)
            case Err(e) => planned == Err(e)
            case Ok(reports) => planned == Ok((Word(reports), reports))
  {
    var value: bv32 := 0;
    var reports: seq<LaneReport> := [];
    for i := 0 to |lanes|
      invariant LanesFor(data, r, path, base, lanes[..i]) == Ok(reports) && value == Word(reports)
    {
      assert lanes[..i + 1][..i] == lanes[..i];
      var report := LaneFor(data, r, path, base, lanes[i]);
      if report.Err? {
        FailureStays(LanePlanner(data, r, path, base), lanes, i + 1);
        return Err(report.error);
      }
      assert (reports + [report.value])[..|reports|] == reports;
      value := value | InLane(report.value.index, report.value.lane);
      reports := reports + [report.value];
    }
    assert lanes[..|lanes|] == lanes;
    planned := Ok((value, reports));
  }

  method PlanWrite(data: Bytes, r: Request, group: nat, spec: Spec) returns (planned: Result<Write, PowerError>)
    ensures planned == WriteFor(data, r, group, spec)
  {
    var at := PathOffset(spec.path) + group;
    if at >= |data| {
      return Err(BaseOutOfRange(at));
    }
    if data[at] > INDEX_MAX {
      return Err(BaseInvalid(data[at] as int, at));
    }
    var lanes := PlanLanes(data, r, spec.path, data[at] as int, spec.lanes);
    match lanes
    case Err(e) => planned := Err(e);
    case Ok((value, reports)) => planned := Ok(Write(spec.address, spec.path, value, reports));
  }

  method PlanEfuseTxPower(data: Bytes, r: Request) returns (planned: Result<seq<Write>, PowerError>)
    ensures planned == Plan(data, r)
  {
    if r.channel.band != Ghz5 {
      return Err(BandUnsupported);
    }
    var group := Group(r.channel.number);
    if group.None? {
      return Err(GroupUnknown(r.channel.number));
    }
    planned := PlanWrites(data, r, group.value, Specs(r.selection));
  }

  method PlanWrites(data: Bytes, r: Request, group: nat, specs: seq<Spec>)
    returns (planned: Result<seq<Write>, PowerError>)
    ensures planned == WritesFor(data, r, group, specs)
  {
    var writes: seq<Write> := [];
    for i := 0 to |specs|
      invariant WritesFor(data, r, group, specs[..i]) == Ok(writes)
    {
      assert specs[..i + 1][..i] == specs[..i];
      var w := PlanWrite(data, r, group, specs[i]);
      if w.Err? {
        FailureStays(WritePlanner(data, r, group), specs, i + 1);
        return Err(w.error);
      }
      writes := writes + [w.value];
    }
    assert specs[..|specs|] == specs;
    planned := Ok(writes);
  }

  lemma {:induction false} FailureStays<X, Y>(plan: Planner<X, Y>, items: seq<X>, k: nat)
    requires k <= |items| && Collect(plan, items[..k]).Err?
    ensures Collect(plan, items) == Collect(plan, items[..k])
    decreases |items|
  {
    if k < |items| {
      assert items[..|items| - 1][..k] == items[..k];
      FailureStays(plan, items[..|items| - 1], k);
    } else {
      assert items[..k] == items;
    }
  }

  // ---------------------------------------------------------------- pointwise

  lemma {:induction false} CollectPointwise<X, Y>(plan: Planner<X, Y>, items: seq<X>)
    ensures Collect(plan, items).Ok? <==> forall i | 0 <= i < |items| :: plan(items[i]).Ok?
    ensures Collect(plan, items).Ok? ==>
      var ys := Collect(plan, items).value;
      |ys| == |items| && forall i | 0 <= i < |items| :: plan(items[i]) == Ok(ys[i])
  {
    if items != [] {
      var last := |items| - 1;
      CollectPointwise(plan, items[..last]);
      assert forall i | 0 <= i < last :: items[..last][i] == items[i];
    }
  }

  lemma LanesPointwise(data: Bytes, r: Request, path: Path, base: nat, lanes: seq<Lane>)
    ensures var all := LanesFor(data, r, path, base, lanes);
      && (all.Ok? <==> forall i | 0 <= i < |lanes| :: LaneFor(data, r, path, base, lanes[i]).Ok?)
      && (all.Ok? ==> |all.value| == |lanes|)
      && (all.Ok? ==> forall i | 0 <= i < |lanes| :: LaneFor(data, r, path, base, lanes[i]) == Ok(all.value[i]))
  {
    CollectPointwise(LanePlanner(data, r, path, base), lanes);
  }

  lemma WritesPointwise(data: Bytes, r: Request, group: nat, specs: seq<Spec>)
    ensures var all := WritesFor(data, r, group, specs);
      && (all.Ok? <==> forall i | 0 <= i < |specs| :: WriteFor(data, r, group, specs[i]).Ok?)
      && (all.Ok? ==> |all.value| == |specs|)
      && (all.Ok? ==> forall i | 0 <= i < |specs| :: WriteFor(data, r, group, specs[i]) == Ok(all.value[i]))
  {
    CollectPointwise(WritePlanner(data, r, group), specs);
  }

  // ---------------------------------------------------------------- when planning succeeds

  /** What every register's lanes look like. */
  predicate Regular(lanes: seq<Lane>) {
    && |lanes| == 4
    && forall i | 0 <= i < 4 ::
         lanes[i].lane == i && 1 <= lanes[i].streams <= 2 && (lanes[i].family.Ofdm? ==> lanes[i].streams == 1)
  }

  lemma RegistersAreRegular(i: nat)
    requires i < 11
    ensures Regular(RegisterLanes(i))
  {
  }

  lemma SpecsAreRegular(selection: Selection, i: nat)
    requires i < |Specs(selection)|
    ensures Regular(Specs(selection)[i].lanes) && Specs(selection)[i].path in Paths(selection)
  {
    if i < 11 {
      RegistersAreRegular(i);
    } else {
      RegistersAreRegular(i - 11);
    }
  }

  /** How far behind a path's offset the differences for a bandwidth go. */
  function LastDiff(bandwidth: Bandwidth): nat {
    if bandwidth.Mhz80? then 21 else 15
  }

  /** The bytes a path needs: long enough for the last difference, and a base that is an index. */
  predicate PathReady(data: Bytes, path: Path, group: nat, bandwidth: Bandwidth) {
    && PathOffset(path) + LastDiff(bandwidth) < |data|
    && PathOffset(path) + group < |data| && data[PathOffset(path) + group] <= INDEX_MAX
  }

  lemma DiffOk(data: Bytes, path: Path, lane: Lane, bandwidth: Bandwidth)
    requires 1 <= lane.streams <= 2 && (lane.family.Ofdm? ==> lane.streams == 1)
    ensures PathOffset(path) + LastDiff(bandwidth) < |data| ==> Diff(data, path, lane, bandwidth).Ok?
    ensures lane.streams == 2 && Diff(data, path, lane, bandwidth).Ok? ==> PathOffset(path) + LastDiff(bandwidth) < |data|
  {
  }

  lemma WriteNeedsReady(data: Bytes, r: Request, group: nat, spec: Spec)
    requires group <= 13 && Regular(spec.lanes)
    ensures PathReady(data, spec.path, group, r.bandwidth) ==> WriteFor(data, r, group, spec).Ok?
    ensures WriteFor(data, r, group, spec).Ok? && spec.lanes[3].streams == 2 ==>
              PathReady(data, spec.path, group, r.bandwidth)
  {
    var at := PathOffset(spec.path) + group;
    if at < |data| {
      LanesPointwise(data, r, spec.path, data[at] as int, spec.lanes);
      forall i | 0 <= i < 4
        ensures PathReady(data, spec.path, group, r.bandwidth) ==>
                  LaneFor(data, r, spec.path, data[at] as int, spec.lanes[i]).Ok?
      {
        DiffOk(data, spec.path, spec.lanes[i], r.bandwidth);
      }
      DiffOk(data, spec.path, spec.lanes[3], r.bandwidth);
    }
  }

  lemma GroupSmall(n: bv8)
    ensures Group(n).Some? ==> Group(n).value <= 13
  {
  }

  lemma LastSpecOfPath(selection: Selection, path: Path) returns (i: nat)
    requires path in Paths(selection)
    ensures i < |Specs(selection)| && Specs(selection)[i].path == path && Specs(selection)[i].lanes[3].streams == 2
  {
    i := if selection.Both? && path.PathB? then 21 else 10;
  }

  /** Planning succeeds exactly for 5 GHz channels in a group whose selected paths have all their bytes and
      a base that is not over the limit. */
  lemma PlanSucceedsIffReady(data: Bytes, r: Request)
    ensures Plan(data, r).Ok? <==>
      && r.channel.band == Ghz5 && Group(r.channel.number).Some?
      && forall path | path in Paths(r.selection) ::
           PathReady(data, path, Group(r.channel.number).value, r.bandwidth)
  {
    if r.channel.band == Ghz5 && Group(r.channel.number).Some? {
      var group, specs := Group(r.channel.number).value, Specs(r.selection);
      GroupSmall(r.channel.number);
      WritesPointwise(data, r, group, specs);
      forall i | 0 <= i < |specs|
        ensures Regular(specs[i].lanes) && specs[i].path in Paths(r.selection)
        ensures PathReady(data, specs[i].path, group, r.bandwidth) ==> WriteFor(data, r, group, specs[i]).Ok?
      {
        SpecsAreRegular(r.selection, i);
        WriteNeedsReady(data, r, group, specs[i]);
      }
      if Plan(data, r).Ok? {
        forall path | path in Paths(r.selection)
          ensures PathReady(data, path, group, r.bandwidth)
        {
          var i := LastSpecOfPath(r.selection, path);
          WriteNeedsReady(data, r, group, specs[i]);
        }
      }
    }
  }

  /** So in a whole region it fails, on such a channel, only over a base byte that is over the limit. */
  lemma WholeRegionFailsOnlyOnBase(data: Bytes, r: Request)
    requires |data| >= REGION_LEN && r.channel.band == Ghz5 && Group(r.channel.number).Some?
    ensures Plan(data, r).Err? <==>
      exists path :: path in Paths(r.selection) && data[PathOffset(path) + Group(r.channel.number).value] > INDEX_MAX
  {
    GroupSmall(r.channel.number);
    PlanSucceedsIffReady(data, r);
  }

  // ---------------------------------------------------------------- what is planned

  lemma ToByteBack(v: Index)
    ensures ToByte(v) as int == v
  {
    Words.ByteOfSmall(v);
  }

  lemma WordGrows(before: seq<LaneReport>, report: LaneReport)
    ensures Word(before + [report]) == Word(before) | InLane(report.index, report.lane)
  {
    assert (before + [report])[..|before|] == before;
  }

  lemma WordOfFour(reports: seq<LaneReport>)
    requires |reports| == 4 && forall i | 0 <= i < 4 :: reports[i].lane == i
    ensures Packs(Word(reports), reports)
  {
    var a, b, c, d := reports[0], reports[1], reports[2], reports[3];
    assert reports == [] + [a] + [b] + [c] + [d];
    WordGrows([], a);
    WordGrows([] + [a], b);
    WordGrows([] + [a] + [b], c);
    WordGrows([] + [a] + [b] + [c], d);
    Words.FourLanes(a.index, b.index, c.index, d.index);
  }

  /** The four bytes of a word are the final indices of four lanes. */
  predicate Packs(value: bv32, lanes: seq<LaneReport>) {
    && |lanes| == 4
    && Words.Byte0(value) == lanes[0].index && Words.Byte1(value) == lanes[1].index
    && Words.Byte2(value) == lanes[2].index && Words.Byte3(value) == lanes[3].index
  }

  /** What a lane's report says: base, difference and rate offset added up, the maximum for the lane, which
      is at most the one requested, and the sum clamped to between 1 and that maximum. */
  predicate Reports(report: LaneReport, data: Bytes, r: Request, path: Path, base: nat, lane: Lane) {
    && Diff(data, path, lane, r.bandwidth).Ok?
    && report.lane == lane.lane
    && report.unclamped == base + Diff(data, path, lane, r.bandwidth).value + lane.byRate
    && report.clampMax == ClampMax(r, path, lane) <= r.maxIndex
    && report.index as int == Clamped(report.unclamped, report.clampMax)
  }

  lemma LaneReports(data: Bytes, r: Request, path: Path, base: nat, lane: Lane)
    requires LaneFor(data, r, path, base, lane).Ok?
    ensures Reports(LaneFor(data, r, path, base, lane).value, data, r, path, base, lane)
  {
    var unclamped := base + Diff(data, path, lane, r.bandwidth).value + lane.byRate;
    ToByteBack(Clamped(unclamped, ClampMax(r, path, lane)));
  }

  /** The write of a register: its address, and a word of four lanes, each from the path's base byte and its
      own difference, rate offset and maximum. */
  predicate Carries(w: Write, data: Bytes, r: Request, group: nat, spec: Spec) {
    && w.address == spec.address && w.path == spec.path && |spec.lanes| == 4
    && PathOffset(spec.path) + group < |data|
    && Packs(w.value, w.lanes)
    && forall i | 0 <= i < 4 ::
         Reports(w.lanes[i], data, r, spec.path, data[PathOffset(spec.path) + group] as int, spec.lanes[i])
  }

  lemma WriteCarriesLanes(data: Bytes, r: Request, group: nat, spec: Spec)
    requires Regular(spec.lanes) && WriteFor(data, r, group, spec).Ok?
    ensures Carries(WriteFor(data, r, group, spec).value, data, r, group, spec)
  {
    var base := data[PathOffset(spec.path) + group] as int;
    LanesPointwise(data, r, spec.path, base, spec.lanes);
    var reports := LanesFor(data, r, spec.path, base, spec.lanes).value;
    forall i | 0 <= i < 4
      ensures Reports(reports[i], data, r, spec.path, base, spec.lanes[i]) && reports[i].lane == i
    {
      LaneReports(data, r, spec.path, base, spec.lanes[i]);
    }
    WordOfFour(reports);
  }

  /** In every plan the k-th write is that of the k-th register: its word's four bytes are the final indices
      of its four lanes, and each of those is what base, difference and rate offset add up to, clamped to
      between 1 and the lane's maximum, which is at most the one requested. */
  lemma WordsCarryLanes(data: Bytes, r: Request)
    requires Plan(data, r).Ok?
    ensures var writes, specs := Plan(data, r).value, Specs(r.selection);
      |writes| == |specs|
      && forall k | 0 <= k < |writes| :: Carries(writes[k], data, r, Group(r.channel.number).value, specs[k])
  {
    var group, specs := Group(r.channel.number).value, Specs(r.selection);
    WritesPointwise(data, r, group, specs);
    forall k | 0 <= k < |specs|
      ensures Carries(WriteFor(data, r, group, specs[k]).value, data, r, group, specs[k])
    {
      SpecsAreRegular(r.selection, k);
      WriteCarriesLanes(data, r, group, specs[k]);
    }
  }

  lemma AddressesDiffer(selection: Selection, i: nat, j: nat)
    requires i < j < |Specs(selection)|
    ensures Specs(selection)[i].address != Specs(selection)[j].address
  {
    assert |Specs(selection)| <= 22;
  }

  lemma WriteAddress(data: Bytes, r: Request, group: nat, spec: Spec)
    requires WriteFor(data, r, group, spec).Ok?
    ensures WriteFor(data, r, group, spec).value.address == spec.address
  {
  }

  predicate AddressedAs(writes: seq<Write>, specs: seq<Spec>) {
    |writes| == |specs| && forall i | 0 <= i < |writes| :: writes[i].address == specs[i].address
  }

  /** Each rate register of each selected path is written exactly once. */
  lemma EveryRegisterOnce(data: Bytes, r: Request)
    requires Plan(data, r).Ok?
    ensures AddressedAs(Plan(data, r).value, Specs(r.selection))
    ensures forall i, j | 0 <= i < j < |Plan(data, r).value| ::
              Plan(data, r).value[i].address != Plan(data, r).value[j].address
  {
    var group, specs := Group(r.channel.number).value, Specs(r.selection);
    WritesPointwise(data, r, group, specs);
    forall i | 0 <= i < |specs|
      ensures WriteFor(data, r, group, specs[i]).value.address == specs[i].address
    {
      WriteAddress(data, r, group, specs[i]);
    }
    forall i, j | 0 <= i < j < |specs|
      ensures specs[i].address != specs[j].address
    {
      AddressesDiffer(r.selection, i, j);
    }
  }

  // ---------------------------------------------------------------- being careful never raises power

  /** `s` asks for no more than `r`: a maximum that is not higher, or the Linux profile for none. */
  predicate AtLeastAsCareful(s: Request, r: Request) {
    && s == r.(profile := s.profile, maxIndex := s.maxIndex)
    && s.maxIndex <= r.maxIndex && (s.profile == r.profile || s.profile.LinuxCh36Ht20?)
  }

  lemma ClampMaxMonotone(s: Request, r: Request, path: Path, lane: Lane)
    requires AtLeastAsCareful(s, r)
    ensures ClampMax(s, path, lane) <= ClampMax(r, path, lane)
  {
  }

  lemma LaneMonotone(data: Bytes, s: Request, r: Request, path: Path, base: nat, lane: Lane)
    requires AtLeastAsCareful(s, r)
    ensures LaneFor(data, s, path, base, lane).Ok? <==> LaneFor(data, r, path, base, lane).Ok?
    ensures LaneFor(data, r, path, base, lane).Ok? ==>
              LaneFor(data, s, path, base, lane).value.index as int
              <= LaneFor(data, r, path, base, lane).value.index as int
  {
    if LaneFor(data, r, path, base, lane).Ok? {
      LaneReports(data, s, path, base, lane);
      LaneReports(data, r, path, base, lane);
      ClampMaxMonotone(s, r, path, lane);
    }
  }

  lemma WriteMonotone(data: Bytes, s: Request, r: Request, group: nat, spec: Spec)
    requires AtLeastAsCareful(s, r)
    ensures WriteFor(data, s, group, spec).Ok? <==> WriteFor(data, r, group, spec).Ok?
    ensures WriteFor(data, r, group, spec).Ok? ==>
      var v, w := WriteFor(data, s, group, spec).value, WriteFor(data, r, group, spec).value;
      v.address == w.address && NotRaised(v.lanes, w.lanes)
  {
    var at := PathOffset(spec.path) + group;
    if at < |data| {
      var base := data[at] as int;
      LanesPointwise(data, s, spec.path, base, spec.lanes);
      LanesPointwise(data, r, spec.path, base, spec.lanes);
      forall i | 0 <= i < |spec.lanes|
        ensures LaneFor(data, s, spec.path, base, spec.lanes[i]).Ok?
                <==> LaneFor(data, r, spec.path, base, spec.lanes[i]).Ok?
        ensures LaneFor(data, r, spec.path, base, spec.lanes[i]).Ok? ==>
                  LaneFor(data, s, spec.path, base, spec.lanes[i]).value.index as int
                  <= LaneFor(data, r, spec.path, base, spec.lanes[i]).value.index as int
      {
        LaneMonotone(data, s, r, spec.path, base, spec.lanes[i]);
      }
    }
  }

  predicate NotRaised(s: seq<LaneReport>, r: seq<LaneReport>) {
    |s| == |r| && forall i | 0 <= i < |s| :: s[i].index as int <= r[i].index as int
  }

  /** Switching to the Linux profile or lowering the maximum changes neither whether planning succeeds nor
      the registers written, and raises no lane of any of them. */
  lemma CarefulNeverRaises(data: Bytes, s: Request, r: Request)
    requires AtLeastAsCareful(s, r)
    ensures Plan(data, s).Ok? <==> Plan(data, r).Ok?
    ensures Plan(data, r).Ok? ==>
      var v, w := Plan(data, s).value, Plan(data, r).value;
      |v| == |w| && forall k | 0 <= k < |v| :: v[k].address == w[k].address && NotRaised(v[k].lanes, w[k].lanes)
  {
    if r.channel.band == Ghz5 && Group(r.channel.number).Some? {
      var group, specs := Group(r.channel.number).value, Specs(r.selection);
      WritesPointwise(data, s, group, specs);
      WritesPointwise(data, r, group, specs);
      forall k | 0 <= k < |specs|
        ensures WriteFor(data, s, group, specs[k]).Ok? <==> WriteFor(data, r, group, specs[k]).Ok?
        ensures WriteFor(data, r, group, specs[k]).Ok? ==>
          var v, w := WriteFor(data, s, group, specs[k]).value, WriteFor(data, r, group, specs[k]).value;
          v.address == w.address && NotRaised(v.lanes, w.lanes)
      {
        WriteMonotone(data, s, r, group, specs[k]);
      }
    }
  }
}
