/** The conditional register tables of crates/radio-core/src/realtek_table.rs: the interpreter over
    flat word pairs. */
module RealtekTable {
  import opened RealtekCondition
  import opened Wrappers

  const BIT31: bv32 := 0x8000_0000
  const BIT30: bv32 := 0x4000_0000
  const BIT29: bv32 := 0x2000_0000
  const BIT28: bv32 := 0x1000_0000
  const MASKDWORD: bv32 := 0xffff_ffff

  datatype TableKind = Mac | BbPhy | BbAgc | RfRadioA | RfRadioB

  datatype Action =
    | Write(pairIndex: nat, address: bv32, bitmask: bv32, data: bv32)
    | Delay(pairIndex: nat, address: bv32, delayUs: nat)

  datatype TableError = OddValueCount(valueCount: nat)

  datatype TablePlan = TablePlan(
    rawValueCount: nat, rawPairCount: nat, conditionMarkerPairs: int, skippedWritePairs: int, actions: seq<Action>)

  function TableBitmask(kind: TableKind): bv32 {
    if kind.Mac? || kind.BbPhy? || kind.BbAgc? then MASKDWORD else 0x000f_ffff
  }

  function TableDelayUs(kind: TableKind, address: bv32): Option<nat> {
    match kind
    case Mac => None
    case BbAgc => None
    case BbPhy =>
      if address == 0xfe then Some(50_000)
      else if address == 0xfd then Some(5_000)
      else if address == 0xfc then Some(1_000)
      else if address == 0xfb then Some(50)
      else if address == 0xfa then Some(5)
      else if address == 0xf9 then Some(1)
      else None
    case _ => if address == 0xfe || address == 0xffe then Some(50_000) else None
  }

  // ---------------------------------------------------------------- the flat interpreter

  datatype Pair = Pair(v1: bv32, v2: bv32)

  /** Decides a condition from its two marker pairs. */
  type Check = (Pair, Pair) -> bool

  /** The interpreter's variables: what the conditions left behind, and what was counted and planned. */
  datatype Machine = Machine(
    matched: bool, skipped: bool, pre: Pair,
    pairIndex: nat, markers: int, skips: int, actions: seq<Action>)

  predicate IsMarker(p: Pair) {
    p.v1 & (BIT31 | BIT30) != 0
  }

  function CondField(p: Pair): bv8 {
    ((p.v1 & (BIT29 | BIT28)) >> 28) as bv8
  }

  function AfterMarker(check: Check, m: Machine, p: Pair): Machine {
    if p.v1 & BIT31 != 0 then
      if CondField(p) == 3 then m.(matched := true, skipped := false)
      else if CondField(p) == 2 then m.(matched := !m.skipped)
      else m.(pre := p)
    else if p.v1 & BIT30 != 0 then
      if m.skipped then m.(matched := false)
      else
        var holds := check(m.pre, p);
        m.(matched := holds, skipped := holds)
    else m
  }

  function ActionOf(kind: TableKind, pairIndex: nat, p: Pair): Action {
    match TableDelayUs(kind, p.v1)
    case Some(delayUs) => Delay(pairIndex, p.v1, delayUs)
    case None => Write(pairIndex, p.v1, TableBitmask(kind), p.v2)
  }

  function Step(kind: TableKind, check: Check, m: Machine, p: Pair): Machine {
    var next := m.(pairIndex := m.pairIndex + 1);
    if IsMarker(p) then AfterMarker(check, next.(markers := m.markers + 1), p)
    else if !m.matched then next.(skips := m.skips + 1)
    else next.(actions := m.actions + [ActionOf(kind, m.pairIndex, p)])
  }

  function Exec(kind: TableKind, check: Check, m: Machine, pairs: seq<Pair>): Machine
    decreases |pairs|
  {
    if pairs == [] then m else Exec(kind, check, Step(kind, check, m, pairs[0]), pairs[1..])
  }

  function PairsOf(values: seq<bv32>): seq<Pair>
    requires |values| % 2 == 0
  {
    seq(|values| / 2, k requires 0 <= k < |values| / 2 => Pair(values[2 * k], values[2 * k + 1]))
  }

  const START := Machine(true, false, Pair(0, 0), 0, 0, 0, [])

  function PlanOf(kind: TableKind, values: seq<bv32>, check: Check): Result<TablePlan, TableError> {
    if |values| % 2 != 0 then Err(OddValueCount(|values|))
    else
      var m := Exec(kind, check, START, PairsOf(values));
      Ok(TablePlan(|values|, |values| / 2, m.markers, m.skips, m.actions))
  }

  /** What a marker pair does to the interpreter's three control variables. */
  method FollowMarker(check: Check, matched: bool, skipped: bool, pre: Pair, p: Pair, ghost m: Machine)
    returns (isMatched: bool, isSkipped: bool, saved: Pair)
    requires m.matched == matched && m.skipped == skipped && m.pre == pre
    ensures AfterMarker(check, m, p) == m.(matched := isMatched, skipped := isSkipped, pre := saved)
  {
    isMatched, isSkipped, saved := matched, skipped, pre;
    if p.v1 & BIT31 != 0 {
      var cCond := CondField(p);
      if cCond == 3 {
        isMatched, isSkipped := true, false;
      } else if cCond == 2 {
        isMatched := !isSkipped;
      } else {
        saved := p;
      }
    } else if p.v1 & BIT30 != 0 {
      if !isSkipped {
        if check(pre, p) {
          isMatched, isSkipped := true, true;
        } else {
          isMatched, isSkipped := false, false;
        }
      } else {
        isMatched := false;
      }
    }
  }

  method PlanAction(kind: TableKind, pairIndex: nat, p: Pair) returns (action: Action)
    ensures action == ActionOf(kind, pairIndex, p)
  {
    var delay := TableDelayUs(kind, p.v1);
    if delay.Some? {
      action := Delay(pairIndex, p.v1, delay.value);
    } else {
      action := Write(pairIndex, p.v1, TableBitmask(kind), p.v2);
    }
  }

  /** `run` tells where the interpreter ends up from machine `m` at the k-th pair. */
  ghost predicate RunsOn(
    run: (Machine, nat) -> Machine, kind: TableKind, check: Check, pairs: seq<Pair>, m: Machine, k: nat)
    requires k <= |pairs|
  {
    run(m, k) == if k == |pairs| then m else run(Step(kind, check, m, pairs[k]), k + 1)
  }

  method RunPairs(kind: TableKind, check: Check, pairs: seq<Pair>, ghost run: (Machine, nat) -> Machine)
    returns (markers: int, skips: int, actions: seq<Action>)
    requires forall m: Machine, k: nat | k <= |pairs| :: RunsOn(run, kind, check, pairs, m, k)
    ensures var end := run(START, 0); markers == end.markers && skips == end.skips && actions == end.actions
  {
    actions := [];
    markers, skips := 0, 0;
    var isMatched, isSkipped, pre := true, false, Pair(0, 0);
    ghost var m := START;
    for k := 0 to |pairs|
      invariant m == Machine(isMatched, isSkipped, pre, k, markers, skips, actions)
      invariant run(m, k) == run(START, 0)
    {
      var p := pairs[k];
      assert RunsOn(run, kind, check, pairs, m, k);
      if p.v1 & (BIT31 | BIT30) != 0 {
        markers := markers + 1;
        isMatched, isSkipped, pre := FollowMarker(
          check, isMatched, isSkipped, pre, p, m.(pairIndex := k + 1, markers := markers));
      } else if !isMatched {
        skips := skips + 1;
      } else {
        var action := PlanAction(kind, k, p);
        actions := actions + [action];
      }
      m := Step(kind, check, m, p);
    }
    assert RunsOn(run, kind, check, pairs, m, |pairs|);
  }

  function Runner(kind: TableKind, check: Check, pairs: seq<Pair>): (Machine, nat) -> Machine {
    (m: Machine, k: nat) => if k <= |pairs| then Exec(kind, check, m, pairs[k..]) else m
  }

  lemma RunnerRuns(kind: TableKind, check: Check, pairs: seq<Pair>, m: Machine, k: nat)
    requires k <= |pairs|
    ensures RunsOn(Runner(kind, check, pairs), kind, check, pairs, m, k)
  {
    if k < |pairs| {
      assert pairs[k..][0] == pairs[k] && pairs[k..][1..] == pairs[k + 1..];
    }
  }

  method PlanTable(kind: TableKind, values: seq<bv32>, check: Check)
    returns (r: Result<TablePlan, TableError>)
    ensures r == PlanOf(kind, values, check)
  {
    if |values| % 2 != 0 {
      return Err(OddValueCount(|values|));
    }
    var pairs := PairsOf(values);
    forall m: Machine, k: nat | k <= |pairs|
      ensures RunsOn(Runner(kind, check, pairs), kind, check, pairs, m, k)
    {
      RunnerRuns(kind, check, pairs, m, k);
    }
    assert pairs[0..] == pairs;
    var markers, skips, actions := RunPairs(kind, check, pairs, Runner(kind, check, pairs));
    return Ok(TablePlan(|values|, |values| / 2, markers, skips, actions));
  }

  function EnvCheck(env: ConditionEnv): Check {
    (cond: Pair, then_: Pair) => CheckPositive(env, cond.v1, cond.v2, then_.v1, then_.v2)
  }

  method PlanRealtekTable(kind: TableKind, values: seq<bv32>, env: ConditionEnv)
    returns (r: Result<TablePlan, TableError>)
    ensures r == PlanOf(kind, values, EnvCheck(env))
  {
    r := PlanTable(kind, values, EnvCheck(env));
  }
}
