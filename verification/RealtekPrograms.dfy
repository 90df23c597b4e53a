/** Structured register programs, their flat form, and the proof that the interpreter computes their
    meaning. */
module RealtekPrograms {
  import opened RealtekCondition
  import opened RealtekTable
  import opened Wrappers

  // ---------------------------------------------------------------- every table

  /** Every pair is a marker, a skipped pair or an action, whatever the table holds. */
  lemma {:induction false} EveryPairAccounted(kind: TableKind, check: Check, m: Machine, pairs: seq<Pair>)
    ensures var n := Exec(kind, check, m, pairs);
            && n.pairIndex == m.pairIndex + |pairs|
            && (n.markers - m.markers) + (n.skips - m.skips) + (|n.actions| - |m.actions|) == |pairs|
            && m.markers <= n.markers && m.skips <= n.skips && m.actions <= n.actions
    decreases |pairs|
  {
    if pairs != [] {
      EveryPairAccounted(kind, check, Step(kind, check, m, pairs[0]), pairs[1..]);
    }
  }

  /** The planned actions are those of unmarked pairs of the table, each at its own index, in order. */
  ghost predicate FromPairs(kind: TableKind, m: Machine, pairs: seq<Pair>) {
    && m.pairIndex <= |pairs|
    && (forall j | 0 <= j < |m.actions| ::
          var a := m.actions[j];
          a.pairIndex < m.pairIndex && !IsMarker(pairs[a.pairIndex]) && a == ActionOf(kind, a.pairIndex, pairs[a.pairIndex]))
    && (forall j, k | 0 <= j < k < |m.actions| :: m.actions[j].pairIndex < m.actions[k].pairIndex)
  }

  lemma StepFromPairs(kind: TableKind, check: Check, m: Machine, pairs: seq<Pair>)
    requires FromPairs(kind, m, pairs) && m.pairIndex < |pairs|
    ensures var n := Step(kind, check, m, pairs[m.pairIndex]);
            n.pairIndex == m.pairIndex + 1 && FromPairs(kind, n, pairs)
  {
    var n := Step(kind, check, m, pairs[m.pairIndex]);
    assert n.actions == m.actions || (n.actions == m.actions + [ActionOf(kind, m.pairIndex, pairs[m.pairIndex])]
                                      && !IsMarker(pairs[m.pairIndex]));
  }

  lemma {:induction false} ActionsComeFromPairs(kind: TableKind, check: Check, m: Machine, pairs: seq<Pair>)
    requires FromPairs(kind, m, pairs)
    ensures FromPairs(kind, Exec(kind, check, m, pairs[m.pairIndex..]), pairs)
    decreases |pairs| - m.pairIndex
  {
    if m.pairIndex < |pairs| {
      var rest := pairs[m.pairIndex..];
      assert rest[1..] == pairs[m.pairIndex + 1..];
      StepFromPairs(kind, check, m, pairs);
      ActionsComeFromPairs(kind, check, Step(kind, check, m, rest[0]), pairs);
    }
  }

  lemma {:induction false} ExecConcat(kind: TableKind, check: Check, m: Machine, a: seq<Pair>, b: seq<Pair>)
    ensures Exec(kind, check, m, a + b) == Exec(kind, check, Exec(kind, check, m, a), b)
    decreases |a|
  {
    if a == [] {
      assert a + b == b;
    } else {
      assert (a + b)[1..] == a[1..] + b;
      ExecConcat(kind, check, Step(kind, check, m, a[0]), a[1..], b);
    }
  }

  lemma ExecCons(kind: TableKind, check: Check, m: Machine, p: Pair, rest: seq<Pair>)
    ensures Exec(kind, check, m, [p] + rest) == Exec(kind, check, Step(kind, check, m, p), rest)
  {
    assert ([p] + rest)[1..] == rest;
  }

  // ---------------------------------------------------------------- structured programs

  datatype Arm = Arm(cond: Pair, then_: Pair, body: seq<Pair>)

  datatype Else = NoElse | Else(marker: Pair, body: seq<Pair>)

  datatype Item =
    | Plain(pair: Pair)
    | Block(arms: seq<Arm>, else_: Else, end: Pair)

  predicate IsThen(p: Pair) {
    p.v1 & BIT31 == 0 && p.v1 & BIT30 != 0
  }

  predicate IsControl(p: Pair, field: bv8) {
    p.v1 & BIT31 != 0 && CondField(p) == field
  }

  predicate IsCond(p: Pair) {
    p.v1 & BIT31 != 0 && CondField(p) != 2 && CondField(p) != 3
  }

  predicate IsBody(body: seq<Pair>) {
    forall k | 0 <= k < |body| :: !IsMarker(body[k])
  }

  predicate ArmOk(arm: Arm) {
    IsCond(arm.cond) && IsThen(arm.then_) && IsBody(arm.body)
  }

  predicate ElseOk(else_: Else) {
    else_.Else? ==> IsControl(else_.marker, 2) && IsBody(else_.body)
  }

  predicate WellFormed(item: Item) {
    match item
    case Plain(pair) => !IsMarker(pair)
    case Block(arms, else_, end) =>
      (forall k | 0 <= k < |arms| :: ArmOk(arms[k])) && ElseOk(else_) && IsControl(end, 3)
  }

  function FlattenArm(arm: Arm): seq<Pair> {
    [arm.cond] + ([arm.then_] + arm.body)
  }

  function FlattenElse(else_: Else): seq<Pair> {
    if else_.NoElse? then [] else [else_.marker] + else_.body
  }

  function FlattenBlock(arms: seq<Arm>, else_: Else, end: Pair): seq<Pair> {
    if arms == [] then FlattenElse(else_) + [end]
    else FlattenArm(arms[0]) + FlattenBlock(arms[1..], else_, end)
  }

  function FlattenItem(item: Item): seq<Pair> {
    match item
    case Plain(pair) => [pair]
    case Block(arms, else_, end) => FlattenBlock(arms, else_, end)
  }

  function Flatten(program: seq<Item>): seq<Pair> {
    if program == [] then [] else FlattenItem(program[0]) + Flatten(program[1..])
  }

  /** The actions of a run of plain pairs starting at index `i`. */
  function BodyActions(kind: TableKind, i: nat, body: seq<Pair>): seq<Action> {
    seq(|body|, j requires 0 <= j < |body| => ActionOf(kind, i + j, body[j]))
  }

  function ElseMeaning(kind: TableKind, i: nat, else_: Else): seq<Action> {
    if else_.NoElse? then [] else BodyActions(kind, i + 1, else_.body)
  }

  /** The first arm whose condition holds, at index `i`; the else body if there is none. */
  function ArmsMeaning(kind: TableKind, check: Check, i: nat, arms: seq<Arm>, else_: Else): seq<Action>
    decreases |arms|
  {
    if arms == [] then ElseMeaning(kind, i, else_)
    else if check(arms[0].cond, arms[0].then_) then BodyActions(kind, i + 2, arms[0].body)
    else ArmsMeaning(kind, check, i + 2 + |arms[0].body|, arms[1..], else_)
  }

  function ItemMeaning(kind: TableKind, check: Check, i: nat, item: Item): seq<Action> {
    match item
    case Plain(pair) => [ActionOf(kind, i, pair)]
    case Block(arms, else_, _) => ArmsMeaning(kind, check, i, arms, else_)
  }

  function Meaning(kind: TableKind, check: Check, i: nat, program: seq<Item>): seq<Action>
    decreases |program|
  {
    if program == [] then []
    else
      var rest := Meaning(kind, check, i + |FlattenItem(program[0])|, program[1..]);
      ItemMeaning(kind, check, i, program[0]) + rest
  }

  predicate Fresh(m: Machine) {
    m.matched && !m.skipped
  }

  /** What a stretch of pairs leaves: the control state, and the actions it planned. */
  predicate Leaves(m: Machine, n: Machine, length: nat, matched: bool, skipped: bool, planned: seq<Action>) {
    n.matched == matched && n.skipped == skipped && n.pairIndex == m.pairIndex + length
    && n.actions == m.actions + planned
  }

  /** The state at the end of a block entered in `m` that planned `planned`. */
  predicate Closes(m: Machine, n: Machine, planned: seq<Action>) {
    Fresh(n) && n.actions == m.actions + planned
  }

  lemma MarkerKinds(p: Pair)
    ensures IsThen(p) ==> IsMarker(p)
    ensures p.v1 & BIT31 != 0 ==> IsMarker(p)
  {
  }

  /** There is no stack: whatever stands before an end-if, open blocks included, the pair after it is acted
      upon, also where the block that was open does not hold. */
  lemma EndIfResumes(kind: TableKind, check: Check, m: Machine, before: seq<Pair>, end: Pair, p: Pair)
    requires IsControl(end, 3) && !IsMarker(p)
    ensures var n := Exec(kind, check, m, before + [end]);
      && Fresh(n)
      && Exec(kind, check, m, before + [end] + [p]).actions == n.actions + [ActionOf(kind, n.pairIndex, p)]
  {
    var n := Exec(kind, check, m, before + [end]);
    MarkerKinds(end);
    ExecConcat(kind, check, m, before, [end]);
    ExecConcat(kind, check, m, before + [end], [p]);
    assert [end] + [] == [end] && [p] + [] == [p];
    ExecCons(kind, check, Exec(kind, check, m, before), end, []);
    ExecCons(kind, check, n, p, []);
  }

  lemma {:induction false} ExecBody(kind: TableKind, check: Check, m: Machine, body: seq<Pair>)
    requires IsBody(body)
    ensures Leaves(m, Exec(kind, check, m, body), |body|, m.matched, m.skipped,
                   if m.matched then BodyActions(kind, m.pairIndex, body) else [])
    decreases |body|
  {
    if body != [] {
      ExecBody(kind, check, Step(kind, check, m, body[0]), body[1..]);
      assert BodyActions(kind, m.pairIndex, body)
          == [ActionOf(kind, m.pairIndex, body[0])] + BodyActions(kind, m.pairIndex + 1, body[1..]);
    }
  }

  /** One arm: its two markers, then its body. */
  lemma ExecArm(kind: TableKind, check: Check, m: Machine, arm: Arm)
    requires ArmOk(arm)
    ensures var taken := !m.skipped && check(arm.cond, arm.then_);
            Leaves(m, Exec(kind, check, m, FlattenArm(arm)), 2 + |arm.body|, taken, m.skipped || taken,
                   if taken then BodyActions(kind, m.pairIndex + 2, arm.body) else [])
  {
    MarkerKinds(arm.cond);
    MarkerKinds(arm.then_);
    var m1 := Step(kind, check, m, arm.cond);
    ExecCons(kind, check, m, arm.cond, [arm.then_] + arm.body);
    ExecCons(kind, check, m1, arm.then_, arm.body);
    ExecBody(kind, check, Step(kind, check, m1, arm.then_), arm.body);
  }

  /** The else part and the end marker: planned only while no arm was taken. */
  lemma ExecElse(kind: TableKind, check: Check, m: Machine, else_: Else, end: Pair)
    requires ElseOk(else_) && IsControl(end, 3)
    ensures m.skipped ==> Closes(m, Exec(kind, check, m, FlattenElse(else_) + [end]), [])
    ensures !m.skipped ==>
      Closes(m, Exec(kind, check, m, FlattenElse(else_) + [end]), ElseMeaning(kind, m.pairIndex, else_))
  {
    var n := Exec(kind, check, m, FlattenElse(else_));
    ExecElsePart(kind, check, m, else_);
    ExecConcat(kind, check, m, FlattenElse(else_), [end]);
    ExecEnd(kind, check, n, end);
  }

  lemma ExecEnd(kind: TableKind, check: Check, m: Machine, end: Pair)
    requires IsControl(end, 3)
    ensures Fresh(Exec(kind, check, m, [end])) && Exec(kind, check, m, [end]).actions == m.actions
  {
    MarkerKinds(end);
    ExecCons(kind, check, m, end, []);
    assert [end] + [] == [end];
  }

  lemma ExecElsePart(kind: TableKind, check: Check, m: Machine, else_: Else)
    requires ElseOk(else_)
    ensures Exec(kind, check, m, FlattenElse(else_)).actions
         == m.actions + if m.skipped then [] else ElseMeaning(kind, m.pairIndex, else_)
  {
    assert m.actions + [] == m.actions;
    if else_.Else? {
      MarkerKinds(else_.marker);
      ExecCons(kind, check, m, else_.marker, else_.body);
      ExecBody(kind, check, Step(kind, check, m, else_.marker), else_.body);
    }
  }

  lemma ArmThenRest(kind: TableKind, check: Check, m: Machine, arm: Arm, rest: seq<Pair>) returns (n: Machine)
    requires ArmOk(arm)
    ensures Exec(kind, check, m, FlattenArm(arm) + rest) == Exec(kind, check, n, rest)
    ensures n.pairIndex == m.pairIndex + 2 + |arm.body|
    ensures if m.skipped then n.skipped && n.actions == m.actions
            else if check(arm.cond, arm.then_)
            then n.skipped && n.actions == m.actions + BodyActions(kind, m.pairIndex + 2, arm.body)
            else !n.skipped && n.actions == m.actions
  {
    n := Exec(kind, check, m, FlattenArm(arm));
    ExecArm(kind, check, m, arm);
    ExecConcat(kind, check, m, FlattenArm(arm), rest);
    assert m.actions + [] == m.actions;
  }

  /** Once an arm was taken, neither a later arm nor the else part plans anything. */
  lemma {:induction false} BlockAfterTaken(kind: TableKind, check: Check, m: Machine, arms: seq<Arm>, else_: Else, end: Pair)
    requires (forall k | 0 <= k < |arms| :: ArmOk(arms[k])) && ElseOk(else_) && IsControl(end, 3)
    requires m.skipped
    ensures Closes(m, Exec(kind, check, m, FlattenBlock(arms, else_, end)), [])
    decreases |arms|
  {
    if arms == [] {
      ExecElse(kind, check, m, else_, end);
    } else {
      var n := ArmThenRest(kind, check, m, arms[0], FlattenBlock(arms[1..], else_, end));
      BlockAfterTaken(kind, check, n, arms[1..], else_, end);
    }
  }

  lemma BlockTaken(kind: TableKind, check: Check, m: Machine, arm: Arm, arms: seq<Arm>, else_: Else, end: Pair)
    requires ArmOk(arm) && (forall k | 0 <= k < |arms| :: ArmOk(arms[k])) && ElseOk(else_) && IsControl(end, 3)
    requires !m.skipped && check(arm.cond, arm.then_)
    ensures Closes(m, Exec(kind, check, m, FlattenArm(arm) + FlattenBlock(arms, else_, end)),
                   BodyActions(kind, m.pairIndex + 2, arm.body))
  {
    var n := ArmThenRest(kind, check, m, arm, FlattenBlock(arms, else_, end));
    BlockAfterTaken(kind, check, n, arms, else_, end);
    assert n.actions + [] == n.actions;
  }

  /** While no arm was taken, the first arm that holds is, and the else part if there is none. */
  lemma {:induction false} ExecBlock(kind: TableKind, check: Check, m: Machine, arms: seq<Arm>, else_: Else, end: Pair)
    requires (forall k | 0 <= k < |arms| :: ArmOk(arms[k])) && ElseOk(else_) && IsControl(end, 3)
    requires !m.skipped
    ensures Closes(m, Exec(kind, check, m, FlattenBlock(arms, else_, end)),
                   ArmsMeaning(kind, check, m.pairIndex, arms, else_))
    decreases |arms|
  {
    if arms == [] {
      ExecElse(kind, check, m, else_, end);
    } else if check(arms[0].cond, arms[0].then_) {
      BlockTaken(kind, check, m, arms[0], arms[1..], else_, end);
    } else {
      var n := ArmThenRest(kind, check, m, arms[0], FlattenBlock(arms[1..], else_, end));
      ExecBlock(kind, check, n, arms[1..], else_, end);
    }
  }

  /** One item from a fresh state plans its meaning and leaves a fresh state behind. */
  lemma ExecItem(kind: TableKind, check: Check, m: Machine, item: Item)
    requires WellFormed(item) && Fresh(m)
    ensures Leaves(m, Exec(kind, check, m, FlattenItem(item)), |FlattenItem(item)|, true, false,
                   ItemMeaning(kind, check, m.pairIndex, item))
  {
    EveryPairAccounted(kind, check, m, FlattenItem(item));
    match item
    case Plain(pair) =>
      ExecCons(kind, check, m, pair, []);
      assert [pair] + [] == [pair];
    case Block(arms, else_, end) =>
      ExecBlock(kind, check, m, arms, else_, end);
  }

  lemma Associate(a: seq<Action>, b: seq<Action>, c: seq<Action>)
    ensures (a + b) + c == a + (b + c)
  {
  }

  lemma LeavesJoin(m: Machine, n: Machine, o: Machine, i: nat, j: nat, a: seq<Action>, b: seq<Action>)
    requires Leaves(m, n, i, true, false, a) && Leaves(n, o, j, true, false, b)
    ensures Leaves(m, o, i + j, true, false, a + b)
  {
    Associate(m.actions, a, b);
  }

  /** Meaning preservation: running the flat form of a structured program plans exactly the actions
      of the first arm that holds in each block (else those of its else part), with the indices the
      pairs have in the table, and ends in the state it started in up to the saved condition. */
  lemma {:induction false} FlatRunIsMeaning(kind: TableKind, check: Check, m: Machine, program: seq<Item>)
    requires (forall k | 0 <= k < |program| :: WellFormed(program[k])) && Fresh(m)
    ensures Leaves(m, Exec(kind, check, m, Flatten(program)), |Flatten(program)|, true, false,
                   Meaning(kind, check, m.pairIndex, program))
    decreases |program|
  {
    if program != [] {
      var first, rest := FlattenItem(program[0]), Flatten(program[1..]);
      var n := Exec(kind, check, m, first);
      ExecItem(kind, check, m, program[0]);
      FlatRunIsMeaning(kind, check, n, program[1..]);
      ExecConcat(kind, check, m, first, rest);
      LeavesJoin(m, n, Exec(kind, check, n, rest), |first|, |rest|,
                 ItemMeaning(kind, check, m.pairIndex, program[0]), Meaning(kind, check, n.pairIndex, program[1..]));
    }
  }

  /** The planner on a table that is the flat form of a structured program, for every adapter. */
  lemma PlanIsMeaning(kind: TableKind, values: seq<bv32>, env: ConditionEnv, program: seq<Item>)
    requires |values| % 2 == 0 && PairsOf(values) == Flatten(program)
    requires forall k | 0 <= k < |program| :: WellFormed(program[k])
    ensures var plan := PlanOf(kind, values, EnvCheck(env));
            && plan.Ok? && plan.value.actions == Meaning(kind, EnvCheck(env), 0, program)
            && plan.value.conditionMarkerPairs + plan.value.skippedWritePairs + |plan.value.actions|
               == plan.value.rawPairCount
  {
    FlatRunIsMeaning(kind, EnvCheck(env), START, program);
    EveryPairAccounted(kind, EnvCheck(env), START, Flatten(program));
  }
}
