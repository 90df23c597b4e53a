/** What the register-table interpreter does with a block inside an arm of another block. It keeps no stack,
    so the inner end-if ends the outer block's choice too. */
module RealtekNesting {
  import opened RealtekTable
  import opened RealtekPrograms
  import opened Wrappers

  /** A block with another block inside one arm: arms before it, the arm up to the inner block, the inner
      block, the rest of the arm, the arms after it, the else part and the end. */
  datatype Nest = Nest(
    before: seq<Arm>, cond: Pair, then_: Pair, prefix: seq<Pair>,
    innerArms: seq<Arm>, innerElse: Else, innerEnd: Pair,
    suffix: seq<Pair>, after: seq<Arm>, else_: Else, end: Pair)

  predicate ArmsOk(arms: seq<Arm>) {
    forall k | 0 <= k < |arms| :: ArmOk(arms[k])
  }

  predicate NestOk(n: Nest) {
    && ArmsOk(n.before) && ArmOk(Outer(n))
    && ArmsOk(n.innerArms) && ElseOk(n.innerElse) && IsControl(n.innerEnd, 3)
    && IsBody(n.suffix)
    && ArmsOk(n.after) && ElseOk(n.else_) && IsControl(n.end, 3)
  }

  /** The arm up to the inner block. */
  function Outer(n: Nest): Arm {
    Arm(n.cond, n.then_, n.prefix)
  }

  function FlattenArms(arms: seq<Arm>): seq<Pair> {
    if arms == [] then [] else FlattenArm(arms[0]) + FlattenArms(arms[1..])
  }

  function FlattenInner(n: Nest): seq<Pair> {
    FlattenBlock(n.innerArms, n.innerElse, n.innerEnd)
  }

  function FlattenRest(n: Nest): seq<Pair> {
    n.suffix + FlattenBlock(n.after, n.else_, n.end)
  }

  function FlattenNest(n: Nest): seq<Pair> {
    FlattenArms(n.before) + (FlattenArm(Outer(n)) + (FlattenInner(n) + FlattenRest(n)))
  }

  // ---------------------------------------------------------------- what it means

  predicate AnyHolds(check: Check, arms: seq<Arm>) {
    arms != [] && (check(arms[0].cond, arms[0].then_) || AnyHolds(check, arms[1..]))
  }

  /** Where the parts of a nest that starts at `i` begin. */
  function OuterAt(i: nat, n: Nest): nat {
    i + |FlattenArms(n.before)|
  }

  function InnerAt(i: nat, n: Nest): nat {
    OuterAt(i, n) + 2 + |n.prefix|
  }

  function SuffixAt(i: nat, n: Nest): nat {
    InnerAt(i, n) + |FlattenInner(n)|
  }

  function BeforeMeaning(kind: TableKind, check: Check, i: nat, n: Nest): seq<Action> {
    ArmsMeaning(kind, check, i, n.before, NoElse)
  }

  function PrefixActions(kind: TableKind, i: nat, n: Nest): seq<Action> {
    BodyActions(kind, OuterAt(i, n) + 2, n.prefix)
  }

  function InnerMeaning(kind: TableKind, check: Check, i: nat, n: Nest): seq<Action> {
    ArmsMeaning(kind, check, InnerAt(i, n), n.innerArms, n.innerElse)
  }

  function SuffixActions(kind: TableKind, i: nat, n: Nest): seq<Action> {
    BodyActions(kind, SuffixAt(i, n), n.suffix)
  }

  function AfterMeaning(kind: TableKind, check: Check, i: nat, n: Nest): seq<Action> {
    ArmsMeaning(kind, check, SuffixAt(i, n) + |n.suffix|, n.after, n.else_)
  }

  /** What a block with a block inside should plan. */
  function NestMeaning(kind: TableKind, check: Check, i: nat, n: Nest): seq<Action> {
    if AnyHolds(check, n.before) then BeforeMeaning(kind, check, i, n)
    else if check(n.cond, n.then_) then
      PrefixActions(kind, i, n) + (InnerMeaning(kind, check, i, n) + SuffixActions(kind, i, n))
    else AfterMeaning(kind, check, i, n)
  }

  /** What is planned up to the inner end-if: inside an arm that is taken the inner block is passed over. */
  function PlannedFirst(kind: TableKind, check: Check, i: nat, n: Nest): seq<Action> {
    if AnyHolds(check, n.before) then BeforeMeaning(kind, check, i, n)
    else if check(n.cond, n.then_) then PrefixActions(kind, i, n)
    else InnerMeaning(kind, check, i, n)
  }

  /** What is planned in fact: after the inner end-if the rest of the arm, and then the arms behind it as if
      none had been taken. */
  function PlannedFlat(kind: TableKind, check: Check, i: nat, n: Nest): seq<Action> {
    PlannedFirst(kind, check, i, n) + (SuffixActions(kind, i, n) + AfterMeaning(kind, check, i, n))
  }

  // ---------------------------------------------------------------- running it

  /** From `m` to `n` an arm was taken or not, and `planned` was planned. */
  predicate Did(m: Machine, n: Machine, taken: bool, planned: seq<Action>) {
    n.skipped == taken && n.actions == m.actions + planned
  }

  lemma {:induction false} ExecArmsTaken(kind: TableKind, check: Check, m: Machine, arms: seq<Arm>)
    requires ArmsOk(arms) && m.skipped
    ensures Did(m, Exec(kind, check, m, FlattenArms(arms)), true, [])
    decreases |arms|
  {
    if arms != [] {
      var n := ArmThenRest(kind, check, m, arms[0], FlattenArms(arms[1..]));
      ExecArmsTaken(kind, check, n, arms[1..]);
    }
  }

  lemma FirstArmTaken(kind: TableKind, check: Check, m: Machine, arms: seq<Arm>)
    requires arms != [] && ArmsOk(arms) && !m.skipped && check(arms[0].cond, arms[0].then_)
    ensures Did(m, Exec(kind, check, m, FlattenArms(arms)), true, BodyActions(kind, m.pairIndex + 2, arms[0].body))
  {
    var n := ArmThenRest(kind, check, m, arms[0], FlattenArms(arms[1..]));
    ExecArmsTaken(kind, check, n, arms[1..]);
    assert n.actions + [] == n.actions;
  }

  lemma NoArms(kind: TableKind, check: Check, m: Machine)
    requires !m.skipped
    ensures Did(m, Exec(kind, check, m, FlattenArms([])), false, [])
  {
  }

  lemma FirstArmPassed(kind: TableKind, check: Check, m: Machine, arms: seq<Arm>) returns (n: Machine)
    requires arms != [] && ArmsOk(arms) && !m.skipped && !check(arms[0].cond, arms[0].then_)
    ensures !n.skipped && n.actions == m.actions
    ensures Exec(kind, check, m, FlattenArms(arms)) == Exec(kind, check, n, FlattenArms(arms[1..]))
    ensures AnyHolds(check, arms) == AnyHolds(check, arms[1..])
    ensures ArmsMeaning(kind, check, m.pairIndex, arms, NoElse)
         == ArmsMeaning(kind, check, n.pairIndex, arms[1..], NoElse)
  {
    n := ArmThenRest(kind, check, m, arms[0], FlattenArms(arms[1..]));
  }

  lemma {:induction false} ExecArms(kind: TableKind, check: Check, m: Machine, arms: seq<Arm>)
    requires ArmsOk(arms) && !m.skipped
    ensures Did(m, Exec(kind, check, m, FlattenArms(arms)), AnyHolds(check, arms),
                ArmsMeaning(kind, check, m.pairIndex, arms, NoElse))
    decreases |arms|
  {
    if arms == [] {
      NoArms(kind, check, m);
    } else if check(arms[0].cond, arms[0].then_) {
      FirstArmTaken(kind, check, m, arms);
      assert ArmsMeaning(kind, check, m.pairIndex, arms, NoElse) == BodyActions(kind, m.pairIndex + 2, arms[0].body);
    } else {
      var n := FirstArmPassed(kind, check, m, arms);
      ExecArms(kind, check, n, arms[1..]);
      DidFrom(m, n, Exec(kind, check, n, FlattenArms(arms[1..])), AnyHolds(check, arms[1..]),
              ArmsMeaning(kind, check, n.pairIndex, arms[1..], NoElse));
    }
  }

  lemma DidFrom(m: Machine, n: Machine, o: Machine, taken: bool, planned: seq<Action>)
    requires Did(n, o, taken, planned) && m.actions == n.actions
    ensures Did(m, o, taken, planned)
  {
  }

  /** The arm up to the inner block, after the arms before it. */
  lemma ExecOuter(kind: TableKind, check: Check, m: Machine, n: Nest, b: Machine, rest: seq<Pair>) returns (s: Machine)
    requires ArmOk(Outer(n)) && b.pairIndex == OuterAt(m.pairIndex, n)
    requires Did(m, b, AnyHolds(check, n.before), BeforeMeaning(kind, check, m.pairIndex, n))
    ensures Exec(kind, check, b, FlattenArm(Outer(n)) + rest) == Exec(kind, check, s, rest)
    ensures s.pairIndex == InnerAt(m.pairIndex, n)
    ensures var taken := AnyHolds(check, n.before) || check(n.cond, n.then_);
            Did(m, s, taken, if taken then PlannedFirst(kind, check, m.pairIndex, n) else [])
  {
    s := ArmThenRest(kind, check, b, Outer(n), rest);
    NoneHoldsPlansNothing(kind, check, m.pairIndex, n.before);
    assert m.actions + [] == m.actions;
  }

  /** Up to the inner block: whether an arm was taken, and what that planned. */
  lemma ExecToInner(kind: TableKind, check: Check, m: Machine, n: Nest) returns (s: Machine)
    requires NestOk(n) && Fresh(m)
    ensures Exec(kind, check, m, FlattenNest(n)) == Exec(kind, check, s, FlattenInner(n) + FlattenRest(n))
    ensures s.pairIndex == InnerAt(m.pairIndex, n)
    ensures var taken := AnyHolds(check, n.before) || check(n.cond, n.then_);
            Did(m, s, taken, if taken then PlannedFirst(kind, check, m.pairIndex, n) else [])
  {
    var rest := FlattenInner(n) + FlattenRest(n);
    var b := Exec(kind, check, m, FlattenArms(n.before));
    ExecArms(kind, check, m, n.before);
    EveryPairAccounted(kind, check, m, FlattenArms(n.before));
    ExecConcat(kind, check, m, FlattenArms(n.before), FlattenArm(Outer(n)) + rest);
    s := ExecOuter(kind, check, m, n, b, rest);
  }

  lemma {:induction false} NoneHoldsPlansNothing(kind: TableKind, check: Check, i: nat, arms: seq<Arm>)
    ensures !AnyHolds(check, arms) ==> ArmsMeaning(kind, check, i, arms, NoElse) == []
    decreases |arms|
  {
    if arms != [] {
      NoneHoldsPlansNothing(kind, check, i + 2 + |arms[0].body|, arms[1..]);
    }
  }

  /** The inner block plans its meaning unless an outer arm was taken, and then everything is fresh. */
  lemma ExecInner(kind: TableKind, check: Check, s: Machine, n: Nest)
    requires NestOk(n)
    ensures var t := Exec(kind, check, s, FlattenInner(n));
      && Closes(s, t, if s.skipped then [] else ArmsMeaning(kind, check, s.pairIndex, n.innerArms, n.innerElse))
      && t.pairIndex == s.pairIndex + |FlattenInner(n)|
  {
    EveryPairAccounted(kind, check, s, FlattenInner(n));
    if s.skipped {
      BlockAfterTaken(kind, check, s, n.innerArms, n.innerElse, n.innerEnd);
    } else {
      ExecBlock(kind, check, s, n.innerArms, n.innerElse, n.innerEnd);
    }
  }

  lemma ExecRest(kind: TableKind, check: Check, t: Machine, n: Nest)
    requires NestOk(n) && Fresh(t)
    ensures Closes(t, Exec(kind, check, t, FlattenRest(n)),
                   BodyActions(kind, t.pairIndex, n.suffix)
                   + ArmsMeaning(kind, check, t.pairIndex + |n.suffix|, n.after, n.else_))
  {
    var u := Exec(kind, check, t, n.suffix);
    ExecBody(kind, check, t, n.suffix);
    ExecConcat(kind, check, t, n.suffix, FlattenBlock(n.after, n.else_, n.end));
    ExecBlock(kind, check, u, n.after, n.else_, n.end);
    Associate(t.actions, BodyActions(kind, t.pairIndex, n.suffix),
              ArmsMeaning(kind, check, u.pairIndex, n.after, n.else_));
  }

  lemma ThroughInner(kind: TableKind, check: Check, m: Machine, s: Machine, t: Machine, n: Nest)
    requires s.pairIndex == InnerAt(m.pairIndex, n)
    requires var taken := AnyHolds(check, n.before) || check(n.cond, n.then_);
             Did(m, s, taken, if taken then PlannedFirst(kind, check, m.pairIndex, n) else [])
    requires Closes(s, t, if s.skipped then [] else ArmsMeaning(kind, check, s.pairIndex, n.innerArms, n.innerElse))
    ensures t.actions == m.actions + PlannedFirst(kind, check, m.pairIndex, n)
  {
    assert s.actions + [] == s.actions && m.actions + [] == m.actions;
  }

  /** What the interpreter plans for a nest. */
  lemma NestRuns(kind: TableKind, check: Check, m: Machine, n: Nest)
    requires NestOk(n) && Fresh(m)
    ensures Closes(m, Exec(kind, check, m, FlattenNest(n)), PlannedFlat(kind, check, m.pairIndex, n))
  {
    var s := ExecToInner(kind, check, m, n);
    var t := Exec(kind, check, s, FlattenInner(n));
    ExecInner(kind, check, s, n);
    ExecConcat(kind, check, s, FlattenInner(n), FlattenRest(n));
    ThroughInner(kind, check, m, s, t, n);
    ExecRest(kind, check, t, n);
    Associate(m.actions, PlannedFirst(kind, check, m.pairIndex, n),
              SuffixActions(kind, m.pairIndex, n) + AfterMeaning(kind, check, m.pairIndex, n));
  }

  // ---------------------------------------------------------------- when that is the meaning

  /** The block plans nothing: the arm that holds, or else the else part, is empty. */
  predicate Idle(check: Check, arms: seq<Arm>, else_: Else) {
    if arms == [] then else_.NoElse? || else_.body == []
    else if check(arms[0].cond, arms[0].then_) then arms[0].body == []
    else Idle(check, arms[1..], else_)
  }

  lemma {:induction false} IdlePlansNothing(kind: TableKind, check: Check, i: nat, arms: seq<Arm>, else_: Else)
    ensures ArmsMeaning(kind, check, i, arms, else_) == [] <==> Idle(check, arms, else_)
    decreases |arms|
  {
    if arms != [] && !check(arms[0].cond, arms[0].then_) {
      IdlePlansNothing(kind, check, i + 2 + |arms[0].body|, arms[1..], else_);
    }
  }

  predicate AllBelow(actions: seq<Action>, k: nat) {
    forall j | 0 <= j < |actions| :: actions[j].pairIndex < k
  }

  predicate AllFrom(actions: seq<Action>, k: nat) {
    forall j | 0 <= j < |actions| :: k <= actions[j].pairIndex
  }

  lemma BodyIndices(kind: TableKind, i: nat, body: seq<Pair>)
    ensures AllFrom(BodyActions(kind, i, body), i) && AllBelow(BodyActions(kind, i, body), i + |body|)
  {
  }

  lemma {:induction false} BlockFrom(kind: TableKind, check: Check, i: nat, arms: seq<Arm>, else_: Else)
    ensures AllFrom(ArmsMeaning(kind, check, i, arms, else_), i)
    decreases |arms|
  {
    if arms == [] {
      if else_.Else? {
        BodyIndices(kind, i + 1, else_.body);
      }
    } else {
      BodyIndices(kind, i + 2, arms[0].body);
      BlockFrom(kind, check, i + 2 + |arms[0].body|, arms[1..], else_);
    }
  }

  lemma {:induction false} BlockBelow(kind: TableKind, check: Check, i: nat, arms: seq<Arm>, else_: Else, end: Pair)
    ensures AllBelow(ArmsMeaning(kind, check, i, arms, else_), i + |FlattenBlock(arms, else_, end)|)
    decreases |arms|
  {
    if arms == [] {
      if else_.Else? {
        BodyIndices(kind, i + 1, else_.body);
      }
    } else {
      BodyIndices(kind, i + 2, arms[0].body);
      BlockBelow(kind, check, i + 2 + |arms[0].body|, arms[1..], else_, end);
    }
  }

  /** Actions with lower indices cannot stand in for ones with higher indices. */
  lemma SwapNeedsEmpty(i: seq<Action>, s: seq<Action>, r: seq<Action>, k: nat)
    requires AllBelow(i, k) && AllFrom(s, k) && AllFrom(r, k)
    ensures s + r == i + s <==> i == [] && r == []
  {
    assert |s + r| == |s| + |r| && |i + s| == |i| + |s|;
    if i != [] {
      assert (i + s)[0].pairIndex < k;
      if s + r != [] {
        assert (s + r)[0] == if s != [] then s[0] else r[0];
        assert (s + r)[0].pairIndex >= k;
      }
    } else {
      assert i + s == s && (r == [] ==> s + r == s);
    }
  }

  lemma ExtraNeedsEmpty(first: seq<Action>, extra: seq<Action>)
    ensures first + extra == first <==> extra == []
    ensures extra + first == first <==> extra == []
  {
    assert |first + extra| == |first| + |extra| == |extra + first|;
  }

  lemma TakenBefore(e: seq<Action>, s: seq<Action>, r: seq<Action>)
    ensures e + (s + r) == e <==> s == [] && r == []
  {
    ExtraNeedsEmpty(e, s + r);
  }

  lemma TakenHere(p: seq<Action>, i: seq<Action>, s: seq<Action>, r: seq<Action>, k: nat)
    requires AllBelow(i, k) && AllFrom(s, k) && AllFrom(r, k)
    ensures p + (s + r) == p + (i + s) <==> i == [] && r == []
  {
    SwapNeedsEmpty(i, s, r, k);
    assert (p + (s + r))[|p|..] == s + r && (p + (i + s))[|p|..] == i + s;
  }

  lemma NotTaken(i: seq<Action>, s: seq<Action>, r: seq<Action>)
    ensures i + (s + r) == r <==> i == [] && s == []
  {
    assert i + (s + r) == (i + s) + r;
    ExtraNeedsEmpty(r, i + s);
  }

  /** When the interpreter plans what the nest means, on a given adapter. */
  predicate Harmless(check: Check, n: Nest) {
    if AnyHolds(check, n.before) then n.suffix == [] && Idle(check, n.after, n.else_)
    else if check(n.cond, n.then_) then Idle(check, n.innerArms, n.innerElse) && Idle(check, n.after, n.else_)
    else Idle(check, n.innerArms, n.innerElse) && n.suffix == []
  }

  lemma PlansMeaningIffHarmless(kind: TableKind, check: Check, i: nat, n: Nest)
    ensures PlannedFlat(kind, check, i, n) == NestMeaning(kind, check, i, n) <==> Harmless(check, n)
  {
    var inner, s, r := InnerMeaning(kind, check, i, n), SuffixActions(kind, i, n), AfterMeaning(kind, check, i, n);
    IdlePlansNothing(kind, check, InnerAt(i, n), n.innerArms, n.innerElse);
    IdlePlansNothing(kind, check, SuffixAt(i, n) + |n.suffix|, n.after, n.else_);
    BlockBelow(kind, check, InnerAt(i, n), n.innerArms, n.innerElse, n.innerEnd);
    BodyIndices(kind, SuffixAt(i, n), n.suffix);
    BlockFrom(kind, check, SuffixAt(i, n) + |n.suffix|, n.after, n.else_);
    if AnyHolds(check, n.before) {
      TakenBefore(BeforeMeaning(kind, check, i, n), s, r);
    } else if check(n.cond, n.then_) {
      TakenHere(PrefixActions(kind, i, n), inner, s, r, SuffixAt(i, n));
    } else {
      NotTaken(inner, s, r);
    }
  }

  /** For every block with a block inside one of its arms, and every adapter: the flat run plans what the
      nest means if and only if
      - where an earlier arm was taken, nothing follows the inner block in its arm and the later arms and
        the else part would plan nothing;
      - where the arm itself is taken, the inner block plans nothing, and nor would the later arms;
      - where neither is, the inner block plans nothing and nothing follows it in its arm. */
  lemma NestRunsAsMeantIff(kind: TableKind, check: Check, m: Machine, n: Nest)
    requires NestOk(n) && Fresh(m)
    ensures Exec(kind, check, m, FlattenNest(n)).actions == m.actions + NestMeaning(kind, check, m.pairIndex, n)
       <==> Harmless(check, n)
  {
    NestRuns(kind, check, m, n);
    PlansMeaningIffHarmless(kind, check, m.pairIndex, n);
    var flat, meant := PlannedFlat(kind, check, m.pairIndex, n), NestMeaning(kind, check, m.pairIndex, n);
    assert (m.actions + flat)[|m.actions|..] == flat && (m.actions + meant)[|m.actions|..] == meant;
  }

  /** An empty block inside an arm, and one write after it. */
  function LeakyNest(write: Pair): Nest {
    var c, t, e := Pair(0x8000_0000, 0), Pair(0x4000_0000, 0), Pair(0xb000_0000, 0);
    Nest([], c, t, [], [Arm(c, t, [])], NoElse, e, [write], [], NoElse, e)
  }

  /** Such a nest exists: on every adapter the arm is not for, the write goes out all the same. */
  lemma NestLeaks(kind: TableKind, check: Check, write: Pair)
    requires !IsMarker(write) && !check(Pair(0x8000_0000, 0), Pair(0x4000_0000, 0))
    ensures NestOk(LeakyNest(write)) && NestMeaning(kind, check, 0, LeakyNest(write)) == []
    ensures |Exec(kind, check, START, FlattenNest(LeakyNest(write))).actions| == 1
  {
    var n := LeakyNest(write);
    NestRuns(kind, check, START, n);
    assert n.innerArms[1..] == [] && !AnyHolds(check, n.before);
    assert Idle(check, n.innerArms[1..], n.innerElse) && Idle(check, n.innerArms, n.innerElse);
    IdlePlansNothing(kind, check, InnerAt(0, n), n.innerArms, n.innerElse);
    assert InnerMeaning(kind, check, 0, n) == [] && AfterMeaning(kind, check, 0, n) == [];
    assert |SuffixActions(kind, 0, n)| == 1;
    assert |PlannedFlat(kind, check, 0, n)| == 1;
  }
}
