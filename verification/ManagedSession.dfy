/** The Android session handle (WfbManagedStreamsSession.java and WfbManagedStreamsStatus.java): one atomic
    reference that a worker reads and overwrites while any number of callers compare and swap. */
module ManagedSession {
  import opened Wrappers

  // ---------------------------------------------------------------- the immutable status

  datatype State = Created | Running | StopRequested | Succeeded | Failed

  datatype StreamsResult = StreamsResult(ok: bool, code: string, message: string)

  datatype LinkError = LinkError(code: string, message: string)

  datatype Status = Status(
    state: State, stopRequested: bool, startedAt: int, finishedAt: int,
    result: Option<StreamsResult>, error: Option<LinkError>)
  {
    predicate IsTerminal() {
      state == Succeeded || state == Failed
    }

    predicate IsRunning() {
      state == Running || state == StopRequested
    }

    function AsRunning(now: int): Status {
      Status(Running, stopRequested, now, 0, None, None)
    }

    function WithStopRequested(): Status {
      if IsTerminal() then this else Status(StopRequested, true, startedAt, finishedAt, result, error)
    }

    function WithResult(value: StreamsResult, now: int): Status {
      Status(Succeeded, stopRequested, startedAt, now, Some(value), None)
    }

    function WithError(value: LinkError, now: int): Status {
      Status(Failed, stopRequested, startedAt, now, None, Some(value))
    }
  }

  const CREATED := Status(Created, false, 0, 0, None, None)

  // ---------------------------------------------------------------- the shared state

  /** A status object: compare-and-swap compares identities, so every object made gets its own `id`. */
  datatype Object = Object(id: nat, status: Status)

  /** How the blocking call into the manager ends, when it does not bring the worker down. */
  datatype Outcome = Returned(result: StreamsResult) | Threw(error: LinkError)

  datatype Worker =
    | Unsubmitted
    | Rejected
    | Blocking
    | Ready(outcome: Outcome)                       // the manager has returned or thrown
    | Holding(outcome: Outcome, next: Object)       // the current status has been read, the next one made
    | Wrote(outcome: Outcome)
    | Ended(outcome: Outcome, normally: bool)
    | Crashed                                       // an Error escaped from the manager

  /** `callers` maps each thread inside `requestStop` to the status it has read and is about to replace. */
  datatype Session = Session(status: Object, nextId: nat, worker: Worker, callers: map<nat, Object>)

  datatype Action =
    | SetRunning(now: int)
    | Submit
    | Reject(reason: string, rejectedAt: int)
    | ManagerReturns(outcome: Outcome)
    | ManagerCrashes
    | WorkerRead(readAt: int)
    | WorkerWrite
    | CallbacksEnd(normally: bool)
    | CallerRead(reader: nat)
    | CallerSwap(swapper: nat)

  const START := Session(Object(0, CREATED), 1, Unsubmitted, map[])

  function Finished(status: Status, outcome: Outcome, now: int): Status {
    match outcome
    case Returned(result) => status.WithResult(result, now)
    case Threw(error) => status.WithError(error, now)
  }

  /** Callers only exist once the constructor has handed the session out. */
  predicate HandedOut(s: Session) {
    !s.worker.Unsubmitted? && !s.worker.Rejected?
  }

  function Put(s: Session, status: Status): Session {
    s.(status := Object(s.nextId, status), nextId := s.nextId + 1)
  }

  /** A compare-and-swap that succeeds: `requestStop` returns true. */
  predicate Accepts(s: Session, a: Action) {
    a.CallerSwap? && a.swapper in s.callers && s.callers[a.swapper].id == s.status.id
  }

  /** One atomic step. An action that is not possible in `s` changes nothing. */
  function Next(s: Session, a: Action): Session {
    match a
    case SetRunning(now) =>
      if s.worker.Unsubmitted? && s.status.status.state.Created? then Put(s, s.status.status.AsRunning(now)) else s
    case Submit =>
      if s.worker.Unsubmitted? && s.status.status.state.Running? then s.(worker := Blocking) else s
    case Reject(reason, now) =>
      if s.worker.Unsubmitted? && s.status.status.state.Running?
      then Put(s, s.status.status.WithError(LinkError("android_sdk_executor_rejected", reason), now)).(worker := Rejected)
      else s
    case ManagerReturns(outcome) => if s.worker.Blocking? then s.(worker := Ready(outcome)) else s
    case ManagerCrashes => if s.worker.Blocking? then s.(worker := Crashed) else s
    case WorkerRead(now) =>
      if s.worker.Ready?
      then s.(worker := Holding(s.worker.outcome, Object(s.nextId, Finished(s.status.status, s.worker.outcome, now))),
              nextId := s.nextId + 1)
      else s
    case WorkerWrite =>
      if s.worker.Holding? then s.(status := s.worker.next, worker := Wrote(s.worker.outcome)) else s
    case CallbacksEnd(normally) =>
      if s.worker.Wrote? then s.(worker := Ended(s.worker.outcome, normally)) else s
    case CallerRead(i) =>
      if HandedOut(s) && i !in s.callers && !s.status.status.IsTerminal()
      then s.(callers := s.callers[i := s.status]) else s
    case CallerSwap(i) =>
      if i !in s.callers then s
      else
        var t := s.(callers := s.callers - {i});
        if Accepts(s, a) then Put(t, s.callers[i].status.WithStopRequested()) else t
  }

  function After(run: seq<Action>): Session {
    if run == [] then START else Next(After(run[..|run| - 1]), run[|run| - 1])
  }

  // ---------------------------------------------------------------- what every step keeps

  predicate Consistent(t: Status) {
    && (t.result.Some? <==> t.state.Succeeded?) && (t.error.Some? <==> t.state.Failed?)
    && (t.state.StopRequested? ==> t.stopRequested) && (t.state.Running? || t.state.Created? ==> !t.stopRequested)
  }

  predicate Reports(t: Status, outcome: Outcome) {
    match outcome
    case Returned(result) => t.state == Succeeded && t.result == Some(result)
    case Threw(error) => t.state == Failed && t.error == Some(error)
  }

  predicate WorkerInvariant(s: Session) {
    match s.worker
    case Unsubmitted => !s.status.status.IsTerminal() && !s.status.status.stopRequested && s.callers == map[]
    case Rejected => s.status.status.state.Failed? && s.callers == map[]
    case Holding(outcome, next) =>
      && s.status.status.IsRunning() && Consistent(next.status) && Reports(next.status, outcome)
      && next.id < s.nextId && next.id != s.status.id && forall i | i in s.callers :: s.callers[i].id != next.id
    case Wrote(outcome) => Reports(s.status.status, outcome)
    case Ended(outcome, _) => Reports(s.status.status, outcome)
    case _ => s.status.status.IsRunning()
  }

  predicate CallerInvariant(s: Session, prev: Object) {
    && prev.id < s.nextId && prev.status.IsRunning() && Consistent(prev.status)
    && (prev.id == s.status.id ==> prev == s.status)
  }

  predicate Invariant(s: Session) {
    && s.status.id < s.nextId && Consistent(s.status.status) && WorkerInvariant(s)
    && forall i | i in s.callers :: CallerInvariant(s, s.callers[i])
  }

  lemma WorkerStepKeeps(s: Session, a: Action)
    requires Invariant(s) && !a.CallerRead? && !a.CallerSwap?
    ensures Invariant(Next(s, a))
  {
    forall i | i in s.callers
      ensures CallerInvariant(Next(s, a), s.callers[i])
    {
      assert CallerInvariant(s, s.callers[i]);
    }
  }

  lemma ReadKeeps(s: Session, i: nat)
    requires Invariant(s)
    ensures Invariant(Next(s, CallerRead(i)))
  {
  }

  lemma SwapKeeps(s: Session, i: nat)
    requires Invariant(s)
    ensures Invariant(Next(s, CallerSwap(i)))
  {
    if i in s.callers {
      assert CallerInvariant(s, s.callers[i]);
    }
  }

  lemma StepKeepsInvariant(s: Session, a: Action)
    requires Invariant(s)
    ensures Invariant(Next(s, a))
  {
    match a
    case CallerRead(i) => ReadKeeps(s, i);
    case CallerSwap(i) => SwapKeeps(s, i);
    case _ => WorkerStepKeeps(s, a);
  }

  lemma {:induction false} RunsKeepInvariant(run: seq<Action>)
    ensures Invariant(After(run))
  {
    if run != [] {
      RunsKeepInvariant(run[..|run| - 1]);
      StepKeepsInvariant(After(run[..|run| - 1]), run[|run| - 1]);
    }
  }

  // ---------------------------------------------------------------- the terminal status

  lemma StepKeepsTerminal(s: Session, a: Action)
    requires Invariant(s) && s.status.status.IsTerminal()
    ensures Next(s, a).status == s.status
  {
    if a.CallerSwap? && a.swapper in s.callers {
      assert CallerInvariant(s, s.callers[a.swapper]);
    }
  }

  /** A terminal status stays the very same object however the run goes on. */
  lemma {:induction false} TerminalIsFinal(run: seq<Action>, more: seq<Action>)
    requires After(run).status.status.IsTerminal()
    ensures After(run + more).status == After(run).status
  {
    if more == [] {
      assert run + more == run;
    } else {
      var before := run + more[..|more| - 1];
      assert (run + more)[..|run + more| - 1] == before;
      TerminalIsFinal(run, more[..|more| - 1]);
      RunsKeepInvariant(before);
      StepKeepsTerminal(After(before), more[|more| - 1]);
    }
  }

  /** In every run a status is terminal exactly when it has one of result and error, and never both. */
  lemma TerminalHasOneOutcome(run: seq<Action>)
    ensures var t := After(run).status.status;
      && (t.IsTerminal() <==> (t.result.Some? || t.error.Some?))
      && !(t.result.Some? && t.error.Some?)
  {
    RunsKeepInvariant(run);
  }

  // ---------------------------------------------------------------- awaiting

  datatype Awaited = NotStarted | StillRunning | TaskFailed | Gives(outcome: Outcome) | Incomplete

  /** What `await` does when it looks at session `s`: it waits for the task, then reads the status. */
  function Await(s: Session): Awaited {
    match s.worker
    case Unsubmitted => NotStarted
    case Rejected => NotStarted
    case Crashed => TaskFailed
    case Ended(_, normally) =>
      if !normally then TaskFailed
      else if s.status.status.result.Some? then Gives(Returned(s.status.status.result.value))
      else if s.status.status.error.Some? then Gives(Threw(s.status.status.error.value))
      else Incomplete
    case _ => StillRunning
  }

  /** `await` is never incomplete: once the task has ended normally it gives just what the manager did. */
  lemma AwaitGivesOutcome(run: seq<Action>)
    ensures Await(After(run)) != Incomplete
    ensures var s := After(run); s.worker.Ended? && s.worker.normally ==> Await(s) == Gives(s.worker.outcome)
  {
    RunsKeepInvariant(run);
  }

  // ---------------------------------------------------------------- the stop flag

  /** Whether the worker has read the status that its final one is made from. */
  predicate HasRead(s: Session) {
    s.worker.Holding? || s.worker.Wrote? || s.worker.Ended?
  }

  ghost predicate AcceptedAt(run: seq<Action>, i: nat) {
    i < |run| && Accepts(After(run[..i]), run[i])
  }

  ghost predicate AcceptedBeforeRead(run: seq<Action>, i: nat) {
    AcceptedAt(run, i) && !HasRead(After(run[..i]))
  }

  /** The status whose stop flag counts: the one the worker is about to write, or the current one. */
  function Decisive(s: Session): Status {
    if s.worker.Holding? then s.worker.next.status else s.status.status
  }

  lemma StepMovesFlag(s: Session, a: Action)
    requires Invariant(s)
    ensures Decisive(Next(s, a)).stopRequested <==> Decisive(s).stopRequested || (Accepts(s, a) && !HasRead(s))
  {
    if a.CallerSwap? && a.swapper in s.callers {
      assert CallerInvariant(s, s.callers[a.swapper]);
    }
  }

  lemma AcceptedEarlier(run: seq<Action>, i: nat)
    requires i < |run| - 1
    ensures AcceptedBeforeRead(run, i) <==> AcceptedBeforeRead(run[..|run| - 1], i)
  {
    assert run[..|run| - 1][..i] == run[..i];
  }

  lemma {:induction false} FlagMeaning(run: seq<Action>)
    ensures Decisive(After(run)).stopRequested <==> exists i: nat :: AcceptedBeforeRead(run, i)
  {
    if run != [] {
      var front, last := run[..|run| - 1], |run| - 1;
      FlagMeaning(front);
      RunsKeepInvariant(front);
      StepMovesFlag(After(front), run[last]);
      assert AcceptedBeforeRead(run, last) <==> Accepts(After(front), run[last]) && !HasRead(After(front));
      if i: nat :| AcceptedBeforeRead(front, i) {
        AcceptedEarlier(run, i);
      }
      if i: nat :| AcceptedBeforeRead(run, i) && i < last {
        AcceptedEarlier(run, i);
      }
    }
  }

  /** In every run that has written the manager's outcome, the final status says that a stop was
      requested exactly if some compare-and-swap landed before the worker read the status. */
  lemma FinalStopFlag(run: seq<Action>)
    requires After(run).worker.Wrote? || After(run).worker.Ended?
    ensures After(run).status.status.IsTerminal()
    ensures After(run).status.status.stopRequested <==> exists i: nat :: AcceptedBeforeRead(run, i)
  {
    FlagMeaning(run);
    RunsKeepInvariant(run);
  }

  /** Hence accepted stops are lost exactly in the runs where all of them landed after that read. */
  lemma StopLostIffLate(run: seq<Action>)
    requires After(run).worker.Wrote? || After(run).worker.Ended?
    requires exists i: nat :: AcceptedAt(run, i)
    ensures !After(run).status.status.stopRequested
       <==> forall i: nat | AcceptedAt(run, i) :: HasRead(After(run[..i]))
  {
    FinalStopFlag(run);
    if !After(run).status.status.stopRequested {
      forall i: nat | AcceptedAt(run, i)
        ensures HasRead(After(run[..i]))
      {
        assert !AcceptedBeforeRead(run, i);
      }
    } else {
      var i: nat :| AcceptedBeforeRead(run, i);
      assert AcceptedAt(run, i);
    }
  }

  lemma Unfold(run: seq<Action>, a: Action)
    ensures After(run + [a]) == Next(After(run), a)
  {
    assert (run + [a])[..|run|] == run;
  }

  lemma Twice(a: Action, b: Action)
    ensures After([a, b]) == Next(Next(START, a), b)
  {
    Unfold([], a);
    assert [] + [a] == [a];
    Unfold([a], b);
    assert [a] + [b] == [a, b];
  }

  function LosingRun(outcome: Outcome): seq<Action> {
    [SetRunning(1), Submit, ManagerReturns(outcome), CallerRead(0), WorkerRead(2), CallerSwap(0), WorkerWrite]
  }

  /** Such a run exists: the stop lands between the worker's read and its write. */
  lemma LostStop(outcome: Outcome)
    ensures var run := LosingRun(outcome);
            After(run).worker.Wrote? && AcceptedAt(run, 5) && !After(run).status.status.stopRequested
  {
    var r1 := [SetRunning(1)];
    var r2 := r1 + [Submit];
    var r3 := r2 + [ManagerReturns(outcome)];
    var r4 := r3 + [CallerRead(0)];
    var r5 := r4 + [WorkerRead(2)];
    var r6 := r5 + [CallerSwap(0)];
    var run := r6 + [WorkerWrite];
    Unfold([], SetRunning(1));
    Unfold(r1, Submit);
    Unfold(r2, ManagerReturns(outcome));
    Unfold(r3, CallerRead(0));
    Unfold(r4, WorkerRead(2));
    Unfold(r5, CallerSwap(0));
    Unfold(r6, WorkerWrite);
    assert [] + [SetRunning(1)] == r1;
    assert run[..5] == r5;
    assert run == LosingRun(outcome);
  }

  // ---------------------------------------------------------------- the handle itself

  /** The session object, one method for each atomic access the threads make. */
  class Handle {
    var status: Object
    var nextId: nat
    var worker: Worker
    var callers: map<nat, Object>

    function Snapshot(): Session
      reads this
    {
      Session(status, nextId, worker, callers)
    }

    /** `start` with an executor that takes the task or throws. */
    constructor (now: int, rejection: Option<string>, rejectedAt: int)
      ensures Snapshot() == match rejection
        case None => After([SetRunning(now), Submit])
        case Some(reason) => After([SetRunning(now), Reject(reason, rejectedAt)])
    {
      var running := CREATED.AsRunning(now);
      if rejection.None? {
        status, nextId, worker := Object(1, running), 2, Blocking;
      } else {
        var error := LinkError("android_sdk_executor_rejected", rejection.value);
        status, nextId, worker := Object(2, running.WithError(error, rejectedAt)), 3, Rejected;
      }
      callers := map[];
      new;
      Twice(SetRunning(now), if rejection.None? then Submit else Reject(rejection.value, rejectedAt));
    }

    method FinishManager(outcome: Outcome)
      requires worker.Blocking?
      modifies this
      ensures Snapshot() == Next(old(Snapshot()), ManagerReturns(outcome))
    {
      worker := Ready(outcome);
    }

    /** The worker reads the status and makes the final one from it. */
    method ReadForOutcome(now: int)
      requires worker.Ready?
      modifies this
      ensures Snapshot() == Next(old(Snapshot()), WorkerRead(now))
    {
      var final := match worker.outcome
        case Returned(result) => status.status.WithResult(result, now)
        case Threw(error) => status.status.WithError(error, now);
      worker := Holding(worker.outcome, Object(nextId, final));
      nextId := nextId + 1;
    }

    method WriteOutcome()
      requires worker.Holding?
      modifies this
      ensures Snapshot() == Next(old(Snapshot()), WorkerWrite)
    {
      status := worker.next;
      worker := Wrote(worker.outcome);
    }

    /** The first half of a pass through the loop of `requestStop`; a false answer is final. */
    method ReadForStop(caller: nat) returns (goesOn: bool)
      requires HandedOut(Snapshot()) && caller !in callers
      modifies this
      ensures Snapshot() == Next(old(Snapshot()), CallerRead(caller))
      ensures goesOn == !old(status).status.IsTerminal()
    {
      goesOn := !status.status.IsTerminal();
      if goesOn {
        callers := callers[caller := status];
      }
    }

    /** The second half: a true answer is final, after a false one the loop starts again. */
    method SwapForStop(caller: nat) returns (accepted: bool)
      requires caller in callers
      modifies this
      ensures Snapshot() == Next(old(Snapshot()), CallerSwap(caller))
      ensures accepted == Accepts(old(Snapshot()), CallerSwap(caller))
    {
      var previous := callers[caller];
      callers := callers - {caller};
      accepted := status.id == previous.id;
      if accepted {
        status := Object(nextId, previous.status.WithStopRequested());
        nextId := nextId + 1;
      }
    }
  }
}
