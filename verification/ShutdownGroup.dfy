/** runUntilManagerStops: workers and a manager run as one group under a shared context, which is cancelled
    by a signal, by the first error, or by the manager's return. */
module ShutdownGroup {
  import opened Wrappers

  /** What a process returns; Canceled also stands for an error that wraps it. */
  datatype Result = Nil | Canceled | Error(text: string)

  /** ignoreCanceled */
  function Reported(r: Result): Option<string> { if r.Error? then Some(r.text) else None }

  datatype Phase = Idle | Running | Returned(result: Result) | Deferred(result: Result) | Done(result: Result)

  datatype Report = Report(who: nat, result: Result)

  /** Processes 0, 1, ... are the workers in order, the last one is the manager. `reports` is history. */
  datatype World = World(phases: seq<Phase>, spawned: nat, signalled: bool, managerCancelled: bool,
                         groupCancelled: bool,
                         err: Option<string>, answer: Option<Option<string>>, reports: seq<Report>)

  predicate Cancelled(w: World) { w.signalled || w.managerCancelled || w.groupCancelled }

  datatype Action = Spawn | Signal | Return(who: nat, result: Result) | DeferredCancel | Record(who: nat) | Wait

  predicate IsManager(w: World, i: nat) { i + 1 == |w.phases| }

  /** A process whose function has returned and, for the manager, whose deferred cancel has run. */
  predicate Reportable(w: World, i: nat) {
    i < |w.phases| && if IsManager(w, i) then w.phases[i].Deferred? else w.phases[i].Returned?
  }

  predicate AllDone(w: World) { forall i :: 0 <= i < |w.phases| ==> w.phases[i].Done? }

  /** The error group keeps the first error and cancels with it. */
  function Recorded(w: World, i: nat): World
    requires Reportable(w, i)
  {
    var result := w.phases[i].result;
    var first := w.err.None? && Reported(result).Some?;
    w.(phases := w.phases[i := Done(result)], reports := w.reports + [Report(i, result)],
       err := if first then Reported(result) else w.err, groupCancelled := w.groupCancelled || first)
  }

  predicate Enabled(w: World, a: Action) {
    match a
    case Spawn => w.spawned < |w.phases|
    case Signal => !w.signalled
    case Return(i, _) => i < |w.phases| && w.phases[i].Running?
    case DeferredCancel => w.phases != [] && w.phases[|w.phases| - 1].Returned?
    case Record(i) => Reportable(w, i)
    case Wait => w.spawned == |w.phases| && AllDone(w) && w.answer.None?
  }

  function Step(w: World, a: Action): World {
    if !Enabled(w, a) then w
    else
      match a
      case Spawn => w.(phases := w.phases[w.spawned := Running], spawned := w.spawned + 1)
      case Signal => w.(signalled := true)
      case Return(i, result) => w.(phases := w.phases[i := Returned(result)])
      case DeferredCancel =>
        var m := |w.phases| - 1;
        w.(phases := w.phases[m := Deferred(w.phases[m].result)], managerCancelled := true)
      case Record(i) => Recorded(w, i)
      case Wait => w.(answer := Some(w.err))
  }

  function Exec(w: World, acts: seq<Action>): World {
    if acts == [] then w else Step(Exec(w, acts[..|acts| - 1]), acts[|acts| - 1])
  }

  function Start(workers: nat): World {
    World(seq(workers + 1, _ => Idle), 0, false, false, false, None, None, [])
  }

  // ----- What every run keeps -----

  function FirstError(reports: seq<Report>): Option<string> {
    if reports == [] then None
    else
      var before := FirstError(reports[..|reports| - 1]);
      if before.Some? then before else Reported(reports[|reports| - 1].result)
  }

  predicate SpawnedInOrder(w: World) {
    w.spawned <= |w.phases| && forall i :: 0 <= i < |w.phases| ==> (w.phases[i].Idle? <==> w.spawned <= i)
  }

  /** Only the manager has a deferred cancel, and it has run by the time the group hears of the manager. */
  predicate ManagerCancels(w: World)
    requires w.phases != []
  {
    && (forall i :: 0 <= i < |w.phases| - 1 ==> !w.phases[i].Deferred?)
    && (w.phases[|w.phases| - 1].Deferred? || w.phases[|w.phases| - 1].Done? <==> w.managerCancelled)
  }

  /** The reports are those of the processes that are done, one each. */
  predicate ReportsMatch(w: World) {
    && (forall k :: 0 <= k < |w.reports| ==>
          w.reports[k].who < |w.phases| && w.phases[w.reports[k].who] == Done(w.reports[k].result))
    && (forall i :: 0 <= i < |w.phases| && w.phases[i].Done? ==> Report(i, w.phases[i].result) in w.reports)
    && |w.reports| == Dones(w.phases)
  }

  function Dones(phases: seq<Phase>): nat {
    if phases == [] then 0 else Dones(phases[..|phases| - 1]) + (if phases[|phases| - 1].Done? then 1 else 0)
  }

  lemma {:induction false} DonesUpdate(phases: seq<Phase>, i: nat, p: Phase)
    requires i < |phases| && !phases[i].Done?
    ensures Dones(phases[i := p]) == Dones(phases) + if p.Done? then 1 else 0
  {
    var last := |phases| - 1;
    if i < last {
      DonesUpdate(phases[..last], i, p);
      assert phases[i := p][..last] == phases[..last][i := p];
    } else {
      assert phases[i := p][..last] == phases[..last];
    }
  }

  lemma {:induction false} AllOrNoneDone(phases: seq<Phase>, done: bool)
    requires forall i :: 0 <= i < |phases| ==> phases[i].Done? == done
    ensures Dones(phases) == if done then |phases| else 0
  {
    if phases != [] { AllOrNoneDone(phases[..|phases| - 1], done); }
  }

  predicate Inv(w: World) {
    && w.phases != [] && SpawnedInOrder(w) && ManagerCancels(w) && ReportsMatch(w)
    && w.err == FirstError(w.reports) && (w.groupCancelled <==> w.err.Some?)
    && (w.answer.Some? ==> AllDone(w) && w.answer == Some(w.err))
  }

  lemma RecordKeepsReports(w: World, i: nat)
    requires ReportsMatch(w) && Reportable(w, i)
    ensures ReportsMatch(Recorded(w, i))
  {
    var w' := Recorded(w, i);
    DonesUpdate(w.phases, i, Done(w.phases[i].result));
    forall j | 0 <= j < |w'.phases| && w'.phases[j].Done? ensures Report(j, w'.phases[j].result) in w'.reports {
      if j != i {
        assert Report(j, w.phases[j].result) in w.reports;
      } else {
        assert w'.reports[|w.reports|] == Report(j, w'.phases[j].result);
      }
    }
  }

  lemma RecordKeeps(w: World, i: nat)
    requires Inv(w) && Reportable(w, i)
    ensures Inv(Recorded(w, i))
  {
    RecordKeepsReports(w, i);
    assert Recorded(w, i).reports[..|w.reports|] == w.reports;
  }

  /** Moving a process that is not done to a phase that is not done leaves the reports right. */
  lemma MoveKeepsReports(w: World, i: nat, p: Phase, w': World)
    requires ReportsMatch(w) && i < |w.phases| && !w.phases[i].Done? && !p.Done?
    requires w'.phases == w.phases[i := p] && w'.reports == w.reports
    ensures ReportsMatch(w')
  {
    DonesUpdate(w.phases, i, p);
  }

  lemma StepKeeps(w: World, a: Action)
    requires Inv(w)
    ensures Inv(Step(w, a))
  {
    if Enabled(w, a) {
      match a
      case Spawn => MoveKeepsReports(w, w.spawned, Running, Step(w, a));
      case Return(i, result) => MoveKeepsReports(w, i, Returned(result), Step(w, a));
      case DeferredCancel =>
        var m := |w.phases| - 1;
        MoveKeepsReports(w, m, Deferred(w.phases[m].result), Step(w, a));
      case Record(i) => RecordKeeps(w, i);
      case _ =>
    }
  }

  lemma StartKeeps(workers: nat)
    ensures Inv(Start(workers))
  {
    AllOrNoneDone(Start(workers).phases, false);
  }

  lemma StepLength(w: World, a: Action)
    requires SpawnedInOrder(w)
    ensures |Step(w, a).phases| == |w.phases|
  {
  }

  lemma {:induction false} RunKeeps(workers: nat, acts: seq<Action>)
    ensures Inv(Exec(Start(workers), acts)) && |Exec(Start(workers), acts).phases| == workers + 1
  {
    if acts == [] {
      StartKeeps(workers);
    } else {
      var w := Exec(Start(workers), acts[..|acts| - 1]);
      RunKeeps(workers, acts[..|acts| - 1]);
      StepKeeps(w, acts[|acts| - 1]);
      StepLength(w, acts[|acts| - 1]);
    }
  }

  /** It returns only after every worker and the manager returned, each heard exactly once, with the first
      error reported to the group, cancellation not counting as one. */
  lemma ReturnsAfterAll(workers: nat, acts: seq<Action>)
    ensures var w := Exec(Start(workers), acts);
      w.answer.Some? ==>
        && |w.phases| == workers + 1 && AllDone(w)
        && (forall i :: 0 <= i <= workers ==> Report(i, w.phases[i].result) in w.reports)
        && |w.reports| == workers + 1
        && w.answer.value == FirstError(w.reports)
  {
    RunKeeps(workers, acts);
    var w := Exec(Start(workers), acts);
    if w.answer.Some? { AllOrNoneDone(w.phases, true); }
  }

  /** What FirstError means: the text of one report, all before it being clean; none when all are. */
  lemma {:induction false} FirstErrorIsFirst(reports: seq<Report>)
    ensures FirstError(reports).None? <==> forall k :: 0 <= k < |reports| ==> !reports[k].result.Error?
    ensures FirstError(reports).Some? ==>
      exists k :: 0 <= k < |reports| && reports[k].result == Error(FirstError(reports).value)
        && forall j :: 0 <= j < k ==> !reports[j].result.Error?
  {
    if reports != [] {
      var before := reports[..|reports| - 1];
      FirstErrorIsFirst(before);
      if FirstError(before).Some? {
        var k :| 0 <= k < |before| && before[k].result == Error(FirstError(before).value)
            && forall j :: 0 <= j < k ==> !before[j].result.Error?;
        assert reports[k] == before[k] && forall j :: 0 <= j < k ==> reports[j] == before[j];
      } else {
        assert forall j :: 0 <= j < |before| ==> reports[j] == before[j];
      }
    }
  }

  predicate Clean(w: World) { forall i :: 0 <= i < |w.phases| ==> w.phases[i].Done? && !w.phases[i].result.Error? }

  /** The answer is nil exactly when no process returned an error other than cancellation, so a shutdown
      signal alone is never reported as an error. */
  lemma NilIffClean(workers: nat, acts: seq<Action>)
    requires Exec(Start(workers), acts).answer.Some?
    ensures Exec(Start(workers), acts).answer.value.None? <==> Clean(Exec(Start(workers), acts))
  {
    var w := Exec(Start(workers), acts);
    RunKeeps(workers, acts);
    FirstErrorIsFirst(w.reports);
    if Clean(w) {
      assert forall k :: 0 <= k < |w.reports| ==> !w.reports[k].result.Error?;
    }
    if w.answer.value.None? {
      forall i | 0 <= i < |w.phases| ensures w.phases[i].Done? && !w.phases[i].result.Error? {
        assert Report(i, w.phases[i].result) in w.reports;
      }
    }
  }

  /** Whenever the group has heard of the manager, the shared context is cancelled; the same for any process
      that failed. */
  lemma ReturnCancels(workers: nat, acts: seq<Action>, i: nat)
    requires i <= workers && |Exec(Start(workers), acts).phases| == workers + 1
         && Exec(Start(workers), acts).phases[i].Done?
    requires i == workers || Exec(Start(workers), acts).phases[i].result.Error?
    ensures Cancelled(Exec(Start(workers), acts))
  {
    var w := Exec(Start(workers), acts);
    RunKeeps(workers, acts);
    if i < workers {
      assert Report(i, w.phases[i].result) in w.reports;
      FirstErrorIsFirst(w.reports);
    }
  }

  lemma {:induction false} SignalledIff(workers: nat, acts: seq<Action>)
    ensures Exec(Start(workers), acts).signalled <==> Signal in acts
  {
    if acts != [] {
      SignalledIff(workers, acts[..|acts| - 1]);
      assert acts == acts[..|acts| - 1] + [acts[|acts| - 1]];
    }
  }

  predicate SomeFailed(w: World) { exists i :: 0 <= i < |w.phases| && w.phases[i].Done? && w.phases[i].result.Error? }

  /** In every run the shared context is cancelled exactly when a signal came, the manager's deferred cancel has
      run, or the group has heard of an error: a worker that leaves without one stops nobody. */
  lemma CancelledIff(workers: nat, acts: seq<Action>)
    ensures var w := Exec(Start(workers), acts);
      && |w.phases| == workers + 1
      && (Cancelled(w) <==> Signal in acts || w.phases[workers].Deferred? || w.phases[workers].Done? || SomeFailed(w))
  {
    var w := Exec(Start(workers), acts);
    RunKeeps(workers, acts);
    SignalledIff(workers, acts);
    FirstErrorIsFirst(w.reports);
    if SomeFailed(w) {
      var i :| 0 <= i < |w.phases| && w.phases[i].Done? && w.phases[i].result.Error?;
      assert Report(i, w.phases[i].result) in w.reports;
    }
  }

  // ----- Termination -----

  function Rank(p: Phase): nat {
    match p case Idle => 4 case Running => 3 case Returned(_) => 2 case Deferred(_) => 1 case Done(_) => 0
  }

  function Ranks(phases: seq<Phase>): nat {
    if phases == [] then 0 else Ranks(phases[..|phases| - 1]) + Rank(phases[|phases| - 1])
  }

  lemma {:induction false} RanksUpdate(phases: seq<Phase>, i: nat, p: Phase)
    requires i < |phases|
    ensures Ranks(phases[i := p]) == Ranks(phases) - Rank(phases[i]) + Rank(p)
  {
    var last := |phases| - 1;
    if i < last {
      RanksUpdate(phases[..last], i, p);
      assert phases[i := p][..last] == phases[..last][i := p];
    } else {
      assert phases[i := p][..last] == phases[..last];
    }
  }

  function Measure(w: World): nat {
    Ranks(w.phases) + (if w.signalled then 0 else 1) + (if w.answer.Some? then 0 else 1)
  }

  lemma StepDecreases(w: World, a: Action)
    requires Inv(w) && Enabled(w, a)
    ensures Measure(Step(w, a)) < Measure(w)
  {
    match a
    case Spawn => RanksUpdate(w.phases, w.spawned, Running);
    case Return(i, result) => RanksUpdate(w.phases, i, Returned(result));
    case DeferredCancel => RanksUpdate(w.phases, |w.phases| - 1, Deferred(w.phases[|w.phases| - 1].result));
    case Record(i) => RanksUpdate(w.phases, i, Done(w.phases[i].result));
    case _ =>
  }

  predicate AllEnabled(w: World, acts: seq<Action>) {
    acts == [] || (AllEnabled(w, acts[..|acts| - 1]) && Enabled(Exec(w, acts[..|acts| - 1]), acts[|acts| - 1]))
  }

  lemma {:induction false} MeasureFalls(workers: nat, acts: seq<Action>)
    requires AllEnabled(Start(workers), acts)
    ensures Measure(Exec(Start(workers), acts)) + |acts| <= Measure(Start(workers))
  {
    if acts != [] {
      MeasureFalls(workers, acts[..|acts| - 1]);
      RunKeeps(workers, acts[..|acts| - 1]);
      StepDecreases(Exec(Start(workers), acts[..|acts| - 1]), acts[|acts| - 1]);
    }
  }

  lemma {:induction false} IdleRanks(n: nat)
    ensures Ranks(seq(n, _ => Idle)) == 4 * n
  {
    if n > 0 {
      IdleRanks(n - 1);
      var idle: seq<Phase> := seq(n, _ => Idle);
      assert idle[..n - 1] == seq(n - 1, _ => Idle);
    }
  }

  /** No run goes on for ever: with n workers there are at most 4n + 6 steps. */
  lemma RunsAreShort(workers: nat, acts: seq<Action>)
    requires AllEnabled(Start(workers), acts)
    ensures |acts| <= 4 * workers + 6
  {
    MeasureFalls(workers, acts);
    IdleRanks(workers + 1);
  }

  /** A step that must come: everything but a signal and, unless the context is cancelled, a return. */
  ghost predicate Stuck(w: World) {
    forall a :: Enabled(w, a) ==> a.Signal? || (a.Return? && !Cancelled(w))
  }

  /** The group is at work: all are started, none asked to stop, the manager runs, and any worker that is
      gone left without an error. */
  predicate AtWork(w: World) {
    && w.spawned == |w.phases| > 0 && !Cancelled(w) && w.phases[|w.phases| - 1].Running?
    && forall i :: 0 <= i < |w.phases| - 1 ==> w.phases[i].Running? || (w.phases[i].Done? && !w.phases[i].result.Error?)
  }

  /** If every process returns once the context is cancelled, then a run can only end by returning, or rest
      while the group is at work: nothing else blocks it. */
  lemma RestsOnlyAtWork(workers: nat, acts: seq<Action>)
    ensures var w := Exec(Start(workers), acts);
      Stuck(w) <==> w.answer.Some? || AtWork(w)
  {
    var w := Exec(Start(workers), acts);
    RunKeeps(workers, acts);
    if Stuck(w) && w.answer.None? {
      assert !Enabled(w, Spawn) && !Enabled(w, DeferredCancel) && !Enabled(w, Wait);
      forall i | 0 <= i < |w.phases|
        ensures w.phases[i].Done? || (w.phases[i].Running? && !Cancelled(w))
      {
        assert !Enabled(w, Record(i));
        if w.phases[i].Running? { assert Enabled(w, Return(i, Nil)); }
      }
      StuckIsAtWork(workers, acts);
    }
  }

  lemma StuckIsAtWork(workers: nat, acts: seq<Action>)
    requires var w := Exec(Start(workers), acts);
      && w.spawned == |w.phases| && !AllDone(w)
      && forall i :: 0 <= i < |w.phases| ==> w.phases[i].Done? || (w.phases[i].Running? && !Cancelled(w))
    ensures AtWork(Exec(Start(workers), acts))
  {
    var w := Exec(Start(workers), acts);
    RunKeeps(workers, acts);
    if w.phases[workers].Done? { ReturnCancels(workers, acts, workers); }
    forall i | 0 <= i < workers && w.phases[i].Done? ensures !w.phases[i].result.Error? {
      if w.phases[i].result.Error? { ReturnCancels(workers, acts, i); }
    }
  }
}
