/** The nested cleanup of one run of scripts/test.ts: each test phase settles its process group
    (runLoggedProcess), the phases together settle what is left beneath the temporary directory
    (withTestProcessCleanup of scripts/test-processes.ts), and the container is stopped last
    (withDisposablePostgres of scripts/test-postgres.ts). What each awaited call does is given. */
module TestRun {
  import opened Wrappers
  import opened Signals
  import TestSignals

  /** A thrown value. Any value can be thrown, so also `undefined`. */
  datatype Error =
    | Undefined
    | Failure(id: int)
    | PipesOpen
    | PhaseFailed(code: Option<int>, signal: Option<nat>)
    | Both(first: Error, second: Error)
    | StartupFailed(cause: Error)

  datatype Completion<T> = Returned(value: T) | Raised(error: Error)

  /** The error is the thrown one, one of an aggregate, or a cause. */
  predicate Reports(thrown: Error, error: Error) {
    || thrown == error
    || (thrown.Both? && (Reports(thrown.first, error) || Reports(thrown.second, error)))
    || (thrown.StartupFailed? && Reports(thrown.cause, error))
  }

  datatype Step =
    | StartContainer
    | CheckRoot
    | Spawn
    | Activate
    | SettleGroup
    | Clear
    | SettleRoot
    | StopContainer
    | RemoveDirectory

  // ---------------------------------------------------------------------------------------------
  // One test phase

  /** How the child ended, or why it did not start or could not be observed to end. */
  datatype Exit = Exited(code: Option<int>, signal: Option<nat>) | Errored(error: Error)

  /** What happens to a phase. The options hold what an awaited call throws. */
  datatype Phase = Phase(
    signalled: Option<Handled>,
    root: Option<Error>,
    hasGroup: bool,
    activate: Option<Error>,
    race: Option<Exit>,
    settle: Option<Error>,
    lateExit: Exit,
    closed: bool,
    closeLog: Option<Error>,
    signalledAtEnd: Option<Handled>)

  datatype ProcessResult = ProcessResult(code: int, signal: Option<nat>)

  function Number(signal: Handled): nat {
    if signal.SIGINT? then 2 else 15
  }

  /** The errors of the cleanup, in the order in which they occur. */
  function CleanupErrors(p: Phase): seq<Error> {
    (if p.hasGroup && p.settle.Some? then [p.settle.value] else [])
    + (if p.closed then [] else [PipesOpen])
    + (if p.closeLog.Some? then [p.closeLog.value] else [])
  }

  function FirstDefined(errors: seq<Error>): Option<Error> {
    if errors == [] then None
    else if errors[0] != Undefined then Some(errors[0])
    else FirstDefined(errors[1..])
  }

  /** The error that is kept is the first that is not `undefined`. */
  lemma KeptIsFirst(p: Phase, kept: Error)
    requires var settled := if p.hasGroup && p.settle.Some? then p.settle.value else Undefined;
             var piped := if !p.closed && settled == Undefined then PipesOpen else settled;
             kept == if p.closeLog.Some? && piped == Undefined then p.closeLog.value else piped
    ensures FirstDefined(CleanupErrors(p)) == if kept == Undefined then None else Some(kept)
  {
    var settled := if p.hasGroup && p.settle.Some? then [p.settle.value] else [];
    var piped := if p.closed then [] else [PipesOpen];
    var closing := if p.closeLog.Some? then [p.closeLog.value] else [];
    FirstDefinedConcat(settled + piped, closing);
    FirstDefinedConcat(settled, piped);
  }

  lemma {:induction false} FirstDefinedConcat(a: seq<Error>, b: seq<Error>)
    ensures FirstDefined(a + b) == if FirstDefined(a).Some? then FirstDefined(a) else FirstDefined(b)
  {
    if a == [] {
      assert a + b == b;
    } else {
      assert (a + b)[1..] == a[1..] + b;
      FirstDefinedConcat(a[1..], b);
    }
  }

  predicate Starts(p: Phase) {
    p.signalled.None? && p.root.None?
  }

  predicate ActivationEscapes(p: Phase) {
    p.hasGroup && p.activate.Some?
  }

  function ExitOf(p: Phase): Exit {
    if p.race.Some? then p.race.value else p.lateExit
  }

  /** A child that exited has its own code. One that a signal ended has 128 and the number of the signal that
      the controller got, or else of the one that ended it, or else of SIGTERM. */
  predicate IsResultOf(result: ProcessResult, exit: Exit, signalled: Option<Handled>)
    requires exit.Exited?
  {
    && (signalled.Some? ==> result.signal == Some(Number(signalled.value)))
    && (signalled.None? ==> result.signal == exit.signal)
    && (exit.code.Some? ==> result.code == exit.code.value)
    && (exit.code.None? && result.signal.Some? ==> result.code == 128 + result.signal.value)
    && (exit.code.None? && result.signal.None? ==> result.code == 128 + Number(SIGTERM))
  }

  /** How a started phase ends. */
  ghost predicate StartedEnds(p: Phase, r: Completion<ProcessResult>) {
    var exit, cleanup := ExitOf(p), FirstDefined(CleanupErrors(p));
    if ActivationEscapes(p) then
      // a failed activation hides the errors of the cleanup
      r == Raised(p.activate.value)
    else
      // it returns exactly if neither the child nor the cleanup failed
      && (r.Returned? <==> exit.Exited? && cleanup.None?)
      && (r.Returned? ==> IsResultOf(r.value, exit, p.signalledAtEnd))
      // and otherwise throws the failure of the child and the first error of the cleanup
      && (exit.Errored? ==> Reports(r.error, exit.error))
      && (cleanup.Some? ==> Reports(r.error, cleanup.value))
      && (exit.Exited? && cleanup.Some? && (exit.code != Some(0) || exit.signal.Some?) ==>
            Reports(r.error, PhaseFailed(exit.code, exit.signal)))
  }

  ghost predicate PhaseEnds(p: Phase, r: Completion<ProcessResult>) {
    if p.signalled.Some?
    then r == Returned(ProcessResult(128 + Number(p.signalled.value), Some(Number(p.signalled.value))))
    else if p.root.Some? then r == Raised(p.root.value)
    else StartedEnds(p, r)
  }

  /** The child is cleaned up however the phase ends. */
  function PhaseLog(p: Phase): seq<Step> {
    if !Starts(p) then [] else if p.hasGroup then [Spawn, Activate, SettleGroup, Clear] else [Spawn]
  }

  /** runLoggedProcess. */
  method RunLoggedProcess(p: Phase) returns (r: Completion<ProcessResult>, log: seq<Step>)
    ensures PhaseEnds(p, r) && log == PhaseLog(p)
  {
    log := [];
    if p.signalled.Some? {
      var code := if p.signalled.value.SIGINT? then 130 else 143;
      return Returned(ProcessResult(code, Some(Number(p.signalled.value)))), log;
    }
    if p.root.Some? {
      return Raised(p.root.value), log;
    }
    log := log + [Spawn];
    var outcome: Option<Exit> := None;
    var cleanupError := Undefined;
    var escaped: Option<Error> := None;
    if p.hasGroup {
      log := log + [Activate];
      escaped := p.activate;
    }
    if escaped.None? {
      outcome := p.race;
    }
    if p.hasGroup {
      log := log + [SettleGroup];
      if p.settle.Some? {
        cleanupError := p.settle.value;
      }
      log := log + [Clear];
    }
    if outcome.None? {
      outcome := Some(p.lateExit);
    }
    if !p.closed && cleanupError == Undefined {
      cleanupError := PipesOpen;
    }
    if p.closeLog.Some? && cleanupError == Undefined {
      cleanupError := p.closeLog.value;
    }
    KeptIsFirst(p, cleanupError);
    if escaped.Some? {
      return Raised(escaped.value), log;
    }
    if outcome.value.Errored? {
      r := Raised(if cleanupError != Undefined then Both(outcome.value.error, cleanupError) else outcome.value.error);
    } else if cleanupError != Undefined {
      r := Raised(
        if outcome.value.code != Some(0) || outcome.value.signal.Some?
        then Both(PhaseFailed(outcome.value.code, outcome.value.signal), cleanupError)
        else cleanupError);
    } else {
      var signal := if p.signalledAtEnd.Some? then Some(Number(p.signalledAtEnd.value)) else outcome.value.signal;
      var code := if outcome.value.code.Some? then outcome.value.code.value
                  else 128 + if signal.Some? then signal.value else 15;
      r := Returned(ProcessResult(code, signal));
    }
  }

  // ---------------------------------------------------------------------------------------------
  // The brackets around the phases

  /** What happens to the run. The options hold what an awaited call throws. */
  datatype Run = Run(
    start: Option<Error>,
    root: Option<Error>,
    phases: seq<Phase>,
    settle: Option<Error>,
    stop: Option<Error>,
    remove: Option<Error>)

  predicate Succeeded(r: Completion<ProcessResult>) {
    r.Returned? && r.value.code == 0
  }

  function PhaseLogs(phases: seq<Phase>): seq<Step> {
    if phases == [] then [] else PhaseLogs(phases[..|phases| - 1]) + PhaseLog(phases[|phases| - 1])
  }

  ghost predicate AllEnded(phases: seq<Phase>, results: seq<Completion<ProcessResult>>) {
    |results| <= |phases| && forall k | 0 <= k < |results| :: PhaseEnds(phases[k], results[k])
  }

  predicate AllSucceeded(results: seq<Completion<ProcessResult>>) {
    forall k | 0 <= k < |results| :: Succeeded(results[k])
  }

  /** The phases run one after another until one does not succeed. */
  ghost predicate PhasesEnd(phases: seq<Phase>, r: Completion<()>, results: seq<Completion<ProcessResult>>) {
    && AllEnded(phases, results)
    && if r.Returned? then |results| == |phases| && AllSucceeded(results)
       else
         && results != [] && AllSucceeded(results[..|results| - 1])
         && !Succeeded(results[|results| - 1]) && r.error == FailureOf(results[|results| - 1])
  }

  /** What the loop over the commands throws when a phase does not succeed. */
  function FailureOf(r: Completion<ProcessResult>): Error {
    match r
    case Raised(error) => error
    case Returned(value) => PhaseFailed(Some(value.code), None)
  }

  /** The code of the last phase that returned. */
  function LastCode(results: seq<Completion<ProcessResult>>, before: int): int {
    if results == [] then before
    else match results[|results| - 1]
         case Returned(value) => value.code
         case Raised(_) => LastCode(results[..|results| - 1], before)
  }

  lemma OneMorePhase(
      phases: seq<Phase>, results: seq<Completion<ProcessResult>>, result: Completion<ProcessResult>, before: int)
    requires AllEnded(phases, results) && |results| < |phases| && PhaseEnds(phases[|results|], result)
    requires AllSucceeded(results)
    ensures AllEnded(phases, results + [result])
    ensures Succeeded(result) ==> AllSucceeded(results + [result])
    ensures !Succeeded(result) ==> PhasesEnd(phases, Raised(FailureOf(result)), results + [result])
    ensures LastCode(results + [result], before) ==
        if result.Returned? then result.value.code else LastCode(results, before)
    ensures PhaseLogs(phases[..|results| + 1]) == PhaseLogs(phases[..|results|]) + PhaseLog(phases[|results|])
  {
    assert (results + [result])[..|results|] == results;
    assert phases[..|results| + 1][..|results|] == phases[..|results|];
  }

  /** The loop of main over the commands. */
  method RunPhases(phases: seq<Phase>, before: int)
    returns (r: Completion<()>, log: seq<Step>, exitCode: int, results: seq<Completion<ProcessResult>>)
    ensures PhasesEnd(phases, r, results) && log == PhaseLogs(phases[..|results|])
    ensures exitCode == LastCode(results, before)
  {
    log, exitCode, results := [], before, [];
    var i := 0;
    while i < |phases|
      invariant 0 <= i == |results| <= |phases| && log == PhaseLogs(phases[..i])
      invariant AllEnded(phases, results) && AllSucceeded(results)
      invariant exitCode == LastCode(results, before)
    {
      var result, steps := RunLoggedProcess(phases[i]);
      OneMorePhase(phases, results, result, before);
      log := log + steps;
      results := results + [result];
      if result.Raised? {
        return Raised(result.error), log, exitCode, results;
      }
      exitCode := result.value.code;
      if result.value.code != 0 {
        return Raised(PhaseFailed(Some(result.value.code), None)), log, exitCode, results;
      }
      i := i + 1;
    }
    assert phases[..i] == phases;
    r := Returned(());
  }

  /** withTestProcessCleanup, around the phases. */
  method WithTestProcessCleanup(t: Run, before: int)
    returns (r: Completion<()>, log: seq<Step>, exitCode: int, phases: Completion<()>,
             results: seq<Completion<ProcessResult>>)
    // without a private root nothing runs and nothing is settled
    ensures t.root.Some? ==> r == Raised(t.root.value) && log == [CheckRoot] && exitCode == before && results == []
    // otherwise the last step settles what is left, however the phases end
    ensures t.root.None? ==>
              && PhasesEnd(t.phases, phases, results) && exitCode == LastCode(results, before)
              && log == [CheckRoot] + PhaseLogs(t.phases[..|results|]) + [SettleRoot]
              && (r.Returned? <==> phases.Returned? && t.settle.None?)
              && (phases.Raised? ==> Reports(r.error, phases.error))
              && (t.settle.Some? ==> Reports(r.error, t.settle.value))
  {
    log, exitCode, phases, results := [CheckRoot], before, Returned(()), [];
    if t.root.Some? {
      return Raised(t.root.value), log, exitCode, phases, results;
    }
    var outcome, steps;
    outcome, steps, exitCode, results := RunPhases(t.phases, before);
    phases := outcome;
    log := log + steps + [SettleRoot];
    if t.settle.Some? {
      r := Raised(if outcome.Raised? then Both(outcome.error, t.settle.value) else t.settle.value);
      return;
    }
    r := outcome;
  }

  /** withDisposablePostgres, around both. */
  method WithDisposablePostgres(t: Run, before: int)
    returns (r: Completion<()>, log: seq<Step>, exitCode: int, inner: Completion<()>, phases: Completion<()>,
             results: seq<Completion<ProcessResult>>)
    ensures |results| <= |t.phases| && RunEnds(t, r, inner, phases, results) && log == RunLog(t, |results|)
    ensures exitCode == if t.start.None? && t.root.None? then LastCode(results, before) else before
  {
    log, exitCode, phases, results := [StartContainer], before, Returned(()), [];
    var outcome: Completion<()>;
    if t.start.Some? {
      outcome := Raised(StartupFailed(t.start.value));
    } else {
      var steps;
      outcome, steps, exitCode, phases, results := WithTestProcessCleanup(t, before);
      log := log + steps;
    }
    inner := outcome;
    var cleanupError := Undefined;
    log := log + [StopContainer];
    if t.stop.Some? {
      cleanupError := t.stop.value;
    }
    if outcome.Raised? {
      r := Raised(if cleanupError != Undefined then Both(outcome.error, cleanupError) else outcome.error);
    } else if cleanupError != Undefined {
      r := Raised(cleanupError);
    } else {
      r := outcome;
    }
  }

  /** How the whole run ends. `inner` is how withTestProcessCleanup ended, `phases` how the phases did. */
  ghost predicate RunEnds(
      t: Run, r: Completion<()>, inner: Completion<()>, phases: Completion<()>, results: seq<Completion<ProcessResult>>)
  {
    && (t.start.Some? ==> inner.Raised? && Reports(inner.error, t.start.value))
    && (t.start.None? && t.root.Some? ==> inner == Raised(t.root.value))
    && (t.start.None? && t.root.None? ==>
          && PhasesEnd(t.phases, phases, results)
          && (inner.Returned? <==> phases.Returned? && t.settle.None?)
          && (phases.Raised? ==> Reports(inner.error, phases.error))
          && (t.settle.Some? ==> Reports(inner.error, t.settle.value)))
    && (r.Returned? <==> inner.Returned? && (t.stop.None? || t.stop.value == Undefined))
    && (inner.Raised? ==> Reports(r.error, inner.error))
    && (t.stop.Some? && t.stop.value != Undefined ==> Reports(r.error, t.stop.value))
  }

  /** The steps of the run when `started` phases were reached. */
  function RunLog(t: Run, started: nat): seq<Step>
    requires started <= |t.phases|
  {
    [StartContainer]
    + (if t.start.Some? then [] else if t.root.Some? then [CheckRoot]
       else [CheckRoot] + PhaseLogs(t.phases[..started]) + [SettleRoot])
    + [StopContainer]
  }

  // ---------------------------------------------------------------------------------------------
  // Order

  lemma {:induction false} PhaseLogsSettle(phases: seq<Phase>)
    ensures SettleRoot !in PhaseLogs(phases) && StopContainer !in PhaseLogs(phases)
        && RemoveDirectory !in PhaseLogs(phases)
    ensures GroupsSettled(PhaseLogs(phases))
  {
    if phases != [] {
      var n := |phases| - 1;
      PhaseLogsSettle(phases[..n]);
      GroupsSettledConcat(PhaseLogs(phases[..n]), PhaseLog(phases[n]));
    }
  }

  /** Every activated group is settled and then cleared, before anything else happens. */
  predicate GroupsSettled(log: seq<Step>) {
    forall i | 0 <= i < |log| && log[i].Activate? :: i + 2 < |log| && log[i + 1].SettleGroup? && log[i + 2].Clear?
  }

  lemma GroupsSettledConcat(a: seq<Step>, b: seq<Step>)
    requires GroupsSettled(a) && GroupsSettled(b)
    ensures GroupsSettled(a + b)
  {
    forall i | 0 <= i < |a + b| && (a + b)[i].Activate?
      ensures i + 2 < |a + b| && (a + b)[i + 1].SettleGroup? && (a + b)[i + 2].Clear?
    {
      if i >= |a| {
        assert b[i - |a|].Activate?;
      }
    }
  }

  /** Every process group is settled before its phase ends, what is left beneath the temporary directory
      after the last phase, and the container is stopped once, after all of that, also if it never started. */
  lemma StopComesLast(t: Run, started: nat)
    requires started <= |t.phases|
    ensures var log := RunLog(t, started);
      && (forall i | 0 <= i < |log| :: log[i].StopContainer? <==> i == |log| - 1)
      && RemoveDirectory !in log
      && GroupsSettled(log)
      && (t.start.None? && t.root.None? ==> |log| > 2 && log[|log| - 2].SettleRoot?)
      && (forall i | 0 <= i < |log| && log[i].SettleRoot? :: i == |log| - 2)
      && (Spawn in log ==> t.start.None? && t.root.None?)
  {
    var phases := PhaseLogs(t.phases[..started]);
    PhaseLogsSettle(t.phases[..started]);
    if t.start.None? && t.root.None? {
      assert RunLog(t, started) == [StartContainer, CheckRoot] + phases + [SettleRoot, StopContainer];
      BracketedLog(phases);
    }
  }

  lemma BracketedLog(phases: seq<Step>)
    requires SettleRoot !in phases && StopContainer !in phases && RemoveDirectory !in phases && GroupsSettled(phases)
    ensures var log := [StartContainer, CheckRoot] + phases + [SettleRoot, StopContainer];
      && (forall i | 0 <= i < |log| :: log[i].StopContainer? <==> i == |log| - 1)
      && (forall i | 0 <= i < |log| :: log[i].SettleRoot? <==> i == |log| - 2)
      && RemoveDirectory !in log && GroupsSettled(log)
  {
    GroupsSettledConcat([StartContainer, CheckRoot], phases);
    GroupsSettledConcat([StartContainer, CheckRoot] + phases, [SettleRoot, StopContainer]);
    assert forall k | 0 <= k < |phases| :: phases[k] in phases;
  }

  // ---------------------------------------------------------------------------------------------
  // Signals

  /** Where a phase stands in the history of the signal controller: when it begins, and when it asks for the
      signal at its end. */
  datatype Span = Span(begins: nat, ends: nat)

  /** The phases see, one after another, the signal that the controller of the run has forwarded. */
  ghost predicate AreSignalled(phases: seq<Phase>, history: seq<TestSignals.Event>, spans: seq<Span>) {
    && |spans| == |phases|
    && (forall k | 0 <= k < |spans| :: spans[k].begins <= spans[k].ends <= |history|)
    && (forall k, m | 0 <= k < m < |spans| :: spans[k].ends <= spans[m].begins)
    && (forall k | 0 <= k < |phases| ::
          phases[k].signalled == TestSignals.RunOf(history[..spans[k].begins]).forwarded
          && phases[k].signalledAtEnd == TestSignals.RunOf(history[..spans[k].ends]).forwarded)
  }

  lemma LaterIsSignalled(phases: seq<Phase>, history: seq<TestSignals.Event>, spans: seq<Span>, at: nat, m: nat)
    requires AreSignalled(phases, history, spans) && m < |phases| && at <= spans[m].begins
    requires TestSignals.RunOf(history[..at]).forwarded.Some?
    ensures phases[m].signalled == TestSignals.RunOf(history[..at]).forwarded
  {
    TestSignals.ForwardedStays(history, at, spans[m].begins);
  }

  lemma OnlyLastFails(phases: seq<Phase>, r: Completion<()>, results: seq<Completion<ProcessResult>>, k: nat)
    requires PhasesEnd(phases, r, results) && k < |results|
    ensures Succeeded(results[k]) || |results| == k + 1
  {
    if k < |results| - 1 {
      assert results[..|results| - 1][k] == results[k];
    }
  }

  /** Once a signal was forwarded no further phase spawns a process group: a phase that begins afterwards
      only reports the signal, and the loop ends there with the code of the signal. */
  lemma NoSpawnOnceSignalled(
      phases: seq<Phase>, history: seq<TestSignals.Event>, spans: seq<Span>, at: nat, k: nat,
      r: Completion<()>, results: seq<Completion<ProcessResult>>)
    requires AreSignalled(phases, history, spans) && PhasesEnd(phases, r, results)
    requires at <= |history| && TestSignals.RunOf(history[..at]).forwarded.Some?
    requires k < |phases| && at <= spans[k].begins
    ensures forall m | k <= m < |phases| :: PhaseLog(phases[m]) == []
    ensures |results| <= k + 1
    ensures |results| == k + 1 ==>
              r == Raised(PhaseFailed(Some(128 + Number(TestSignals.RunOf(history[..at]).forwarded.value)), None))
  {
    forall m | k <= m < |phases| ensures PhaseLog(phases[m]) == [] {
      LaterIsSignalled(phases, history, spans, at, m);
    }
    LaterIsSignalled(phases, history, spans, at, k);
    if |results| > k {
      assert PhaseEnds(phases[k], results[k]);
      OnlyLastFails(phases, r, results, k);
    }
  }

  // ---------------------------------------------------------------------------------------------
  // Errors

  lemma {:induction false} ReportsThrough(thrown: Error, middle: Error, error: Error)
    requires Reports(thrown, middle) && Reports(middle, error)
    ensures Reports(thrown, error)
    decreases thrown
  {
    if thrown != middle {
      match thrown
      case Both(first, second) =>
        if Reports(first, middle) {
          ReportsThrough(first, middle, error);
        } else {
          ReportsThrough(second, middle, error);
        }
      case StartupFailed(cause) => ReportsThrough(cause, middle, error);
      case _ =>
    }
  }

  /** Whatever failed is in what is thrown: the startup, the phase, the last settling, and the stop unless
      it threw `undefined`. */
  lemma EveryFailureIsReported(
      t: Run, r: Completion<()>, inner: Completion<()>, phases: Completion<()>, results: seq<Completion<ProcessResult>>)
    requires RunEnds(t, r, inner, phases, results)
    ensures t.start.Some? ==> r.Raised? && Reports(r.error, t.start.value)
    ensures t.start.None? && t.root.Some? ==> r.Raised? && Reports(r.error, t.root.value)
    ensures t.start.None? && t.root.None? && phases.Raised? ==>
              r.Raised? && results != [] && Reports(r.error, FailureOf(results[|results| - 1]))
    ensures t.start.None? && t.root.None? && t.settle.Some? ==> r.Raised? && Reports(r.error, t.settle.value)
    ensures t.stop.Some? && t.stop.value != Undefined ==> r.Raised? && Reports(r.error, t.stop.value)
  {
    if inner.Raised? {
      if t.start.Some? {
        ReportsThrough(r.error, inner.error, t.start.value);
      } else if t.root.None? {
        if phases.Raised? {
          ReportsThrough(r.error, inner.error, phases.error);
        }
        if t.settle.Some? {
          ReportsThrough(r.error, inner.error, t.settle.value);
        }
      }
    }
  }

  /** The run succeeds exactly if everything did, or only the stop failed and threw `undefined`. */
  lemma SucceedsExactlyIf(
      t: Run, r: Completion<()>, inner: Completion<()>, phases: Completion<()>, results: seq<Completion<ProcessResult>>)
    requires RunEnds(t, r, inner, phases, results)
    ensures r.Returned? <==>
      && t.start.None? && t.root.None? && t.settle.None? && (t.stop.None? || t.stop.value == Undefined)
      && |results| == |t.phases| && forall k | 0 <= k < |results| :: Succeeded(results[k])
  {
  }

  /** A stop that throws `undefined` goes unnoticed. */
  lemma UndefinedStopIsSwallowed()
    ensures var t := Run(None, None, [], None, Some(Undefined), None);
            forall r, inner, phases, results | RunEnds(t, r, inner, phases, results) :: r.Returned?
  {
    var t := Run(None, None, [], None, Some(Undefined), None);
    forall r, inner, phases, results | RunEnds(t, r, inner, phases, results) ensures r.Returned? {
      SucceedsExactlyIf(t, r, inner, phases, results);
    }
  }

  /** The first error of the cleanup of a started phase is in what is thrown exactly if the activation did
      not throw. */
  lemma CleanupReportedExactlyIf(p: Phase, r: Completion<ProcessResult>, error: Error)
    requires Starts(p) && PhaseEnds(p, r) && FirstDefined(CleanupErrors(p)) == Some(error)
    requires p.activate.Some? ==> !Reports(p.activate.value, error)
    ensures r.Raised?
    ensures Reports(r.error, error) <==> !ActivationEscapes(p)
  {
  }

  /** A phase whose activation throws, and whose process group then survives the cleanup. */
  const ESCAPED := Phase(None, None, true, Some(Failure(1)), None, Some(Failure(2)), Exited(Some(0), None), true,
      None, None)

  lemma CleanupErrorIsLost()
    ensures forall r | PhaseEnds(ESCAPED, r) :: r.Raised? && !Reports(r.error, Failure(2))
  {
    assert CleanupErrors(ESCAPED) == [Failure(2)];
    forall r | PhaseEnds(ESCAPED, r) ensures r.Raised? && !Reports(r.error, Failure(2)) {
      CleanupReportedExactlyIf(ESCAPED, r, Failure(2));
    }
  }

  /** main. The directory of the run is removed after everything else, and only if the run succeeded; the
      exit code is 0 exactly if the run and the removal did. If the removal fails, main throws its error. */
  method RunTests(t: Run) returns (end: Completion<int>, log: seq<Step>, r: Completion<()>)
    ensures exists inner, phases, results ::
              |results| <= |t.phases| && RunEnds(t, r, inner, phases, results)
              && log == RunLog(t, |results|) + (if r.Returned? then [RemoveDirectory] else [])
              && (r.Raised? && t.start.None? && t.root.None? && LastCode(results, 1) != 0 ==>
                  end == Returned(LastCode(results, 1)))
    ensures end == Returned(0) <==> r.Returned? && t.remove.None?
    ensures end.Raised? <==> r.Returned? && t.remove.Some?
    ensures end.Raised? ==> end.error == t.remove.value
  {
    var outcome, steps, code, inner, phases, results := WithDisposablePostgres(t, 1);
    r, log := outcome, steps;
    var exitCode := code;
    if outcome.Returned? {
      exitCode := 0;
      log := log + [RemoveDirectory];
      if t.remove.Some? {
        return Raised(t.remove.value), log, r;
      }
    } else {
      exitCode := if code != 0 then code else 1;
    }
    end := Returned(exitCode);
  }
}
