/** One run of the development launcher of scripts/dev.ts, with the retry loop of scripts/dev-ports.ts and
    the process-group termination of scripts/dev-runtime.ts, as an event-driven machine. A phase is a
    point where the launcher awaits something; a signal may arrive at any of them. */
module DevLauncher {
  import opened Wrappers
  import opened Signals

  const STARTUP_ATTEMPTS := 3

  /** The process group of a spawned child, and whether a termination has observed it gone. */
  datatype ChildGroup = ChildGroup(group: int, gone: bool)

  datatype Settlement = Pending | Resolved | Rejected

  /** One call of terminateDevProcessGroup, for one child. */
  datatype Termination = Termination(child: nat, settlement: Settlement)

  /** What runDevStartupAttempts does once the allocation is released. */
  datatype AfterRelease = Return | Retry | Rethrow

  datatype Phase =
    | AcquiringInstance
    | Migrating
    | Allocating
    | AcquiringAllocator
    | ReleasingAborted
    | Reserving
    | ReleasingUnreserved
    | SpawnFailing
    | Binding
    | Waiting
    | Stopping(termination: nat, retry: bool)
    | ReleasingAllocation(after: AfterRelease)
    | Running
    | FinalStopping(termination: nat)
    | ReleasingInstance
    | Done

  datatype Launcher = Launcher(
    phase: Phase,
    attempt: nat,
    active: Option<nat>,
    heard: set<Handled>,
    forwarded: Option<Handled>,
    stopping: Option<nat>,
    children: seq<ChildGroup>,
    terminations: seq<Termination>)

  const LAUNCHED := Launcher(AcquiringInstance, 1, None, {}, None, None, [], [])

  /** The signal handlers have been installed and not been removed by the finally block. Each is installed with
      `once`: it is gone after its signal. A signal without a handler kills the process. */
  predicate Listens(phase: Phase) {
    !phase.AcquiringInstance? && !phase.FinalStopping? && !phase.ReleasingInstance? && !phase.Done?
  }

  /** From the port reservation until the listeners are ready or the attempt is abandoned. */
  predicate InWindow(phase: Phase) {
    phase.Reserving? || phase.SpawnFailing? || phase.Binding? || phase.Waiting? || phase.Stopping?
  }

  /** What the start callback gets to: it throws before or in the spawn, the child has no pid, or it has. */
  datatype Spawn = Threw | NoPid | Child(group: int)

  datatype Event =
    | InstanceAcquired
    | InstanceRefused
    | Migrated(ok: bool)
    | TryAllocator
    | AllocatorHeld
    | AllocatorRefused(again: bool)
    | AbortReleased
    | Reserved(ok: bool, spawned: Spawn)
    | UnreservedReleased
    | SpawnFailed
    | Bound(ok: bool)
    | Listening(ok: bool)
    | StopSettled
    | AllocationReleased(ok: bool)
    | ChildExited
    | FinalStopSettled
    | InstanceReleased
    | SignalArrives(signal: Handled)
    | TerminationObserves(index: nat)
    | TerminationResolves(index: nat)
    | TerminationRejects(index: nat)

  predicate Settled(l: Launcher, termination: nat) {
    termination < |l.terminations| && !l.terminations[termination].settlement.Pending?
  }

  predicate IsPending(l: Launcher, termination: nat) {
    termination < |l.terminations| && l.terminations[termination].settlement.Pending?
    && l.terminations[termination].child < |l.children|
  }

  /** The event may happen in this phase. A termination settles only after a probe saw the group gone, or
      with an error. */
  predicate Expects(l: Launcher, e: Event) {
    match e
    case InstanceAcquired => l.phase.AcquiringInstance?
    case InstanceRefused => l.phase.AcquiringInstance?
    case Migrated(_) => l.phase.Migrating?
    case TryAllocator => l.phase.Allocating?
    case AllocatorHeld => l.phase.AcquiringAllocator?
    case AllocatorRefused(_) => l.phase.AcquiringAllocator?
    case AbortReleased => l.phase.ReleasingAborted?
    case Reserved(_, _) => l.phase.Reserving?
    case UnreservedReleased => l.phase.ReleasingUnreserved?
    case SpawnFailed => l.phase.SpawnFailing?
    case Bound(_) => l.phase.Binding? && l.active.Some?
    case Listening(_) => l.phase.Waiting? && l.active.Some?
    case StopSettled => l.phase.Stopping? && Settled(l, l.phase.termination)
    case AllocationReleased(_) => l.phase.ReleasingAllocation?
    case ChildExited => l.phase.Running?
    case FinalStopSettled => l.phase.FinalStopping? && Settled(l, l.phase.termination)
    case InstanceReleased => l.phase.ReleasingInstance?
    case SignalArrives(signal) => Listens(l.phase) && signal !in l.heard
    case TerminationObserves(i) => IsPending(l, i)
    case TerminationResolves(i) => IsPending(l, i) && l.children[l.terminations[i].child].gone
    case TerminationRejects(i) => IsPending(l, i)
  }

  /** terminateDevProcessGroup is called for the active child. */
  function Terminate(l: Launcher): Launcher
    requires l.active.Some?
  {
    l.(terminations := l.terminations + [Termination(l.active.value, Pending)])
  }

  /** The catch block of the start callback. */
  function Catch(l: Launcher, retry: bool): Launcher
    requires l.stopping.Some? || l.active.Some?
  {
    if l.stopping.Some?
    then l.(phase := Stopping(l.stopping.value, retry))
    else Terminate(l).(stopping := Some(|l.terminations|), phase := Stopping(|l.terminations|, retry))
  }

  /** The finally block of the launcher. */
  function Finally(l: Launcher): Launcher {
    if l.stopping.Some? then l.(phase := FinalStopping(l.stopping.value))
    else if l.active.Some? then Terminate(l).(phase := FinalStopping(|l.terminations|))
    else l.(phase := ReleasingInstance)
  }

  function Handle(l: Launcher, e: Event): Launcher
    requires Expects(l, e)
  {
    match e
    case InstanceAcquired => l.(phase := Migrating)
    case InstanceRefused => l.(phase := Done)
    case Migrated(ok) => if ok then l.(phase := Allocating) else Finally(l)
    case TryAllocator => if l.forwarded.Some? then Finally(l) else l.(phase := AcquiringAllocator)
    case AllocatorHeld => l.(phase := if l.forwarded.Some? then ReleasingAborted else Reserving)
    case AllocatorRefused(again) =>
      if again && l.forwarded.None? then l.(phase := Allocating) else Finally(l)
    case AbortReleased => Finally(l)
    case Reserved(ok, spawned) =>
      if !ok then l.(phase := ReleasingUnreserved)
      else if l.forwarded.Some? || spawned.Threw? then l.(phase := ReleasingAllocation(Rethrow))
      else if spawned.NoPid? then l.(phase := SpawnFailing)
      else l.(phase := Binding, active := Some(|l.children|),
              children := l.children + [ChildGroup(spawned.group, false)])
    case UnreservedReleased => Finally(l)
    case SpawnFailed => l.(phase := ReleasingAllocation(Retry))
    case Bound(ok) => if ok then l.(phase := Waiting) else Catch(l, false)
    case Listening(ok) => if ok then l.(phase := ReleasingAllocation(Return)) else Catch(l, true)
    case StopSettled =>
      if l.terminations[l.phase.termination].settlement.Resolved?
      then l.(active := None, stopping := None,
              phase := ReleasingAllocation(if l.phase.retry && l.forwarded.None? then Retry else Rethrow))
      else l.(phase := ReleasingAllocation(Rethrow))
    case AllocationReleased(ok) =>
      if ok && l.phase.after.Return? then l.(phase := Running)
      else if ok && l.phase.after.Retry? && l.attempt < STARTUP_ATTEMPTS
      then l.(phase := Allocating, attempt := l.attempt + 1)
      else Finally(l)
    case ChildExited => Finally(l)
    case FinalStopSettled =>
      if l.terminations[l.phase.termination].settlement.Resolved?
      then l.(phase := ReleasingInstance)
      else l.(phase := Done)
    case InstanceReleased => l.(phase := Done)
    case SignalArrives(signal) =>
      var heard := l.heard + {signal};
      if l.forwarded.Some? then l.(heard := heard)
      else if l.active.None? then l.(heard := heard, forwarded := Some(signal))
      else Terminate(l).(heard := heard, forwarded := Some(signal), stopping := Some(|l.terminations|))
    case TerminationObserves(i) =>
      var child := l.terminations[i].child;
      l.(children := l.children[child := l.children[child].(gone := true)])
    case TerminationResolves(i) =>
      l.(terminations := l.terminations[i := l.terminations[i].(settlement := Resolved)])
    case TerminationRejects(i) =>
      l.(terminations := l.terminations[i := l.terminations[i].(settlement := Rejected)])
  }

  // ---------------------------------------------------------------------------------------------
  // What every event keeps

  /** The launcher is between the spawn of the active child and the end of it. */
  predicate HasChild(phase: Phase) {
    phase.Binding? || phase.Waiting? || phase.Stopping? || phase.Running? || phase.FinalStopping?
  }

  predicate AllGone(l: Launcher) {
    forall i | 0 <= i < |l.children| :: l.children[i].gone
  }

  predicate AboutActive(l: Launcher, termination: nat) {
    l.active.Some? && termination < |l.terminations| && l.terminations[termination].child == l.active.value
  }

  /** At most one child group has not been observed gone, and the launcher knows it. */
  ghost predicate ChildrenOk(l: Launcher) {
    && (l.active.Some? ==> l.active.value < |l.children|)
    && (forall i | 0 <= i < |l.children| :: l.children[i].gone || l.active == Some(i))
    && (forall k | 0 <= k < |l.terminations| :: l.terminations[k].child < |l.children|
          && (l.terminations[k].settlement.Resolved? ==> l.children[l.terminations[k].child].gone))
  }

  ghost predicate PhaseOk(l: Launcher) {
    && (l.stopping.Some? ==> AboutActive(l, l.stopping.value))
    && (l.phase.Stopping? ==> AboutActive(l, l.phase.termination) && l.stopping.Some?)
    && (l.phase.FinalStopping? ==> AboutActive(l, l.phase.termination))
    && (HasChild(l.phase) ==> l.active.Some?)
    && (l.phase == ReleasingAllocation(Return) ==> l.active.Some?)
    && (l.phase == ReleasingAllocation(Retry) ==> l.active.None?)
    && (l.active.Some? ==>
        HasChild(l.phase) || l.phase.ReleasingAllocation? || l.phase.ReleasingInstance? || l.phase.Done?)
    && (l.phase.AcquiringInstance? || l.phase.ReleasingInstance? ==> AllGone(l))
  }

  ghost predicate LauncherOk(l: Launcher) {
    ChildrenOk(l) && PhaseOk(l)
  }

  lemma FinallyOk(l: Launcher)
    requires ChildrenOk(l) && (l.stopping.Some? ==> AboutActive(l, l.stopping.value))
    ensures LauncherOk(Finally(l))
  {
  }

  lemma CatchOk(l: Launcher, retry: bool)
    requires ChildrenOk(l) && l.active.Some? && (l.stopping.Some? ==> AboutActive(l, l.stopping.value))
    ensures LauncherOk(Catch(l, retry))
  {
  }

  /** A termination observes the group gone, or settles. */
  lemma SettlementOk(l: Launcher, e: Event)
    requires LauncherOk(l) && Expects(l, e)
        && (e.TerminationObserves? || e.TerminationResolves? || e.TerminationRejects?)
    ensures LauncherOk(Handle(l, e))
  {
  }

  /** The launcher acts on a settled termination. */
  lemma StopOk(l: Launcher, e: Event)
    requires LauncherOk(l) && Expects(l, e) && (e.StopSettled? || e.FinalStopSettled?)
    ensures LauncherOk(Handle(l, e))
  {
    assert l.terminations[l.phase.termination].child == l.active.value;
  }

  /** A child is spawned, or a signal starts a termination. */
  lemma GrowthOk(l: Launcher, e: Event)
    requires LauncherOk(l) && Expects(l, e) && (e.Reserved? || e.SignalArrives?)
    ensures LauncherOk(Handle(l, e))
  {
  }

  /** The finally block is reached without a termination, or an attempt goes on. */
  lemma AttemptOk(l: Launcher, e: Event)
    requires LauncherOk(l) && Expects(l, e)
    requires e.Migrated? || e.TryAllocator? || e.AllocatorRefused? || e.AbortReleased? || e.UnreservedReleased?
             || e.AllocationReleased? || e.ChildExited?
    ensures LauncherOk(Handle(l, e))
  {
    FinallyOk(l);
  }

  /** The child is bound and watched, or the catch block stops it. */
  lemma WatchOk(l: Launcher, e: Event)
    requires LauncherOk(l) && Expects(l, e) && (e.Bound? || e.Listening?)
    ensures LauncherOk(Handle(l, e))
  {
    CatchOk(l, e.Listening?);
  }

  lemma EventKeepsLauncherOk(l: Launcher, e: Event)
    requires LauncherOk(l) && Expects(l, e)
    ensures LauncherOk(Handle(l, e))
  {
    if e.StopSettled? || e.FinalStopSettled? {
      StopOk(l, e);
    } else if e.TerminationObserves? || e.TerminationResolves? || e.TerminationRejects? {
      SettlementOk(l, e);
    } else if e.Reserved? || e.SignalArrives? {
      GrowthOk(l, e);
    } else if e.Bound? || e.Listening? {
      WatchOk(l, e);
    } else if e.InstanceAcquired? || e.InstanceRefused? || e.AllocatorHeld? || e.SpawnFailed? || e.InstanceReleased? {
      assert Handle(l, e).(phase := l.phase) == l;
    } else {
      AttemptOk(l, e);
    }
  }

  // ---------------------------------------------------------------------------------------------
  // Signals over a whole run

  ghost predicate IsLauncherRun(run: seq<Launcher>, events: seq<Event>) {
    && |run| == |events| + 1 && run[0] == LAUNCHED
    && forall i | 0 <= i < |events| :: Handles(run[i], events[i], run[i + 1])
  }

  ghost predicate Handles(l: Launcher, e: Event, l': Launcher) {
    Expects(l, e) && l' == Handle(l, e)
  }

  /** The first signal of the run. */
  predicate IsFirstSignal(events: seq<Event>, f: nat) {
    f < |events| && events[f].SignalArrives? && forall m | 0 <= m < f :: !events[m].SignalArrives?
  }

  lemma SignalStep(l: Launcher, e: Event)
    requires Expects(l, e)
    ensures !e.SignalArrives? ==> Handle(l, e).forwarded == l.forwarded && Handle(l, e).heard == l.heard
    ensures e.SignalArrives? ==> e.signal !in l.heard && Handle(l, e).heard == l.heard + {e.signal}
    ensures e.SignalArrives? && l.forwarded.None? ==> Handle(l, e).forwarded == Some(e.signal)
    ensures e.SignalArrives? && l.forwarded.Some? ==> Handle(l, e).(heard := l.heard) == l
  {
  }

  /** Only the first signal of a run is ever forwarded: nothing is forwarded before it, and it stays the
      forwarded one. */
  lemma {:induction false} FirstSignalOnly(run: seq<Launcher>, events: seq<Event>, j: nat)
    requires IsLauncherRun(run, events) && j <= |events|
    ensures forall f: nat | IsFirstSignal(events, f) ::
              run[j].forwarded == if f < j then Some(events[f].signal) else None
    ensures (forall m | 0 <= m < j :: !events[m].SignalArrives?) ==> run[j].forwarded.None?
    decreases j
  {
    if j > 0 {
      FirstSignalOnly(run, events, j - 1);
      assert Handles(run[j - 1], events[j - 1], run[j - 1 + 1]);
      SignalStep(run[j - 1], events[j - 1]);
    }
  }

  /** The signal of the other kind leaves the launcher as it is, but for its own handler. */
  lemma SecondSignalPasses(run: seq<Launcher>, events: seq<Event>, f: nat, i: nat)
    requires IsLauncherRun(run, events) && IsFirstSignal(events, f) && f < i < |events| && events[i].SignalArrives?
    ensures run[i + 1] == run[i].(heard := run[i].heard + {events[i].signal})
    ensures events[i].signal != events[f].signal
  {
    FirstSignalOnly(run, events, i);
    EachKindOnce(run, events, i + 1);
    assert Handles(run[i], events[i], run[i + 1]);
    SignalStep(run[i], events[i]);
  }

  /** The launcher handles each kind of signal at most once: what it has heard is exactly the signals that
      arrived. A repeat is no event of the launcher but the end of its process. */
  lemma {:induction false} EachKindOnce(run: seq<Launcher>, events: seq<Event>, j: nat)
    requires IsLauncherRun(run, events) && j <= |events|
    ensures forall signal :: signal in run[j].heard <==> exists i :: 0 <= i < j && events[i] == SignalArrives(signal)
    ensures forall i, k | 0 <= i < k < j && events[i].SignalArrives? && events[k].SignalArrives? ::
              events[i].signal != events[k].signal
    decreases j
  {
    if j > 0 {
      EachKindOnce(run, events, j - 1);
      var e := events[j - 1];
      assert Handles(run[j - 1], e, run[j - 1 + 1]);
      SignalStep(run[j - 1], e);
      assert forall i | 0 <= i < j - 1 && events[i].SignalArrives? :: events[i] == SignalArrives(events[i].signal);
    }
  }
}
