/** What launchers guarantee together, over every order of lock operations, signals, child exits, failed
    attempts, settled and failed terminations, and crashes. */
module DevSystemSafety {
  import opened Wrappers
  import opened DevLock
  import opened DevLockInvariant
  import opened DevLockSafety
  import opened DevLauncher
  import opened DevSystem

  lemma MovesAt(run: seq<System>, i: nat)
    requires IsSystemRun(run) && i + 1 < |run|
    ensures Moves(run[i], run[i + 1])
  {
  }

  lemma StepKeepsSystemInv(y: System, y': System)
    requires SystemInv(y) && Moves(y, y')
    ensures SystemInv(y')
  {
    var m :| CanMove(y, m) && y' == ApplyMove(y, m);
    MoveKeepsInv(y, m);
  }

  lemma {:induction false} SystemRunKeepsInv(run: seq<System>, i: nat)
    requires IsSystemRun(run) && InitSystem(run[0]) && i < |run|
    ensures SystemInv(run[i])
  {
    if i == 0 {
      InitSystemInv(run[0]);
    } else {
      SystemRunKeepsInv(run, i - 1);
      MovesAt(run, i - 1);
      StepKeepsSystemInv(run[i - 1], run[i]);
    }
  }

  ghost predicate ReachableSystem(y: System) {
    exists run :: IsSystemRun(run) && InitSystem(run[0]) && run[|run| - 1] == y
  }

  lemma LastKeepsInv(run: seq<System>)
    requires IsSystemRun(run) && InitSystem(run[0])
    ensures SystemInv(run[|run| - 1])
  {
    SystemRunKeepsInv(run, |run| - 1);
  }

  lemma ReachableSystemInv(y: System)
    requires ReachableSystem(y)
    ensures SystemInv(y)
  {
    var run :| IsSystemRun(run) && InitSystem(run[0]) && run[|run| - 1] == y;
    LastKeepsInv(run);
  }

  lemma HolderIsUnique(s: State, t: Token, u: Token)
    requires Inv(s) && Holds(s, t) && Holds(s, u)
    ensures t == u
  {
    HolderOfHolds(s, t);
    HolderOfHolds(s, u);
  }

  lemma InstanceUseIsEnabled(s: State, q: Process, c: Client, e: Event)
    requires InstanceSide(s, q, c) && q in s.live && Expects(c.launcher, e)
    requires LauncherOk(c.launcher)
    ensures CanUse(s, InstanceAction(c, e))
  {
    if InstanceAction(c, e).Releases? || InstanceAction(c, e).Binds? {
      assert s.calls[c.instance].pc.Held?;
    }
  }

  lemma AllocatorUseIsEnabled(y: System, q: Process, c: Client, e: Event, token: Token)
    requires AllocatorSide(y.alloc, q, c.allocator, c.launcher.phase) && q in y.alloc.live
    requires Expects(c.launcher, e) && Observed(y, c, e) && Inv(y.alloc) && token !in y.alloc.drawn
    ensures CanUse(y.alloc, AllocatorAction(q, c, e, token))
  {
    EventShifts(y, q, c, e, token);
  }

  /** What the launcher asks of a lock is always possible: the model's guards block none of its events. */
  lemma UsesAreEnabled(y: System, q: Process, e: Event, token: Token)
    requires ReachableSystem(y) && q in y.clients && q in y.inst.live
    requires Expects(y.clients[q].launcher, e) && Observed(y, y.clients[q], e) && token !in y.alloc.drawn
    ensures CanMove(y, Happens(q, e, token))
  {
    ReachableSystemInv(y);
    var c := y.clients[q];
    assert ClientOk(y, q, c);
    InstanceUseIsEnabled(y.inst, q, c, e);
    AllocatorUseIsEnabled(y, q, c, e, token);
  }

  // ---------------------------------------------------------------------------------------------
  // Release only after the started group is gone

  predicate RunsHere(y: System, q: Process) {
    q in y.clients && y.clients[q].here && q in y.inst.live
  }

  /** While a running launcher has a child group that no termination has observed gone, it holds the
      instance lock: releasing has not even begun. It never has two such groups. */
  lemma HeldUntilGone(y: System, q: Process, i: nat)
    requires ReachableSystem(y) && RunsHere(y, q)
    requires i < |y.clients[q].launcher.children| && !y.clients[q].launcher.children[i].gone
    ensures Holds(y.inst, y.clients[q].instance)
    ensures !Unlocks(y.inst.calls[y.clients[q].instance].pc)
    ensures forall k | 0 <= k < |y.clients[q].launcher.children| :: k == i || y.clients[q].launcher.children[k].gone
  {
    ReachableSystemInv(y);
    assert ClientOk(y, q, y.clients[q]);
  }

  /** The last termination failed: the launcher is done, and still has the lock. */
  predicate GaveUp(y: System, q: Process) {
    && RunsHere(y, q)
    && y.clients[q].launcher.phase.Done?
    && Holds(y.inst, y.clients[q].instance)
  }

  /** The launcher's last termination settled: it is done with its lock, or begins to release. */
  lemma FinalStopEnds(s: State, q: Process, c: Client)
    requires c.here && q in s.live && InstanceSide(s, q, c) && Expects(c.launcher, FinalStopSettled)
    ensures var l := c.launcher;
            if l.terminations[l.phase.termination].settlement.Rejected?
            then Handle(l, FinalStopSettled).phase.Done? && InstanceAction(c, FinalStopSettled).NoUse?
                && Holds(s, c.instance)
            else !Handle(l, FinalStopSettled).phase.Done?
  {
  }

  lemma FinalStopMoves(y: System, q: Process, token: Token)
    requires RunsHere(y, q) && CanMove(y, Happens(q, FinalStopSettled, token)) && InstanceSide(y.inst, q, y.clients[q])
    ensures var l := y.clients[q].launcher;
            l.terminations[l.phase.termination].settlement.Rejected? <==>
                GaveUp(ApplyMove(y, Happens(q, FinalStopSettled, token)), q)
  {
    FinalStopEnds(y.inst, q, y.clients[q]);
  }

  /** A failed termination is the only end that keeps the lock. */
  lemma FailureRetains(y: System, q: Process, token: Token)
    requires ReachableSystem(y) && RunsHere(y, q) && CanMove(y, Happens(q, FinalStopSettled, token))
    ensures var l := y.clients[q].launcher;
            l.terminations[l.phase.termination].settlement.Rejected? <==>
                GaveUp(ApplyMove(y, Happens(q, FinalStopSettled, token)), q)
  {
    ReachableSystemInv(y);
    assert ClientOk(y, q, y.clients[q]);
    FinalStopMoves(y, q, token);
  }

  lemma DoneIsDone(c: Client, e: Event)
    requires c.launcher.phase.Done? && Expects(c.launcher, e)
    ensures InstanceAction(c, e).NoUse? && Handle(c.launcher, e).phase.Done?
  {
  }

  /** No event of another launcher touches the call of a launcher that gave up. */
  lemma GaveUpHappens(y: System, r: Process, e: Event, token: Token, q: Process)
    requires SystemInv(y) && CanMove(y, Happens(r, e, token)) && GaveUp(y, q)
    ensures y.clients[q].instance in Act(y.inst, InstanceAction(y.clients[r], e)).calls
    ensures Act(y.inst, InstanceAction(y.clients[r], e)).calls[y.clients[q].instance] ==
        y.inst.calls[y.clients[q].instance]
    ensures Act(y.inst, InstanceAction(y.clients[r], e)).live == y.inst.live
    ensures r == q ==> Handle(y.clients[r].launcher, e).phase.Done?
  {
    var use := InstanceAction(y.clients[r], e);
    assert ClientOk(y, r, y.clients[r]) && ClientOk(y, q, y.clients[q]);
    UseKeepsInv(y.inst, use);
    if r == q {
      DoneIsDone(y.clients[q], e);
    } else {
      OwnUse(y, r, y.clients[r], e, token);
      OtherCallsUnused(y.inst, use);
    }
  }

  /** A lock action that is not this launcher's own leaves its call. */
  lemma GaveUpActs(y: System, a: Action, q: Process)
    requires SystemInv(y) && GaveUp(y, q) && Enabled(y.inst, a) && !IsWorld(a)
    requires a.Bind? || a.Release? ==> y.inst.calls[a.call].process != q
    ensures Apply(y.inst, a).live == y.inst.live && Holds(Apply(y.inst, a), y.clients[q].instance)
  {
    assert ClientOk(y, q, y.clients[q]);
    OtherCallsStay(y.inst, a);
  }

  lemma GaveUpWorld(y: System, a: Action, q: Process)
    requires GaveUp(y, q) && IsWorld(a) && Enabled(y.inst, a) && q in Apply(y.inst, a).live
    requires y.inst.calls[y.clients[q].instance].process == q
    ensures Holds(Apply(y.inst, a), y.clients[q].instance)
  {
  }

  /** A move that is not an event of a launcher. */
  lemma GaveUpWaits(y: System, m: Move, q: Process)
    requires SystemInv(y) && CanMove(y, m) && !m.Happens? && GaveUp(y, q) && q in ApplyMove(y, m).inst.live
    ensures Holds(ApplyMove(y, m).inst, y.clients[q].instance)
  {
    match m
    case World(a) =>
      assert ClientOk(y, q, y.clients[q]);
      GaveUpWorld(y, a, q);
    case OnInstance(a) => GaveUpActs(y, a, q);
    case Launch(r, _, u) => GaveUpActs(y, Start(r, u, true), q);
    case OnAllocator(_) =>
  }

  lemma GaveUpStays(y: System, m: Move, q: Process)
    requires SystemInv(y) && CanMove(y, m) && GaveUp(y, q) && q in ApplyMove(y, m).inst.live
    ensures GaveUp(ApplyMove(y, m), q)
  {
    if m.Happens? {
      GaveUpHappens(y, m.process, m.event, m.token, q);
    } else {
      GaveUpWaits(y, m, q);
    }
  }

  lemma GaveUpPersists(run: seq<System>, i: nat, q: Process)
    requires IsSystemRun(run) && InitSystem(run[0]) && i + 1 < |run|
    requires GaveUp(run[i], q) && q in run[i + 1].inst.live
    ensures GaveUp(run[i + 1], q)
  {
    SystemRunKeepsInv(run, i);
    MovesAt(run, i);
    var m :| CanMove(run[i], m) && run[i + 1] == ApplyMove(run[i], m);
    GaveUpStays(run[i], m, q);
  }

  /** After a failed termination the lock is retained for as long as the launcher lives. */
  lemma {:induction false} RetainedForLife(run: seq<System>, i: nat, j: nat, q: Process)
    requires IsSystemRun(run) && InitSystem(run[0]) && i <= j < |run| && GaveUp(run[i], q)
    requires forall k | i <= k <= j :: q in run[k].inst.live
    ensures GaveUp(run[j], q)
    decreases j
  {
    if i < j {
      RetainedForLife(run, i, j - 1, q);
      GaveUpPersists(run, j - 1, q);
    }
  }

  // ---------------------------------------------------------------------------------------------
  // Disjoint allocation windows

  predicate RunsInWindow(y: System, q: Process) {
    q in y.clients && q in y.inst.live && InWindow(y.clients[q].launcher.phase)
  }

  /** Across all launchers, of this instance or another, at most one is between its port reservation and
      the moment its listeners are ready or its attempt is abandoned; and nobody else has the allocator. */
  lemma DisjointWindows(y: System)
    requires ReachableSystem(y)
    ensures forall q, r | RunsInWindow(y, q) && RunsInWindow(y, r) :: q == r
    ensures forall q, u: Token | RunsInWindow(y, q) && Holds(y.alloc, u) :: y.alloc.calls[u].process == q
  {
    ReachableSystemInv(y);
    forall q, u: Token | RunsInWindow(y, q) && Holds(y.alloc, u) ensures y.alloc.calls[u].process == q {
      assert ClientOk(y, q, y.clients[q]);
      HolderIsUnique(y.alloc, y.clients[q].allocator.value, u);
    }
    forall q, r | RunsInWindow(y, q) && RunsInWindow(y, r) ensures q == r {
      assert ClientOk(y, q, y.clients[q]) && ClientOk(y, r, y.clients[r]);
      HolderIsUnique(y.alloc, y.clients[q].allocator.value, y.clients[r].allocator.value);
    }
  }

  /** What a move does to the allocator lock is a step of the protocol, or nothing. */
  lemma AllocatorStep(y: System, m: Move) returns (a: Option<Action>)
    requires SystemInv(y) && CanMove(y, m)
    ensures match a
            case None => ApplyMove(y, m).alloc == y.alloc
            case Some(action) => Enabled(y.alloc, action) && ApplyMove(y, m).alloc == Apply(y.alloc, action)
  {
    a := None;
    match m
    case World(action) => a := Some(action);
    case OnAllocator(action) => a := Some(action);
    case Happens(q, e, token) => a := AllocatorUse(y, q, e, token);
    case _ =>
  }

  lemma AllocatorUse(y: System, q: Process, e: Event, token: Token) returns (a: Option<Action>)
    requires CanMove(y, Happens(q, e, token))
    ensures match a
            case None => ApplyMove(y, Happens(q, e, token)).alloc == y.alloc
            case Some(action) =>
              && Enabled(y.alloc, action)
              && ApplyMove(y, Happens(q, e, token)).alloc == Apply(y.alloc, action)
  {
    var use := AllocatorAction(q, y.clients[q], e, token);
    if use.NoUse? {
      a := None;
    } else {
      UseIsStep(y.alloc, use);
      a := Some(ActionOfUse(use));
    }
  }

  lemma AllocatorKeepsRecord(run: seq<System>, i: nat, t: Token)
    requires IsSystemRun(run) && InitSystem(run[0]) && i + 1 < |run|
    requires IsLeftBehind(run[i + 1].alloc, t) && !IsLeftBehind(run[i].alloc, t)
    ensures ReleaseThrows(run[i].alloc, t, run[i + 1].alloc)
  {
    SystemRunKeepsInv(run, i);
    MovesAt(run, i);
    var m :| CanMove(run[i], m) && run[i + 1] == ApplyMove(run[i], m);
    var a := AllocatorStep(run[i], m);
    if a.Some? {
      OnlyThrowLeavesBehind(run[i].alloc, a.value, t);
    }
  }

  /** A release of the call threw before the j-th state. */
  ghost predicate AllocatorReleaseThrew(run: seq<System>, j: nat, t: Token)
    requires j < |run|
  {
    exists i: nat :: i < j && ReleaseThrows(run[i].alloc, t, run[i + 1].alloc)
  }

  lemma {:induction false} AllocatorLeftBehind(run: seq<System>, j: nat, t: Token)
    requires IsSystemRun(run) && InitSystem(run[0]) && j < |run| && IsLeftBehind(run[j].alloc, t)
    ensures AllocatorReleaseThrew(run, j, t)
    decreases j
  {
    assert j > 0;
    if IsLeftBehind(run[j - 1].alloc, t) {
      AllocatorLeftBehind(run, j - 1, t);
    } else {
      AllocatorKeepsRecord(run, j - 1, t);
      assert ReleaseThrows(run[j - 1].alloc, t, run[j - 1 + 1].alloc);
    }
  }

  /** A call of the allocator lock in one move: it stays, it ran before if it runs after, and a record that
      it has left behind stays. */
  lemma AllocatorMoves(run: seq<System>, i: nat, t: Token)
    requires IsSystemRun(run) && InitSystem(run[0]) && i + 1 < |run| && t in run[i].alloc.calls
    ensures t in run[i + 1].alloc.calls
    ensures run[i + 1].alloc.Runs(t) ==> run[i].alloc.Runs(t)
    ensures run[i + 1].alloc.Runs(t) && IsLeftBehind(run[i].alloc, t) && run[i].alloc.calls[t].pc.Released? ==>
              IsLeftBehind(run[i + 1].alloc, t) && run[i + 1].alloc.calls[t].pc.Released?
  {
    SystemRunKeepsInv(run, i);
    MovesAt(run, i);
    var m :| CanMove(run[i], m) && run[i + 1] == ApplyMove(run[i], m);
    var a := AllocatorStep(run[i], m);
    if a.Some? {
      StepOfCall(run[i].alloc, a.value, t);
    }
  }

  lemma StepOfCall(s: State, a: Action, t: Token)
    requires Inv(s) && Enabled(s, a) && t in s.calls
    ensures var s' := Apply(s, a);
      && t in s'.calls && (s'.Runs(t) ==> s.Runs(t))
      && (s'.Runs(t) && IsLeftBehind(s, t) && s.calls[t].pc.Released? ==>
            IsLeftBehind(s', t) && s'.calls[t].pc.Released?)
  {
    if Apply(s, a).Runs(t) {
      RanBefore(s, a, t);
      if IsLeftBehind(s, t) && s.calls[t].pc.Released? {
        LeftBehindStays(s, a, t);
      }
    }
  }

  lemma {:induction false} AllocatorCallStays(run: seq<System>, i: nat, j: nat, t: Token)
    requires IsSystemRun(run) && InitSystem(run[0]) && i <= j < |run| && t in run[i].alloc.calls
    ensures t in run[j].alloc.calls
    decreases j
  {
    if i < j {
      AllocatorCallStays(run, i, j - 1, t);
      AllocatorMoves(run, j - 1, t);
    }
  }

  lemma AllocatorThrow(run: seq<System>, i: nat, t: Token)
    requires IsSystemRun(run) && InitSystem(run[0]) && i + 1 < |run|
    requires ReleaseThrows(run[i].alloc, t, run[i + 1].alloc)
    ensures IsLeftBehind(run[i + 1].alloc, t) && run[i + 1].alloc.calls[t].pc.Released?
  {
    SystemRunKeepsInv(run, i);
    ThrowLeavesBehind(run[i].alloc, t, run[i + 1].alloc);
  }

  lemma {:induction false} AllocatorLeftSince(run: seq<System>, i: nat, j: nat, t: Token)
    requires IsSystemRun(run) && InitSystem(run[0]) && i < j < |run|
    requires ReleaseThrows(run[i].alloc, t, run[i + 1].alloc) && run[j].alloc.Runs(t)
    ensures IsLeftBehind(run[j].alloc, t) && run[j].alloc.calls[t].pc.Released?
    decreases j
  {
    if i == j - 1 {
      AllocatorThrow(run, i, t);
    } else {
      AllocatorCallStays(run, i, j - 1, t);
      AllocatorMoves(run, j - 1, t);
      AllocatorLeftSince(run, i, j - 1, t);
    }
  }

  lemma AllocatorCallsEnded(y: System, q: Process)
    requires SystemInv(y) && q in y.clients && q in y.inst.live && !UsesAllocator(y.clients[q].launcher.phase)
    ensures forall u: Token | u in y.alloc.calls && y.alloc.calls[u].process == q :: Ended(y.alloc.calls[u].pc)
  {
    assert ClientOk(y, q, y.clients[q]);
  }

  /** Each allocation is released before the next, and every failed or aborted acquisition of the
      allocator leaves it unheld: outside its window and its releases, no call of a running launcher
      holds the allocator lock, however many it has made; and the lock file carries the record of such a
      call exactly if the release of that call threw. */
  lemma AllocatorLetGo(run: seq<System>, j: nat, q: Process, u: Token)
    requires IsSystemRun(run) && InitSystem(run[0]) && j < |run|
    requires q in run[j].clients && q in run[j].inst.live && !UsesAllocator(run[j].clients[q].launcher.phase)
    requires u in run[j].alloc.calls && run[j].alloc.calls[u].process == q
    ensures !Holds(run[j].alloc, u)
    ensures Names(run[j].alloc, u) <==> AllocatorReleaseThrew(run, j, u)
  {
    SystemRunKeepsInv(run, j);
    AllocatorCallsEnded(run[j], q);
    if Names(run[j].alloc, u) {
      AllocatorLeftBehind(run, j, u);
    } else if i: nat :| i < j && ReleaseThrows(run[i].alloc, u, run[i + 1].alloc) {
      AllocatorLeftSince(run, i, j, u);
    }
  }

  // ---------------------------------------------------------------------------------------------
  // No second instance

  /** Launcher `q`, dead or alive, has bound the group `g` of its active child, which no termination has
      observed gone. */
  ghost predicate Serves(y: System, q: Process, g: int, c: Content) {
    && q in y.clients && y.clients[q].here
    && c.Written? && c.token == y.clients[q].instance && c.group == Some(g)
    && Guarded(y.inst, c)
    && c.token in y.inst.calls && y.inst.calls[c.token].process == q
    && var l := y.clients[q].launcher;
      && ActiveGroup(l) == Some(g)
      && !l.children[l.active.value].gone
      && !l.phase.Binding?
  }

  lemma ServingStarts(y: System, q: Process)
    requires SystemInv(y) && RunsHere(y, q) && IsBound(y.clients[q].launcher.phase)
    requires var l := y.clients[q].launcher;
             l.active.Some? && l.active.value < |l.children| && !l.children[l.active.value].gone
    ensures var l := y.clients[q].launcher;
            Serves(y, q, l.children[l.active.value].group,
                   Written(y.inst.live[q], y.clients[q].instance, Some(l.children[l.active.value].group)))
  {
    var c := y.clients[q];
    assert ClientOk(y, q, c);
    assert CallOk(y.inst, c.instance, y.inst.calls[c.instance])
        && CallKnown(y.inst, c.instance, y.inst.calls[c.instance]);
    GuardStarts(y.inst, y.inst.lock.value);
  }

  /** Its own events do not make the launcher forget the group while the group lives. */
  lemma ServingLauncher(y: System, c: Client, e: Event, g: int)
    requires var l := c.launcher;
      && LauncherOk(l) && Expects(l, e) && Observed(y, c, e)
      && ActiveGroup(l) == Some(g) && !l.children[l.active.value].gone && !l.phase.Binding?
    requires g in y.inst.groups
    ensures var l' := Handle(c.launcher, e);
            ActiveGroup(l') == Some(g) && !l'.children[l'.active.value].gone && !l'.phase.Binding?
  {
    var l := c.launcher;
    if e.StopSettled? {
      assert AboutActive(l, l.phase.termination);
    }
  }

  /** The launcher is not about to write the lock file. */
  lemma ServingIsQuiet(y: System, q: Process, g: int, c: Content)
    requires SystemInv(y) && Serves(y, q, g, c)
    ensures !OwnerWrites(y.inst, c.token)
  {
    assert ClientOk(y, q, y.clients[q]);
  }

  lemma ServingHappens(y: System, r: Process, e: Event, token: Token, q: Process, g: int, c: Content)
    requires SystemInv(y) && CanMove(y, Happens(r, e, token)) && Serves(y, q, g, c) && g in y.inst.groups
    ensures Serves(ApplyMove(y, Happens(r, e, token)), q, g, c)
  {
    ServingIsQuiet(y, q, g, c);
    var use := InstanceAction(y.clients[r], e);
    assert ClientOk(y, r, y.clients[r]);
    UseKeepsInv(y.inst, use);
    OtherCallsUnused(y.inst, use);
    if !use.NoUse? {
      UseIsStep(y.inst, use);
      GuardHolds(y.inst, ActionOfUse(use), c);
    }
    if r == q {
      ServingLauncher(y, y.clients[q], e, g);
    }
  }

  lemma ServingMoves(y: System, m: Move, q: Process, g: int, c: Content)
    requires SystemInv(y) && CanMove(y, m) && Serves(y, q, g, c) && g in y.inst.groups
    ensures Serves(ApplyMove(y, m), q, g, c)
  {
    ServingIsQuiet(y, q, g, c);
    match m
    case World(a) => GuardHolds(y.inst, a, c);
    case OnInstance(a) =>
      OtherCallsStay(y.inst, a);
      GuardHolds(y.inst, a, c);
    case OnAllocator(_) =>
    case Launch(r, _, t) =>
      OtherCallsStay(y.inst, Start(r, t, true));
      GuardHolds(y.inst, Start(r, t, true), c);
    case Happens(r, e, token) => ServingHappens(y, r, e, token, q, g, c);
  }

  lemma ServingPersists(run: seq<System>, i: nat, q: Process, g: int, c: Content)
    requires IsSystemRun(run) && InitSystem(run[0]) && i + 1 < |run|
    requires Serves(run[i], q, g, c) && g in run[i].inst.groups
    ensures Serves(run[i + 1], q, g, c)
  {
    SystemRunKeepsInv(run, i);
    MovesAt(run, i);
    var m :| CanMove(run[i], m) && run[i + 1] == ApplyMove(run[i], m);
    ServingMoves(run[i], m, q, g, c);
  }

  /** A second instance never starts beside a live one: from the moment a launcher has bound its child's
      process group, for as long as that group stays live, whatever signals, failed terminations and
      crashes happen, the lock file keeps the record and no other launcher holds the instance lock. */
  lemma {:induction false} NoSecondInstance(run: seq<System>, i: nat, j: nat, q: Process, g: int)
    requires IsSystemRun(run) && InitSystem(run[0]) && i <= j < |run|
    requires RunsHere(run[i], q) && IsBound(run[i].clients[q].launcher.phase)
    requires var l := run[i].clients[q].launcher;
             ActiveGroup(l) == Some(g) && !l.children[l.active.value].gone
    requires forall k | i <= k < j :: g in run[k].inst.groups
    ensures Serves(run[j], q, g, Written(run[i].inst.live[q], run[i].clients[q].instance, Some(g)))
    ensures forall u: Token :: Holds(run[j].inst, u) ==> run[j].inst.calls[u].process == q
    decreases j
  {
    SystemRunKeepsInv(run, j);
    var c := Written(run[i].inst.live[q], run[i].clients[q].instance, Some(g));
    if i == j {
      ServingStarts(run[i], q);
    } else {
      NoSecondInstance(run, i, j - 1, q, g);
      ServingPersists(run, j - 1, q, g, c);
    }
    GuardExcludes(run[j].inst, c);
  }
}
