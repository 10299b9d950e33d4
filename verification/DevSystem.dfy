/** Launchers over the two lock files they share: the lock of one development instance, and the port
    allocator lock of the machine. A launcher of another instance (`here` false) takes part only in the
    allocator lock; other clients of either lock (such as `--print`) may do anything the lock allows. */
module DevSystem {
  import opened Wrappers
  import opened DevLock
  import opened DevLockInvariant
  import opened DevLauncher

  /** A launcher process with the tokens of its instance lock call and of its last allocator lock call. */
  datatype Client = Client(here: bool, instance: Token, allocator: Option<Token>, launcher: Launcher)

  datatype System = System(inst: State, alloc: State, clients: map<Process, Client>)

  datatype Move =
    | World(action: Action)
    | OnInstance(action: Action)
    | OnAllocator(action: Action)
    | Launch(process: Process, here: bool, instance: Token)
    | Happens(process: Process, event: Event, token: Token)

  /** What a launcher does to a lock: it calls acquireDevInstanceLock, bindProcessGroup or release. */
  datatype Use = NoUse | Acquires(process: Process, token: Token) | Binds(token: Token, group: int)
      | Releases(token: Token)

  function ActionOfUse(use: Use): Action
    requires !use.NoUse?
  {
    match use
    case Acquires(q, t) => Start(q, t, false)
    case Binds(t, group) => DevLock.Bind(t, group)
    case Releases(t) => Release(t)
  }

  predicate CanUse(s: State, use: Use) {
    match use
    case NoUse => true
    case Acquires(q, t) => q in s.live && t !in s.drawn
    case Binds(t, _) => s.Runs(t) && (s.calls[t].pc.Held? || s.calls[t].pc.Released?)
    case Releases(t) => s.Runs(t) && (s.calls[t].pc.Held? || s.calls[t].pc.Released?)
  }

  function Act(s: State, use: Use): State
    requires CanUse(s, use)
  {
    match use
    case NoUse => s
    case Acquires(q, t) => Begin(s, q, t, false)
    case Binds(t, group) => CallBind(s, t, group)
    case Releases(t) => CallRelease(s, t)
  }

  /** A use is a step of the lock protocol. */
  lemma UseIsStep(s: State, use: Use)
    requires CanUse(s, use) && !use.NoUse?
    ensures Enabled(s, ActionOfUse(use)) && Apply(s, ActionOfUse(use)) == Act(s, use)
  {
  }

  /** The allocator lock action that goes with an event: TryAllocator calls acquireDevInstanceLock, and
      entering a releasing phase calls release. */
  function AllocatorAction(q: Process, c: Client, e: Event, token: Token): Use
    requires Expects(c.launcher, e)
  {
    var after := Handle(c.launcher, e);
    if e.TryAllocator? && after.phase.AcquiringAllocator? then Acquires(q, token)
    else if !ReleasesAllocator(c.launcher.phase) && ReleasesAllocator(after.phase) && c.allocator.Some?
    then Releases(c.allocator.value)
    else NoUse
  }

  predicate ReleasesAllocator(phase: Phase) {
    phase.ReleasingAborted? || phase.ReleasingUnreserved? || phase.ReleasingAllocation?
  }

  /** The instance lock action that goes with an event: a spawn binds the child's process group, and the
      last phase releases. */
  function InstanceAction(c: Client, e: Event): Use
    requires Expects(c.launcher, e)
  {
    var after := Handle(c.launcher, e);
    if !c.here then NoUse
    else if e.Reserved? && after.phase.Binding? then Binds(c.instance, e.spawned.group)
    else if !c.launcher.phase.ReleasingInstance? && after.phase.ReleasingInstance? then Releases(c.instance)
    else NoUse
  }

  predicate CallAt(s: State, t: Token, pc: Pc) {
    t in s.calls && s.calls[t].pc == pc
  }

  /** An awaited lock operation ended the way the event says. */
  predicate Observed(y: System, c: Client, e: Event) {
    match e
    case InstanceAcquired => c.here ==> CallAt(y.inst, c.instance, Held)
    case InstanceRefused => c.here ==> CallAt(y.inst, c.instance, Failed)
    case InstanceReleased => c.here ==> CallAt(y.inst, c.instance, Released)
    case Reserved(_, spawned) => spawned.Child? ==> spawned.group > 0
    case Bound(ok) =>
      c.here ==> CallAt(y.inst, c.instance, Held)
                 && (ok && c.launcher.active.Some? && c.launcher.active.value < |c.launcher.children| ==>
                     y.inst.calls[c.instance].group == Some(c.launcher.children[c.launcher.active.value].group))
    case AllocatorHeld => c.allocator.Some? && CallAt(y.alloc, c.allocator.value, Held)
    case AllocatorRefused(_) => c.allocator.Some? && CallAt(y.alloc, c.allocator.value, Failed)
    case AbortReleased => c.allocator.Some? && CallAt(y.alloc, c.allocator.value, Released)
    case UnreservedReleased => c.allocator.Some? && CallAt(y.alloc, c.allocator.value, Released)
    case AllocationReleased(_) => c.allocator.Some? && CallAt(y.alloc, c.allocator.value, Released)
    // a liveness probe of the termination
    case TerminationObserves(i) =>
      i < |c.launcher.terminations| && c.launcher.terminations[i].child < |c.launcher.children|
      && !y.inst.GroupIsLive(c.launcher.children[c.launcher.terminations[i].child].group)
    case _ => true
  }

  predicate IsWorld(a: Action) {
    a.Birth? || a.Death? || a.Groups?
  }

  /** A call's next operation, or its failure; or any use of the lock by another client. */
  predicate IsForeign(s: State, clients: map<Process, Client>, a: Action) {
    match a
    case Advance(_, _) => true
    case Throw(_) => true
    case Start(q, _, _) => q !in clients
    case Bind(t, _) => t in s.calls && s.calls[t].process !in clients
    case Release(t) => t in s.calls && s.calls[t].process !in clients
    case _ => false
  }

  predicate Fresh(s: State, q: Process) {
    forall t | t in s.calls :: s.calls[t].process != q
  }

  predicate CanMove(y: System, m: Move) {
    match m
    case World(a) => IsWorld(a) && Enabled(y.inst, a) && Enabled(y.alloc, a)
    case OnInstance(a) => IsForeign(y.inst, y.clients, a) && Enabled(y.inst, a)
    case OnAllocator(a) => IsForeign(y.alloc, y.clients, a) && Enabled(y.alloc, a)
    case Launch(q, here, t) =>
      q !in y.clients && Fresh(y.inst, q) && Fresh(y.alloc, q)
      && q in y.inst.live && Enabled(y.inst, Start(q, t, true))
    case Happens(q, e, token) =>
      && q in y.clients && q in y.inst.live
      && Expects(y.clients[q].launcher, e)
      && Observed(y, y.clients[q], e)
      && CanUse(y.inst, InstanceAction(y.clients[q], e))
      && CanUse(y.alloc, AllocatorAction(q, y.clients[q], e, token))
  }

  function ApplyMove(y: System, m: Move): System
    requires CanMove(y, m)
  {
    match m
    case World(a) => y.(inst := Apply(y.inst, a), alloc := Apply(y.alloc, a))
    case OnInstance(a) => y.(inst := Apply(y.inst, a))
    case OnAllocator(a) => y.(alloc := Apply(y.alloc, a))
    case Launch(q, here, t) =>
      y.(inst := if here then Apply(y.inst, Start(q, t, true)) else y.inst,
         clients := y.clients[q := Client(here, t, None, LAUNCHED)])
    case Happens(q, e, token) =>
      var c := y.clients[q];
      var started := AllocatorAction(q, c, e, token);
      System(
        Act(y.inst, InstanceAction(c, e)),
        Act(y.alloc, started),
        y.clients[q := c.(launcher := Handle(c.launcher, e),
                          allocator := if started.Acquires? then Some(token) else c.allocator)])
  }

  ghost predicate Moves(y: System, y': System) {
    exists m :: CanMove(y, m) && y' == ApplyMove(y, m)
  }

  ghost predicate IsSystemRun(run: seq<System>) {
    |run| > 0 && forall i {:trigger Moves(run[i], run[i + 1])} :: 0 <= i < |run| - 1 ==> Moves(run[i], run[i + 1])
  }

  predicate InitSystem(y: System) {
    && Init(y.inst) && Init(y.alloc)
    && y.inst.live == y.alloc.live && y.inst.groups == y.alloc.groups && y.inst.next == y.alloc.next
    && y.clients == map[]
  }

  // ---------------------------------------------------------------------------------------------
  // How a running launcher stands to its lock calls

  /** The call still tries to take the lock, just took it, or gave up. */
  predicate Trying(pc: Pc) {
    BeforeLink(pc) || pc.Held? || pc.Failed?
  }

  predicate Ended(pc: Pc) {
    pc.Failed? || pc.Released?
  }

  predicate Unlocks(pc: Pc) {
    pc.ReleaseReading? || pc.ReleaseUnlinking? || pc.Released?
  }

  /** The group of the active child. */
  function ActiveGroup(l: Launcher): Option<int> {
    if l.active.Some? && l.active.value < |l.children| then Some(l.children[l.active.value].group) else None
  }

  /** The call of the instance lock, by the launcher's phase. */
  predicate InstanceOk(call: Call, l: Launcher) {
    match l.phase
    case AcquiringInstance => Trying(call.pc)
    case Binding =>
      call.pc.Held? || ((call.pc.BindReading? || call.pc.BindRenaming?) && Some(call.pc.group) == ActiveGroup(l))
    case ReleasingInstance => Unlocks(call.pc)
    case Done => call.pc.Held? || (Ended(call.pc) && AllGone(l))
    case _ => call.pc.Held? && (IsBound(l.phase) ==> call.group == ActiveGroup(l) && call.group.Some?)
  }

  /** bindProcessGroup has returned for the active child. */
  predicate IsBound(phase: Phase) {
    phase.Waiting? || phase == ReleasingAllocation(Return) || phase.Running?
  }

  /** The last call of the allocator lock, by the launcher's phase. */
  predicate AllocatorOk(pc: Pc, phase: Phase) {
    if phase.AcquiringAllocator? then Trying(pc)
    else if InWindow(phase) then pc.Held?
    else if ReleasesAllocator(phase) then Unlocks(pc)
    else Ended(pc)
  }

  predicate UsesAllocator(phase: Phase) {
    phase.AcquiringAllocator? || InWindow(phase) || ReleasesAllocator(phase)
  }

  /** How the instance lock knows the running launcher `q`. */
  predicate InstanceSide(s: State, q: Process, c: Client) {
    c.here ==> c.instance in s.calls && s.calls[c.instance].process == q && InstanceOk(s.calls[c.instance], c.launcher)
  }

  /** How the allocator lock knows it: no call but the last can hold the lock. */
  ghost predicate AllocatorSide(s: State, q: Process, allocator: Option<Token>, phase: Phase) {
    && (UsesAllocator(phase) ==> allocator.Some?)
    && (allocator.Some? ==> allocator.value in s.calls && s.calls[allocator.value].process == q
                            && AllocatorOk(s.calls[allocator.value].pc, phase))
    && (forall u | u in s.calls && s.calls[u].process == q :: allocator == Some(u) || Ended(s.calls[u].pc))
  }

  ghost predicate ClientOk(y: System, q: Process, c: Client) {
    && LauncherOk(c.launcher)
    && (q in y.inst.live ==> InstanceSide(y.inst, q, c) && AllocatorSide(y.alloc, q, c.allocator, c.launcher.phase))
  }

  ghost predicate SystemInv(y: System) {
    && Inv(y.inst) && Inv(y.alloc)
    && y.inst.live == y.alloc.live && y.inst.groups == y.alloc.groups && y.inst.next == y.alloc.next
    && (forall q | q in y.clients :: q < y.inst.next && ClientOk(y, q, y.clients[q]))
  }

  lemma InitSystemInv(y: System)
    requires InitSystem(y)
    ensures SystemInv(y)
  {
    InitInv(y.inst);
    InitInv(y.alloc);
  }

  // ---------------------------------------------------------------------------------------------
  // Every move keeps the invariant

  /** What a lock action of one call leaves alone. */
  lemma OtherCallsStay(s: State, a: Action)
    requires Inv(s) && Enabled(s, a) && !IsWorld(a)
    ensures Apply(s, a).live == s.live && Apply(s, a).groups == s.groups && Apply(s, a).next == s.next
    ensures forall t | t in s.calls ::
              t in Apply(s, a).calls && Apply(s, a).calls[t].process == s.calls[t].process
              && (Apply(s, a).calls[t] == s.calls[t] || (!a.Start? && a.call == t))
    ensures forall t | t in Apply(s, a).calls && t !in s.calls :: a.Start? && t == a.token
  {
    assert a.Start? ==> a.token !in s.calls;
  }

  /** The next operation of the instance call, or its failure, fits the launcher's phase. */
  lemma InstanceAdvances(s: State, a: Action, t: Token, l: Launcher)
    requires Enabled(s, a) && (a.Advance? || a.Throw?) && a.call == t && t in s.calls
    requires InstanceOk(s.calls[t], l)
    ensures InstanceOk(Apply(s, a).calls[t], l)
  {
  }

  lemma AllocatorAdvances(s: State, a: Action, t: Token, phase: Phase)
    requires Enabled(s, a) && (a.Advance? || a.Throw?) && a.call == t && t in s.calls
    ensures AllocatorOk(s.calls[t].pc, phase) ==> AllocatorOk(Apply(s, a).calls[t].pc, phase)
    ensures !Ended(s.calls[t].pc)
  {
  }

  lemma WorldKeeps(y: System, a: Action)
    requires SystemInv(y) && CanMove(y, World(a))
    ensures SystemInv(ApplyMove(y, World(a)))
  {
    StepKeepsInv(y.inst, a);
    StepKeepsInv(y.alloc, a);
    var y' := ApplyMove(y, World(a));
    forall q | q in y'.clients ensures ClientOk(y', q, y'.clients[q]) {
      assert ClientOk(y, q, y.clients[q]);
    }
  }

  lemma OnInstanceKeeps(y: System, a: Action)
    requires SystemInv(y) && CanMove(y, OnInstance(a))
    ensures SystemInv(ApplyMove(y, OnInstance(a)))
  {
    StepKeepsInv(y.inst, a);
    OtherCallsStay(y.inst, a);
    var y' := ApplyMove(y, OnInstance(a));
    forall q | q in y'.clients ensures ClientOk(y', q, y'.clients[q]) {
      var c := y.clients[q];
      assert ClientOk(y, q, c);
      if q in y.inst.live && c.here && (a.Advance? || a.Throw?) && a.call == c.instance {
        InstanceAdvances(y.inst, a, c.instance, c.launcher);
      }
    }
  }

  /** An action of the allocator lock that is not a release or a call by launcher `q`. */
  lemma AllocatorSideStays(s: State, a: Action, q: Process, allocator: Option<Token>, phase: Phase)
    requires Inv(s) && Enabled(s, a) && !IsWorld(a) && AllocatorSide(s, q, allocator, phase)
    requires a.Start? ==> a.process != q
    requires a.Bind? || a.Release? ==> s.calls[a.call].process != q
    ensures AllocatorSide(Apply(s, a), q, allocator, phase)
  {
    OtherCallsStay(s, a);
    if a.Advance? || a.Throw? {
      AllocatorAdvances(s, a, a.call, phase);
    }
  }

  lemma OnAllocatorKeeps(y: System, a: Action)
    requires SystemInv(y) && CanMove(y, OnAllocator(a))
    ensures SystemInv(ApplyMove(y, OnAllocator(a)))
  {
    StepKeepsInv(y.alloc, a);
    OtherCallsStay(y.alloc, a);
    var y' := ApplyMove(y, OnAllocator(a));
    forall q | q in y'.clients ensures ClientOk(y', q, y'.clients[q]) {
      var c := y.clients[q];
      assert ClientOk(y, q, c);
      if q in y.inst.live {
        AllocatorSideStays(y.alloc, a, q, c.allocator, c.launcher.phase);
      }
    }
  }

  /** What a lock action of another process leaves of a launcher's side of the instance lock. */
  lemma InstanceSideStays(s: State, a: Action, r: Process, c: Client)
    requires Inv(s) && Enabled(s, a) && !IsWorld(a) && InstanceSide(s, r, c)
    requires a.Start? || s.calls[a.call].process != r
    ensures InstanceSide(Apply(s, a), r, c)
  {
    OtherCallsStay(s, a);
  }

  lemma LaunchKeeps(y: System, q: Process, here: bool, t: Token)
    requires SystemInv(y) && CanMove(y, Launch(q, here, t))
    ensures SystemInv(ApplyMove(y, Launch(q, here, t)))
  {
    StepKeepsInv(y.inst, Start(q, t, true));
    OtherCallsStay(y.inst, Start(q, t, true));
    LaunchedOk(y, q, here, t);
    var y' := ApplyMove(y, Launch(q, here, t));
    forall r | r in y.clients && r != q ensures r < y'.inst.next && ClientOk(y', r, y.clients[r]) {
      assert ClientOk(y, r, y.clients[r]);
      if r in y.inst.live {
        InstanceSideStays(y.inst, Start(q, t, true), r, y.clients[r]);
      }
    }
  }

  lemma LaunchedOk(y: System, q: Process, here: bool, t: Token)
    requires CanMove(y, Launch(q, here, t)) && TokensDrawn(y.alloc)
    ensures ClientOk(ApplyMove(y, Launch(q, here, t)), q, Client(here, t, None, LAUNCHED))
  {
  }

  ghost predicate TokensDrawn(s: State) {
    forall t | t in s.calls :: t in s.drawn
  }

  /** What a use of one call leaves alone. */
  lemma OtherCallsUnused(s: State, use: Use)
    requires TokensDrawn(s) && CanUse(s, use)
    ensures Act(s, use).live == s.live && Act(s, use).groups == s.groups && Act(s, use).next == s.next
    ensures forall t | t in s.calls && !(use.Binds? && use.token == t) && !(use.Releases? && use.token == t) ::
              t in Act(s, use).calls && Act(s, use).calls[t] == s.calls[t]
    ensures forall t | t in Act(s, use).calls ::
              if t in s.calls then Act(s, use).calls[t].process == s.calls[t].process
              else use.Acquires? && t == use.token && Act(s, use).calls[t].process == use.process
  {
  }

  lemma UseKeepsInv(s: State, use: Use)
    requires Inv(s) && CanUse(s, use)
    ensures Inv(Act(s, use)) && TokensDrawn(s)
  {
    if !use.NoUse? {
      UseIsStep(s, use);
      StepKeepsInv(s, ActionOfUse(use));
    }
    assert forall t | t in s.calls :: CallKnown(s, t, s.calls[t]);
  }

  /** After an event of the launcher its instance call fits the new phase. */
  lemma EventInstance(s: State, y: System, q: Process, c: Client, e: Event)
    requires s == y.inst && c.here && InstanceSide(s, q, c) && Expects(c.launcher, e) && Observed(y, c, e)
    requires LauncherOk(c.launcher) && CanUse(s, InstanceAction(c, e))
    ensures InstanceSide(Act(s, InstanceAction(c, e)), q, c.(launcher := Handle(c.launcher, e)))
  {
    var call, l, l' := s.calls[c.instance], c.launcher, Handle(c.launcher, e);
    if !InstanceAction(c, e).NoUse? {
      EventUsesInstance(s, q, c, e);
    } else if l'.phase != l.phase {
      PhaseObserved(y, c, e);
      InstanceFits(call, l, e);
    } else {
      SamePhase(call, l, e);
    }
  }

  /** The launcher binds or releases. */
  lemma EventUsesInstance(s: State, q: Process, c: Client, e: Event)
    requires c.here && InstanceSide(s, q, c) && Expects(c.launcher, e) && LauncherOk(c.launcher)
    requires CanUse(s, InstanceAction(c, e)) && !InstanceAction(c, e).NoUse?
    ensures InstanceSide(Act(s, InstanceAction(c, e)), q, c.(launcher := Handle(c.launcher, e)))
  {
    assert s.calls[c.instance].pc.Held?;
  }

  lemma PhaseObserved(y: System, c: Client, e: Event)
    requires c.here && c.instance in y.inst.calls && InstanceOk(y.inst.calls[c.instance], c.launcher)
    requires Expects(c.launcher, e) && Observed(y, c, e) && LauncherOk(c.launcher)
    ensures var call := y.inst.calls[c.instance];
      && (e.InstanceAcquired? || e.Bound? ==> call.pc.Held?)
      && (e.InstanceRefused? || e.InstanceReleased? ==> Ended(call.pc) && AllGone(c.launcher))
      && (e == Bound(true) ==> call.group == ActiveGroup(c.launcher) && call.group.Some?)
  {
  }

  lemma SamePhase(call: Call, l: Launcher, e: Event)
    requires InstanceOk(call, l) && Expects(l, e) && Handle(l, e).phase == l.phase
    ensures InstanceOk(call, Handle(l, e))
  {
    var l' := Handle(l, e);
    assert ActiveGroup(l') == ActiveGroup(l) && (AllGone(l) ==> AllGone(l'));
  }

  /** A phase entered without a lock action. */
  lemma InstanceFits(call: Call, l: Launcher, e: Event)
    requires InstanceOk(call, l) && Expects(l, e) && Handle(l, e).phase != l.phase
    requires e.InstanceAcquired? || e.Bound? ==> call.pc.Held?
    requires e.InstanceRefused? || e.InstanceReleased? ==> Ended(call.pc) && AllGone(l)
    requires e == Bound(true) ==> call.group == ActiveGroup(l) && call.group.Some?
    requires !Handle(l, e).phase.ReleasingInstance? && !Handle(l, e).phase.Binding?
    ensures InstanceOk(call, Handle(l, e))
  {
  }

  /** The allocator call and the phases before and after an event. */
  predicate Shifts(use: Use, pc: Option<Pc>, before: Phase, after: Phase) {
    match use
    case Acquires(_, _) => !UsesAllocator(before) && after.AcquiringAllocator?
    case Releases(_) => pc == Some(Held) && ReleasesAllocator(after)
    case Binds(_, _) => false
    case NoUse =>
      || after == before
      || (InWindow(before) && InWindow(after))
      || (pc == Some(Held) && InWindow(after))
      || (!UsesAllocator(after) && (!UsesAllocator(before) || (pc.Some? && Ended(pc.value))))
  }

  /** The last call of the allocator lock. */
  function LastPc(y: System, c: Client): Option<Pc>
    requires c.allocator.Some? ==> c.allocator.value in y.alloc.calls
  {
    if c.allocator.Some? then Some(y.alloc.calls[c.allocator.value].pc) else None
  }

  /** An event that ends the wait for the allocator lock or for its release, or starts one. */
  predicate AwaitsAllocator(e: Event) {
    e.TryAllocator? || e.AllocatorHeld? || e.AllocatorRefused? || e.AbortReleased? || e.UnreservedReleased?
        || e.AllocationReleased?
  }

  lemma AwaitedShifts(y: System, q: Process, c: Client, e: Event, token: Token)
    requires AllocatorSide(y.alloc, q, c.allocator, c.launcher.phase)
    requires Expects(c.launcher, e) && Observed(y, c, e) && AwaitsAllocator(e)
    ensures Shifts(AllocatorAction(q, c, e, token), LastPc(y, c), c.launcher.phase, Handle(c.launcher, e).phase)
  {
  }

  lemma OtherShifts(y: System, q: Process, c: Client, e: Event, token: Token)
    requires AllocatorSide(y.alloc, q, c.allocator, c.launcher.phase)
    requires Expects(c.launcher, e) && !AwaitsAllocator(e)
    ensures Shifts(AllocatorAction(q, c, e, token), LastPc(y, c), c.launcher.phase, Handle(c.launcher, e).phase)
  {
  }

  lemma EventShifts(y: System, q: Process, c: Client, e: Event, token: Token)
    requires AllocatorSide(y.alloc, q, c.allocator, c.launcher.phase)
    requires Expects(c.launcher, e) && Observed(y, c, e)
    ensures Shifts(AllocatorAction(q, c, e, token), LastPc(y, c), c.launcher.phase, Handle(c.launcher, e).phase)
  {
    if AwaitsAllocator(e) {
      AwaitedShifts(y, q, c, e, token);
    } else {
      OtherShifts(y, q, c, e, token);
    }
  }

  /** The allocator side after an event, from the shift alone. */
  lemma ShiftKeepsSide(s: State, use: Use, q: Process, allocator: Option<Token>, before: Phase, after: Phase)
    requires TokensDrawn(s) && AllocatorSide(s, q, allocator, before) && CanUse(s, use)
    requires Shifts(use, if allocator.Some? then Some(s.calls[allocator.value].pc) else None, before, after)
    requires use.Acquires? ==> use.process == q
    requires use.Releases? ==> allocator == Some(use.token)
    ensures AllocatorSide(Act(s, use), q, if use.Acquires? then Some(use.token) else allocator, after)
  {
    OtherCallsUnused(s, use);
  }

  lemma EventAllocator(y: System, q: Process, c: Client, e: Event, token: Token)
    requires TokensDrawn(y.alloc) && AllocatorSide(y.alloc, q, c.allocator, c.launcher.phase)
    requires Expects(c.launcher, e) && Observed(y, c, e)
    requires CanUse(y.alloc, AllocatorAction(q, c, e, token))
    ensures var use := AllocatorAction(q, c, e, token);
            AllocatorSide(Act(y.alloc, use), q, if use.Acquires? then Some(token) else c.allocator,
                          Handle(c.launcher, e).phase)
  {
    EventShifts(y, q, c, e, token);
    var use, after := AllocatorAction(q, c, e, token), Handle(c.launcher, e).phase;
    ShiftKeepsSide(y.alloc, use, q, c.allocator, c.launcher.phase, after);
  }

  /** The use concerns a call of another process. */
  predicate Spares(s: State, use: Use, r: Process)
    requires CanUse(s, use)
  {
    match use
    case NoUse => true
    case Acquires(q, _) => q != r
    case Binds(t, _) => s.calls[t].process != r
    case Releases(t) => s.calls[t].process != r
  }

  lemma UseSpares(s: State, use: Use, r: Process, c: Client)
    requires TokensDrawn(s) && CanUse(s, use) && Spares(s, use, r)
    ensures InstanceSide(s, r, c) ==> InstanceSide(Act(s, use), r, c)
    ensures AllocatorSide(s, r, c.allocator, c.launcher.phase)
            ==> AllocatorSide(Act(s, use), r, c.allocator, c.launcher.phase)
  {
    OtherCallsUnused(s, use);
  }

  lemma OwnUse(y: System, q: Process, c: Client, e: Event, token: Token)
    requires Expects(c.launcher, e) && InstanceSide(y.inst, q, c)
    requires AllocatorSide(y.alloc, q, c.allocator, c.launcher.phase)
    requires CanUse(y.inst, InstanceAction(c, e)) && CanUse(y.alloc, AllocatorAction(q, c, e, token))
    ensures forall r: Process | r != q ::
              Spares(y.inst, InstanceAction(c, e), r) && Spares(y.alloc, AllocatorAction(q, c, e, token), r)
  {
  }

  /** The locks themselves keep their invariants. */
  lemma LocksKeep(y: System, q: Process, e: Event, token: Token)
    requires SystemInv(y) && CanMove(y, Happens(q, e, token))
    ensures TokensDrawn(y.inst) && TokensDrawn(y.alloc)
    ensures var y' := ApplyMove(y, Happens(q, e, token));
            && Inv(y'.inst) && Inv(y'.alloc)
            && y'.inst.live == y'.alloc.live == y.inst.live
            && y'.inst.groups == y'.alloc.groups == y.inst.groups
            && y'.inst.next == y'.alloc.next == y.inst.next
  {
    var c := y.clients[q];
    UseKeepsInv(y.inst, InstanceAction(c, e));
    UseKeepsInv(y.alloc, AllocatorAction(q, c, e, token));
    OtherCallsUnused(y.inst, InstanceAction(c, e));
    OtherCallsUnused(y.alloc, AllocatorAction(q, c, e, token));
  }

  /** The launcher itself. */
  lemma OwnSideKept(y: System, q: Process, e: Event, token: Token)
    requires SystemInv(y) && CanMove(y, Happens(q, e, token)) && TokensDrawn(y.alloc)
    ensures var c := y.clients[q];
      && LauncherOk(Handle(c.launcher, e))
      && InstanceSide(Act(y.inst, InstanceAction(c, e)), q, c.(launcher := Handle(c.launcher, e)))
      && var use := AllocatorAction(q, c, e, token);
         AllocatorSide(Act(y.alloc, use), q, if use.Acquires? then Some(token) else c.allocator,
                       Handle(c.launcher, e).phase)
  {
    var c := y.clients[q];
    assert ClientOk(y, q, c);
    EventKeepsLauncherOk(c.launcher, e);
    if c.here {
      EventInstance(y.inst, y, q, c, e);
    }
    EventAllocator(y, q, c, e, token);
  }

  /** Another launcher. */
  lemma OtherSideKept(y: System, q: Process, e: Event, token: Token, r: Process)
    requires SystemInv(y) && CanMove(y, Happens(q, e, token)) && TokensDrawn(y.inst) && TokensDrawn(y.alloc)
    requires r in y.clients && r != q && r in y.inst.live
    ensures InstanceSide(Act(y.inst, InstanceAction(y.clients[q], e)), r, y.clients[r])
    ensures AllocatorSide(Act(y.alloc, AllocatorAction(q, y.clients[q], e, token)), r, y.clients[r].allocator,
                          y.clients[r].launcher.phase)
  {
    var c := y.clients[q];
    assert ClientOk(y, q, c) && ClientOk(y, r, y.clients[r]);
    OwnUse(y, q, c, e, token);
    UseSpares(y.inst, InstanceAction(c, e), r, y.clients[r]);
    UseSpares(y.alloc, AllocatorAction(q, c, e, token), r, y.clients[r]);
  }

  lemma HappensKeeps(y: System, q: Process, e: Event, token: Token)
    requires SystemInv(y) && CanMove(y, Happens(q, e, token))
    ensures SystemInv(ApplyMove(y, Happens(q, e, token)))
  {
    var y' := ApplyMove(y, Happens(q, e, token));
    LocksKeep(y, q, e, token);
    OwnSideKept(y, q, e, token);
    forall r | r in y'.clients ensures r < y'.inst.next && ClientOk(y', r, y'.clients[r]) {
      if r != q {
        assert ClientOk(y, r, y.clients[r]);
        if r in y.inst.live {
          OtherSideKept(y, q, e, token, r);
        }
      }
    }
  }

  lemma MoveKeepsInv(y: System, m: Move)
    requires SystemInv(y) && CanMove(y, m)
    ensures SystemInv(ApplyMove(y, m))
  {
    match m
    case World(a) => WorldKeeps(y, a);
    case OnInstance(a) => OnInstanceKeeps(y, a);
    case OnAllocator(a) => OnAllocatorKeeps(y, a);
    case Launch(q, here, t) => LaunchKeeps(y, q, here, t);
    case Happens(q, e, token) => HappensKeeps(y, q, e, token);
  }
}
