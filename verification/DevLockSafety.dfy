/** What the lock protocol guarantees over whole runs, for any number of processes, any interleaving,
    crashes anywhere and reuse of pids. */
module DevLockSafety {
  import opened Wrappers
  import opened DevLock
  import opened DevLockInvariant

  // ---------------------------------------------------------------------------------------------
  // Mutual exclusion

  /** At most one live acquisition holds the lock, and the lock file carries its pid, its token and the
      process group that it last bound. */
  lemma MutualExclusion(s: State)
    requires Reachable(s)
    ensures forall t: Token :: Holds(s, t) ==> s.lock == Some(Written(s.calls[t].pid, t, s.calls[t].group))
    ensures forall t: Token, u: Token :: Holds(s, t) && Holds(s, u) ==> t == u
  {
    ReachableInv(s);
    assert forall t: Token :: Holds(s, t) ==> CallOk(s, t, s.calls[t]);
  }

  /** The acquisition that holds the lock, if any. */
  function HolderOf(s: State): Option<Token> {
    if s.lock.Some? && s.lock.value.Written? && Holds(s, s.lock.value.token)
    then Some(s.lock.value.token)
    else None
  }

  /** The call finishes releasing the handle in this step, with or without an error. */
  predicate Relinquishes(s: State, a: Action, t: Token) {
    && t in s.calls
    && (s.calls[t].pc.ReleaseReading? || s.calls[t].pc.ReleaseUnlinking?)
    && (a == Throw(t) || (a.Advance? && a.call == t))
  }

  /** A textbook mutex, with an owner that may die. */
  predicate MutexStep(s: State, a: Action, before: Option<Token>, after: Option<Token>) {
    || before == after
    || (before.None? && after.Some? && a.Advance? && a.call == after.value)
    || (before.Some? && after.None?
        && (Relinquishes(s, a, before.value)
            || (before.value in s.calls && a == Death(s.calls[before.value].process))))
  }

  lemma HolderOfHolds(s: State, t: Token)
    requires Inv(s) && Holds(s, t)
    ensures HolderOf(s) == Some(t)
  {
    assert CallOk(s, t, s.calls[t]);
  }

  /** Every step of the protocol is a step of the mutex: the lock passes from one holder to another only
      through a release by the holder itself or through its death. */
  lemma RefinesMutex(s: State, a: Action)
    requires Reachable(s) && Enabled(s, a)
    ensures MutexStep(s, a, HolderOf(s), HolderOf(Apply(s, a)))
    ensures forall t: Token :: HolderOf(s) == Some(t) <==> Holds(s, t)
  {
    ReachableInv(s);
    StepKeepsInv(s, a);
    var s' := Apply(s, a);
    forall t: Token | Holds(s, t) ensures HolderOf(s) == Some(t) {
      HolderOfHolds(s, t);
    }
    if HolderOf(s).Some? && HolderOf(s') != HolderOf(s) {
      HolderLoses(s, a, HolderOf(s).value);
    } else if HolderOf(s').Some? && HolderOf(s).None? {
      HolderGains(s, a, HolderOf(s').value);
    }
  }

  lemma HolderLoses(s: State, a: Action, t: Token)
    requires Inv(s) && Enabled(s, a) && Inv(Apply(s, a)) && Holds(s, t) && HolderOf(Apply(s, a)) != Some(t)
    ensures HolderOf(Apply(s, a)).None?
    ensures Relinquishes(s, a, t) || a == Death(s.calls[t].process)
  {
    var s' := Apply(s, a);
    assert CallOk(s, t, s.calls[t]) && CallKnown(s, t, s.calls[t]);
    if Holds(s', t) {
      HolderOfHolds(s', t);
      assert false;
    }
  }

  lemma HolderGains(s: State, a: Action, t: Token)
    requires Inv(s) && Enabled(s, a) && Holds(Apply(s, a), t) && !Holds(s, t)
    ensures a.Advance? && a.call == t
  {
    assert t in s.calls ==> CallKnown(s, t, s.calls[t]);
  }

  // ---------------------------------------------------------------------------------------------
  // Unique reclaimer

  /** Between a claim on a stale content and its unlink. */
  predicate Reclaims(pc: Pc) {
    pc.Rereading? || Reread(pc)
  }

  predicate ReclaimsSame(s: State, t: Token, u: Token) {
    && s.Runs(t) && s.Runs(u)
    && Reclaims(s.calls[t].pc) && Reclaims(s.calls[u].pc)
    && s.calls[t].pc.stale == s.calls[u].pc.stale
  }

  /** For each stale content at most one running call may unlink it; every claim that another claim
      follows belongs to a dead process; and the content that a reclaimer re-read is still there when
      it unlinks, and its owner is dead. */
  lemma UniqueReclaimer(s: State)
    requires Reachable(s)
    ensures forall t, u | ReclaimsSame(s, t, u) :: t == u
    ensures forall g | g in s.claims && g.Next? ::
              g.prev in s.claims && s.claims[g.prev] == g.claim && ClaimDead(s.drawn, s.live, g.claim)
    ensures forall t | s.Runs(t) && s.calls[t].pc.Unlinking? ::
              s.lock == Some(s.calls[t].pc.stale) && Abandoned(s.drawn, s.live, s.calls[t].pc.stale)
  {
    ReachableInv(s);
    assert forall t :: s.Runs(t) ==> CallOk(s, t, s.calls[t]);
    forall t, u | ReclaimsSame(s, t, u) ensures t == u {
      var p, q := s.calls[t].pc, s.calls[u].pc;
      UniqueClaimant(s, t, p.gen, p.mine, u, q.gen, q.mine, p.stale);
    }
    assert forall g :: g in s.claims ==> Stands(s, g);
  }

  // ---------------------------------------------------------------------------------------------
  // No lost or stolen lock

  /** What a step may do to the lock file. */
  datatype LockChange =
    | Unchanged
    | Acquired(owner: Token)
    | Reclaimed(owner: Token, record: Content)
    | Rebound(owner: Token)
    | Unlocked(owner: Token)

  predicate Explains(change: LockChange, s: State, s': State) {
    match change
    case Unchanged => s'.lock == s.lock
    case Acquired(t) => s.lock.None? && Holds(s', t) && s'.lock == Some(Written(s'.calls[t].pid, t, None))
    case Reclaimed(_, record) => s.lock == Some(record) && s'.lock.None?
    case Rebound(t) =>
      && Holds(s, t) && s.lock.Some? && s.lock.value.Written? && s.lock.value.token == t
      && s'.lock.Some? && s'.lock.value.Written? && s'.lock.value.pid == s.lock.value.pid && s'.lock.value.token == t
    case Unlocked(t) =>
      Holds(s, t) && s.lock.Some? && s.lock.value.Written? && s.lock.value.token == t && s'.lock.None?
  }

  /** The unlink and the rename overwrite whatever is there; nevertheless, in every reachable state, the
      reclaim unlink removes only the record of a dead owner, release removes only its own record, and
      bindProcessGroup replaces only its own record. */
  lemma LockChangesAreOwn(s: State, a: Action) returns (change: LockChange)
    requires Reachable(s) && Enabled(s, a)
    ensures Explains(change, s, Apply(s, a))
    ensures change.Reclaimed? ==> Abandoned(s.drawn, s.live, change.record)
  {
    ReachableInv(s);
    change := Unchanged;
    if a.Advance? {
      assert CallOk(s, a.call, s.calls[a.call]);
      match s.calls[a.call].pc
      case Linking => change := if s.lock.None? then Acquired(a.call) else Unchanged;
      case Unlinking(stale, _, _) => change := Reclaimed(a.call, stale);
      case BindRenaming(_) => change := Rebound(a.call);
      case ReleaseUnlinking => change := Unlocked(a.call);
      case _ =>
    }
  }

  lemma AbandonedIsNotWritten(s: State, a: Action, c: Content)
    requires Inv(s) && Enabled(s, a) && Abandoned(s.drawn, s.live, c) && s.lock != Some(c)
    ensures Apply(s, a).lock != Some(c) && Abandoned(Apply(s, a).drawn, Apply(s, a).live, c)
  {
    assert Grows(s, Apply(s, a));
    ContentGrows(s, Apply(s, a), c);
    if a.Advance? {
      assert CallKnown(s, a.call, s.calls[a.call]);
    }
  }

  lemma UnlinkReclaims(s: State, t: Token, uuid: Token)
    requires Inv(s) && Enabled(s, Advance(t, uuid)) && s.calls[t].pc.Unlinking?
    ensures Abandoned(s.drawn, s.live, s.calls[t].pc.stale)
    ensures Apply(s, Advance(t, uuid)).lock.None?
    ensures Abandoned(Apply(s, Advance(t, uuid)).drawn, Apply(s, Advance(t, uuid)).live, s.calls[t].pc.stale)
  {
    assert CallOk(s, t, s.calls[t]);
  }

  lemma {:induction false} StaysAway(run: seq<State>, i: nat, j: nat, c: Content)
    requires IsRun(run) && Init(run[0]) && i <= j < |run|
    requires run[i].lock != Some(c) && Abandoned(run[i].drawn, run[i].live, c)
    ensures run[j].lock != Some(c) && Abandoned(run[j].drawn, run[j].live, c)
    decreases j
  {
    if i < j {
      StaysAway(run, i, j - 1, c);
      var a := ActionOf(run, j - 1);
      AbandonedIsNotWritten(run[j - 1], a, c);
    }
  }

  /** A record that was reclaimed never reappears. */
  lemma ReclaimedNeverReturns(run: seq<State>, i: nat, j: nat, t: Token, uuid: Token)
    requires IsRun(run) && Init(run[0]) && i < j < |run|
    requires Enabled(run[i], Advance(t, uuid)) && run[i].calls[t].pc.Unlinking?
    requires run[i + 1] == Apply(run[i], Advance(t, uuid))
    ensures run[j].lock != Some(run[i].calls[t].pc.stale)
  {
    RunKeepsInv(run, i);
    UnlinkReclaims(run[i], t, uuid);
    StaysAway(run, i + 1, j, run[i].calls[t].pc.stale);
  }

  // ---------------------------------------------------------------------------------------------
  // Orphan protection

  /** Still before the verdict on the recorded process group. */
  predicate BeforeVerdict(pc: Pc) {
    pc.CheckingPid? || pc.CheckingGroup? || pc.LiveOwner? || pc.Replacing? || pc.AwaitingLauncher?
  }

  predicate StaleIs(pc: Pc, c: Content) {
    (BeforeVerdict(pc) || pc.Claiming? || pc.ReadingClaim? || pc.CheckingClaim? || Reclaims(pc)) && pc.stale == c
  }

  /** The lock file holds `c`, and no running call has judged the process group in `c` to be gone. */
  ghost predicate Guarded(s: State, c: Content) {
    && s.lock == Some(c)
    && forall u :: s.Runs(u) && StaleIs(s.calls[u].pc, c) ==> BeforeVerdict(s.calls[u].pc)
  }

  /** The owner is about to replace or remove its record. */
  predicate OwnerWrites(s: State, t: Token) {
    s.Runs(t) && (s.calls[t].pc.BindRenaming? || s.calls[t].pc.ReleaseUnlinking?)
  }

  lemma GuardStarts(s: State, c: Content)
    requires Inv(s) && s.lock == Some(c) && c.Written? && s.Runs(c.token)
    ensures Guarded(s, c)
  {
    assert CallKnown(s, c.token, s.calls[c.token]);
    forall u | s.Runs(u) && StaleIs(s.calls[u].pc, c) ensures BeforeVerdict(s.calls[u].pc) {
      assert CallOk(s, u, s.calls[u]);
    }
  }

  lemma GuardHolds(s: State, a: Action, c: Content)
    requires Inv(s) && Enabled(s, a) && Guarded(s, c) && GroupOf(c).Some? && GroupOf(c).value in s.groups
    requires c.Written? ==> !OwnerWrites(s, c.token)
    ensures Guarded(Apply(s, a), c)
  {
    var s' := Apply(s, a);
    forall u | s'.Runs(u) && StaleIs(s'.calls[u].pc, c) ensures BeforeVerdict(s'.calls[u].pc) {
      if u in s.calls {
        assert CallKnown(s, u, s.calls[u]);
      }
    }
    if a.Advance? {
      assert CallOk(s, a.call, s.calls[a.call]);
    }
  }

  lemma GuardExcludes(s: State, c: Content)
    requires Inv(s) && Guarded(s, c)
    ensures forall u: Token :: Holds(s, u) ==> c.Written? && u == c.token
  {
    assert forall u: Token :: Holds(s, u) ==> CallOk(s, u, s.calls[u]);
  }

  /** Once a process group is bound into the lock, nobody else takes the lock while that group stays live
      and the owner does not itself rebind or release: not even after the owner died, and not by the
      replacing path either. The same holds from the start for a record that an earlier run left behind. */
  lemma {:induction false} OrphanProtection(run: seq<State>, i: nat, j: nat, c: Content)
    requires IsRun(run) && Init(run[0]) && i <= j < |run|
    requires run[i].lock == Some(c) && GroupOf(c).Some?
    requires i == 0 || (c.Written? && run[i].Runs(c.token))
    requires forall k :: i <= k < j ==> GroupOf(c).value in run[k].groups
    requires c.Written? ==> forall k :: i <= k < j ==> !OwnerWrites(run[k], c.token)
    ensures Guarded(run[j], c)
    ensures forall u: Token :: Holds(run[j], u) ==> c.Written? && u == c.token
    decreases j
  {
    RunKeepsInv(run, j);
    if i < j {
      OrphanProtection(run, i, j - 1, c);
      var a := ActionOf(run, j - 1);
      GuardHolds(run[j - 1], a, c);
    } else if i > 0 {
      GuardStarts(run[i], c);
    }
    GuardExcludes(run[j], c);
  }

  predicate SawGroupGone(run: seq<State>, i: nat, j: nat, c: Content)
    requires j <= |run|
  {
    exists m :: i <= m < j && !RecordedGroupIsLive(run[m], c)
  }

  predicate SawBothGone(run: seq<State>, i: nat, j: nat, c: Content)
    requires j <= |run|
  {
    exists m, n :: i <= m < n < j && !RecordedGroupIsLive(run[m], c) && !RecordedPidIsLive(run[n], c)
  }

  /** What a call that replaces the owner of `c` has seen, by where it stands. */
  predicate Justified(run: seq<State>, i: nat, j: nat, pc: Pc, c: Content)
    requires j <= |run|
  {
    || pc == Replacing(c)
    || pc.Failed?
    || (pc == AwaitingLauncher(c) && SawGroupGone(run, i, j, c))
    || SawBothGone(run, i, j, c)
  }

  lemma ReplaceMoves(s: State, a: Action, u: Token, c: Content)
    requires Inv(s) && Enabled(s, a) && u in s.calls
    ensures u in Apply(s, a).calls
    ensures var before, after := s.calls[u].pc, Apply(s, a).calls[u].pc;
      || after == before
      || after.Failed?
      || (before == Replacing(c) && after == AwaitingLauncher(c) && !RecordedGroupIsLive(s, c))
      || (before == AwaitingLauncher(c) && !RecordedPidIsLive(s, c))
      || (before != Replacing(c) && before != AwaitingLauncher(c) && !before.Failed?)
  {
    assert CallKnown(s, u, s.calls[u]);
  }

  /** A replacing acquirer goes on to take the lock only after it saw the recorded group gone and, after
      that, the recorded launcher gone. */
  lemma {:induction false} ReplaceAwaitsDeath(run: seq<State>, i: nat, j: nat, u: Token, c: Content)
    requires IsRun(run) && Init(run[0]) && i <= j < |run|
    requires u in run[i].calls && run[i].calls[u].pc == Replacing(c)
    ensures u in run[j].calls && Justified(run, i, j, run[j].calls[u].pc, c)
    decreases j
  {
    if i < j {
      ReplaceAwaitsDeath(run, i, j - 1, u, c);
      var a := ActionOf(run, j - 1);
      ReplaceMoves(run[j - 1], a, u, c);
      var before, after := run[j - 1].calls[u].pc, run[j].calls[u].pc;
      if SawBothGone(run, i, j - 1, c) {
        var m, n :| i <= m < n < j - 1 && !RecordedGroupIsLive(run[m], c) && !RecordedPidIsLive(run[n], c);
        assert SawBothGone(run, i, j, c);
      } else if before == Replacing(c) {
        assert after == before || after.Failed? || !RecordedGroupIsLive(run[j - 1], c);
      } else if before == AwaitingLauncher(c) {
        var m :| i <= m < j - 1 && !RecordedGroupIsLive(run[m], c);
        assert SawGroupGone(run, i, j, c);
        assert after == before || after.Failed? || !RecordedPidIsLive(run[j - 1], c);
      }
    }
  }

  // ---------------------------------------------------------------------------------------------
  // Records left behind

  /** The lock file carries the record of call `t`. */
  predicate Names(s: State, t: Token) {
    s.lock.Some? && s.lock.value.Written? && s.lock.value.token == t
  }

  /** The record belongs to a call of this run that no longer has the lock. */
  predicate IsLeftBehind(s: State, t: Token) {
    t in s.calls && Names(s, t) && !HasLock(s.calls[t].pc)
  }

  /** A release of call `t` throws in this step. */
  ghost predicate ReleaseThrows(s: State, t: Token, s': State) {
    && s.Runs(t) && (s.calls[t].pc.ReleaseReading? || s.calls[t].pc.ReleaseUnlinking?)
    && s' == Apply(s, Throw(t))
  }

  lemma OnlyThrowLeavesBehind(s: State, a: Action, t: Token)
    requires Inv(s) && Enabled(s, a) && IsLeftBehind(Apply(s, a), t) && !IsLeftBehind(s, t)
    ensures ReleaseThrows(s, t, Apply(s, a))
  {
    if t in s.calls {
      assert CallKnown(s, t, s.calls[t]) && (s.Runs(t) ==> CallOk(s, t, s.calls[t]));
    }
  }

  /** A release that throws leaves the record. */
  lemma ThrowLeavesBehind(s: State, t: Token, s': State)
    requires Inv(s) && ReleaseThrows(s, t, s')
    ensures IsLeftBehind(s', t) && s'.calls[t].pc.Released?
  {
    assert CallOk(s, t, s.calls[t]);
  }

  /** A record that was left behind stays for as long as its process runs: nobody may reclaim it, and the
      handle does not try again. */
  lemma LeftBehindStays(s: State, a: Action, t: Token)
    requires Inv(s) && Enabled(s, a) && IsLeftBehind(s, t) && s.calls[t].pc.Released?
    requires Apply(s, a).Runs(t)
    ensures IsLeftBehind(Apply(s, a), t) && Apply(s, a).calls[t].pc.Released?
  {
    assert CallKnown(s, t, s.calls[t]);
    if a.Advance? {
      assert CallOk(s, a.call, s.calls[a.call]) && CallKnown(s, a.call, s.calls[a.call]);
    }
  }

  /** A call whose process runs was running before. */
  lemma RanBefore(s: State, a: Action, t: Token)
    requires Inv(s) && Enabled(s, a) && t in s.calls && Apply(s, a).Runs(t)
    ensures s.Runs(t)
  {
    assert CallKnown(s, t, s.calls[t]);
  }

  /** A release of call `t` threw before the j-th state. */
  ghost predicate ReleaseThrew(run: seq<State>, j: nat, t: Token)
    requires j < |run|
  {
    exists i: nat :: i < j && ReleaseThrows(run[i], t, run[i + 1])
  }

  lemma {:induction false} LeftBehindByThrow(run: seq<State>, j: nat, t: Token)
    requires IsRun(run) && Init(run[0]) && j < |run| && IsLeftBehind(run[j], t)
    ensures ReleaseThrew(run, j, t)
    decreases j
  {
    assert j > 0;
    if IsLeftBehind(run[j - 1], t) {
      LeftBehindByThrow(run, j - 1, t);
    } else {
      var a := ActionOf(run, j - 1);
      OnlyThrowLeavesBehind(run[j - 1], a, t);
      assert ReleaseThrows(run[j - 1], t, run[j - 1 + 1]);
    }
  }

  lemma {:induction false} LeftBehindSince(run: seq<State>, i: nat, j: nat, t: Token)
    requires IsRun(run) && Init(run[0]) && i < j < |run| && ReleaseThrows(run[i], t, run[i + 1]) && run[j].Runs(t)
    requires forall k | i <= k <= j :: t in run[k].calls
    ensures IsLeftBehind(run[j], t) && run[j].calls[t].pc.Released?
    decreases j
  {
    RunKeepsInv(run, j - 1);
    if i == j - 1 {
      ThrowLeavesBehind(run[i], t, run[i + 1]);
    } else {
      var a := ActionOf(run, j - 1);
      RanBefore(run[j - 1], a, t);
      LeftBehindSince(run, i, j - 1, t);
      LeftBehindStays(run[j - 1], a, t);
    }
  }

  lemma {:induction false} CallsStay(run: seq<State>, i: nat, j: nat, t: Token)
    requires IsRun(run) && Init(run[0]) && i <= j < |run| && t in run[i].calls
    ensures t in run[j].calls
    decreases j
  {
    if i < j {
      CallsStay(run, i, j - 1, t);
      var a := ActionOf(run, j - 1);
    }
  }

  /** A call that no longer has the lock, while its process runs, has its record in the lock file exactly if
      its release threw. */
  lemma LeftBehindExactlyIf(run: seq<State>, j: nat, t: Token)
    requires IsRun(run) && Init(run[0]) && j < |run| && run[j].Runs(t)
    ensures IsLeftBehind(run[j], t) <==> ReleaseThrew(run, j, t)
  {
    if IsLeftBehind(run[j], t) {
      LeftBehindByThrow(run, j, t);
    } else if i: nat :| i < j && ReleaseThrows(run[i], t, run[i + 1]) {
      forall k | i <= k <= j ensures t in run[k].calls {
        CallsStay(run, i, k, t);
      }
      LeftBehindSince(run, i, j, t);
    }
  }

  // ---------------------------------------------------------------------------------------------
  // Where reclaiming stops

  /** The last claim on the stale content `c` belongs to a process that runs, and no running call is
      between such a claim and the unlink. */
  ghost predicate Blocked(s: State, c: Content, gen: Generation) {
    && s.lock == Some(c)
    && Abandoned(s.drawn, s.live, c)
    && Base(gen) == c
    && Stands(s, gen)
    && gen in s.claims
    && s.PidIsLive(s.claims[gen].pid)
    && !ClaimDead(s.drawn, s.live, s.claims[gen])
    && forall u :: s.Runs(u) && Reclaims(s.calls[u].pc) ==> s.calls[u].pc.stale != c
  }

  /** The call gives way without an unlink: it throws, or its recheck finds the recorded pid or group live. */
  predicate GivesWay(s: State, t: Token, a: Action)
    requires t in s.calls
  {
    var pc := s.calls[t].pc;
    || a == Throw(t)
    || (a.Advance? && a.call == t
        && ((pc.RecheckingPid? && RecordedPidIsLive(s, pc.stale))
            || (pc.RecheckingGroup? && RecordedGroupIsLive(s, pc.stale))))
  }

  /** The next step of a call that claimed the stale content leaves the content blocked exactly if the call
      gives way in it. */
  lemma LeavingBlocks(s: State, t: Token, a: Action)
    requires Reachable(s) && s.Runs(t) && Reclaims(s.calls[t].pc) && s.lock == Some(s.calls[t].pc.stale)
    requires Enabled(s, a) && (a == Throw(t) || (a.Advance? && a.call == t))
    ensures Blocked(Apply(s, a), s.calls[t].pc.stale, s.calls[t].pc.gen) <==> GivesWay(s, t, a)
  {
    ReachableInv(s);
    var s' := Apply(s, a);
    var pc := s.calls[t].pc;
    if GivesWay(s, t, a) {
      GivingWayBlocks(s, t, a);
    } else {
      assert s'.Runs(t) && (s'.lock.None? || (Reclaims(s'.calls[t].pc) && s'.calls[t].pc.stale == pc.stale));
    }
  }

  lemma GivingWayBlocks(s: State, t: Token, a: Action)
    requires Reachable(s) && s.Runs(t) && Reclaims(s.calls[t].pc) && s.lock == Some(s.calls[t].pc.stale)
    requires Enabled(s, a) && GivesWay(s, t, a)
    ensures Blocked(Apply(s, a), s.calls[t].pc.stale, s.calls[t].pc.gen)
  {
    ReachableInv(s);
    UniqueReclaimer(s);
    var s' := Apply(s, a);
    var c := s.calls[t].pc.stale;
    assert CallOk(s, t, s.calls[t]) && CallKnown(s, t, s.calls[t]);
    assert s'.claims == s.claims && s'.drawn == s.drawn && s'.live == s.live && s'.lock == s.lock;
    forall u | s'.Runs(u) && Reclaims(s'.calls[u].pc) ensures s'.calls[u].pc.stale != c {
      assert s.calls[u].pc.stale == c ==> ReclaimsSame(s, t, u);
    }
  }

  lemma BlockedChain(s: State, c: Content, gen: Generation, h: Generation)
    requires Inv(s) && Blocked(s, c, gen) && Base(h) == c && Stands(s, h)
    ensures h in s.claims
  {
    if Depth(h) < Depth(gen) {
      EarlierIsDead(s, h, gen);
    } else if Depth(gen) < Depth(h) {
      EarlierIsDead(s, gen, h);
    } else {
      NoBranch(s, gen, h);
    }
  }

  /** No running call gets between a claim on the blocked content and its unlink. */
  lemma BlockedAdvance(s: State, t: Token, uuid: Token, c: Content, gen: Generation)
    requires Inv(s) && Enabled(s, Advance(t, uuid)) && Blocked(s, c, gen)
    ensures Reclaims(PcAfter(s, t, uuid)) ==> PcAfter(s, t, uuid).stale != c
    ensures LockAfter(s, t) == s.lock
  {
    assert CallOk(s, t, s.calls[t]) && CallKnown(s, t, s.calls[t]);
    var pc := s.calls[t].pc;
    if pc.Claiming? && pc.stale == c {
      BlockedChain(s, c, gen, pc.gen);
    }
  }

  /** No step takes a call between a claim on the blocked content and its unlink. */
  lemma BlockedKeepsOut(s: State, a: Action, c: Content, gen: Generation)
    requires Inv(s) && Enabled(s, a) && Blocked(s, c, gen)
    ensures forall u | Apply(s, a).Runs(u) && Reclaims(Apply(s, a).calls[u].pc) :: Apply(s, a).calls[u].pc.stale != c
    ensures Apply(s, a).lock == s.lock
  {
    var s' := Apply(s, a);
    if a.Advance? {
      BlockedAdvance(s, a.call, a.uuid, c, gen);
    }
    forall u | s'.Runs(u) && Reclaims(s'.calls[u].pc) ensures s'.calls[u].pc.stale != c {
      if u in s.calls {
        assert CallKnown(s, u, s.calls[u]);
      }
    }
  }

  /** The claim stays, and its pid is live for as long as its process is. */
  lemma ClaimStays(s: State, s': State, gen: Generation)
    requires Inv(s) && Grows(s, s') && gen in s.claims && !ClaimDead(s'.drawn, s'.live, s.claims[gen])
    ensures gen in s'.claims && s'.claims[gen] == s.claims[gen]
    ensures s.PidIsLive(s.claims[gen].pid) ==> s'.PidIsLive(s.claims[gen].pid)
  {
    var claim := s.claims[gen];
    assert ClaimMarked(s.drawn, s.live, claim);
    assert s'.live[s'.drawn[claim.token].process] == claim.pid;
  }

  lemma BlockedStays(s: State, a: Action, c: Content, gen: Generation)
    requires Inv(s) && Enabled(s, a) && Blocked(s, c, gen)
    requires !ClaimDead(Apply(s, a).drawn, Apply(s, a).live, s.claims[gen])
    ensures Blocked(Apply(s, a), c, gen) && Apply(s, a).claims[gen] == s.claims[gen]
  {
    var s' := Apply(s, a);
    StepGrows(s, a);
    ContentGrows(s, s', c);
    SupersededGrows(s, s', gen);
    ClaimStays(s, s', gen);
    BlockedKeepsOut(s, a, c, gen);
  }

  lemma StepGrows(s: State, a: Action)
    requires Inv(s) && Enabled(s, a)
    ensures Grows(s, Apply(s, a))
  {
  }

  lemma BlockedExcludes(s: State, c: Content, gen: Generation)
    requires Inv(s) && Blocked(s, c, gen)
    ensures forall u: Token :: !Holds(s, u)
  {
    forall u: Token | s.Runs(u) ensures !HasLock(s.calls[u].pc) {
      assert CallOk(s, u, s.calls[u]) && CallKnown(s, u, s.calls[u]);
    }
  }

  /** Reclaiming is not live: as long as the process of the last claim runs, the stale record stays, and
      no call, of that process or of another, ever takes the lock. */
  lemma {:induction false} ReclaimBlocked(run: seq<State>, i: nat, j: nat, c: Content, gen: Generation)
    requires IsRun(run) && Init(run[0]) && i <= j < |run| && Blocked(run[i], c, gen)
    requires forall k :: i <= k <= j ==> !ClaimDead(run[k].drawn, run[k].live, run[i].claims[gen])
    ensures Blocked(run[j], c, gen) && run[j].claims[gen] == run[i].claims[gen]
    ensures forall u: Token :: !Holds(run[j], u)
    decreases j
  {
    RunKeepsInv(run, j);
    if i < j {
      ReclaimBlocked(run, i, j - 1, c, gen);
      var a := ActionOf(run, j - 1);
      BlockedStays(run[j - 1], a, c, gen);
    }
    BlockedExcludes(run[j], c, gen);
  }
}
