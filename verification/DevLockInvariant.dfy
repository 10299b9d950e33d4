/** What every step of the lock protocol keeps. */
module DevLockInvariant {
  import opened Wrappers
  import opened DevLock

  /** If the process that drew the content's token runs, the content names its pid. */
  ghost predicate WellMarked(drawn: map<Token, Draw>, live: map<Process, int>, c: Content) {
    match ParseLockOwner(c)
    case None => true
    case Some(o) => o.token.Some? ==>
      && o.token.value in drawn
      && (drawn[o.token.value].process in live ==> live[drawn[o.token.value].process] == o.pid)
  }

  /** The process that drew the content's token, if any, is dead. */
  ghost predicate Abandoned(drawn: map<Token, Draw>, live: map<Process, int>, c: Content) {
    match ParseLockOwner(c)
    case None => true
    case Some(o) => o.token.Some? ==> o.token.value in drawn && drawn[o.token.value].process !in live
  }

  ghost predicate ClaimMarked(drawn: map<Token, Draw>, live: map<Process, int>, c: Claim) {
    c.token in drawn && (drawn[c.token].process in live ==> live[drawn[c.token].process] == c.pid)
  }

  ghost predicate ClaimDead(drawn: map<Token, Draw>, live: map<Process, int>, c: Claim) {
    c.token in drawn && drawn[c.token].process !in live
  }

  /** Every claim that `gen` supersedes is on disk and belongs to a dead process. */
  ghost predicate Superseded(
    claims: map<Generation, Claim>, drawn: map<Token, Draw>, live: map<Process, int>, gen: Generation)
    decreases gen
  {
    gen.Next? ==>
      && gen.prev in claims
      && claims[gen.prev] == gen.claim
      && ClaimDead(drawn, live, gen.claim)
      && Superseded(claims, drawn, live, gen.prev)
  }

  ghost predicate Stands(s: State, gen: Generation) {
    Superseded(s.claims, s.drawn, s.live, gen)
  }

  function Base(gen: Generation): Content {
    match gen
    case Root(stale) => stale
    case Next(prev, _) => Base(prev)
  }

  /** A call may walk the claim chain of `stale` and stand at `gen`. */
  ghost predicate Walks(s: State, stale: Content, gen: Generation) {
    Abandoned(s.drawn, s.live, stale) && Base(gen) == stale && Stands(s, gen)
  }

  /** Call `t` published the claim at `gen`. */
  ghost predicate Claimed(s: State, t: Token, call: Call, stale: Content, gen: Generation, mine: Token) {
    && Walks(s, stale, gen)
    && gen in s.claims
    && s.claims[gen] == Claim(call.pid, mine)
    && mine in s.drawn
    && s.drawn[mine] == Draw(call.process, t)
  }

  /** What a running call has learned about the past at each of its program points. */
  ghost predicate Knows(s: State, t: Token, call: Call) {
    match call.pc
    case CheckingPid(stale) => WellMarked(s.drawn, s.live, stale)
    case CheckingGroup(stale) => Abandoned(s.drawn, s.live, stale)
    case Claiming(stale, gen) => Walks(s, stale, gen)
    case ReadingClaim(stale, gen) => Walks(s, stale, gen)
    case CheckingClaim(stale, gen, claim) =>
      Walks(s, stale, gen) && gen in s.claims && s.claims[gen] == claim
    case Rereading(stale, gen, mine) => Claimed(s, t, call, stale, gen, mine)
    case RecheckingPid(stale, gen, mine) => Claimed(s, t, call, stale, gen, mine)
    case RecheckingGroup(stale, gen, mine) => Claimed(s, t, call, stale, gen, mine)
    case Unlinking(stale, gen, mine) => Claimed(s, t, call, stale, gen, mine)
    case _ => true
  }

  /** The call has not linked the lock file yet. */
  predicate BeforeLink(pc: Pc) {
    !HasLock(pc) && !Idle(pc)
  }

  predicate Reread(pc: Pc) {
    pc.RecheckingPid? || pc.RecheckingGroup? || pc.Unlinking?
  }

  /** What a running call relies on about the lock file as it is now. */
  ghost predicate Relies(lock: Option<Content>, t: Token, call: Call) {
    && (Reread(call.pc) ==> lock == Some(call.pc.stale))
    && (HasLock(call.pc) ==> lock == Some(Written(call.pid, t, call.group)))
    && (BeforeLink(call.pc) ==> call.group.None?)
  }

  ghost predicate CallOk(s: State, t: Token, call: Call) {
    Knows(s, t, call) && Relies(s.lock, t, call)
  }

  ghost predicate WorldOk(s: State) {
    && (forall q :: q in s.live ==> q < s.next && s.live[q] > 0)
    && (forall k :: k in s.drawn ==> s.drawn[k].process < s.next)
  }

  ghost predicate FilesOk(s: State) {
    && (s.lock.Some? ==> WellMarked(s.drawn, s.live, s.lock.value))
    && (forall g :: g in s.claims ==> ClaimMarked(s.drawn, s.live, s.claims[g]) && Stands(s, g))
  }

  ghost predicate CallKnown(s: State, t: Token, call: Call) {
    && t in s.drawn
    && s.drawn[t] == Draw(call.process, t)
    && (call.process in s.live ==> s.live[call.process] == call.pid)
  }

  ghost predicate Inv(s: State) {
    && WorldOk(s)
    && FilesOk(s)
    && (forall t :: t in s.calls ==> CallKnown(s, t, s.calls[t]))
    && (forall t :: s.Runs(t) ==> CallOk(s, t, s.calls[t]))
  }

  lemma InitInv(s: State)
    requires Init(s)
    ensures Inv(s)
  {
    forall g | g in s.claims ensures Stands(s, g) {
      LeftoverStands(s, g);
    }
  }

  /** A chain of claims from the past: no process that drew one of its tokens runs. */
  lemma {:induction false} LeftoverStands(s: State, gen: Generation)
    requires Init(s) && gen in s.claims
    ensures Stands(s, gen)
    decreases gen
  {
    assert Continues(s.claims, gen);
    if gen.Next? {
      LeftoverStands(s, gen.prev);
    }
  }

  // ---------------------------------------------------------------------------------------------
  // Facts about the past only grow.

  /** `s'` comes after `s`: files of claims and draws stay, and a dead process stays dead. */
  ghost predicate Grows(s: State, s': State) {
    && s.next <= s'.next
    && (forall k :: k in s.drawn ==> k in s'.drawn && s'.drawn[k] == s.drawn[k])
    && (forall g :: g in s.claims ==> g in s'.claims && s'.claims[g] == s.claims[g])
    && (forall q :: q in s'.live && q < s.next ==> q in s.live && s'.live[q] == s.live[q])
  }

  lemma ContentGrows(s: State, s': State, c: Content)
    requires Grows(s, s') && WorldOk(s)
    ensures WellMarked(s.drawn, s.live, c) ==> WellMarked(s'.drawn, s'.live, c)
    ensures Abandoned(s.drawn, s.live, c) ==> Abandoned(s'.drawn, s'.live, c)
  {
  }

  lemma {:induction false} SupersededGrows(s: State, s': State, gen: Generation)
    requires Grows(s, s') && WorldOk(s) && Stands(s, gen)
    ensures Stands(s', gen)
    decreases gen
  {
    if gen.Next? {
      SupersededGrows(s, s', gen.prev);
    }
  }

  lemma KnowsGrows(s: State, s': State, t: Token, call: Call)
    requires Grows(s, s') && WorldOk(s) && Knows(s, t, call)
    ensures Knows(s', t, call)
  {
    match call.pc
    case CheckingPid(stale) => ContentGrows(s, s', stale);
    case CheckingGroup(stale) => ContentGrows(s, s', stale);
    case Claiming(stale, gen) => ContentGrows(s, s', stale); SupersededGrows(s, s', gen);
    case ReadingClaim(stale, gen) => ContentGrows(s, s', stale); SupersededGrows(s, s', gen);
    case CheckingClaim(stale, gen, _) => ContentGrows(s, s', stale); SupersededGrows(s, s', gen);
    case Rereading(stale, gen, _) => ContentGrows(s, s', stale); SupersededGrows(s, s', gen);
    case RecheckingPid(stale, gen, _) => ContentGrows(s, s', stale); SupersededGrows(s, s', gen);
    case RecheckingGroup(stale, gen, _) => ContentGrows(s, s', stale); SupersededGrows(s, s', gen);
    case Unlinking(stale, gen, _) => ContentGrows(s, s', stale); SupersededGrows(s, s', gen);
    case _ =>
  }

  lemma FilesGrow(s: State, s': State)
    requires Grows(s, s') && WorldOk(s) && FilesOk(s) && s'.lock == s.lock && s'.claims == s.claims
    ensures FilesOk(s')
  {
    if s.lock.Some? {
      ContentGrows(s, s', s.lock.value);
    }
    forall g | g in s'.claims ensures ClaimMarked(s'.drawn, s'.live, s'.claims[g]) && Stands(s', g) {
      SupersededGrows(s, s', g);
    }
  }

  // ---------------------------------------------------------------------------------------------
  // The chain of one stale content does not branch, so that only its last claim can be alive.

  function Depth(gen: Generation): nat {
    match gen
    case Root(_) => 0
    case Next(prev, _) => Depth(prev) + 1
  }

  lemma {:induction false} NoBranch(s: State, g: Generation, h: Generation)
    requires Stands(s, g) && Stands(s, h) && Base(g) == Base(h) && Depth(g) == Depth(h)
    ensures g == h
    decreases g
  {
    if g.Next? {
      NoBranch(s, g.prev, h.prev);
    }
  }

  lemma {:induction false} EarlierIsDead(s: State, g: Generation, h: Generation)
    requires Stands(s, g) && Stands(s, h) && Base(g) == Base(h) && Depth(g) < Depth(h)
    ensures g in s.claims && ClaimDead(s.drawn, s.live, s.claims[g])
    decreases h
  {
    if Depth(g) + 1 == Depth(h) {
      NoBranch(s, g, h.prev);
    } else {
      EarlierIsDead(s, g, h.prev);
    }
  }

  /** At most one running call can be between its claim on `stale` and the unlink of `stale`. */
  lemma UniqueClaimant(s: State, t: Token, g: Generation, m: Token, u: Token, h: Generation, n: Token, stale: Content)
    requires s.Runs(t) && Claimed(s, t, s.calls[t], stale, g, m)
    requires s.Runs(u) && Claimed(s, u, s.calls[u], stale, h, n)
    ensures t == u && g == h && m == n
  {
    if Depth(g) < Depth(h) {
      EarlierIsDead(s, g, h);
    } else if Depth(h) < Depth(g) {
      EarlierIsDead(s, h, g);
    } else {
      NoBranch(s, g, h);
    }
  }

  // ---------------------------------------------------------------------------------------------
  // Every step keeps the invariant.

  /** The step of one call: only this call moved, and the lock file did not change. */
  lemma QuietStep(s: State, t: Token, pc: Pc)
    requires Inv(s) && s.Runs(t) && CallOk(s, t, s.calls[t].(pc := pc))
    ensures Inv(s.At(t, pc))
  {
    var s' := s.At(t, pc);
    assert Grows(s, s');
    FilesGrow(s, s');
    assert CallKnown(s, t, s.calls[t]);
    forall u | s'.Runs(u) ensures CallOk(s', u, s'.calls[u]) {
      KnowsGrows(s, s', u, s'.calls[u]);
    }
  }

  /** A call that drew a UUID and either published a claim or found one. */
  lemma ClaimStep(s: State, t: Token, uuid: Token)
    requires Inv(s) && Enabled(s, Advance(t, uuid)) && s.calls[t].pc.Claiming?
    ensures Inv(Perform(s, t, uuid))
  {
    var s' := Perform(s, t, uuid);
    var gen := s.calls[t].pc.gen;
    assert Grows(s, s');
    SupersededGrows(s, s', gen);
    if s.lock.Some? {
      ContentGrows(s, s', s.lock.value);
    }
    ContentGrows(s, s', s.calls[t].pc.stale);
    forall g | g in s'.claims ensures ClaimMarked(s'.drawn, s'.live, s'.claims[g]) && Stands(s', g) {
      if g in s.claims {
        SupersededGrows(s, s', g);
      }
    }
    forall u | s'.Runs(u) ensures CallOk(s', u, s'.calls[u]) {
      if u != t {
        KnowsGrows(s, s', u, s.calls[u]);
      }
    }
  }

  /** The lock file is not changed by another call under a call that re-read the content it claimed,
      nor under a call that holds the lock. */
  lemma Undisturbed(s: State, t: Token, u: Token)
    requires Inv(s) && s.Runs(t) && s.Runs(u) && u != t
    requires s.lock.None? || HasLock(s.calls[t].pc) || s.calls[t].pc.Unlinking?
    ensures !Reread(s.calls[u].pc) && !HasLock(s.calls[u].pc)
  {
    assert CallOk(s, t, s.calls[t]) && CallOk(s, u, s.calls[u]);
    assert CallKnown(s, t, s.calls[t]) && CallKnown(s, u, s.calls[u]);
    var p, q := s.calls[t].pc, s.calls[u].pc;
    if Reread(q) && p.Unlinking? {
      UniqueClaimant(s, t, p.gen, p.mine, u, q.gen, q.mine, p.stale);
    }
  }

  lemma WriteStep(s: State, s': State, t: Token)
    requires Inv(s) && s.Runs(t) && t in s'.calls
    requires s'.calls[t] == s.calls[t].(pc := s'.calls[t].pc, group := s'.calls[t].group)
    requires s' == s.(calls := s.calls[t := s'.calls[t]], lock := s'.lock)
    requires s.lock.None? || HasLock(s.calls[t].pc) || s.calls[t].pc.Unlinking?
    requires s'.lock.Some? ==> s'.lock.value.Written? && s'.lock.value.pid == s.calls[t].pid && s'.lock.value.token == t
    requires CallOk(s', t, s'.calls[t])
    ensures Inv(s')
  {
    assert Grows(s, s');
    assert CallKnown(s, t, s.calls[t]);
    FilesGrow(s, s'.(lock := s.lock));
    forall g | g in s'.claims ensures ClaimMarked(s'.drawn, s'.live, s'.claims[g]) && Stands(s', g) {
      SupersededGrows(s, s', g);
    }
    forall u | s'.Runs(u) ensures CallOk(s', u, s'.calls[u]) {
      if u != t {
        Undisturbed(s, t, u);
        KnowsGrows(s, s', u, s.calls[u]);
      }
    }
  }

  /** A dead verdict on a pid proves that the process which drew the token is gone. */
  lemma ProbeKeepsInv(s: State, t: Token, uuid: Token)
    requires Inv(s) && Enabled(s, Advance(t, uuid))
    requires s.calls[t].pc.CheckingPid? || s.calls[t].pc.CheckingClaim?
    ensures Inv(Perform(s, t, uuid))
  {
    assert CallOk(s, t, s.calls[t]);
    QuietStep(s, t, PcAfter(s, t, uuid));
    assert Perform(s, t, uuid) == s.At(t, PcAfter(s, t, uuid));
  }

  /** A call that published its claim and goes on still has it. */
  lemma ClaimantArrives(s: State, t: Token, uuid: Token)
    requires Enabled(s, Advance(t, uuid)) && CallOk(s, t, s.calls[t])
    requires s.calls[t].pc.Rereading? || s.calls[t].pc.RecheckingPid? || s.calls[t].pc.RecheckingGroup?
    ensures CallOk(s, t, s.calls[t].(pc := PcAfter(s, t, uuid)))
  {
    var pc := s.calls[t].pc;
    assert Claimed(s, t, s.calls[t].(pc := PcAfter(s, t, uuid)), pc.stale, pc.gen, pc.mine);
  }

  /** Which program point a step that only reads leads to, and why the call may stand there. */
  lemma ReadArrives(s: State, t: Token, uuid: Token)
    requires Inv(s) && Enabled(s, Advance(t, uuid))
    requires !s.calls[t].pc.Claiming? && !s.calls[t].pc.CheckingClaim? && !s.calls[t].pc.CheckingPid?
    requires LockAfter(s, t) == s.lock
    ensures CallOk(s, t, s.calls[t].(pc := PcAfter(s, t, uuid)))
  {
    assert CallOk(s, t, s.calls[t]) && CallKnown(s, t, s.calls[t]);
    var pc := s.calls[t].pc;
    if pc.Rereading? || pc.RecheckingPid? || pc.RecheckingGroup? {
      ClaimantArrives(s, t, uuid);
    } else if pc.ReadingClaim? {
      assert Walks(s, pc.stale, pc.gen);
    } else if pc.CheckingGroup? {
      assert Stands(s, Root(pc.stale));
    } else {
      OwnerArrives(s, t, uuid);
    }
  }

  lemma OwnerArrives(s: State, t: Token, uuid: Token)
    requires Enabled(s, Advance(t, uuid)) && CallOk(s, t, s.calls[t]) && LockAfter(s, t) == s.lock && FilesOk(s)
    requires var pc := s.calls[t].pc;
      || pc.Linking? || pc.Reading? || pc.LiveOwner? || pc.Replacing? || pc.AwaitingLauncher? || pc.Unlinking?
      || HasLock(pc)
    ensures CallOk(s, t, s.calls[t].(pc := PcAfter(s, t, uuid)))
  {
  }

  lemma ReadKeepsInv(s: State, t: Token, uuid: Token)
    requires Inv(s) && Enabled(s, Advance(t, uuid))
    requires !s.calls[t].pc.Claiming? && !s.calls[t].pc.CheckingClaim? && !s.calls[t].pc.CheckingPid?
    requires LockAfter(s, t) == s.lock
    ensures Inv(Perform(s, t, uuid))
  {
    ReadArrives(s, t, uuid);
    QuietStep(s, t, PcAfter(s, t, uuid));
    assert Perform(s, t, uuid) == s.At(t, PcAfter(s, t, uuid));
  }

  lemma PerformKeepsInv(s: State, t: Token, uuid: Token)
    requires Inv(s) && Enabled(s, Advance(t, uuid))
    ensures Inv(Perform(s, t, uuid))
  {
    var s' := Perform(s, t, uuid);
    var pc := s.calls[t].pc;
    assert CallOk(s, t, s.calls[t]) && CallKnown(s, t, s.calls[t]);
    if pc.Claiming? {
      ClaimStep(s, t, uuid);
    } else if pc.CheckingClaim? || pc.CheckingPid? {
      ProbeKeepsInv(s, t, uuid);
    } else if s'.lock != s.lock {
      WriteStep(s, s', t);
    } else {
      ReadKeepsInv(s, t, uuid);
    }
  }

  /** Births, deaths and new calls. */
  lemma WorldStep(s: State, a: Action)
    requires Inv(s) && Enabled(s, a) && (a.Birth? || a.Death? || a.Groups? || a.Start?)
    ensures Inv(Apply(s, a))
  {
    var s' := Apply(s, a);
    assert Grows(s, s');
    FilesGrow(s, s');
    forall u | s'.Runs(u) ensures CallOk(s', u, s'.calls[u]) {
      if u in s.calls && !(a.Start? && u == a.token) {
        assert CallKnown(s, u, s.calls[u]);
        KnowsGrows(s, s', u, s.calls[u]);
      }
    }
    assert forall t :: t in s.calls ==> CallKnown(s, t, s.calls[t]);
  }

  lemma StepKeepsInv(s: State, a: Action)
    requires Inv(s) && Enabled(s, a)
    ensures Inv(Apply(s, a))
  {
    match a
    case Advance(t, uuid) => PerformKeepsInv(s, t, uuid);
    case Throw(t) =>
      assert CallOk(s, t, s.calls[t]);
      QuietStep(s, t, Apply(s, a).calls[t].pc);
    case Bind(t, group) =>
      assert CallOk(s, t, s.calls[t]);
      if s.calls[t].pc.Held? {
        QuietStep(s, t, BindReading(group));
      }
    case Release(t) =>
      assert CallOk(s, t, s.calls[t]);
      if s.calls[t].pc.Held? {
        QuietStep(s, t, ReleaseReading);
      }
    case _ => WorldStep(s, a);
  }

  lemma FollowsKeepsInv(s: State, s': State)
    requires Inv(s) && Follows(s, s')
    ensures Inv(s')
  {
    var a :| Enabled(s, a) && s' == Apply(s, a);
    StepKeepsInv(s, a);
  }

  lemma FollowsAt(run: seq<State>, i: nat)
    requires IsRun(run) && i + 1 < |run|
    ensures Follows(run[i], run[i + 1])
  {
  }

  lemma {:induction false} RunKeepsInv(run: seq<State>, i: nat)
    requires IsRun(run) && Init(run[0]) && i < |run|
    ensures Inv(run[i])
  {
    if i == 0 {
      InitInv(run[0]);
    } else {
      RunKeepsInv(run, i - 1);
      FollowsAt(run, i - 1);
      FollowsKeepsInv(run[i - 1], run[i]);
    }
  }

  /** The action that leads from one state of a run to the next. */
  lemma ActionOf(run: seq<State>, i: nat) returns (a: Action)
    requires IsRun(run) && Init(run[0]) && i + 1 < |run|
    ensures Inv(run[i]) && Enabled(run[i], a) && run[i + 1] == Apply(run[i], a)
  {
    RunKeepsInv(run, i);
    assert Follows(run[i], run[i + 1]);
    a :| Enabled(run[i], a) && run[i + 1] == Apply(run[i], a);
  }

  lemma ReachableInv(s: State)
    requires Reachable(s)
    ensures Inv(s)
  {
    var run :| IsRun(run) && Init(run[0]) && run[|run| - 1] == s;
    RunKeepsInv(run, |run| - 1);
  }
}
