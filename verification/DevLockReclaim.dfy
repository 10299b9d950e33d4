/** When a stale lock of scripts/dev-runtime.ts is taken: a call that runs alone takes it exactly if no live
    process has its claim at the end of the chain. */
module DevLockReclaim {
  import opened Wrappers
  import opened DevLock
  import opened DevLockInvariant
  import opened DevLockSafety
  import opened DevLockWalk

  /** The lock file holds a record whose process and process group are both gone, or no record at all. */
  predicate DeadRecord(s: State, c: Content) {
    s.lock == Some(c) && !RecordedPidIsLive(s, c) && !RecordedGroupIsLive(s, c)
  }

  /** The call takes the lock by steps of its own. */
  ghost predicate TakesAlone(s: State, t: Token) {
    exists run :: IsSolo(run, t) && run[0] == s && Holds(run[|run| - 1], t)
  }

  lemma HoldsAlready(s: State, t: Token)
    requires Holds(s, t)
    ensures TakesAlone(s, t)
  {
    assert IsSolo([s], t);
  }

  lemma StepFirst(s: State, t: Token, s': State)
    requires SoloStep(s, t, s') && TakesAlone(s', t)
    ensures TakesAlone(s, t)
  {
    var rest :| IsSolo(rest, t) && rest[0] == s' && Holds(rest[|rest| - 1], t);
    var run := [s] + rest;
    forall i | 0 <= i < |run| - 1 ensures SoloStep(run[i], t, run[i + 1]) {
      if i > 0 {
        assert SoloStep(rest[i - 1], t, rest[i - 1 + 1]);
      }
    }
    assert IsSolo(run, t);
  }

  lemma AdvanceFirst(s: State, t: Token, uuid: Token)
    requires Enabled(s, Advance(t, uuid)) && TakesAlone(Apply(s, Advance(t, uuid)), t)
    ensures TakesAlone(s, t)
  {
    assert SoloStep(s, t, Apply(s, Advance(t, uuid)));
    StepFirst(s, t, Apply(s, Advance(t, uuid)));
  }

  // ---------------------------------------------------------------------------------------------
  // The end of the chain

  /** The walk along the claims of dead processes ends: the files determine where. */
  lemma {:induction false} EndExists(s: State, c: Content, gen: Generation, visited: set<Generation>)
    returns (end: Generation)
    requires AfterDeadClaims(s, c, gen) && visited <= s.claims.Keys
    requires forall g | g in visited :: Depth(g) < Depth(gen)
    ensures IsEndOfChain(s, c, end)
    decreases |s.claims.Keys - visited|
  {
    if gen in s.claims && !s.PidIsLive(s.claims[gen].pid) {
      OneFewer(s.claims.Keys, visited, gen);
      end := EndExists(s, c, Next(gen, s.claims[gen]), visited + {gen});
    } else {
      end := gen;
    }
  }

  /** A generation that the walk reaches has a claim, if the end has one. */
  lemma WalkMeetsClaims(s: State, c: Content, gen: Generation, end: Generation)
    requires AfterDeadClaims(s, c, gen) && IsEndOfChain(s, c, end) && end in s.claims
    ensures gen in s.claims
  {
    if Depth(gen) < Depth(end) {
      Passed(s, c, gen, end);
    } else if Depth(end) < Depth(gen) {
      Passed(s, c, end, gen);
    } else {
      SameDepth(s, c, gen, end);
    }
  }

  // ---------------------------------------------------------------------------------------------
  // A free end: the call takes the lock

  lemma {:induction false} FreshToken(drawn: set<Token>) returns (uuid: Token)
    ensures forall k | k in drawn :: k < uuid
    decreases |drawn|
  {
    if k :| k in drawn {
      var above := FreshToken(drawn - {k});
      uuid := if above <= k then k + 1 else above;
      assert forall j | j in drawn :: j == k || j in drawn - {k};
    } else {
      uuid := 0;
    }
  }

  lemma FromFreeLock(s: State, t: Token)
    requires s.Runs(t) && s.calls[t].pc.Linking? && s.lock.None?
    ensures TakesAlone(s, t)
  {
    HoldsAlready(Apply(s, Advance(t, 0)), t);
    AdvanceFirst(s, t, 0);
  }

  lemma FromUnlinking(s: State, t: Token)
    requires s.Runs(t) && s.calls[t].pc.Unlinking?
    ensures TakesAlone(s, t)
  {
    FromFreeLock(Apply(s, Advance(t, 0)), t);
    AdvanceFirst(s, t, 0);
  }

  lemma FromRechecking(s: State, t: Token)
    requires s.Runs(t) && s.calls[t].pc.RecheckingGroup? && DeadRecord(s, s.calls[t].pc.stale)
    ensures TakesAlone(s, t)
  {
    FromUnlinking(Apply(s, Advance(t, 0)), t);
    AdvanceFirst(s, t, 0);
  }

  lemma FromRereading(s: State, t: Token)
    requires s.Runs(t) && s.calls[t].pc.Rereading? && DeadRecord(s, s.calls[t].pc.stale)
    ensures TakesAlone(s, t)
  {
    var s1 := Apply(s, Advance(t, 0));
    var s2 := Apply(s1, Advance(t, 0));
    if s2.calls[t].pc.Unlinking? {
      FromUnlinking(s2, t);
    } else {
      FromRechecking(s2, t);
    }
    AdvanceFirst(s1, t, 0);
    AdvanceFirst(s, t, 0);
  }

  lemma {:induction false} FromClaiming(s: State, t: Token, c: Content, gen: Generation, end: Generation)
    requires s.Runs(t) && s.calls[t].pc == Claiming(c, gen) && DeadRecord(s, c)
    requires AfterDeadClaims(s, c, gen) && IsEndOfChain(s, c, end) && end !in s.claims
    ensures TakesAlone(s, t)
    decreases Depth(end) - Depth(gen)
  {
    var uuid := FreshToken(s.drawn.Keys);
    var s1 := Apply(s, Advance(t, uuid));
    if gen !in s.claims {
      FromRereading(s1, t);
    } else {
      WalkStaysBelow(s, c, gen, end);
      var s2 := Apply(s1, Advance(t, 0));
      var s3 := Apply(s2, Advance(t, 0));
      SameChain(s, s3, c, end);
      SameChain(s, s3, c, Next(gen, s.claims[gen]));
      FromClaiming(s3, t, c, Next(gen, s.claims[gen]), end);
      AdvanceFirst(s2, t, 0);
      AdvanceFirst(s1, t, 0);
    }
    AdvanceFirst(s, t, uuid);
  }

  /** Before a free end every claim belongs to a dead process. */
  lemma WalkStaysBelow(s: State, c: Content, gen: Generation, end: Generation)
    requires AfterDeadClaims(s, c, gen) && IsEndOfChain(s, c, end) && end !in s.claims && gen in s.claims
    ensures !s.PidIsLive(s.claims[gen].pid) && Depth(gen) < Depth(end)
  {
    if Depth(gen) < Depth(end) {
      Passed(s, c, gen, end);
    } else if Depth(end) < Depth(gen) {
      Passed(s, c, end, gen);
    } else {
      SameDepth(s, c, gen, end);
    }
  }

  /** The chain depends on the claim files and the live processes alone. */
  lemma {:induction false} SameChain(s: State, s': State, c: Content, gen: Generation)
    requires s'.claims == s.claims && s'.live == s.live
    ensures AfterDeadClaims(s, c, gen) <==> AfterDeadClaims(s', c, gen)
    ensures IsEndOfChain(s, c, gen) <==> IsEndOfChain(s', c, gen)
    decreases gen
  {
    if gen.Next? {
      SameChain(s, s', c, gen.prev);
    }
  }

  lemma FromCheckingGroup(s: State, t: Token, c: Content, end: Generation)
    requires s.Runs(t) && s.calls[t].pc == CheckingGroup(c) && DeadRecord(s, c)
    requires IsEndOfChain(s, c, end) && end !in s.claims
    ensures TakesAlone(s, t)
  {
    var s' := Apply(s, Advance(t, 0));
    SameChain(s, s', c, end);
    FromClaiming(s', t, c, Root(c), end);
    AdvanceFirst(s, t, 0);
  }

  lemma FromCheckingPid(s: State, t: Token, c: Content, end: Generation)
    requires s.Runs(t) && s.calls[t].pc == CheckingPid(c) && DeadRecord(s, c)
    requires IsEndOfChain(s, c, end) && end !in s.claims
    ensures TakesAlone(s, t)
  {
    var s' := Apply(s, Advance(t, 0));
    SameChain(s, s', c, end);
    if s'.calls[t].pc == CheckingGroup(c) {
      FromCheckingGroup(s', t, c, end);
    } else {
      FromClaiming(s', t, c, Root(c), end);
    }
    AdvanceFirst(s, t, 0);
  }

  lemma FreeEndIsTaken(s: State, t: Token, c: Content, end: Generation)
    requires s.Runs(t) && s.calls[t].pc.Linking? && DeadRecord(s, c)
    requires IsEndOfChain(s, c, end) && end !in s.claims
    ensures TakesAlone(s, t)
  {
    var s1 := Apply(s, Advance(t, 0));
    var s2 := Apply(s1, Advance(t, 0));
    SameChain(s, s2, c, end);
    FromCheckingPid(s2, t, c, end);
    AdvanceFirst(s1, t, 0);
    AdvanceFirst(s, t, 0);
  }

  // ---------------------------------------------------------------------------------------------
  // A claimed end: the call goes round and round

  /** Where a call stands that has got nowhere since `start`. */
  ghost predicate GoesRound(start: State, s: State, t: Token, c: Content) {
    && s.lock == start.lock && s.claims == start.claims && s.live == start.live && s.groups == start.groups
    && s.Runs(t)
    && match s.calls[t].pc
       case Linking => true
       case Reading => true
       case CheckingPid(stale) => stale == c
       case CheckingGroup(stale) => stale == c
       case Claiming(stale, gen) => stale == c && AfterDeadClaims(start, c, gen)
       case ReadingClaim(stale, gen) => stale == c && AfterDeadClaims(start, c, gen)
       case CheckingClaim(stale, gen, claim) =>
         stale == c && AfterDeadClaims(start, c, gen) && gen in start.claims && start.claims[gen] == claim
       case _ => false
  }

  lemma StaysRound(start: State, s: State, t: Token, uuid: Token, c: Content, end: Generation)
    requires DeadRecord(start, c) && IsEndOfChain(start, c, end) && end in start.claims
    requires GoesRound(start, s, t, c) && Enabled(s, Advance(t, uuid))
    ensures GoesRound(start, Apply(s, Advance(t, uuid)), t, c)
  {
    if s.calls[t].pc.Claiming? {
      WalkMeetsClaims(start, c, s.calls[t].pc.gen, end);
    }
  }

  lemma SoloFront(run: seq<State>, t: Token)
    requires IsSolo(run, t) && |run| > 1
    ensures IsSolo(run[..|run| - 1], t) && SoloStep(run[|run| - 2], t, run[|run| - 1])
  {
    var front := run[..|run| - 1];
    forall i | 0 <= i < |front| - 1 ensures SoloStep(front[i], t, front[i + 1]) {
      assert SoloStep(run[i], t, run[i + 1]);
    }
    assert SoloStep(run[|run| - 2], t, run[|run| - 2 + 1]);
  }

  lemma StepStaysRound(start: State, s: State, t: Token, c: Content, end: Generation, s': State)
    requires DeadRecord(start, c) && IsEndOfChain(start, c, end) && end in start.claims
    requires GoesRound(start, s, t, c) && SoloStep(s, t, s')
    ensures GoesRound(start, s', t, c)
  {
    var uuid :| Enabled(s, Advance(t, uuid)) && s' == Apply(s, Advance(t, uuid));
    StaysRound(start, s, t, uuid, c, end);
  }

  lemma {:induction false} NeverTaken(run: seq<State>, t: Token, c: Content, end: Generation)
    requires IsSolo(run, t) && GoesRound(run[0], run[0], t, c)
    requires DeadRecord(run[0], c) && IsEndOfChain(run[0], c, end) && end in run[0].claims
    ensures GoesRound(run[0], run[|run| - 1], t, c)
    decreases |run|
  {
    if |run| > 1 {
      SoloFront(run, t);
      NeverTaken(run[..|run| - 1], t, c, end);
      StepStaysRound(run[0], run[|run| - 2], t, c, end, run[|run| - 1]);
    }
  }

  /** A call that starts on a dead record, and runs alone, takes the lock exactly if the end of the claim
      chain carries no claim: no live process, not even its own, has claimed the record before. */
  lemma TakenExactlyIfFree(s: State, t: Token, c: Content, end: Generation)
    requires s.Runs(t) && s.calls[t].pc.Linking? && DeadRecord(s, c) && IsEndOfChain(s, c, end)
    ensures TakesAlone(s, t) <==> end !in s.claims
  {
    if end !in s.claims {
      FreeEndIsTaken(s, t, c, end);
    } else if TakesAlone(s, t) {
      var run :| IsSolo(run, t) && run[0] == s && Holds(run[|run| - 1], t);
      NeverTaken(run, t, c, end);
    }
  }

  /** The same without naming the end. */
  lemma TakenExactlyIfUnclaimed(s: State, t: Token, c: Content)
    requires s.Runs(t) && s.calls[t].pc.Linking? && DeadRecord(s, c)
    ensures TakesAlone(s, t) <==> exists end :: IsEndOfChain(s, c, end) && end !in s.claims
  {
    var end := EndExists(s, c, Root(c), {});
    TakenExactlyIfFree(s, t, c, end);
    forall g | IsEndOfChain(s, c, g) ensures g == end {
      EndIsUnique(s, c, g, end);
    }
  }
}
