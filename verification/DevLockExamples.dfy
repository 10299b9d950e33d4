/** Concrete runs of the development lock of scripts/dev-runtime.ts into states where it is of no use to
    anybody for as long as a process lives. */
module DevLockExamples {
  import opened Wrappers
  import opened DevLock
  import opened DevLockInvariant
  import opened DevLockSafety
  import opened DevLockWalk
  import opened DevLockReclaim

  lemma ReachableStep(s: State, a: Action)
    requires Reachable(s) && Enabled(s, a)
    ensures Reachable(Apply(s, a))
  {
    var run :| IsRun(run) && Init(run[0]) && run[|run| - 1] == s;
    var longer := run + [Apply(s, a)];
    forall i | 0 <= i < |longer| - 1 ensures Follows(longer[i], longer[i + 1]) {
      if i < |run| - 1 {
        FollowsAt(run, i);
      }
    }
    assert IsRun(longer);
  }

  /** A process with pid 7 has died and left its record; processes 1 and 2 run. */
  const LEFTOVER := Written(7, 0, None)
  const START := State(Some(LEFTOVER), map[], map[1 := 8, 2 := 9], {}, 3, map[0 := Draw(0, 0)], map[])

  lemma StartIsReachable()
    ensures Reachable(START)
  {
    assert IsRun([START]) && Init(START);
  }

  /** Call 1 of process 1 has come to `pc`. */
  function Mid(pc: Pc): State {
    START.(drawn := map[0 := Draw(0, 0), 1 := Draw(1, 1)], calls := map[1 := Call(1, 8, false, None, pc)])
  }

  /** It has published the claim, and stands at `pc`. */
  function Late(pc: Pc): State {
    Mid(pc).(claims := map[Root(LEFTOVER) := Claim(8, 2)],
             drawn := map[0 := Draw(0, 0), 1 := Draw(1, 1), 2 := Draw(1, 1)])
  }

  lemma SameCalls(a: Call, b: Call)
    ensures map[1 as Token := a][1 := b] == map[1 := b]
  {
  }

  lemma MidStarts()
    ensures Enabled(START, Start(1, 1, false)) && Apply(START, Start(1, 1, false)) == Mid(Linking)
  {
  }

  lemma MidAdvances(pc: Pc, next: Pc)
    requires || (pc == Linking && next == Reading)
             || (pc == Reading && next == CheckingPid(LEFTOVER))
             || (pc == CheckingPid(LEFTOVER) && next == Claiming(LEFTOVER, Root(LEFTOVER)))
    ensures Enabled(Mid(pc), Advance(1, 0)) && Apply(Mid(pc), Advance(1, 0)) == Mid(next)
  {
    assert PcAfter(Mid(pc), 1, 0) == next;
    SameCalls(Mid(pc).calls[1], Mid(next).calls[1]);
  }

  lemma MidClaims()
    ensures var pc := Claiming(LEFTOVER, Root(LEFTOVER));
            Enabled(Mid(pc), Advance(1, 2))
                && Apply(Mid(pc), Advance(1, 2)) == Late(Rereading(LEFTOVER, Root(LEFTOVER), 2))
  {
    var pc, next := Claiming(LEFTOVER, Root(LEFTOVER)), Rereading(LEFTOVER, Root(LEFTOVER), 2);
    assert PcAfter(Mid(pc), 1, 2) == next;
    SameCalls(Mid(pc).calls[1], Late(next).calls[1]);
  }

  lemma LateThrows()
    ensures var s := Late(Rereading(LEFTOVER, Root(LEFTOVER), 2));
            Enabled(s, Throw(1)) && Apply(s, Throw(1)) == Late(Failed)
  {
    SameCalls(Late(Rereading(LEFTOVER, Root(LEFTOVER), 2)).calls[1], Late(Failed).calls[1]);
  }

  lemma MidIsReachable()
    ensures Reachable(Mid(Claiming(LEFTOVER, Root(LEFTOVER))))
  {
    StartIsReachable();
    MidStarts();
    ReachableStep(START, Start(1, 1, false));
    MidAdvances(Linking, Reading);
    ReachableStep(Mid(Linking), Advance(1, 0));
    MidAdvances(Reading, CheckingPid(LEFTOVER));
    ReachableStep(Mid(Reading), Advance(1, 0));
    MidAdvances(CheckingPid(LEFTOVER), Claiming(LEFTOVER, Root(LEFTOVER)));
    ReachableStep(Mid(CheckingPid(LEFTOVER)), Advance(1, 0));
  }

  lemma LateIsBlocked()
    ensures Reachable(Late(Failed)) && Blocked(Late(Failed), LEFTOVER, Root(LEFTOVER))
  {
    var claimed := Late(Rereading(LEFTOVER, Root(LEFTOVER), 2));
    MidIsReachable();
    MidClaims();
    ReachableStep(Mid(Claiming(LEFTOVER, Root(LEFTOVER))), Advance(1, 2));
    LateThrows();
    LeavingBlocks(claimed, 1, Throw(1));
    ReachableStep(claimed, Throw(1));
  }

  /** Call 3 of process 2 starts. */
  function Waiting(): State {
    var s := Late(Failed);
    s.(drawn := s.drawn[3 := Draw(2, 3)], calls := s.calls[3 := Call(2, 9, false, None, Linking)])
  }

  /** Call 1 of process 1 claims the leftover and then throws; its process goes on running. Call 3 of
      process 2 never takes the lock by itself. */
  lemma BlockedIsReachable()
    ensures Reachable(Waiting()) && Waiting().Runs(3) && DeadRecord(Waiting(), LEFTOVER) && !TakesAlone(Waiting(), 3)
  {
    LateIsBlocked();
    assert Enabled(Late(Failed), Start(2, 3, false)) && Apply(Late(Failed), Start(2, 3, false)) == Waiting();
    ReachableStep(Late(Failed), Start(2, 3, false));
    assert 8 in Waiting().live.Values by { assert Waiting().live[1] == 8; }
    assert IsEndOfChain(Waiting(), LEFTOVER, Root(LEFTOVER));
    TakenExactlyIfFree(Waiting(), 3, LEFTOVER, Root(LEFTOVER));
  }

  // ---------------------------------------------------------------------------------------------
  // A record that is left behind

  /** Call 1 of process 1 started on a free lock, and has come to `pc`. */
  function Alone(lock: Option<Content>, pc: Pc): State {
    Mid(pc).(lock := lock)
  }

  /** The record that call 1 writes. */
  const OWN := Written(8, 1, None)

  lemma AloneStarts()
    ensures Reachable(Alone(None, Linking))
  {
    var start := START.(lock := None);
    assert IsRun([start]) && Init(start);
    assert Enabled(start, Start(1, 1, false)) && Apply(start, Start(1, 1, false)) == Alone(None, Linking);
    ReachableStep(start, Start(1, 1, false));
  }

  lemma AloneLinks()
    ensures Enabled(Alone(None, Linking), Advance(1, 0))
    ensures Apply(Alone(None, Linking), Advance(1, 0)) == Alone(Some(OWN), Held)
  {
    assert PcAfter(Alone(None, Linking), 1, 0) == Held;
    SameCalls(Alone(None, Linking).calls[1], Alone(None, Held).calls[1]);
  }

  lemma AloneReleases()
    ensures Enabled(Alone(Some(OWN), Held), Release(1))
    ensures Apply(Alone(Some(OWN), Held), Release(1)) == Alone(Some(OWN), ReleaseReading)
  {
    SameCalls(Alone(None, Held).calls[1], Alone(None, ReleaseReading).calls[1]);
  }

  lemma AloneThrows()
    ensures var s := Alone(Some(OWN), ReleaseReading);
            Enabled(s, Throw(1)) && Apply(s, Throw(1)) == Alone(Some(OWN), Released)
  {
    SameCalls(Alone(None, ReleaseReading).calls[1], Alone(None, Released).calls[1]);
  }

  /** Call 1 takes the lock, and its release throws; its process goes on running. Nobody holds the lock, and
      the file carries the record of a live process. */
  lemma LeftBehindIsReachable()
    ensures var s := Alone(Some(OWN), Released);
      && Reachable(s) && s.Runs(1) && IsLeftBehind(s, 1) && RecordedPidIsLive(s, OWN)
      && forall u: Token :: !Holds(s, u)
  {
    AloneStarts();
    AloneLinks();
    ReachableStep(Alone(None, Linking), Advance(1, 0));
    AloneReleases();
    ReachableStep(Alone(Some(OWN), Held), Release(1));
    AloneThrows();
    ReachableStep(Alone(Some(OWN), ReleaseReading), Throw(1));
    assert Alone(Some(OWN), Released).live[1] == 8;
  }
}
