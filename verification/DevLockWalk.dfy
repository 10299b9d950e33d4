/** claimStaleLock of scripts/dev-runtime.ts when no other process interferes: its loop ends, because it
    visits each claim file at most once. */
module DevLockWalk {
  import opened DevLock
  import opened DevLockInvariant

  /** `gen` names the file that follows a chain of claims whose processes were all found dead. */
  ghost predicate AfterDeadClaims(s: State, stale: Content, gen: Generation)
    decreases gen
  {
    match gen
    case Root(c) => c == stale
    case Next(prev, claim) =>
      prev in s.claims && s.claims[prev] == claim && !s.PidIsLive(claim.pid) && AfterDeadClaims(s, stale, prev)
  }

  /** Where the walk must end: at the first generation without a claim or with a live one. */
  ghost predicate IsEndOfChain(s: State, stale: Content, gen: Generation) {
    AfterDeadClaims(s, stale, gen) && (gen in s.claims ==> s.PidIsLive(s.claims[gen].pid))
  }

  /** The end of the chain is determined by the files alone. */
  lemma {:induction false} EndIsUnique(s: State, stale: Content, g: Generation, h: Generation)
    requires IsEndOfChain(s, stale, g) && IsEndOfChain(s, stale, h)
    ensures g == h
  {
    if Depth(g) < Depth(h) {
      Passed(s, stale, g, h);
    } else if Depth(h) < Depth(g) {
      Passed(s, stale, h, g);
    } else {
      SameDepth(s, stale, g, h);
    }
  }

  lemma {:induction false} SameDepth(s: State, stale: Content, g: Generation, h: Generation)
    requires AfterDeadClaims(s, stale, g) && AfterDeadClaims(s, stale, h) && Depth(g) == Depth(h)
    ensures g == h
    decreases g
  {
    if g.Next? {
      SameDepth(s, stale, g.prev, h.prev);
    }
  }

  lemma {:induction false} Passed(s: State, stale: Content, g: Generation, h: Generation)
    requires AfterDeadClaims(s, stale, g) && AfterDeadClaims(s, stale, h) && Depth(g) < Depth(h)
    ensures g in s.claims && !s.PidIsLive(s.claims[g].pid)
    decreases h
  {
    if Depth(g) + 1 == Depth(h) {
      SameDepth(s, stale, g, h.prev);
    } else {
      Passed(s, stale, g, h.prev);
    }
  }

  /** The steps of one call alone. */
  ghost predicate IsSolo(run: seq<State>, t: Token) {
    |run| > 0 && forall i | 0 <= i < |run| - 1 :: SoloStep(run[i], t, run[i + 1])
  }

  ghost predicate SoloStep(s: State, t: Token, s': State) {
    exists uuid :: Enabled(s, Advance(t, uuid)) && s' == Apply(s, Advance(t, uuid))
  }

  lemma SoloExtends(run: seq<State>, t: Token, s: State)
    requires IsSolo(run, t) && SoloStep(run[|run| - 1], t, s)
    ensures IsSolo(run + [s], t)
  {
  }

  /** The file operations of the loop leave the rest of the state alone. */
  predicate SameWorld(s: State, s': State) {
    s'.lock == s.lock && s'.live == s.live && s'.groups == s.groups
  }

  /** publishAtomicFile for a claim: it reports whether the claim file was free. */
  method PublishClaim(s: State, t: Token, uuid: Token) returns (s': State, published: bool)
    requires s.Runs(t) && s.calls[t].pc.Claiming? && uuid !in s.drawn
    ensures SoloStep(s, t, s') && SameWorld(s, s') && s'.Runs(t)
    ensures published <==> s.calls[t].pc.gen !in s.claims
    ensures s'.drawn == s.drawn[uuid := Draw(s.calls[t].process, t)]
    ensures var pc := s.calls[t].pc;
      && s'.claims == (if published then s.claims[pc.gen := Claim(s.calls[t].pid, uuid)] else s.claims)
      && s'.calls[t] ==
           s.calls[t].(pc := if published then Rereading(pc.stale, pc.gen, uuid) else ReadingClaim(pc.stale, pc.gen))
  {
    published := s.calls[t].pc.gen !in s.claims;
    s' := Apply(s, Advance(t, uuid));
  }

  /** readFile of the claim that was in the way. */
  method ReadClaim(s: State, t: Token) returns (s': State, claim: Claim)
    requires s.Runs(t) && s.calls[t].pc.ReadingClaim? && s.calls[t].pc.gen in s.claims
    ensures SoloStep(s, t, s') && SameWorld(s, s') && s'.Runs(t) && s'.drawn == s.drawn && s'.claims == s.claims
    ensures claim == s.claims[s.calls[t].pc.gen]
    ensures s'.calls[t] == s.calls[t].(pc := CheckingClaim(s.calls[t].pc.stale, s.calls[t].pc.gen, claim))
  {
    claim := s.claims[s.calls[t].pc.gen];
    s' := Apply(s, Advance(t, 0));
    assert Enabled(s, Advance(t, 0));
  }

  /** The liveness probe of the claim's process. */
  method CheckClaim(s: State, t: Token) returns (s': State, live: bool)
    requires s.Runs(t) && s.calls[t].pc.CheckingClaim?
    ensures SoloStep(s, t, s') && SameWorld(s, s') && s'.Runs(t) && s'.drawn == s.drawn && s'.claims == s.claims
    ensures live <==> s.PidIsLive(s.calls[t].pc.claim.pid)
    ensures var pc := s.calls[t].pc;
      s'.calls[t] == s.calls[t].(pc := if live then Linking else Claiming(pc.stale, Next(pc.gen, pc.claim)))
  {
    live := s.PidIsLive(s.calls[t].pc.claim.pid);
    s' := Apply(s, Advance(t, 0));
    assert Enabled(s, Advance(t, 0));
  }

  /** The walk of call `t` ended with its own claim as the last of the chain. */
  ghost predicate Won(start: State, s: State, t: Token)
    requires start.Runs(t) && start.calls[t].pc.Claiming?
  {
    exists gen, mine ::
      && t in s.calls && s.calls[t].pc == Rereading(start.calls[t].pc.stale, gen, mine)
      && IsEndOfChain(start, start.calls[t].pc.stale, gen) && gen !in start.claims
      && s.claims == start.claims[gen := Claim(start.calls[t].pid, mine)]
  }

  /** It ended at the live claim of another process. */
  ghost predicate Lost(start: State, s: State, t: Token)
    requires start.Runs(t) && start.calls[t].pc.Claiming?
  {
    exists gen ::
      && t in s.calls && s.calls[t].pc == Linking
      && IsEndOfChain(start, start.calls[t].pc.stale, gen) && gen in start.claims
      && s.claims == start.claims
  }

  lemma OneFewer(all: set<Generation>, visited: set<Generation>, gen: Generation)
    requires gen in all && gen !in visited
    ensures |all - (visited + {gen})| < |all - visited|
  {
    assert all - (visited + {gen}) == (all - visited) - {gen};
  }

  /** The claim that is in the way is read and checked. */
  method MeetClaim(s: State, t: Token, ghost run: seq<State>)
    returns (s': State, claim: Claim, live: bool, ghost run': seq<State>)
    requires s.Runs(t) && s.calls[t].pc.ReadingClaim? && s.calls[t].pc.gen in s.claims
    requires IsSolo(run, t) && run[|run| - 1] == s
    ensures IsSolo(run', t) && run'[0] == run[0] && run'[|run'| - 1] == s'
    ensures SameWorld(s, s') && s'.Runs(t) && s'.drawn == s.drawn && s'.claims == s.claims
    ensures var pc := s.calls[t].pc;
      && claim == s.claims[pc.gen] && (live <==> s.PidIsLive(claim.pid))
      && s'.calls[t] == s.calls[t].(pc := if live then Linking else Claiming(pc.stale, Next(pc.gen, claim)))
  {
    var s1;
    s1, claim := ReadClaim(s, t);
    SoloExtends(run, t, s1);
    s', live := CheckClaim(s1, t);
    SoloExtends(run + [s1], t, s');
    run' := run + [s1] + [s'];
  }

  /** The walk stands at `gen` and has passed the claims `visited`; nothing else has changed. */
  ghost predicate Walking(start: State, s: State, t: Token, gen: Generation, uuid: Token, visited: set<Generation>)
    requires start.Runs(t) && start.calls[t].pc.Claiming?
  {
    && s.Runs(t) && s.calls[t] == start.calls[t].(pc := Claiming(start.calls[t].pc.stale, gen))
    && SameWorld(start, s) && s.claims == start.claims
    && (forall k | k in s.drawn :: k < uuid)
    && AfterDeadClaims(start, start.calls[t].pc.stale, gen)
    && visited <= start.claims.Keys && forall g | g in visited :: Depth(g) < Depth(gen)
  }

  /** Where the walk goes from one generation. */
  datatype Turn = WinsHere | LosesHere | GoesOn(claim: Claim)

  /** One iteration of the loop. */
  method WalkOnce(
      start: State, s: State, t: Token, gen: Generation, uuid: Token, ghost visited: set<Generation>,
      ghost run: seq<State>)
    returns (s': State, turn: Turn, ghost run': seq<State>)
    requires start.Runs(t) && start.calls[t].pc.Claiming? && Walking(start, s, t, gen, uuid, visited)
    requires IsSolo(run, t) && run[|run| - 1] == s
    ensures IsSolo(run', t) && run'[0] == run[0] && run'[|run'| - 1] == s' && SameWorld(start, s')
    ensures turn.WinsHere? ==> Won(start, s', t)
    ensures turn.LosesHere? ==> Lost(start, s', t)
    ensures turn.GoesOn? ==>
              gen in start.claims && gen !in visited
              && Walking(start, s', t, Next(gen, turn.claim), uuid + 1, visited + {gen})
  {
    var published;
    s', published := PublishClaim(s, t, uuid);
    SoloExtends(run, t, s');
    run' := run + [s'];
    if published {
      assert IsEndOfChain(start, start.calls[t].pc.stale, gen);
      return s', WinsHere, run';
    }
    var claim, live;
    s', claim, live, run' := MeetClaim(s', t, run');
    if live {
      assert IsEndOfChain(start, start.calls[t].pc.stale, gen);
      return s', LosesHere, run';
    }
    turn := GoesOn(claim);
  }

  /** Call `t` is about to claim a stale content. `first` and the tokens above it have not been drawn. */
  method ClaimStaleLock(start: State, t: Token, first: Token) returns (s: State, won: bool, ghost run: seq<State>)
    requires start.Runs(t) && start.calls[t].pc.Claiming?
    requires start.calls[t].pc.gen == Root(start.calls[t].pc.stale)
    requires forall k | k in start.drawn :: k < first
    ensures IsSolo(run, t) && run[0] == start && run[|run| - 1] == s
    ensures won ==> Won(start, s, t)
    ensures !won ==> Lost(start, s, t)
    ensures SameWorld(start, s)
  {
    s := start;
    run := [start];
    var uuid := first;
    var gen := start.calls[t].pc.gen;
    ghost var visited: set<Generation> := {};
    while true
      invariant Walking(start, s, t, gen, uuid, visited)
      invariant IsSolo(run, t) && run[0] == start && run[|run| - 1] == s
      decreases |start.claims.Keys - visited|
    {
      var turn;
      s, turn, run := WalkOnce(start, s, t, gen, uuid, visited, run);
      match turn {
        case WinsHere => return s, true, run;
        case LosesHere => return s, false, run;
        case GoesOn(claim) =>
          OneFewer(start.claims.Keys, visited, gen);
          visited := visited + {gen};
          gen := Next(gen, claim);
          uuid := uuid + 1;
      }
    }
  }
}
