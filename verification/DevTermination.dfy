/** terminateDevProcessGroup of scripts/dev-runtime.ts against any answers of the liveness probe and any
    clock that does not run backward. */
module DevTermination {
  import opened ProcessTree
  import opened Signals

  /** What process.kill with signal 0 says of a group: EPERM counts as live, another error is thrown. */
  datatype Probe = Live | Gone | Fails

  /** The calls that matter, in order. The position in the log serves as the time of a call. */
  datatype Event = Probed(group: int, live: bool) | Signalled(group: int, signal: Signal) | Slept

  datatype World = World(probe: (nat, int) -> Probe, refuses: (nat, int) -> bool, now: nat -> int)

  datatype End = NotLive | Stopped | Remained(groups: set<int>) | Failed

  ghost predicate IsMonotone(w: World) {
    forall m, n | m <= n :: w.now(m) <= w.now(n)
  }

  /** The clock passes every deadline: from `reach(x)` on it shows at least x. */
  ghost predicate Passes(w: World, reach: int -> nat) {
    forall x, n | n >= reach(x) :: w.now(n) >= x
  }

  /** The signals sent to a group, in order. */
  function SignalsTo(log: seq<Event>, group: int): seq<Signal> {
    if log == [] then []
    else
      var front, e := SignalsTo(log[..|log| - 1], group), log[|log| - 1];
      if e.Signalled? && e.group == group then front + [e.signal] else front
  }

  /** The log says what the world answered. */
  ghost predicate IsFaithful(w: World, log: seq<Event>) {
    forall i | 0 <= i < |log| :: Answers(w, i, log[i])
  }

  predicate Answers(w: World, time: nat, e: Event) {
    match e
    case Probed(g, live) => w.probe(time, g) == if live then Live else Gone
    case Signalled(g, _) => !w.refuses(time, g)
    case Slept => true
  }

  /** A group that was observed gone is neither probed nor signalled again: its number may be reused. */
  ghost predicate LeavesGoneAlone(log: seq<Event>) {
    forall i, j | 0 <= i < j < |log| && log[i].Probed? && !log[i].live ::
      log[j].Slept? || log[j].group != log[i].group
  }

  /** The groups of the set were not observed gone. */
  ghost predicate NoneGone(log: seq<Event>, groups: set<int>) {
    forall g | g in groups :: Probed(g, false) !in log
  }

  ghost predicate AllSeenGone(log: seq<Event>, groups: set<int>) {
    forall g | g in groups :: Probed(g, false) in log
  }

  /** What each step of the termination keeps; `groups` are those not yet observed gone. */
  ghost predicate LogOk(w: World, log: seq<Event>, groups: set<int>) {
    IsFaithful(w, log) && LeavesGoneAlone(log) && NoneGone(log, groups)
  }

  lemma AddProbe(w: World, log: seq<Event>, groups: set<int>, g: int)
    requires LogOk(w, log, groups) && g in groups && !w.probe(|log|, g).Fails?
    ensures var live := w.probe(|log|, g).Live?;
            LogOk(w, log + [Probed(g, live)], if live then groups else groups - {g})
  {
  }

  lemma AddSignal(w: World, log: seq<Event>, groups: set<int>, g: int, signal: Signal)
    requires LogOk(w, log, groups) && g in groups && !w.refuses(|log|, g)
    ensures LogOk(w, log + [Signalled(g, signal)], groups)
  {
  }

  /** The events are probes. */
  ghost predicate OnlyProbes(log: seq<Event>, from: nat) {
    forall i | from <= i < |log| :: log[i].Probed? || log[i].Slept?
  }

  /** A group of the set was observed live from the time on. */
  ghost predicate AllLiveSince(log: seq<Event>, groups: set<int>, since: nat)
    requires since <= |log|
  {
    forall g | g in groups :: Probed(g, true) in log[since..]
  }

  lemma LiveStays(log: seq<Event>, groups: set<int>, since: nat, e: Event)
    requires since <= |log| && AllLiveSince(log, groups, since)
    ensures AllLiveSince(log + [e], groups, since) && e in (log + [e])[since..]
  {
    assert (log + [e])[since..] == log[since..] + [e];
  }

  lemma HasMember(groups: set<int>)
    ensures groups == {} || exists g :: g in groups
  {
    if forall g :: g !in groups {
      assert groups == {};
    }
  }

  /** stillRunning: groups that are gone leave the set. */
  method StillRunning(w: World, log: seq<Event>, groups: set<int>)
    returns (ok: bool, log': seq<Event>, groups': set<int>)
    requires LogOk(w, log, groups)
    ensures log <= log' && OnlyProbes(log', |log|) && groups' <= groups && LogOk(w, log', groups')
    ensures AllSeenGone(log', groups - groups') && (ok ==> AllLiveSince(log', groups', |log|))
    ensures !ok ==> exists g :: g in groups && w.probe(|log'|, g).Fails?
  {
    log', groups' := log, groups;
    var rest := groups;
    while rest != {}
      invariant log <= log' && OnlyProbes(log', |log|) && rest <= groups' <= groups && LogOk(w, log', groups')
      invariant AllSeenGone(log', groups - groups') && AllLiveSince(log', groups' - rest, |log|)
      decreases |rest|
    {
      HasMember(rest);
      var g :| g in rest;
      rest := rest - {g};
      if w.probe(|log'|, g).Fails? {
        return false, log', groups';
      }
      AddProbe(w, log', groups', g);
      LiveStays(log', groups' - rest - {g}, |log|, Probed(g, w.probe(|log'|, g).Live?));
      if w.probe(|log'|, g).Gone? {
        groups' := groups' - {g};
        log' := log' + [Probed(g, false)];
      } else {
        log' := log' + [Probed(g, true)];
      }
    }
    ok := true;
  }

  /** Waiting until no group is left or the deadline has passed. */
  method AwaitGone(w: World, log: seq<Event>, groups: set<int>, deadline: int, ghost reach: int -> nat)
    returns (ok: bool, log': seq<Event>, groups': set<int>)
    requires LogOk(w, log, groups) && Passes(w, reach)
    ensures log <= log' && OnlyProbes(log', |log|) && groups' <= groups && LogOk(w, log', groups')
    ensures AllSeenGone(log', groups - groups') && (ok ==> groups' == {} || w.now(|log'|) >= deadline)
    ensures !ok ==> exists g :: g in groups && w.probe(|log'|, g).Fails?
  {
    log', groups' := log, groups;
    while true
      invariant log <= log' && OnlyProbes(log', |log|) && groups' <= groups && LogOk(w, log', groups')
      invariant AllSeenGone(log', groups - groups')
      decreases reach(deadline) + 1 - |log'|
    {
      ghost var before, from := groups', log';
      ok, log', groups' := StillRunning(w, log', groups');
      assert AllSeenGone(log', groups - before) by {
        assert forall e :: e in from ==> e in log';
      }
      if !ok {
        return;
      }
      if groups' == {} || w.now(|log'|) >= deadline {
        return;
      }
      log' := log' + [Slept];
    }
  }

  /** Between the two logs each of these groups got the signal once, and no other group got any. */
  ghost predicate HaveGot(log: seq<Event>, log': seq<Event>, groups: set<int>, signal: Signal) {
    forall g: int :: SignalsTo(log', g) == if g in groups then SignalsTo(log, g) + [signal] else SignalsTo(log, g)
  }

  lemma GotOneMore(log: seq<Event>, log': seq<Event>, groups: set<int>, g: int, signal: Signal)
    requires HaveGot(log, log', groups, signal) && g !in groups
    ensures HaveGot(log, log' + [Signalled(g, signal)], groups + {g}, signal)
  {
    var longer := log' + [Signalled(g, signal)];
    assert longer[..|longer| - 1] == log';
    forall h: int ensures SignalsTo(longer, h) == if h == g then SignalsTo(log', h) + [signal] else SignalsTo(log', h) {
    }
  }

  /** The groups get the signal, one after another. */
  method SignalAll(w: World, log: seq<Event>, groups: set<int>, signal: Signal)
    returns (ok: bool, log': seq<Event>)
    requires LogOk(w, log, groups)
    ensures log <= log' && LogOk(w, log', groups)
    ensures |log'| <= |log| + |groups| && (ok ==> |log'| == |log| + |groups|)
    ensures groups == {} ==> ok && log' == log
    ensures forall i | |log| <= i < |log'| :: log'[i].Signalled? && log'[i].signal == signal
    ensures ok ==> HaveGot(log, log', groups, signal)
    ensures !ok ==> exists reached :: reached < groups && HaveGot(log, log', reached, signal)
    ensures !ok ==> exists g :: g in groups && w.refuses(|log'|, g)
  {
    log' := log;
    var rest := groups;
    while rest != {}
      invariant log <= log' && rest <= groups && LogOk(w, log', groups) && |log'| == |log| + |groups| - |rest|
      invariant forall i | |log| <= i < |log'| :: log'[i].Signalled? && log'[i].signal == signal
      invariant HaveGot(log, log', groups - rest, signal)
      decreases |rest|
    {
      HasMember(rest);
      var g :| g in rest;
      if w.refuses(|log'|, g) {
        return false, log';
      }
      AddSignal(w, log', groups, g, signal);
      GotOneMore(log, log', groups - rest, g, signal);
      assert groups - (rest - {g}) == (groups - rest) + {g};
      log' := log' + [Signalled(g, signal)];
      rest := rest - {g};
    }
    ok := true;
  }

  lemma {:induction false} ProbesSendNothing(log: seq<Event>, log': seq<Event>, group: int)
    requires log <= log' && OnlyProbes(log', |log|)
    ensures SignalsTo(log', group) == SignalsTo(log, group)
    decreases |log'|
  {
    if log' == log {
    } else {
      var front := log'[..|log'| - 1];
      assert log <= front;
      ProbesSendNothing(log, front, group);
    }
  }

  /** The groups that the snapshot of the process table assigns to the termination. */
  ghost function Snapshot(table: seq<Process>, processGroupId: int): set<int> {
    {processGroupId} + (set e | e in table && Descends(table, Members(table, {processGroupId}), e.pid) :: e.group)
  }

  /** No group got anything but the signal and then SIGKILL, each at most once, and none outside the set
      got any. */
  ghost predicate SentInOrder(log: seq<Event>, groups: set<int>, signal: Signal) {
    forall g: int :: SignalsTo(log, g) <= if g in groups then [signal, SIGKILL] else []
  }

  /** After the first signals, only SIGKILL is sent, and not before the grace period is over. */
  ghost predicate GracePassed(w: World, log: seq<Event>, from: nat, grace: int) {
    forall i | from <= i < |log| && log[i].Signalled? :: log[i].signal == SIGKILL && w.now(i) >= w.now(from) + grace
  }

  /** Each of these groups got the signal, and then SIGKILL if `killed`. */
  ghost predicate AllSent(log: seq<Event>, groups: set<int>, signal: Signal, killed: bool) {
    forall g | g in groups :: (if killed then [signal, SIGKILL] else [signal]) <= SignalsTo(log, g)
  }

  /** What the termination did to the groups up to some point. */
  ghost predicate Progress(w: World, log: seq<Event>, all: set<int>, left: set<int>, signal: Signal, grace: int) {
    && left <= all && LogOk(w, log, left) && AllSeenGone(log, all - left)
    && SentInOrder(log, all, signal) && AllSent(log, all, signal, false)
    && |log| > |all| && GracePassed(w, log, 1 + |all|, grace)
  }

  lemma ProbesKeepProgress(
      w: World, log: seq<Event>, log': seq<Event>, all: set<int>, left: set<int>, left': set<int>, signal: Signal,
      grace: int)
    requires Progress(w, log, all, left, signal, grace)
    requires log <= log' && OnlyProbes(log', |log|) && left' <= left && LogOk(w, log', left')
    requires AllSeenGone(log', left - left')
    ensures Progress(w, log', all, left', signal, grace)
    ensures forall g :: SignalsTo(log', g) == SignalsTo(log, g)
  {
    forall g ensures SignalsTo(log', g) == SignalsTo(log, g) {
      ProbesSendNothing(log, log', g);
    }
    assert forall e | e in log :: e in log';
  }

  lemma KillsInOrder(log: seq<Event>, log': seq<Event>, all: set<int>, reached: set<int>, signal: Signal)
    requires SentInOrder(log, all, signal) && AllSent(log, all, signal, false) && reached <= all
    requires forall g | g in reached :: SignalsTo(log, g) == [signal]
    requires HaveGot(log, log', reached, SIGKILL)
    ensures SentInOrder(log', all, signal) && AllSent(log', all, signal, false) && AllSent(log', reached, signal, true)
  {
  }

  lemma KillsPassGrace(w: World, log: seq<Event>, log': seq<Event>, from: nat, grace: int)
    requires IsMonotone(w) && GracePassed(w, log, from, grace) && log <= log'
    requires forall i | |log| <= i < |log'| :: log'[i].Signalled? && log'[i].signal == SIGKILL
    requires log' == log || w.now(|log|) >= w.now(from) + grace
    ensures GracePassed(w, log', from, grace)
  {
  }

  /** The first signals follow a single probe. */
  lemma AskedInOrder(log: seq<Event>, log': seq<Event>, all: set<int>, reached: set<int>, signal: Signal)
    requires |log| == 1 && log[0].Probed? && reached <= all && HaveGot(log, log', reached, signal)
    ensures SentInOrder(log', all, signal) && AllSent(log', reached, signal, false)
    ensures forall g | g in reached :: SignalsTo(log', g) == [signal]
  {
    assert forall g: int :: SignalsTo(log, g) == [];
  }

  lemma AskedIsProgress(w: World, log: seq<Event>, log': seq<Event>, all: set<int>, signal: Signal, grace: int)
    requires |log| == 1 && log[0].Probed? && HaveGot(log, log', all, signal)
    requires LogOk(w, log', all) && |log'| == 1 + |all|
    ensures Progress(w, log', all, all, signal, grace)
    ensures forall g | g in all :: SignalsTo(log', g) == [signal]
  {
    AskedInOrder(log, log', all, all, signal);
  }

  lemma StartIsOk(w: World, processGroupId: int, all: set<int>)
    requires w.probe(0, processGroupId).Live?
    ensures LogOk(w, [Probed(processGroupId, true)], all)
  {
  }

  /** The first half: the groups are asked to stop and have the grace period to do so. */
  method AskGroups(w: World, processGroupId: int, all: set<int>, signal: Signal, grace: int, ghost reach: int -> nat)
    returns (ok: bool, log: seq<Event>, left: set<int>)
    requires Passes(w, reach) && w.probe(0, processGroupId).Live? && processGroupId in all
    ensures LogOk(w, log, left) && SentInOrder(log, all, signal) && GracePassed(w, log, 1 + |all|, grace)
    ensures ok ==> Progress(w, log, all, left, signal, grace)
    ensures ok ==> forall g | g in left :: SignalsTo(log, g) == [signal]
    ensures ok ==> left == {} || w.now(|log|) >= w.now(1 + |all|) + grace
    ensures !ok ==> exists g :: w.probe(|log|, g).Fails? || w.refuses(|log|, g)
  {
    log, left := [Probed(processGroupId, true)], all;
    ghost var first := log;
    StartIsOk(w, processGroupId, all);
    ok, log := SignalAll(w, log, all, signal);
    if !ok {
      ghost var reached :| reached < all && HaveGot(first, log, reached, signal);
      AskedInOrder(first, log, all, reached, signal);
      return;
    }
    AskedIsProgress(w, first, log, all, signal, grace);
    ghost var asked := log;
    ok, log, left := AwaitGone(w, log, all, w.now(|log|) + grace, reach);
    ProbesKeepProgress(w, asked, log, all, all, left, signal, grace);
  }

  /** The second half: what is left is killed. */
  method KillGroups(
      w: World, log: seq<Event>, all: set<int>, left: set<int>, signal: Signal, grace: int, killWait: int,
      ghost reach: int -> nat)
    returns (ok: bool, log': seq<Event>, left': set<int>, ghost killed: nat)
    requires IsMonotone(w) && Passes(w, reach) && Progress(w, log, all, left, signal, grace)
    requires forall g | g in left :: SignalsTo(log, g) == [signal]
    requires left == {} || w.now(|log|) >= w.now(1 + |all|) + grace
    ensures LogOk(w, log', left') && SentInOrder(log', all, signal) && GracePassed(w, log', 1 + |all|, grace)
    ensures ok ==> Progress(w, log', all, left', signal, grace) && AllSent(log', left', signal, true)
    ensures ok ==> LiveAfter(w, log', left', killed, killWait)
    ensures !ok ==> exists g :: w.probe(|log'|, g).Fails? || w.refuses(|log'|, g)
  {
    log', left', killed := log, left, 0;
    ok, log' := SignalAll(w, log', left, SIGKILL);
    KillsPassGrace(w, log, log', 1 + |all|, grace);
    if !ok {
      ghost var reached :| reached < left && HaveGot(log, log', reached, SIGKILL);
      KillsInOrder(log, log', all, reached, signal);
      return;
    }
    KillsInOrder(log, log', all, left, signal);
    assert AllSeenGone(log', all - left) by {
      assert forall e | e in log :: e in log';
    }
    killed := |log'|;
    ghost var sent := log';
    ok, log', left' := AwaitGone(w, log', left, w.now(|log'|) + killWait, reach);
    ProbesKeepProgress(w, sent, log', all, left, left', signal, grace);
    if !ok {
      return;
    }
    ghost var waited, before := log', left';
    ok, log', left' := StillRunning(w, log', left');
    ProbesKeepProgress(w, waited, log', all, before, left', signal, grace);
  }

  /** The groups were all observed live at some time after the kill deadline. */
  ghost predicate LiveAfter(w: World, log: seq<Event>, groups: set<int>, killed: nat, killWait: int) {
    groups == {} || exists since: nat ::
      since <= |log| && AllLiveSince(log, groups, since) && w.now(since) >= w.now(killed) + killWait
  }

  /** How the termination of the groups ends, once the first is live. `killed` is the position at which the
      kill deadline was set. */
  ghost predicate Terminates(
      w: World, all: set<int>, signal: Signal, grace: int, killWait: int, end: End, log: seq<Event>, killed: nat)
  {
    // in every outcome each group gets the signal and then, after the grace period, SIGKILL, and no group
    // that was observed gone is probed or signalled again
    && IsFaithful(w, log) && LeavesGoneAlone(log)
    && SentInOrder(log, all, signal) && GracePassed(w, log, 1 + |all|, grace)
    && match end
       // success: every group got the signal and was observed gone
       case Stopped => AllSeenGone(log, all) && AllSent(log, all, signal, false)
       // failure: the remaining groups got both signals and were all observed live after the kill deadline
       case Remained(groups) =>
         && {} < groups <= all
         && AllSent(log, groups, signal, true) && LiveAfter(w, log, groups, killed, killWait)
         && AllSeenGone(log, all - groups) && NoneGone(log, groups)
       case Failed => exists g :: w.probe(|log|, g).Fails? || w.refuses(|log|, g)
       case NotLive => false
  }

  method TerminateGroups(
      w: World, processGroupId: int, all: set<int>, signal: Signal, grace: int, killWait: int, ghost reach: int -> nat)
    returns (end: End, log: seq<Event>, ghost killed: nat)
    requires IsMonotone(w) && Passes(w, reach) && w.probe(0, processGroupId).Live? && processGroupId in all
    ensures Terminates(w, all, signal, grace, killWait, end, log, killed)
  {
    killed := 0;
    var ok, left;
    ok, log, left := AskGroups(w, processGroupId, all, signal, grace, reach);
    if ok {
      ok, log, left, killed := KillGroups(w, log, all, left, signal, grace, killWait, reach);
    }
    if !ok {
      return Failed, log, killed;
    }
    if left == {} {
      assert all - left == all;
      end := Stopped;
    } else {
      end := Remained(left);
    }
  }

  /** terminateDevProcessGroup. */
  method TerminateDevProcessGroup(
      w: World, table: seq<Process>, processGroupId: int, signal: Signal, grace: int, killWait: int,
      ghost reach: int -> nat)
    returns (end: End, log: seq<Event>, ghost killed: nat)
    requires IsMonotone(w) && Passes(w, reach)
    ensures end.NotLive? <==> w.probe(0, processGroupId).Gone?
    ensures end.NotLive? ==> log == [Probed(processGroupId, false)]
    ensures w.probe(0, processGroupId).Fails? ==> end.Failed? && log == []
    ensures w.probe(0, processGroupId).Live? ==>
              Terminates(w, Snapshot(table, processGroupId), signal, grace, killWait, end, log, killed)
    // a normal return means that the group itself was seen gone
    ensures end.NotLive? || end.Stopped? ==> Probed(processGroupId, false) in log
  {
    killed := 0;
    if w.probe(0, processGroupId).Fails? {
      return Failed, [], killed;
    }
    if w.probe(0, processGroupId).Gone? {
      return NotLive, [Probed(processGroupId, false)], killed;
    }
    var all := DevProcessGroups(table, processGroupId);
    assert all == Snapshot(table, processGroupId) && processGroupId in all;
    end, log, killed := TerminateGroups(w, processGroupId, all, signal, grace, killWait, reach);
  }
}
