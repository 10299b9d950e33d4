/** TestSignalController of scripts/test.ts: over any order of activations, clears and signals, only the
    first signal is ever sent, and each activation that overlaps or follows it gets it exactly once. */
module TestSignals {
  import opened Wrappers
  import opened Signals

  datatype Event = Activate(group: int) | Clear(group: int) | Arrives(signal: Handled) | Close

  /** A call of process.kill that sends the signal to a process group, while the event at position `at` was
      handled. The system may refuse it; the controller does not try again. */
  datatype Delivery = Delivery(at: nat, group: int, signal: Handled)

  datatype Control = Control(active: Option<int>, forwarded: Option<Handled>, open: bool, sent: seq<Delivery>)

  /** processGroupTarget accepts the group. */
  predicate IsTarget(group: int) {
    0 < group <= 0x1f_ffff_ffff_ffff
  }

  function Step(c: Control, e: Event, at: nat): Control {
    match e
    case Activate(g) =>
      if !IsTarget(g) then c
      else c.(active := Some(g),
              sent := if c.forwarded.Some? then c.sent + [Delivery(at, g, c.forwarded.value)] else c.sent)
    case Clear(g) => if c.active == Some(g) then c.(active := None) else c
    case Arrives(signal) =>
      if !c.open || c.forwarded.Some? then c
      else c.(forwarded := Some(signal),
              sent := if c.active.Some? then c.sent + [Delivery(at, c.active.value, signal)] else c.sent)
    case Close => c.(open := false)
  }

  function RunOf(run: seq<Event>): Control {
    if run == [] then Control(None, None, true, [])
    else Step(RunOf(run[..|run| - 1]), run[|run| - 1], |run| - 1)
  }

  // ---------------------------------------------------------------------------------------------
  // What a run means, without the controller's state

  /** The activation at `i` is the one in force just before position `k`. */
  predicate StaysActive(run: seq<Event>, i: nat, k: nat, group: int) {
    && i < k <= |run| && run[i] == Activate(group) && IsTarget(group)
    && forall m | i < m < k :: run[m] != Clear(group) && !(run[m].Activate? && IsTarget(run[m].group))
  }

  ghost predicate InForce(run: seq<Event>, k: nat, group: int) {
    exists i: nat :: StaysActive(run, i, k, group)
  }

  /** The first signal that arrives while the handlers are installed. */
  predicate IsFirst(run: seq<Event>, f: nat) {
    f < |run| && run[f].Arrives? && forall m | 0 <= m < f :: !run[m].Arrives? && !run[m].Close?
  }

  /** The group is to be sent the signal at position `at`: the first signal arrives there and the group's
      activation is in force, or it arrived earlier and the group is activated there. */
  ghost predicate Due(run: seq<Event>, d: Delivery) {
    exists f: nat :: DueFrom(run, d, f)
  }

  /** The delivery is due if the first signal arrives at `f`. */
  ghost predicate DueFrom(run: seq<Event>, d: Delivery, f: nat) {
    && IsFirst(run, f) && d.signal == run[f].signal
    && if d.at == f then InForce(run, f, d.group)
       else f < d.at < |run| && run[d.at] == Activate(d.group) && IsTarget(d.group)
  }

  lemma {:induction false} ActiveMeans(run: seq<Event>)
    ensures forall g :: RunOf(run).active == Some(g) <==> InForce(run, |run|, g)
  {
    if run != [] {
      var n := |run| - 1;
      var front := run[..n];
      ActiveMeans(front);
      forall g ensures RunOf(run).active == Some(g) <==> InForce(run, |run|, g) {
        if RunOf(run).active == Some(g) {
          if run[n] == Activate(g) {
            assert StaysActive(run, n, |run|, g);
          } else {
            var i: nat :| StaysActive(front, i, n, g);
            assert StaysActive(run, i, |run|, g);
          }
        }
        if i: nat :| StaysActive(run, i, |run|, g) {
          if i < n {
            assert StaysActive(front, i, n, g);
          }
        }
      }
    }
  }

  lemma {:induction false} ForwardedMeans(run: seq<Event>)
    ensures RunOf(run).open <==> Close !in run
    ensures RunOf(run).forwarded.None? <==> !exists f: nat :: IsFirst(run, f)
    ensures forall f: nat | IsFirst(run, f) :: RunOf(run).forwarded == Some(run[f].signal)
  {
    if run != [] {
      var n := |run| - 1;
      var front := run[..n];
      ForwardedMeans(front);
      assert run == front + [run[n]];
      if RunOf(front).forwarded.Some? {
        var f: nat :| IsFirst(front, f);
        assert IsFirst(run, f);
      } else if run[n].Arrives? && RunOf(front).open {
        NoSignalYet(front);
        assert IsFirst(run, n);
      }
      forall f: nat | IsFirst(run, f) ensures RunOf(run).forwarded == Some(run[f].signal) {
        if f < n {
          assert IsFirst(front, f);
        }
      }
    }
  }

  /** The forwarded signal never changes again. */
  lemma {:induction false} ForwardedStays(run: seq<Event>, i: nat, j: nat)
    requires i <= j <= |run| && RunOf(run[..i]).forwarded.Some?
    ensures RunOf(run[..j]).forwarded == RunOf(run[..i]).forwarded
    decreases j
  {
    if i < j {
      ForwardedStays(run, i, j - 1);
      assert run[..j][..j - 1] == run[..j - 1];
    }
  }

  /** While the handlers are installed, no signal has arrived unless a first one has. */
  lemma {:induction false} NoSignalYet(run: seq<Event>)
    requires Close !in run && !exists f: nat :: IsFirst(run, f)
    ensures forall m | 0 <= m < |run| :: !run[m].Arrives?
  {
    if run != [] {
      var n := |run| - 1;
      var front := run[..n];
      forall f: nat | IsFirst(front, f) ensures false {
        assert IsFirst(run, f);
      }
      NoSignalYet(front);
      if run[n].Arrives? {
        assert IsFirst(run, n);
      }
    }
  }

  /** What is due before the last event does not depend on it. */
  lemma DueBefore(run: seq<Event>, d: Delivery)
    requires run != [] && d.at < |run| - 1
    ensures Due(run, d) <==> Due(run[..|run| - 1], d)
  {
    var front := run[..|run| - 1];
    forall f: nat ensures DueFrom(run, d, f) <==> DueFrom(front, d, f) {
      if f <= d.at {
        FirstInFront(run, f);
        InForceInFront(run, f, d.group);
      }
    }
  }

  /** The deliveries of the last event. */
  function LastSent(run: seq<Event>): seq<Delivery>
    requires run != []
  {
    var c := RunOf(run[..|run| - 1]);
    RunOf(run).sent[|c.sent|..]
  }

  lemma InForceInFront(run: seq<Event>, k: nat, group: int)
    requires k < |run|
    ensures InForce(run, k, group) <==> InForce(run[..|run| - 1], k, group)
  {
    var front := run[..|run| - 1];
    if i: nat :| StaysActive(run, i, k, group) {
      assert StaysActive(front, i, k, group);
    }
    if i: nat :| StaysActive(front, i, k, group) {
      assert StaysActive(run, i, k, group);
    }
  }

  lemma FirstInFront(run: seq<Event>, f: nat)
    requires f < |run| - 1
    ensures IsFirst(run, f) <==> IsFirst(run[..|run| - 1], f)
  {
  }

  /** The first signal is not the last event, unless it arrives there. */
  lemma FirstIsLast(run: seq<Event>)
    requires run != []
    ensures var c := RunOf(run[..|run| - 1]);
            IsFirst(run, |run| - 1) <==> run[|run| - 1].Arrives? && c.open && c.forwarded.None?
  {
    var n := |run| - 1;
    var front := run[..n];
    ForwardedMeans(front);
    if run[n].Arrives? && RunOf(front).open && RunOf(front).forwarded.None? {
      NoSignalYet(front);
    }
    forall f: nat | IsFirst(run, n) ensures !IsFirst(front, f) {
      assert f < n ==> front[f] == run[f];
    }
  }

  /** What is due at the last event is what it sends. */
  lemma DueLast(run: seq<Event>, d: Delivery)
    requires run != [] && d.at == |run| - 1
    ensures Due(run, d) <==> d in LastSent(run)
  {
    var n := |run| - 1;
    var front := run[..n];
    var c := RunOf(front);
    ForwardedMeans(front);
    ActiveMeans(front);
    FirstIsLast(run);
    InForceInFront(run, n, d.group);
    forall f: nat | DueFrom(run, d, f) ensures d in LastSent(run) {
      if f < n {
        FirstInFront(run, f);
        assert c.forwarded == Some(run[f].signal);
      }
    }
    if d in LastSent(run) {
      if run[n].Arrives? {
        assert DueFrom(run, d, n);
      } else {
        var f: nat :| IsFirst(front, f);
        FirstInFront(run, f);
        assert DueFrom(run, d, f);
      }
    }
  }

  lemma SentGrows(run: seq<Event>)
    requires run != []
    ensures RunOf(run).sent == RunOf(run[..|run| - 1]).sent + LastSent(run) && |LastSent(run)| <= 1
    ensures forall e | e in LastSent(run) :: e.at == |run| - 1
  {
  }

  /** The controller sends exactly what is due, each delivery once. */
  lemma {:induction false} SendsWhatIsDue(run: seq<Event>)
    ensures forall d :: d in RunOf(run).sent <==> Due(run, d)
    ensures forall i, j | 0 <= i < j < |RunOf(run).sent| :: RunOf(run).sent[i].at < RunOf(run).sent[j].at
  {
    if run != [] {
      var n := |run| - 1;
      var front := run[..n];
      SendsWhatIsDue(front);
      SentGrows(run);
      forall d ensures d in RunOf(run).sent <==> Due(run, d) {
        if d.at < n {
          DueBefore(run, d);
        } else if d.at == n {
          DueLast(run, d);
          assert !Due(front, d);
        }
      }
      assert forall k | 0 <= k < |RunOf(front).sent| :: RunOf(front).sent[k] in RunOf(front).sent;
    }
  }

  lemma FirstIsUnique(run: seq<Event>, f: nat, h: nat)
    requires IsFirst(run, f) && IsFirst(run, h)
    ensures f == h
  {
    assert !(f < h) && !(h < f);
  }

  /** Only the first signal is ever sent: the group whose activation is in force gets it when it arrives,
      every group activated afterwards gets it at that activation, and nothing else is sent. */
  lemma OnlyTheFirstSignal(run: seq<Event>, f: nat)
    requires IsFirst(run, f)
    ensures forall d :: d in RunOf(run).sent <==>
              && d.signal == run[f].signal
              && ((d.at == f && InForce(run, f, d.group))
                  || (f < d.at < |run| && run[d.at] == Activate(d.group) && IsTarget(d.group)))
  {
    SendsWhatIsDue(run);
    forall d ensures Due(run, d) <==> DueFrom(run, d, f) {
      if Due(run, d) {
        var h: nat :| DueFrom(run, d, h);
        FirstIsUnique(run, f, h);
      }
    }
  }

  /** Without a first signal nothing is sent. */
  lemma NoSignalNoDelivery(run: seq<Event>)
    requires forall f: nat :: !IsFirst(run, f)
    ensures forall d :: d !in RunOf(run).sent
  {
    SendsWhatIsDue(run);
  }

  /** What the controller takes for the active group at any point of a run is the group whose activation is
      in force there, so it is one group at most. */
  lemma OneInForce(run: seq<Event>, k: nat, g: int)
    requires k <= |run|
    ensures InForce(run, k, g) <==> RunOf(run[..k]).active == Some(g)
  {
    ActiveMeans(run[..k]);
    if i: nat :| StaysActive(run, i, k, g) {
      assert StaysActive(run[..k], i, k, g);
    }
    if i: nat :| StaysActive(run[..k], i, k, g) {
      assert StaysActive(run, i, k, g);
    }
  }

  /** The controller object. `history` holds the events it has handled; the position in it serves as time. */
  class TestSignalController {
    var activeProcessGroupId: Option<int>
    var forwardedSignal: Option<Handled>
    var listening: bool
    var sent: seq<Delivery>
    var history: seq<Event>

    /** The fields are what the history makes of them. */
    predicate Valid()
      reads this
    {
      RunOf(history) == Control(activeProcessGroupId, forwardedSignal, listening, sent)
    }

    constructor ()
      ensures Valid() && history == []
    {
      activeProcessGroupId, forwardedSignal, listening, sent, history := None, None, true, [], [];
    }

    method Record(e: Event)
      modifies `history
      ensures history == old(history) + [e] && RunOf(history) == Step(RunOf(old(history)), e, |old(history)|)
    {
      history := history + [e];
      assert history[..|history| - 1] == old(history);
    }

    /** signalProcessGroup while the last recorded event is handled. It throws if the system refuses. */
    method SignalProcessGroup(processGroupId: int, signal: Handled, refused: bool) returns (ok: bool)
      requires history != []
      modifies `sent
      ensures sent == old(sent) + [Delivery(|history| - 1, processGroupId, signal)] && ok == !refused
    {
      sent := sent + [Delivery(|history| - 1, processGroupId, signal)];
      ok := !refused;
    }

    method Activate(processGroupId: int, refused: bool) returns (ok: bool)
      requires Valid()
      modifies this
      ensures Valid() && history == old(history) + [Event.Activate(processGroupId)]
      // it throws for a group that is no target, and for a forwarded signal that the system refuses
      ensures ok <==> IsTarget(processGroupId) && (old(forwardedSignal).None? || !refused)
    {
      Record(Event.Activate(processGroupId));
      if !IsTarget(processGroupId) {
        return false;
      }
      activeProcessGroupId := Some(processGroupId);
      ok := true;
      if forwardedSignal.Some? {
        ok := SignalProcessGroup(processGroupId, forwardedSignal.value, refused);
      }
    }

    method Clear(processGroupId: int)
      requires Valid()
      modifies this
      ensures Valid() && history == old(history) + [Event.Clear(processGroupId)]
    {
      Record(Event.Clear(processGroupId));
      if activeProcessGroupId == Some(processGroupId) {
        activeProcessGroupId := None;
      }
    }

    /** A signal of the process: the handler runs while it is installed. */
    method Arrive(signal: Handled, refused: bool) returns (ok: bool)
      requires Valid()
      modifies this
      ensures Valid() && history == old(history) + [Arrives(signal)]
      ensures !ok <==> refused && old(listening) && old(forwardedSignal).None? && old(activeProcessGroupId).Some?
    {
      Record(Arrives(signal));
      ok := true;
      if listening {
        ok := Forward(signal, refused);
      }
    }

    method Forward(signal: Handled, refused: bool) returns (ok: bool)
      requires history != []
      modifies `forwardedSignal, `sent
      ensures forwardedSignal == if old(forwardedSignal).Some? then old(forwardedSignal) else Some(signal)
      ensures sent ==
              if old(forwardedSignal).None? && activeProcessGroupId.Some?
              then old(sent) + [Delivery(|history| - 1, activeProcessGroupId.value, signal)] else old(sent)
      ensures !ok <==> refused && old(forwardedSignal).None? && activeProcessGroupId.Some?
    {
      ok := true;
      if forwardedSignal.Some? {
        return;
      }
      forwardedSignal := Some(signal);
      if activeProcessGroupId.Some? {
        ok := SignalProcessGroup(activeProcessGroupId.value, signal, refused);
      }
    }

    method Close()
      requires Valid()
      modifies this
      ensures Valid() && history == old(history) + [Event.Close]
    {
      Record(Event.Close);
      listening := false;
    }
  }
}
