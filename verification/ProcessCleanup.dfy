/** settleTestProcesses of scripts/test-processes.ts against any sequence of process tables. */
module ProcessCleanup {
  import opened Wrappers
  import opened ProcessTree
  import opened Signals

  /** One inspection: the process table, the working directories, and the clock read after it. */
  datatype Observation = Observation(table: seq<Process>, directories: map<int, string>, now: int)

  const DELETED := " (deleted)"

  /** A process can retain its working directory after it was removed. */
  function WithoutDeleted(directory: string): string {
    if |directory| >= |DELETED| && directory[|directory| - |DELETED|..] == DELETED
    then directory[..|directory| - |DELETED|]
    else directory
  }

  predicate Beneath(directory: string, root: string) {
    var value := WithoutDeleted(directory);
    value == root || root + "/" <= value
  }

  /** The group of the controller: that of its first row. */
  function OwnGroup(table: seq<Process>, controller: int): int {
    if table == [] then 0
    else if table[0].pid == controller then table[0].group
    else OwnGroup(table[1..], controller)
  }

  predicate IsZombie(p: Process) {
    p.state != "" && p.state[0] == 'Z'
  }

  /** The processes an inspection starts from: members of tracked groups and processes beneath the root. */
  function Seeds(o: Observation, groups: set<int>, root: Option<string>): set<int> {
    Members(o.table, groups) + (set e | e in o.table && IsBeneathRoot(o, root, e.pid) :: e.pid)
  }

  predicate IsBeneathRoot(o: Observation, root: Option<string>, pid: int) {
    && root.Some? && root.value != ""
    && pid in o.directories && o.directories[pid] != "" && Beneath(o.directories[pid], root.value)
  }

  /** The process is in the ownership closure of the inspection. */
  ghost predicate IsOwned(o: Observation, groups: set<int>, root: Option<string>, pid: int) {
    Descends(o.table, Seeds(o, groups, root), pid)
  }

  /** The groups of the processes in the ownership closure. */
  ghost function OwnedGroups(o: Observation, groups: set<int>, root: Option<string>): set<int> {
    set e | e in o.table && IsOwned(o, groups, root, e.pid) :: e.group
  }

  /** The controller itself, or a member of its group or of a group of 1 or less. */
  predicate IsUnsafe(o: Observation, controller: int, e: Process) {
    e.pid == controller || e.group <= 1 || e.group == OwnGroup(o.table, controller)
  }

  /** The group has a member that is not a zombie. */
  predicate IsRunning(table: seq<Process>, group: int) {
    exists e :: e in table && e.group == group && !IsZombie(e)
  }

  datatype Inspection = Inspected(groups: set<int>) | NoController | Unsafe

  /** The groups of the rows in `owned` are added, unless a row is unsafe. */
  method Track(o: Observation, controller: int, groups: set<int>, owned: set<int>) returns (ok: bool, tracked: set<int>)
    ensures ok <==> forall e | e in o.table && e.pid in owned :: !IsUnsafe(o, controller, e)
    ensures ok ==> tracked == groups + (set e | e in o.table && e.pid in owned :: e.group)
  {
    tracked := groups;
    var i := 0;
    while i < |o.table|
      invariant 0 <= i <= |o.table|
      invariant tracked == groups + (set e | e in o.table[..i] && e.pid in owned :: e.group)
      invariant forall e | e in o.table[..i] && e.pid in owned :: !IsUnsafe(o, controller, e)
    {
      var e := o.table[i];
      assert o.table[..i + 1] == o.table[..i] + [e] && e in o.table;
      if e.pid in owned {
        if IsUnsafe(o, controller, e) {
          return false, tracked;
        }
        tracked := tracked + {e.group};
      }
      i := i + 1;
    }
    assert o.table[..i] == o.table;
    ok := true;
  }

  /** One inspection: the tracked groups grow by the groups of the owned processes, unless one is unsafe. */
  method Inspect(o: Observation, controller: int, groups: set<int>, root: Option<string>) returns (r: Inspection)
    ensures r.NoController? <==> OwnGroup(o.table, controller) == 0
    ensures r.Unsafe? <==> !r.NoController? && !OwnedAreSafe(o, controller, groups, root)
    ensures r.Inspected? ==> r.groups == groups + OwnedGroups(o, groups, root)
    // no tracked group that has a member in the table is unsafe
    ensures r.Inspected? ==> MembersAreSafe(o, controller, r.groups)
  {
    if OwnGroup(o.table, controller) == 0 {
      return NoController;
    }
    var owned := GrowOwned(o.table, Seeds(o, groups, root));
    var ok, tracked := Track(o, controller, groups, owned);
    OwnedByPid(o, controller, groups, root, owned);
    if !ok {
      return Unsafe;
    }
    TrackedAreSafe(o, controller, groups, owned);
    r := Inspected(tracked);
  }

  ghost predicate OwnedAreSafe(o: Observation, controller: int, groups: set<int>, root: Option<string>) {
    forall e | e in o.table && IsOwned(o, groups, root, e.pid) :: !IsUnsafe(o, controller, e)
  }

  predicate MembersAreSafe(o: Observation, controller: int, groups: set<int>) {
    forall e | e in o.table && e.group in groups :: e.group > 1 && e.group != OwnGroup(o.table, controller)
  }

  lemma OwnedByPid(o: Observation, controller: int, groups: set<int>, root: Option<string>, owned: set<int>)
    requires forall pid :: pid in owned <==> IsOwned(o, groups, root, pid)
    ensures OwnedGroups(o, groups, root) == set e | e in o.table && e.pid in owned :: e.group
    ensures OwnedAreSafe(o, controller, groups, root) <==>
        forall e | e in o.table && e.pid in owned :: !IsUnsafe(o, controller, e)
  {
  }

  lemma TrackedAreSafe(o: Observation, controller: int, groups: set<int>, owned: set<int>)
    requires Members(o.table, groups) <= owned
    requires forall e | e in o.table && e.pid in owned :: !IsUnsafe(o, controller, e)
    ensures MembersAreSafe(o, controller, groups + (set e | e in o.table && e.pid in owned :: e.group))
  {
    forall e | e in o.table && e.group in groups ensures !IsUnsafe(o, controller, e) {
      assert e.pid in Members(o.table, groups);
    }
  }

  /** A root that cleanup may look beneath: absolute, not the top directory, and holding none of the
      system's temporary directory, the home directory and the controller's working directory. */
  predicate IsPrivateRoot(root: string, reserved: set<string>) {
    && root != "" && root[0] == '/' && root != "/"
    && forall directory | directory in reserved :: !Beneath(directory, root)
  }

  // ---------------------------------------------------------------------------------------------
  // settleTestProcesses

  /** A signal sent to a process group in a round of polling. */
  datatype Sent = Sent(round: nat, group: int, signal: Signal)

  datatype SettleEnd = Settled | UnsafeRoot | BadGroup | NotInspected | NotIdentified | UnsafeGroup | Survived | Refused

  /** What the polling loop works on. `observe` gives one inspection a round, or None where it fails;
      `refuses` says which signals the system refuses in a round. */
  datatype Settlement = Settlement(
    observe: nat -> Observation,
    fails: nat -> bool,
    refuses: (nat, int) -> bool,
    controller: int,
    root: Option<string>,
    reserved: set<string>,
    signal: Signal,
    termDeadline: int,
    killDeadline: int)

  /** The signal is safe and timely: it goes to a group above 1 that is not the controller's own and that
      runs in this round's table, and SIGKILL escalates only from the grace deadline on. */
  predicate IsSafe(c: Settlement, s: Sent) {
    var o := c.observe(s.round);
    && s.group > 1
    && s.group != OwnGroup(o.table, c.controller)
    && IsRunning(o.table, s.group)
    && o.now < c.killDeadline
    && s.signal == NextSignal(c, s.round)
  }

  function NextSignal(c: Settlement, round: nat): Signal {
    if c.observe(round).now >= c.termDeadline then SIGKILL else c.signal
  }

  ghost predicate AllSafe(c: Settlement, log: seq<Sent>) {
    forall s | s in log :: IsSafe(c, s)
  }

  /** Each group gets each signal at most once. */
  ghost predicate OnceEach(log: seq<Sent>) {
    forall i, j | 0 <= i < j < |log| :: log[i].group != log[j].group || log[i].signal != log[j].signal
  }

  predicate WasSent(log: seq<Sent>, group: int, signal: Signal) {
    exists s :: s in log && s.group == group && s.signal == signal
  }

  /** The map of last signals agrees with the log: what it holds was sent, a group in the log is in the map,
      and when that is not the signal in the log then SIGKILL came after the first signal. */
  ghost predicate Agrees(c: Settlement, log: seq<Sent>, signalled: map<int, Signal>) {
    && (forall g | g in signalled :: WasSent(log, g, signalled[g]))
    && (forall s | s in log ::
          s.group in signalled
          && (s.signal == signalled[s.group] || (s.signal == c.signal && signalled[s.group] == SIGKILL)))
  }

  /** The rounds of the log are those before `rounds`, and its groups are among `groups`. */
  ghost predicate Within(log: seq<Sent>, groups: set<int>, rounds: nat) {
    forall s | s in log :: s.group in groups && s.round < rounds
  }

  ghost predicate Until(log: seq<Sent>, round: nat) {
    forall s | s in log :: s.round <= round
  }

  /** What the polling keeps about the signals it has sent. */
  ghost predicate LogOk(c: Settlement, log: seq<Sent>, signalled: map<int, Signal>) {
    AllSafe(c, log) && OnceEach(log) && Agrees(c, log, signalled)
  }

  ghost predicate IsMonotone(c: Settlement) {
    forall m, n | m <= n :: c.observe(m).now <= c.observe(n).now
  }

  /** The clock does not run backward, so what is not in the map as the last signal was never sent. */
  lemma NotSentBefore(c: Settlement, round: nat, log: seq<Sent>, signalled: map<int, Signal>, group: int)
    requires AllSafe(c, log) && Agrees(c, log, signalled) && IsMonotone(c)
    requires Until(log, round)
    requires !(group in signalled && signalled[group] == NextSignal(c, round))
    ensures forall s | s in log && s.group == group ::
        s.signal == c.signal && NextSignal(c, round) == SIGKILL != c.signal
  {
    forall s | s in log && s.group == group
      ensures s.signal == c.signal && NextSignal(c, round) == SIGKILL != c.signal
    {
      assert WasSent(log, group, signalled[group]);
      var k :| k in log && k.group == group && k.signal == signalled[group];
      assert IsSafe(c, s) && IsSafe(c, k);
      assert c.observe(s.round).now <= c.observe(round).now && c.observe(k.round).now <= c.observe(round).now;
    }
  }

  lemma SendKeepsAgreement(c: Settlement, log: seq<Sent>, signalled: map<int, Signal>, sent: Sent)
    requires Agrees(c, log, signalled)
    requires forall s | s in log && s.group == sent.group :: s.signal == c.signal && sent.signal == SIGKILL
    ensures Agrees(c, log + [sent], signalled[sent.group := sent.signal])
  {
    var after := signalled[sent.group := sent.signal];
    forall g | g in after ensures WasSent(log + [sent], g, after[g]) {
      if g == sent.group {
        assert sent in log + [sent];
      } else {
        assert WasSent(log, g, signalled[g]);
        var s :| s in log && s.group == g && s.signal == signalled[g];
        assert s in log + [sent];
      }
    }
  }

  lemma SendKeepsLog(c: Settlement, round: nat, log: seq<Sent>, signalled: map<int, Signal>, group: int)
    requires LogOk(c, log, signalled) && IsMonotone(c) && Until(log, round)
    requires IsSafe(c, Sent(round, group, NextSignal(c, round)))
    requires !(group in signalled && signalled[group] == NextSignal(c, round))
    ensures LogOk(c, log + [Sent(round, group, NextSignal(c, round))], signalled[group := NextSignal(c, round)])
  {
    var sent := Sent(round, group, NextSignal(c, round));
    NotSentBefore(c, round, log, signalled, group);
    SendKeepsAgreement(c, log, signalled, sent);
    SendKeepsOnce(log, sent);
    SendKeepsSafe(c, log, sent);
  }

  lemma SendKeepsOnce(log: seq<Sent>, sent: Sent)
    requires OnceEach(log) && forall s | s in log && s.group == sent.group :: s.signal != sent.signal
    ensures OnceEach(log + [sent])
  {
    assert forall i | 0 <= i < |log| :: log[i] in log;
  }

  lemma SendKeepsSafe(c: Settlement, log: seq<Sent>, sent: Sent)
    requires AllSafe(c, log) && IsSafe(c, sent)
    ensures AllSafe(c, log + [sent])
  {
  }

  /** Every tracked group that runs in the first `rows` rows has been sent the signal. */
  ghost predicate Signalled(
      table: seq<Process>, rows: nat, groups: set<int>, signalled: map<int, Signal>, next: Signal)
  {
    forall k | 0 <= k < rows && k < |table| && table[k].group in groups && !IsZombie(table[k]) ::
      table[k].group in signalled && signalled[table[k].group] == next
  }

  /** Every tracked group that runs in the round's table has been sent the round's signal. */
  ghost predicate AllSent(c: Settlement, round: nat, groups: set<int>, log: seq<Sent>) {
    forall g | g in groups && IsRunning(c.observe(round).table, g) :: WasSent(log, g, NextSignal(c, round))
  }

  /** The last signals have changed only to `next`. */
  predicate MovesTo(signalled: map<int, Signal>, signalled': map<int, Signal>, next: Signal) {
    forall g | g in signalled :: g in signalled' && (signalled'[g] == signalled[g] || signalled'[g] == next)
  }

  lemma SignalledStays(
      table: seq<Process>, rows: nat, groups: set<int>, signalled: map<int, Signal>, signalled': map<int, Signal>,
      next: Signal)
    requires Signalled(table, rows, groups, signalled, next) && MovesTo(signalled, signalled', next) && rows < |table|
    requires var e := table[rows];
             e.group in groups && !IsZombie(e) ==> e.group in signalled' && signalled'[e.group] == next
    ensures Signalled(table, rows + 1, groups, signalled', next)
  {
  }

  lemma RowIsSafe(c: Settlement, round: nat, groups: set<int>, e: Process)
    requires c.observe(round).now < c.killDeadline && MembersAreSafe(c.observe(round), c.controller, groups)
    requires e in c.observe(round).table && e.group in groups && !IsZombie(e)
    ensures IsSafe(c, Sent(round, e.group, NextSignal(c, round)))
  {
    assert IsRunning(c.observe(round).table, e.group);
  }

  lemma SendKeepsWithin(log: seq<Sent>, groups: set<int>, round: nat, sent: Sent)
    requires Within(log, groups, round + 1) && sent.group in groups && sent.round == round
    ensures Within(log + [sent], groups, round + 1)
    ensures Until(log, round)
  {
  }

  /** The signal of the round for one row of the table, unless its group has it already. */
  method SignalRow(
      c: Settlement, round: nat, groups: set<int>, e: Process, log: seq<Sent>, signalled: map<int, Signal>)
    returns (ok: bool, log': seq<Sent>, signalled': map<int, Signal>)
    requires LogOk(c, log, signalled) && IsMonotone(c) && Within(log, groups, round + 1)
    requires c.observe(round).now < c.killDeadline && MembersAreSafe(c.observe(round), c.controller, groups)
    requires e in c.observe(round).table
    ensures LogOk(c, log', signalled') && log <= log' && Within(log', groups, round + 1)
    ensures MovesTo(signalled, signalled', NextSignal(c, round))
    ensures ok && e.group in groups && !IsZombie(e) ==>
        e.group in signalled' && signalled'[e.group] == NextSignal(c, round)
    ensures !ok ==> e.group in groups && c.refuses(round, e.group)
  {
    var next := NextSignal(c, round);
    ok, log', signalled' := true, log, signalled;
    if e.group !in groups || IsZombie(e) || (e.group in signalled && signalled[e.group] == next) {
      return;
    }
    if c.refuses(round, e.group) {
      return false, log, signalled;
    }
    RowIsSafe(c, round, groups, e);
    SendKeepsWithin(log, groups, round, Sent(round, e.group, next));
    SendKeepsLog(c, round, log, signalled, e.group);
    log' := log + [Sent(round, e.group, next)];
    signalled' := signalled[e.group := next];
  }

  /** The signals of one round, in table order. */
  method SignalLive(c: Settlement, round: nat, groups: set<int>, log: seq<Sent>, signalled: map<int, Signal>)
    returns (ok: bool, log': seq<Sent>, signalled': map<int, Signal>)
    requires LogOk(c, log, signalled) && IsMonotone(c) && Within(log, groups, round + 1)
    requires c.observe(round).now < c.killDeadline && MembersAreSafe(c.observe(round), c.controller, groups)
    ensures LogOk(c, log', signalled') && log <= log' && Within(log', groups, round + 1)
    ensures ok ==> AllSent(c, round, groups, log')
    ensures !ok ==> exists g :: g in groups && c.refuses(round, g)
  {
    var table := c.observe(round).table;
    ghost var next := NextSignal(c, round);
    log', signalled' := log, signalled;
    var i := 0;
    while i < |table|
      invariant 0 <= i <= |table|
      invariant LogOk(c, log', signalled') && log <= log' && Within(log', groups, round + 1)
      invariant Signalled(table, i, groups, signalled', next)
    {
      ghost var before := signalled';
      ok, log', signalled' := SignalRow(c, round, groups, table[i], log', signalled');
      if !ok {
        return;
      }
      SignalledStays(table, i, groups, before, signalled', next);
      i := i + 1;
    }
    ok := true;
    AllSignalled(c, table, groups, log', signalled', next);
  }

  lemma AllSignalled(
      c: Settlement, table: seq<Process>, groups: set<int>, log: seq<Sent>, signalled: map<int, Signal>, next: Signal)
    requires Agrees(c, log, signalled) && Signalled(table, |table|, groups, signalled, next)
    ensures forall g | g in groups && IsRunning(table, g) :: WasSent(log, g, next)
  {
    forall g | g in groups && IsRunning(table, g) ensures WasSent(log, g, next) {
      var e :| e in table && e.group == g && !IsZombie(e);
      var k :| 0 <= k < |table| && table[k] == e;
    }
  }

  /** The last table shows nothing that runs in a tracked group, nor in the ownership closure of the
      inspection that began with the groups `before`. */
  ghost predicate IsQuiet(o: Observation, before: set<int>, groups: set<int>, root: Option<string>) {
    && before <= groups == before + OwnedGroups(o, before, root)
    && (forall g | g in groups :: !IsRunning(o.table, g))
    && (forall e | e in o.table && !IsZombie(e) :: !IsOwned(o, before, root, e.pid))
  }

  ghost predicate SomethingRuns(o: Observation, groups: set<int>) {
    exists g :: g in groups && IsRunning(o.table, g)
  }

  /** The inspection of a round succeeds: the controller is found and no owned process is unsafe. */
  ghost predicate Inspects(c: Settlement, round: nat, before: set<int>) {
    var o := c.observe(round);
    !c.fails(round) && OwnGroup(o.table, c.controller) != 0 && OwnedAreSafe(o, c.controller, before, c.root)
  }

  /** What is known when the polling ends in a round that began with the groups `before`. */
  ghost predicate Ended(c: Settlement, end: SettleEnd, before: set<int>, groups: set<int>, round: nat) {
    var o := c.observe(round);
    match end
    case Settled => Inspects(c, round, before) && IsQuiet(o, before, groups, c.root)
    case Survived => Inspects(c, round, before) && o.now >= c.killDeadline && SomethingRuns(o, groups)
    case Refused => Inspects(c, round, before) && exists g :: g in groups && c.refuses(round, g)
    case UnsafeGroup => !OwnedAreSafe(o, c.controller, before, c.root)
    case NotIdentified => OwnGroup(o.table, c.controller) == 0
    case NotInspected => c.fails(round)
    case UnsafeRoot => false
    case BadGroup => false
  }

  /** One round of polling: it ends the polling, or sends the signals of the round. */
  method Round(c: Settlement, round: nat, tracked: set<int>, log: seq<Sent>, signalled: map<int, Signal>)
    returns (end: Option<SettleEnd>, groups: set<int>, log': seq<Sent>, signalled': map<int, Signal>)
    requires LogOk(c, log, signalled) && IsMonotone(c) && Within(log, tracked, round)
    ensures LogOk(c, log', signalled') && log <= log' && Within(log', groups, round + 1) && tracked <= groups
    ensures end.Some? ==> Ended(c, end.value, tracked, groups, round) && (end.value == Refused || log' == log)
    ensures end.None? ==>
              && Inspects(c, round, tracked) && groups == tracked + OwnedGroups(c.observe(round), tracked, c.root)
              && c.observe(round).now < c.killDeadline && AllSent(c, round, groups, log')
  {
    var o := c.observe(round);
    groups, log', signalled' := tracked, log, signalled;
    if c.fails(round) {
      return Some(NotInspected), groups, log', signalled';
    }
    var inspection := Inspect(o, c.controller, tracked, c.root);
    if inspection.NoController? {
      return Some(NotIdentified), groups, log', signalled';
    }
    if inspection.Unsafe? {
      return Some(UnsafeGroup), groups, log', signalled';
    }
    groups := inspection.groups;
    if !exists e :: e in o.table && e.group in groups && !IsZombie(e) {
      NothingLeft(o, tracked, groups, c.root);
      return Some(Settled), groups, log', signalled';
    }
    if o.now >= c.killDeadline {
      StillRuns(o, groups);
      return Some(Survived), groups, log', signalled';
    }
    var ok;
    ok, log', signalled' := SignalLive(c, round, groups, log, signalled);
    end := if ok then None else Some(Refused);
  }

  /** When no tracked group runs, the ownership closure holds nothing that runs. */
  lemma NothingLeft(o: Observation, before: set<int>, groups: set<int>, root: Option<string>)
    requires groups == before + OwnedGroups(o, before, root)
    requires !exists e :: e in o.table && e.group in groups && !IsZombie(e)
    ensures IsQuiet(o, before, groups, root)
  {
    forall e | e in o.table && !IsZombie(e) ensures !IsOwned(o, before, root, e.pid) {
      assert e.group !in groups;
    }
  }

  lemma StillRuns(o: Observation, groups: set<int>)
    requires exists e :: e in o.table && e.group in groups && !IsZombie(e)
    ensures SomethingRuns(o, groups)
  {
    var e :| e in o.table && e.group in groups && !IsZombie(e);
    assert IsRunning(o.table, e.group);
  }

  /** The groups tracked after the first inspections: each adds the groups of its ownership closure. */
  ghost function TrackedAfter(c: Settlement, groups: set<int>, inspections: nat): set<int> {
    if inspections == 0 then groups
    else
      var before := TrackedAfter(c, groups, inspections - 1);
      before + OwnedGroups(c.observe(inspections - 1), before, c.root)
  }

  /** In each of the first rounds, every tracked group that ran was sent that round's signal. */
  ghost predicate AllRoundsSent(c: Settlement, groups: set<int>, log: seq<Sent>, rounds: nat) {
    forall r: nat | r < rounds :: RoundSent(c, groups, log, r)
  }

  ghost predicate RoundSent(c: Settlement, groups: set<int>, log: seq<Sent>, round: nat) {
    AllSent(c, round, TrackedAfter(c, groups, round + 1), log)
  }

  lemma SentStays(c: Settlement, groups: set<int>, log: seq<Sent>, log': seq<Sent>, rounds: nat)
    requires AllRoundsSent(c, groups, log, rounds) && log <= log'
    ensures AllRoundsSent(c, groups, log', rounds)
  {
    forall r: nat | r < rounds ensures RoundSent(c, groups, log', r) {
      assert RoundSent(c, groups, log, r);
      forall g | g in TrackedAfter(c, groups, r + 1) && IsRunning(c.observe(r).table, g)
        ensures WasSent(log', g, NextSignal(c, r))
      {
        var s :| s in log && s.group == g && s.signal == NextSignal(c, r);
        assert s in log';
      }
    }
  }

  /** What the polling keeps from round to round. */
  ghost predicate Polled(
      c: Settlement, initial: set<int>, groups: set<int>, log: seq<Sent>, signalled: map<int, Signal>, rounds: nat)
  {
    && groups == TrackedAfter(c, initial, rounds)
    && LogOk(c, log, signalled) && Within(log, groups, rounds)
    && AllRoundsSent(c, initial, log, rounds)
  }

  lemma RoundKeepsPolled(
      c: Settlement, initial: set<int>, before: set<int>, groups: set<int>,
      sent: seq<Sent>, log: seq<Sent>, signalled: map<int, Signal>, round: nat)
    requires before == TrackedAfter(c, initial, round) && AllRoundsSent(c, initial, sent, round) && sent <= log
    requires groups == before + OwnedGroups(c.observe(round), before, c.root)
    requires LogOk(c, log, signalled) && Within(log, groups, round + 1) && AllSent(c, round, groups, log)
    ensures Polled(c, initial, groups, log, signalled, round + 1)
  {
    SentStays(c, initial, sent, log, round);
    assert RoundSent(c, initial, log, round);
  }

  /** The groups that cleanup starts with. */
  function Initial(processGroupId: Option<int>): set<int> {
    if processGroupId.Some? then {processGroupId.value} else {}
  }

  /** What is known when the polling ends in a round that began with the groups `before`: only safe signals
      to tracked groups, each at most once; and every earlier round sent its signal to all that ran. */
  ghost predicate PollEnded(
      c: Settlement, initial: set<int>, end: SettleEnd, log: seq<Sent>, before: set<int>, groups: set<int>, round: nat)
  {
    && AllSafe(c, log) && OnceEach(log) && Within(log, groups, round + 1)
    && before == TrackedAfter(c, initial, round) && AllRoundsSent(c, initial, log, round)
    && Ended(c, end, before, groups, round)
  }

  /** A round of the polling. It is not the last only if the kill deadline has not passed. */
  method PollOnce(
      c: Settlement, initial: set<int>, groups: set<int>, log: seq<Sent>, signalled: map<int, Signal>, round: nat,
      ghost last: nat)
    returns (end: Option<SettleEnd>, groups': set<int>, log': seq<Sent>, signalled': map<int, Signal>)
    requires IsMonotone(c) && c.observe(last).now >= c.killDeadline
    requires Polled(c, initial, groups, log, signalled, round)
    ensures end.Some? ==> PollEnded(c, initial, end.value, log', groups, groups', round)
    ensures end.None? ==> Polled(c, initial, groups', log', signalled', round + 1) && round < last
  {
    end, groups', log', signalled' := Round(c, round, groups, log, signalled);
    if end.Some? {
      SentStays(c, initial, log, log', round);
    } else {
      RoundKeepsPolled(c, initial, groups, groups', log, log', signalled', round);
      assert last <= round ==> c.observe(last).now <= c.observe(round).now;
    }
  }

  /** Polling ends because the clock passes the kill deadline at `last` at the latest. */
  method Poll(c: Settlement, initial: set<int>, ghost last: nat)
    returns (end: SettleEnd, log: seq<Sent>, groups: set<int>, before: set<int>, rounds: nat)
    requires IsMonotone(c) && c.observe(last).now >= c.killDeadline
    ensures 0 < rounds <= last + 1 && PollEnded(c, initial, end, log, before, groups, rounds - 1)
  {
    log, groups, before, rounds := [], initial, initial, 0;
    var signalled: map<int, Signal> := map[];
    PollStarts(c, initial);
    while true
      invariant rounds <= last && Polled(c, initial, groups, log, signalled, rounds)
      decreases last - rounds
    {
      var ended;
      before := groups;
      ended, groups, log, signalled := PollOnce(c, initial, groups, log, signalled, rounds, last);
      rounds := rounds + 1;
      if ended.Some? {
        return ended.value, log, groups, before, rounds;
      }
    }
  }

  lemma PollStarts(c: Settlement, initial: set<int>)
    ensures Polled(c, initial, initial, [], map[], 0)
  {
  }

  /** settleTestProcesses. */
  method SettleTestProcesses(c: Settlement, processGroupId: Option<int>, ghost last: nat)
    returns (end: SettleEnd, log: seq<Sent>, groups: set<int>, before: set<int>, rounds: nat)
    requires IsMonotone(c) && c.observe(last).now >= c.killDeadline
    // in every outcome: only safe signals to tracked groups, and each at most once
    ensures AllSafe(c, log) && OnceEach(log) && Within(log, groups, rounds)
    // nothing is inspected or signalled when the arguments are refused
    ensures end.UnsafeRoot? <==> c.root.Some? && c.root.value != "" && !IsPrivateRoot(c.root.value, c.reserved)
    ensures !end.UnsafeRoot? ==> (end.BadGroup? <==> processGroupId.Some? && processGroupId.value <= 1)
    ensures end.UnsafeRoot? || end.BadGroup? <==> rounds == 0
    // otherwise every round but the last sent its signal to all tracked groups that still ran
    ensures rounds > 0 ==> PollEnded(c, Initial(processGroupId), end, log, before, groups, rounds - 1)
  {
    if c.root.Some? && c.root.value != "" && !IsPrivateRoot(c.root.value, c.reserved) {
      return UnsafeRoot, [], {}, {}, 0;
    }
    if processGroupId.Some? && processGroupId.value <= 1 {
      return BadGroup, [], {}, {}, 0;
    }
    end, log, groups, before, rounds := Poll(c, Initial(processGroupId), last);
  }
}
