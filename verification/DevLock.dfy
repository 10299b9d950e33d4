/** The development lock of scripts/dev-runtime.ts as a step relation.

    Any number of processes run any number of acquisition calls. A step is one file operation or one
    liveness probe of one call, or an event of the surroundings: a process is born (possibly with the
    pid of a dead one), a process dies, the set of live process groups changes, a call throws.

    Assumptions: link, rename and unlink are atomic; a random UUID is never drawn twice; the truncated
    hash `contentIdentity` is injective, so that a generation is the chain it was computed from; calls
    on one handle are made one after another. */
module DevLock {
  import opened Wrappers

  type Token = nat

  /** One run of a process: unlike its pid, it is never used again. Process 0 stands for the past. */
  type Process = nat

  datatype LockOwner = LockOwner(pid: int, token: Option<Token>, group: Option<int>)

  /** The text of the lock file: what this code writes, or text found there that it did not write,
      with the fields that JSON.parse finds in it. */
  datatype Content =
    | Written(pid: int, token: Token, group: Option<int>)
    | Foreign(text: string, fields: Option<LockOwner>)

  function ParseLockOwner(c: Content): Option<LockOwner> {
    match c
    case Written(pid, token, group) => Some(LockOwner(pid, Some(token), group))
    case Foreign(_, fields) =>
      if fields.Some? && fields.value.group.Some? && fields.value.group.value <= 0 then None else fields
  }

  datatype Claim = Claim(pid: int, token: Token)

  /** The name of a claim file: the stale content, or an earlier claim file and the claim read in it. */
  datatype Generation = Root(stale: Content) | Next(prev: Generation, claim: Claim)

  /** Where an acquisition call stands: the operation it performs next. */
  datatype Pc =
    | Linking
    | Reading
    | CheckingPid(stale: Content)
    | CheckingGroup(stale: Content)
    | LiveOwner(stale: Content)
    | Replacing(stale: Content)
    | AwaitingLauncher(stale: Content)
    | Claiming(stale: Content, gen: Generation)
    | ReadingClaim(stale: Content, gen: Generation)
    | CheckingClaim(stale: Content, gen: Generation, claim: Claim)
    | Rereading(stale: Content, gen: Generation, mine: Token)
    | RecheckingPid(stale: Content, gen: Generation, mine: Token)
    | RecheckingGroup(stale: Content, gen: Generation, mine: Token)
    | Unlinking(stale: Content, gen: Generation, mine: Token)
    | Held
    | BindReading(group: int)
    | BindRenaming(group: int)
    | ReleaseReading
    | ReleaseUnlinking
    | Released
    | Failed

  /** One call of acquireDevInstanceLock; it is named by the token it drew. `group` is the process group
      that the handle last bound. */
  datatype Call = Call(process: Process, pid: int, replaceExisting: bool, group: Option<int>, pc: Pc)

  /** Which process drew a token, and for which call. */
  datatype Draw = Draw(process: Process, call: Token)

  datatype State = State(
    lock: Option<Content>,
    claims: map<Generation, Claim>,
    live: map<Process, int>,
    groups: set<int>,
    next: Process,
    drawn: map<Token, Draw>,
    calls: map<Token, Call>)
  {
    predicate PidIsLive(pid: int) {
      pid > 0 && pid in live.Values
    }

    predicate GroupIsLive(group: int) {
      group in groups
    }

    /** The call exists and its process still runs. */
    predicate Runs(t: Token) {
      t in calls && calls[t].process in live
    }

    function At(t: Token, pc: Pc): State
      requires t in calls
    {
      this.(calls := calls[t := calls[t].(pc := pc)])
    }
  }

  datatype Action =
    | Birth(pid: int)
    | Death(process: Process)
    | Groups(groups: set<int>)
    | Start(process: Process, token: Token, replaceExisting: bool)
    | Advance(call: Token, uuid: Token)
    | Throw(call: Token)
    | Bind(call: Token, group: int)
    | Release(call: Token)

  /** The handle exists: publishAtomicFile returned true and release has not finished. */
  predicate HasLock(pc: Pc) {
    pc.Held? || pc.BindReading? || pc.BindRenaming? || pc.ReleaseReading? || pc.ReleaseUnlinking?
  }

  predicate Idle(pc: Pc) {
    pc.Held? || pc.Released? || pc.Failed?
  }

  /** A live acquisition that holds the lock. */
  predicate Holds(s: State, t: Token) {
    s.Runs(t) && HasLock(s.calls[t].pc)
  }

  predicate Enabled(s: State, a: Action) {
    match a
    case Birth(pid) => pid > 0 && pid !in s.live.Values
    case Death(q) => q in s.live
    case Groups(_) => true
    case Start(q, t, _) => q in s.live && t !in s.drawn
    case Advance(t, uuid) =>
      s.Runs(t) && !Idle(s.calls[t].pc)
      && (s.calls[t].pc.Claiming? ==> uuid !in s.drawn)
    case Throw(t) => s.Runs(t) && !Idle(s.calls[t].pc)
    case Bind(t, _) => s.Runs(t) && (s.calls[t].pc.Held? || s.calls[t].pc.Released?)
    case Release(t) => s.Runs(t) && (s.calls[t].pc.Held? || s.calls[t].pc.Released?)
  }

  function GroupOf(c: Content): Option<int> {
    var owner := ParseLockOwner(c);
    if owner.Some? then owner.value.group else None
  }

  function Apply(s: State, a: Action): State
    requires Enabled(s, a)
  {
    match a
    case Birth(pid) => s.(live := s.live[s.next := pid], next := s.next + 1)
    case Death(q) => s.(live := s.live - {q})
    case Groups(groups) => s.(groups := groups)
    case Start(q, t, replaceExisting) => Begin(s, q, t, replaceExisting)
    case Advance(t, uuid) => Perform(s, t, uuid)
    case Throw(t) =>
      var pc := s.calls[t].pc;
      s.At(t, if pc.BindReading? || pc.BindRenaming? then Held
              else if pc.ReleaseReading? || pc.ReleaseUnlinking? then Released
              else Failed)
    case Bind(t, group) => CallBind(s, t, group)
    case Release(t) => CallRelease(s, t)
  }

  /** acquireDevInstanceLock is called. */
  function Begin(s: State, q: Process, t: Token, replaceExisting: bool): State
    requires q in s.live
  {
    s.(drawn := s.drawn[t := Draw(q, t)],
       calls := s.calls[t := Call(q, s.live[q], replaceExisting, None, Linking)])
  }

  /** bindProcessGroup is called: it refuses a released handle and a group that is not positive. */
  function CallBind(s: State, t: Token, group: int): State
    requires t in s.calls
  {
    if s.calls[t].pc.Held? && group > 0 then s.At(t, BindReading(group)) else s
  }

  /** release is called: it does nothing the second time. */
  function CallRelease(s: State, t: Token): State
    requires t in s.calls
  {
    if s.calls[t].pc.Held? then s.At(t, ReleaseReading) else s
  }

  /** The next operation of call `t`: what it does to the files, and where the call stands after it. */
  function Perform(s: State, t: Token, uuid: Token): State
    requires Enabled(s, Advance(t, uuid))
  {
    var call := s.calls[t];
    s.(lock := LockAfter(s, t),
       claims := if Publishes(s, t) then s.claims[call.pc.gen := Claim(call.pid, uuid)] else s.claims,
       drawn := if call.pc.Claiming? then s.drawn[uuid := Draw(call.process, t)] else s.drawn,
       calls := s.calls[t := call.(pc := PcAfter(s, t, uuid), group := GroupAfter(call))])
  }

  /** The link of the claim candidate succeeds. */
  predicate Publishes(s: State, t: Token)
    requires t in s.calls
  {
    s.calls[t].pc.Claiming? && s.calls[t].pc.gen !in s.claims
  }

  function GroupAfter(call: Call): Option<int> {
    if call.pc.BindRenaming? then Some(call.pc.group) else call.group
  }

  function LockAfter(s: State, t: Token): Option<Content>
    requires t in s.calls
  {
    var call := s.calls[t];
    match call.pc
    case Linking => if s.lock.None? then Some(Written(call.pid, t, None)) else s.lock
    case Unlinking(_, _, _) => None
    case BindRenaming(group) => Some(Written(call.pid, t, Some(group)))
    case ReleaseUnlinking => None
    case _ => s.lock
  }

  function PcAfter(s: State, t: Token, uuid: Token): Pc
    requires t in s.calls
  {
    var call := s.calls[t];
    match call.pc
    case Linking => if s.lock.None? then Held else Reading
    case Reading => if s.lock.None? then Linking else CheckingPid(s.lock.value)
    case CheckingPid(stale) =>
      if RecordedPidIsLive(s, stale) then LiveOwner(stale)
      else if GroupOf(stale).None? then Claiming(stale, Root(stale))
      else CheckingGroup(stale)
    case CheckingGroup(stale) =>
      if RecordedGroupIsLive(s, stale) then LiveOwner(stale) else Claiming(stale, Root(stale))
    case LiveOwner(stale) =>
      if call.replaceExisting && ParseLockOwner(stale).Some? && ParseLockOwner(stale).value.pid != call.pid
         && RecordedGroupIsLive(s, stale)
      then Replacing(stale)
      else Failed
    // terminateDevProcessGroup goes on probing, and returns only once a probe saw the group gone
    case Replacing(stale) => if RecordedGroupIsLive(s, stale) then Replacing(stale) else AwaitingLauncher(stale)
    case AwaitingLauncher(stale) => if RecordedPidIsLive(s, stale) then Failed else Linking
    case Claiming(stale, gen) =>
      if gen !in s.claims then Rereading(stale, gen, uuid) else ReadingClaim(stale, gen)
    case ReadingClaim(stale, gen) =>
      if gen in s.claims then CheckingClaim(stale, gen, s.claims[gen]) else Claiming(stale, gen)
    case CheckingClaim(stale, gen, claim) =>
      if s.PidIsLive(claim.pid) then Linking else Claiming(stale, Next(gen, claim))
    case Rereading(stale, gen, mine) =>
      if s.lock == Some(stale) then RecheckingPid(stale, gen, mine) else Linking
    case RecheckingPid(stale, gen, mine) =>
      if RecordedPidIsLive(s, stale) then Linking
      else if GroupOf(stale).None? then Unlinking(stale, gen, mine)
      else RecheckingGroup(stale, gen, mine)
    case RecheckingGroup(stale, gen, mine) =>
      if RecordedGroupIsLive(s, stale) then Linking else Unlinking(stale, gen, mine)
    case Unlinking(_, _, _) => Linking
    case BindReading(group) => if OwnedBy(s.lock, call.pid, t) then BindRenaming(group) else Held
    case BindRenaming(_) => Held
    case ReleaseReading => if OwnedBy(s.lock, call.pid, t) then ReleaseUnlinking else Released
    case ReleaseUnlinking => Released
    case Held => Held
    case Released => Released
    case Failed => Failed
  }

  predicate RecordedPidIsLive(s: State, c: Content) {
    ParseLockOwner(c).Some? && s.PidIsLive(ParseLockOwner(c).value.pid)
  }

  predicate RecordedGroupIsLive(s: State, c: Content) {
    GroupOf(c).Some? && s.GroupIsLive(GroupOf(c).value)
  }

  /** The lock file names this pid and this token, as bindProcessGroup and release require. */
  predicate OwnedBy(lock: Option<Content>, pid: int, token: Token) {
    && lock.Some?
    && ParseLockOwner(lock.value).Some?
    && ParseLockOwner(lock.value).value.pid == pid
    && ParseLockOwner(lock.value).value.token == Some(token)
  }

  /** Nothing has run yet. The lock file may hold any leftover, and there may be chains of claim files, all
      with tokens drawn in the past; their pids may be in use again. */
  predicate Init(s: State) {
    && s.next > 0
    && (forall q :: q in s.live ==> 0 < q < s.next && s.live[q] > 0)
    && (forall k :: k in s.drawn ==> s.drawn[k].process == 0)
    && (forall g :: g in s.claims ==> s.claims[g].token in s.drawn && Continues(s.claims, g))
    && s.calls == map[]
    && (s.lock.Some? && ParseLockOwner(s.lock.value).Some? && ParseLockOwner(s.lock.value).value.token.Some?
        ==> ParseLockOwner(s.lock.value).value.token.value in s.drawn)
  }

  /** A later claim file was named after an earlier one. */
  predicate Continues(claims: map<Generation, Claim>, gen: Generation) {
    gen.Next? ==> gen.prev in claims && claims[gen.prev] == gen.claim
  }

  ghost predicate Follows(s: State, s': State) {
    exists a :: Enabled(s, a) && s' == Apply(s, a)
  }

  /** A sequence of states in which each follows from the one before by a step. */
  ghost predicate IsRun(run: seq<State>) {
    |run| > 0 && forall i {:trigger Follows(run[i], run[i + 1])} :: 0 <= i < |run| - 1 ==> Follows(run[i], run[i + 1])
  }

  ghost predicate Reachable(s: State) {
    exists run :: IsRun(run) && Init(run[0]) && run[|run| - 1] == s
  }
}
