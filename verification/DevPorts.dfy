/** Port reservation and bounded startup attempts of scripts/dev-ports.ts. The operating system is an
    oracle: any sequence of answers to the requests, valid or not. */
module DevPorts {
  import opened Wrappers

  const PORT_ALLOCATION_LIMIT := 256

  datatype Ports = Ports(desktopCdp: int, desktopVite: int, server: int, operator: int)

  datatype Preferred =
    Preferred(desktopCdp: Option<int>, desktopVite: Option<int>, server: Option<int>, operator: Option<int>)

  const NO_PREFERENCE := Preferred(None, None, None, None)

  /** What reservePort comes back with. */
  datatype Answer = Port(port: int) | NotAnInteger | Throws

  /** A request to reservePort, with the set of ports that were used up when it was made. */
  datatype Request = Request(preferred: Option<int>, used: set<int>)

  function PortsOf(p: Ports): set<int> {
    {p.desktopCdp, p.desktopVite, p.server, p.operator}
  }

  predicate IsPort(n: int) {
    1 <= n <= 65535
  }

  predicate AllPorts(p: Ports) {
    forall n | n in PortsOf(p) :: IsPort(n)
  }

  predicate Distinct(p: Ports) {
    && p.desktopCdp != p.desktopVite && p.desktopCdp != p.server && p.desktopCdp != p.operator
    && p.desktopVite != p.server && p.desktopVite != p.operator && p.server != p.operator
  }

  type Oracle = (nat, Option<int>) -> Answer

  /** The request was answered with a port that was then in use. */
  predicate Collided(oracle: Oracle, requests: seq<Request>, i: nat)
    requires i < |requests|
  {
    var a := oracle(i, requests[i].preferred);
    a.Port? && IsPort(a.port) && a.port in requests[i].used
  }

  /** Requests `from` up to `to` reserved `port`: the first names the preference if it is unused, all but
      the last collided, and the last was answered with the port. */
  ghost predicate Reserves(
      oracle: Oracle, requests: seq<Request>, from: nat, to: nat, preferred: Option<int>, port: int)
  {
    && from < to <= |requests|
    && requests[from].preferred ==
         (if preferred.Some? && preferred.value !in requests[from].used then preferred else None)
    && (forall i | from <= i < to - 1 :: Collided(oracle, requests, i))
    && oracle(to - 1, requests[to - 1].preferred) == Port(port)
  }

  lemma ReservesStays(
      oracle: Oracle, requests: seq<Request>, later: seq<Request>, from: nat, to: nat, preferred: Option<int>,
      port: int)
    requires Reserves(oracle, requests, from, to, preferred, port) && requests <= later
    ensures Reserves(oracle, later, from, to, preferred, port)
  {
    forall i | from <= i < to - 1 ensures Collided(oracle, later, i) {
      assert Collided(oracle, requests, i);
    }
  }

  /** The four fields were reserved one after another, from request `first` on, each with its preference. */
  ghost predicate ReservesAll(oracle: Oracle, requests: seq<Request>, first: nat, preferred: Preferred, ports: Ports) {
    exists a: nat, b: nat, c: nat ::
      && Reserves(oracle, requests, first, a, preferred.desktopCdp, ports.desktopCdp)
      && Reserves(oracle, requests, a, b, preferred.desktopVite, ports.desktopVite)
      && Reserves(oracle, requests, b, c, preferred.server, ports.server)
      && Reserves(oracle, requests, c, |requests|, preferred.operator, ports.operator)
  }

  lemma AllReserved(
      oracle: Oracle, before: seq<Request>, r1: seq<Request>, r2: seq<Request>, r3: seq<Request>, r4: seq<Request>,
      preferred: Preferred, ports: Ports)
    requires before <= r1 <= r2 <= r3 <= r4
    requires Reserves(oracle, r1, |before|, |r1|, preferred.desktopCdp, ports.desktopCdp)
    requires Reserves(oracle, r2, |r1|, |r2|, preferred.desktopVite, ports.desktopVite)
    requires Reserves(oracle, r3, |r2|, |r3|, preferred.server, ports.server)
    requires Reserves(oracle, r4, |r3|, |r4|, preferred.operator, ports.operator)
    ensures ReservesAll(oracle, r4, |before|, preferred, ports)
  {
    ReservesStays(oracle, r1, r4, |before|, |r1|, preferred.desktopCdp, ports.desktopCdp);
    ReservesStays(oracle, r2, r4, |r1|, |r2|, preferred.desktopVite, ports.desktopVite);
    ReservesStays(oracle, r3, r4, |r2|, |r3|, preferred.server, ports.server);
  }

  /** The requests made so far. The n-th request is answered by `oracle(n, preferred)`. */
  class PortReserver {
    const oracle: Oracle
    var requests: seq<Request>

    constructor (oracle: Oracle)
      ensures this.oracle == oracle && requests == []
    {
      this.oracle := oracle;
      requests := [];
    }

    /** A preferred port is asked for only while it is unused. */
    ghost predicate PreferencesFree()
      reads this
    {
      forall i | 0 <= i < |requests| ::
        requests[i].preferred.Some? ==> requests[i].preferred.value !in requests[i].used
    }

    method Next(used: set<int>, preferred: Option<int>) returns (r: Result<int, ()>)
      requires PreferencesFree()
      modifies this`requests
      ensures PreferencesFree() && old(requests) <= requests
      ensures |requests| <= |old(requests)| + PORT_ALLOCATION_LIMIT
      ensures forall i | |old(requests)| <= i < |requests| :: requests[i].used == used
      // only the first request names the preferred port
      ensures forall i | |old(requests)| < i < |requests| :: requests[i].preferred.None?
      ensures |old(requests)| < |requests|
              && requests[|old(requests)|].preferred ==
                 (if preferred.Some? && preferred.value !in used then preferred else None)
      // the answer is the first that does not collide
      ensures forall i | |old(requests)| <= i < |requests| - 1 :: Collided(oracle, requests, i)
      ensures var last := oracle(|requests| - 1, requests[|requests| - 1].preferred);
        match r
        case Ok(port) => last == Port(port) && IsPort(port) && port !in used
        case Err(_) =>
          if Collided(oracle, requests, |requests| - 1)
          then |requests| == |old(requests)| + PORT_ALLOCATION_LIMIT
          else !last.Port? || !IsPort(last.port)
    {
      var attempt := 0;
      while attempt < PORT_ALLOCATION_LIMIT
        invariant 0 <= attempt <= PORT_ALLOCATION_LIMIT
        invariant PreferencesFree() && old(requests) <= requests && |requests| == |old(requests)| + attempt
        invariant forall i | |old(requests)| <= i < |requests| ::
            requests[i].used == used && Collided(oracle, requests, i)
        invariant forall i | |old(requests)| < i < |requests| :: requests[i].preferred.None?
        invariant attempt > 0 ==> requests[|old(requests)|].preferred ==
                                  (if preferred.Some? && preferred.value !in used then preferred else None)
      {
        var wanted := if attempt == 0 && preferred.Some? && preferred.value !in used then preferred else None;
        var answer := oracle(|requests|, wanted);
        requests := requests + [Request(wanted, used)];
        if !answer.Port? || !IsPort(answer.port) {
          return Err(());
        }
        if answer.port !in used {
          return Ok(answer.port);
        }
        attempt := attempt + 1;
      }
      r := Err(());
    }

    method ReserveDevPorts(excludedPorts: set<int>, preferred: Preferred) returns (r: Result<Ports, ()>)
      requires PreferencesFree()
      modifies this`requests
      ensures PreferencesFree() && old(requests) <= requests
      ensures |requests| <= |old(requests)| + 4 * PORT_ALLOCATION_LIMIT
      ensures r.Ok? ==> Distinct(r.value) && AllPorts(r.value) && PortsOf(r.value) !! excludedPorts
      // each field was reserved, in this order, with the preference of that field
      ensures r.Ok? ==> ReservesAll(oracle, requests, |old(requests)|, preferred, r.value)
      // whatever was excluded is in use for every request
      ensures forall i | |old(requests)| <= i < |requests| :: excludedPorts <= requests[i].used
    {
      var used := excludedPorts;
      var cdp := Next(used, preferred.desktopCdp);
      if cdp.Err? { return Err(()); }
      used := used + {cdp.value};
      ghost var r1 := requests;
      assert Reserves(oracle, r1, |old(requests)|, |r1|, preferred.desktopCdp, cdp.value);
      var vite := Next(used, preferred.desktopVite);
      if vite.Err? { return Err(()); }
      used := used + {vite.value};
      ghost var r2 := requests;
      assert Reserves(oracle, r2, |r1|, |r2|, preferred.desktopVite, vite.value);
      var server := Next(used, preferred.server);
      if server.Err? { return Err(()); }
      used := used + {server.value};
      ghost var r3 := requests;
      assert Reserves(oracle, r3, |r2|, |r3|, preferred.server, server.value);
      var operator := Next(used, preferred.operator);
      if operator.Err? { return Err(()); }
      assert Reserves(oracle, requests, |r3|, |requests|, preferred.operator, operator.value);
      var ports := Ports(cdp.value, vite.value, server.value, operator.value);
      AllReserved(oracle, old(requests), r1, r2, r3, requests, preferred, ports);
      r := Ok(ports);
    }
  }

  // ---------------------------------------------------------------------------------------------
  // Startup attempts

  /** How the start callback ends. */
  datatype StartOutcome = Started | AttemptFailed | Failed

  /** What the loop of runDevStartupAttempts calls, with the outcome. */
  datatype Occurrence = Allocated(ports: Ports) | StartTried(attempt: nat, outcome: StartOutcome)
      | AllocationReleased(ok: bool)

  datatype Startup =
    | Ready(attempt: nat)
    | Exhausted
    | StartThrew
    | AllocationThrew
    | ReleaseThrew
    | InvalidLimit

  /** Each allocation is followed by one start and one release before anything else happens. */
  ghost predicate Paired(log: seq<Occurrence>)
    decreases |log|
  {
    log == [] ||
    (|log| >= 3 && log[|log| - 3].Allocated? && log[|log| - 2].StartTried? && log[|log| - 1].AllocationReleased?
     && Paired(log[..|log| - 3]))
  }

  function AllocatedPorts(log: seq<Occurrence>): seq<Ports> {
    if log == [] then []
    else if log[|log| - 1].Allocated? then AllocatedPorts(log[..|log| - 1]) + [log[|log| - 1].ports]
    else AllocatedPorts(log[..|log| - 1])
  }

  ghost predicate PairwiseDisjoint(plans: seq<Ports>) {
    forall i, j | 0 <= i < j < |plans| :: PortsOf(plans[i]) !! PortsOf(plans[j])
  }

  /** All ports are valid, and no two of all the attempts are the same. */
  ghost predicate WellAllocated(plans: seq<Ports>) {
    PairwiseDisjoint(plans) && forall i | 0 <= i < |plans| :: Distinct(plans[i]) && AllPorts(plans[i])
  }

  /** The first attempts failed in the way that permits another. */
  ghost predicate AllowedOn(plans: seq<Ports>, start: (nat, Ports) -> StartOutcome, attempts: int) {
    forall i | 0 <= i < attempts && i < |plans| :: start(i + 1, plans[i]).AttemptFailed?
  }

  ghost predicate Excluded(plans: seq<Ports>, excludedPorts: set<int>) {
    forall i | 0 <= i < |plans| :: PortsOf(plans[i]) <= excludedPorts
  }

  lemma OneMoreAttempt(plans: seq<Ports>, ports: Ports, excludedPorts: set<int>)
    requires WellAllocated(plans) && Excluded(plans, excludedPorts)
    requires Distinct(ports) && AllPorts(ports) && PortsOf(ports) !! excludedPorts
    ensures WellAllocated(plans + [ports]) && Excluded(plans + [ports], excludedPorts + PortsOf(ports))
  {
  }

  /** How the startup ends, after `n` attempts. */
  ghost predicate StartupEnds(
      r: Startup, plans: seq<Ports>, maxAttempts: int, start: (nat, Ports) -> StartOutcome, release: nat -> bool)
  {
    var n := |plans|;
    match r
    case Ready(attempt) => attempt == n && n > 0 && start(n, plans[n - 1]).Started? && release(n)
    case Exhausted => n == maxAttempts && n > 0 && start(n, plans[n - 1]).AttemptFailed?
    case StartThrew => n > 0 && start(n, plans[n - 1]).Failed? && release(n)
    case AllocationThrew => n < maxAttempts && (n > 0 ==> start(n, plans[n - 1]).AttemptFailed?)
    case ReleaseThrew => n > 0 && !release(n)
    case InvalidLimit => maxAttempts < 1 && n == 0
  }

  /** How an attempt with these ports ends, if it ends the startup. */
  function AttemptEnd(
      attempt: nat, ports: Ports, start: (nat, Ports) -> StartOutcome, release: nat -> bool): Option<Startup>
  {
    if !release(attempt) then Some(ReleaseThrew)
    else match start(attempt, ports)
         case Started => Some(Ready(attempt))
         case Failed => Some(StartThrew)
         case AttemptFailed => None
  }

  /** What is known after the attempts with these ports, all of which permitted another. */
  ghost predicate MayGoOn(
      log: seq<Occurrence>, plans: seq<Ports>, excludedPorts: set<int>, start: (nat, Ports) -> StartOutcome)
  {
    && Paired(log) && AllocatedPorts(log) == plans
    && WellAllocated(plans) && Excluded(plans, excludedPorts) && AllowedOn(plans, start, |plans|)
  }

  lemma AttemptRecorded(
      log: seq<Occurrence>, plans: seq<Ports>, excludedPorts: set<int>, ports: Ports,
      maxAttempts: int, start: (nat, Ports) -> StartOutcome, release: nat -> bool)
    requires MayGoOn(log, plans, excludedPorts, start)
    requires Distinct(ports) && AllPorts(ports) && PortsOf(ports) !! excludedPorts
    ensures var attempt := |plans| + 1;
            var outcome := start(attempt, ports);
            var released := release(attempt);
            var log' := log + [Allocated(ports)] + [StartTried(attempt, outcome)] + [AllocationReleased(released)];
            var plans' := plans + [ports];
            var end := AttemptEnd(attempt, ports, start, release);
            && Paired(log') && AllocatedPorts(log') == plans' && WellAllocated(plans')
                && AllowedOn(plans', start, |plans|)
            && (end.None? ==> MayGoOn(log', plans', excludedPorts + PortsOf(ports), start))
            && (end.Some? ==> StartupEnds(end.value, plans', maxAttempts, start, release))
  {
    OneMoreAttempt(plans, ports, excludedPorts);
    LogAttempt(log, ports, |plans| + 1, start(|plans| + 1, ports), release(|plans| + 1));
  }

  /** The callbacks of one startup. They record the calls; the outcomes are those of the oracles for the n-th
      attempt, and the preferred ports are read before each. */
  class Callbacks {
    const reserver: PortReserver
    const preferred: nat -> Preferred
    const start: (nat, Ports) -> StartOutcome
    const release: nat -> bool
    var log: seq<Occurrence>

    constructor (
        reserver: PortReserver, preferred: nat -> Preferred, start: (nat, Ports) -> StartOutcome, release: nat -> bool)
      ensures this.reserver == reserver && this.preferred == preferred && this.start == start && this.release == release
      ensures log == []
    {
      this.reserver, this.preferred, this.start, this.release, log := reserver, preferred, start, release, [];
    }

    method Allocate(attempt: nat, excludedPorts: set<int>) returns (r: Result<Ports, ()>)
      requires reserver.PreferencesFree()
      modifies this`log, reserver`requests
      ensures reserver.PreferencesFree()
      ensures log == if r.Ok? then old(log) + [Allocated(r.value)] else old(log)
      ensures r.Ok? ==> Distinct(r.value) && AllPorts(r.value) && PortsOf(r.value) !! excludedPorts
    {
      r := reserver.ReserveDevPorts(excludedPorts, preferred(attempt));
      if r.Ok? {
        log := log + [Allocated(r.value)];
      }
    }

    method Start(attempt: nat, ports: Ports) returns (outcome: StartOutcome)
      modifies `log
      ensures outcome == start(attempt, ports) && log == old(log) + [StartTried(attempt, outcome)]
    {
      outcome := start(attempt, ports);
      log := log + [StartTried(attempt, outcome)];
    }

    method Release(attempt: nat) returns (ok: bool)
      modifies `log
      ensures ok == release(attempt) && log == old(log) + [AllocationReleased(ok)]
    {
      ok := release(attempt);
      log := log + [AllocationReleased(ok)];
    }
  }

  /** The loop of runDevStartupAttempts. */
  method RunDevStartupAttempts(callbacks: Callbacks, maxAttempts: int) returns (r: Startup, ghost plans: seq<Ports>)
    requires callbacks.log == [] && callbacks.reserver.PreferencesFree()
    modifies callbacks`log, callbacks.reserver`requests
    ensures callbacks.reserver.PreferencesFree()
    // whatever is thrown, each allocation was followed by one start and one release
    ensures Paired(callbacks.log) && AllocatedPorts(callbacks.log) == plans
    ensures WellAllocated(plans) && (|plans| <= maxAttempts || callbacks.log == [])
    // every attempt but the last failed in the way that permits another
    ensures AllowedOn(plans, callbacks.start, |plans| - 1)
    ensures StartupEnds(r, plans, maxAttempts, callbacks.start, callbacks.release)
  {
    plans := [];
    if maxAttempts < 1 {
      return InvalidLimit, plans;
    }
    var excludedPorts: set<int> := {};
    var attempt := 1;
    while attempt <= maxAttempts
      invariant 1 <= attempt <= maxAttempts + 1 && |plans| == attempt - 1
      invariant callbacks.reserver.PreferencesFree() && MayGoOn(callbacks.log, plans, excludedPorts, callbacks.start)
    {
      ghost var before := callbacks.log;
      var allocation := callbacks.Allocate(attempt, excludedPorts);
      if allocation.Err? {
        return AllocationThrew, plans;
      }
      var ports := allocation.value;
      AttemptRecorded(before, plans, excludedPorts, ports, maxAttempts, callbacks.start, callbacks.release);
      excludedPorts := excludedPorts + PortsOf(ports);
      plans := plans + [ports];
      var outcome := callbacks.Start(attempt, ports);
      var released := callbacks.Release(attempt);
      if !released {
        return ReleaseThrew, plans;
      }
      match outcome {
        case Started => return Ready(attempt), plans;
        case Failed => return StartThrew, plans;
        case AttemptFailed =>
      }
      attempt := attempt + 1;
    }
    r := Exhausted;
  }

  lemma LogAttempt(log: seq<Occurrence>, ports: Ports, attempt: nat, outcome: StartOutcome, released: bool)
    ensures var log' := log + [Allocated(ports)] + [StartTried(attempt, outcome)] + [AllocationReleased(released)];
            AllocatedPorts(log') == AllocatedPorts(log) + [ports] && (Paired(log) ==> Paired(log'))
  {
    var one := log + [Allocated(ports)];
    var two := one + [StartTried(attempt, outcome)];
    var three := two + [AllocationReleased(released)];
    assert one[..|one| - 1] == log && two[..|two| - 1] == one && three[..|three| - 1] == two;
    assert AllocatedPorts(one) == AllocatedPorts(log) + [ports];
    assert AllocatedPorts(two) == AllocatedPorts(one) && AllocatedPorts(three) == AllocatedPorts(two);
    assert three[..|three| - 3] == log;
  }
}
