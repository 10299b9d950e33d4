/** Publishing to the registry and the repair of a misplaced channel (scripts/release-packages.ts), while
    others may change the registry between any two network operations of the repair. */
module Channels {
  import opened Wrappers
  import opened ReleaseVersion
  import opened Publication

  // ---------------------------------------------------------------------------------------------
  // bootstrapLatestRemovals

  /** /^\d+\.\d+\.\d+$/: looser than the versions that are accepted, since a zero may lead. */
  predicate IsStableKey(version: string) {
    var parts := Split(version, '.');
    |parts| == 3 && forall p | p in parts :: p != "" && AllDigits(p)
  }

  /** Whether the package's `latest` is to be removed. */
  function CheckRepair(pkg: Artifact, e: Entry): Result<bool, Refusal> {
    var tag := NpmReleaseTag(pkg.version);
    if tag.Err? then Err(tag.error)
    else if tag.value != ALPHA then Ok(false)
    else if ALPHA !in e.tags || e.tags[ALPHA] != pkg.version then Err(WrongAlpha)
    else if LATEST !in e.tags || e.tags[LATEST] != pkg.version then Ok(false)
    else if exists v | v in e.versions :: IsStableKey(v) then Err(StableExists)
    else Ok(true)
  }

  function Removals(packages: seq<Artifact>, registered: seq<Entry>): Result<seq<Artifact>, Refusal>
    requires |registered| == |packages|
  {
    if packages == [] then Ok([])
    else
      var n := |packages| - 1;
      var before := Removals(packages[..n], registered[..n]);
      if before.Err? then before
      else
        var check := CheckRepair(packages[n], registered[n]);
        if check.Err? then Err(check.error)
        else Ok(if check.value then before.value + [packages[n]] else before.value)
  }

  function BootstrapLatestRemovals(packages: seq<Artifact>, registered: seq<Entry>): Result<seq<Artifact>, Refusal>
    requires |registered| == |packages|
  {
    var plan := PublicationPlan(packages, registered);
    if plan.Err? then Err(plan.error)
    else if plan.value != [] then Err(Unpublished)
    else Removals(packages, registered)
  }

  /** Every version is published with its content, and every repair check passes. */
  predicate Repairable(registry: Registry, p: Artifact) {
    CheckPackage(p, Registered(registry, p.name)) == Ok(false) && CheckRepair(p, Registered(registry, p.name)).Ok?
  }

  lemma {:induction false} RemovalsHold(registry: Registry, packages: seq<Artifact>)
    ensures var r := Removals(packages, LookupAll(registry, packages));
      && (r.Ok? <==> forall p | p in packages :: CheckRepair(p, Registered(registry, p.name)).Ok?)
      && (r.Ok? ==> forall p :: p in r.value <==>
          p in packages && CheckRepair(p, Registered(registry, p.name)) == Ok(true))
  {
    if packages != [] {
      var n := |packages| - 1;
      RemovalsHold(registry, packages[..n]);
      assert LookupAll(registry, packages)[..n] == LookupAll(registry, packages[..n]);
      LastOf(packages);
    }
  }

  lemma PlanIsEmpty(registry: Registry, packages: seq<Artifact>)
    ensures Plan(registry, packages) == Ok([]) <==>
            forall p | p in packages :: CheckPackage(p, Registered(registry, p.name)) == Ok(false)
  {
    PlanHolds(registry, packages);
    forall p | p in packages ensures CheckPackage(p, Registered(registry, p.name)).Ok? ==>
        (CheckPackage(p, Registered(registry, p.name)).value <==> p.version !in Registered(registry, p.name).versions) {
      CheckMeans(p, Registered(registry, p.name));
    }
    var plan := Plan(registry, packages);
    assert plan.Ok? && plan.value != [] ==> plan.value[0] in plan.value;
  }

  /** The whole inventory is checked: one package that cannot be repaired refuses all of them. */
  lemma RefusesAsAWhole(registry: Registry, packages: seq<Artifact>)
    ensures var r := BootstrapLatestRemovals(packages, LookupAll(registry, packages));
      && (r.Ok? <==> AllRepairable(registry, packages))
      && (r.Ok? ==> forall p :: p in r.value <==> p in packages && IsToRepair(p, Registered(registry, p.name)))
  {
    PlanIsEmpty(registry, packages);
    RemovalsHold(registry, packages);
  }

  // ---------------------------------------------------------------------------------------------
  // The repair

  /** How `npm dist-tag rm` ends: whether the tag is gone, and whether the command says so. */
  datatype Removal = Removal(applied: bool, reported: bool)

  datatype RepairEnd = Repaired | Refused | CommandFailed

  /** What others do to the registry in the n-th round: before its lookup, and between that and its command. */
  datatype Others = Others(beforeLookup: (nat, Registry) -> Registry, beforeCommand: (nat, Registry) -> Registry)

  /** One round: the registry that the lookup saw, the one that the command met if it was issued, and the
      one that the round left. */
  datatype Occasion = Occasion(package: Artifact, seen: Registry, met: Option<Registry>, left: Registry)

  function RemoveLatestAt(registry: Registry, name: string): Registry {
    registry[name := RemoveLatest(Registered(registry, name))]
  }

  /** What happened to the registry in the round: the command removed whatever `latest` it met. */
  ghost predicate IsOccasion(n: nat, before: Registry, o: Occasion, others: Others, command: Removal) {
    && o.seen == others.beforeLookup(n, before)
    && match o.met
       case None => o.left == o.seen
       case Some(met) =>
         met == others.beforeCommand(n, o.seen)
         && o.left == if command.applied then RemoveLatestAt(met, o.package.name) else met
  }

  /** The command was issued exactly if the lookup found the package still to be repaired. */
  ghost predicate IsDecided(o: Occasion) {
    o.met.Some? <==> IsToRepair(o.package, Registered(o.seen, o.package.name))
  }

  ghost predicate AllDecided(trace: seq<Occasion>) {
    forall o | o in trace :: IsDecided(o)
  }

  /** The registry after the rounds. */
  function Left(before: Registry, trace: seq<Occasion>): Registry {
    if trace == [] then before else trace[|trace| - 1].left
  }

  /** The rounds of the loop, which account for all that happened to the registry. */
  ghost predicate IsTrace(
      before: Registry, todo: seq<Artifact>, trace: seq<Occasion>, others: Others, commands: nat -> Removal)
    decreases |trace|
  {
    trace == [] ||
    (var n := |trace| - 1;
     && n < |todo| && trace[n].package == todo[n]
     && IsTrace(before, todo, trace[..n], others, commands)
     && IsOccasion(n, Left(before, trace[..n]), trace[n], others, commands(n)))
  }

  /** The round did not end the repair. */
  predicate PassedOn(o: Occasion, command: Removal) {
    Repairable(o.seen, o.package) && (o.met.Some? ==> command.reported)
  }

  ghost predicate AllPassedOn(trace: seq<Occasion>, commands: nat -> Removal)
    decreases |trace|
  {
    trace == [] ||
    (var n := |trace| - 1; AllPassedOn(trace[..n], commands) && PassedOn(trace[n], commands(n)))
  }

  /** How the loop ended: after all rounds, or in the last of them. */
  ghost predicate RepairEnds(end: RepairEnd, todo: seq<Artifact>, trace: seq<Occasion>, commands: nat -> Removal) {
    if end.Repaired? then |trace| == |todo| && AllPassedOn(trace, commands)
    else
      && trace != []
      && var n := |trace| - 1;
         AllPassedOn(trace[..n], commands)
         && if end.Refused? then !Repairable(trace[n].seen, trace[n].package)
            else Repairable(trace[n].seen, trace[n].package) && trace[n].met.Some? && !commands(n).reported
  }

  class NpmRegistry {
    var entries: Registry

    constructor (entries: Registry)
      ensures this.entries == entries
    {
      this.entries := entries;
    }

    /** The loop of publishReleasePackages: `outcomes` says for the n-th publication whether npm accepts it,
        promotes it, and reports success. A success report means that npm accepted. */
    method PublishPending(
        pending: seq<Artifact>, tag: string, accepts: nat -> bool, promotes: nat -> bool, reports: nat -> bool)
      returns (ok: bool, ghost accepted: nat)
      requires forall n :: reports(n) ==> accepts(n)
      modifies this
      // whatever happens, a first part of the plan has been accepted, and all of it after success
      ensures accepted <= |pending| && entries == PublishAll(old(entries), pending[..accepted], tag, promotes)
      ensures ok ==> accepted == |pending|
      ensures !ok ==> exists n: nat :: n < |pending| && !reports(n) && accepted == (if accepts(n) then n + 1 else n)
    {
      var n := 0;
      while n < |pending|
        invariant 0 <= n <= |pending| && entries == PublishAll(old(entries), pending[..n], tag, promotes)
      {
        assert pending[..n + 1][..n] == pending[..n];
        if accepts(n) {
          entries := Publish(entries, pending[n], tag, promotes(n));
        }
        if !reports(n) {
          return false, if accepts(n) then n + 1 else n;
        }
        n := n + 1;
      }
      return true, n;
    }

    /** One round of the loop: the lookup and recheck of one package, and its `npm dist-tag rm`. */
    method RepairOne(pkg: Artifact, n: nat, others: Others, command: Removal)
      returns (end: RepairEnd, ghost o: Occasion)
      modifies this
      ensures o.package == pkg && IsOccasion(n, old(entries), o, others, command) && entries == o.left && IsDecided(o)
      ensures end.Repaired? <==> PassedOn(o, command)
      ensures end.Refused? <==> !Repairable(o.seen, pkg)
      ensures end.CommandFailed? ==> o.met.Some? && !command.reported
    {
      entries := others.beforeLookup(n, entries);
      var current := Registered(entries, pkg.name);
      o := Occasion(pkg, entries, None, entries);
      Recheck(pkg, current);
      var again := BootstrapLatestRemovals([pkg], [current]);
      if again.Err? {
        return Refused, o;
      }
      if again.value == [] {
        return Repaired, o;
      }
      entries := others.beforeCommand(n, entries);
      o := o.(met := Some(entries));
      if command.applied {
        entries := RemoveLatestAt(entries, pkg.name);
      }
      o := o.(left := entries);
      end := if command.reported then Repaired else CommandFailed;
    }

    /** The loop over the removals that the check of the inventory found. */
    method RemoveAccidental(todo: seq<Artifact>, others: Others, commands: nat -> Removal)
      returns (end: RepairEnd, ghost trace: seq<Occasion>)
      modifies this
      ensures IsTrace(old(entries), todo, trace, others, commands) && entries == Left(old(entries), trace)
      ensures AllDecided(trace) && RepairEnds(end, todo, trace, commands)
    {
      ghost var before := entries;
      trace := [];
      var n := 0;
      while n < |todo|
        invariant 0 <= n <= |todo| && |trace| == n && entries == Left(before, trace)
        invariant IsTrace(before, todo, trace, others, commands) && AllDecided(trace) && AllPassedOn(trace, commands)
      {
        ghost var o;
        end, o := RepairOne(todo[n], n, others, commands(n));
        OneMoreRound(before, todo, trace, others, commands, o);
        trace := trace + [o];
        if !end.Repaired? {
          RepairStops(todo, trace, commands, end);
          return;
        }
        n := n + 1;
      }
      end := Repaired;
    }

    /** reconcileBootstrapChannels. */
    method ReconcileBootstrapChannels(packages: seq<Artifact>, others: Others, commands: nat -> Removal)
      returns (end: RepairEnd, ghost trace: seq<Occasion>)
      modifies this
      // refused as a whole: the check of the inventory comes before the first mutation
      ensures !AllRepairable(old(entries), packages) ==> end == Refused && trace == [] && entries == old(entries)
      // otherwise the registry is what the rounds made of it, each on the strength of its own lookup
      ensures AllRepairable(old(entries), packages) ==>
                var todo := ToRepair(old(entries), packages);
                && IsTrace(old(entries), todo, trace, others, commands) && entries == Left(old(entries), trace)
                && AllDecided(trace) && RepairEnds(end, todo, trace, commands)
      // if nobody interferes, nothing is refused after the first mutation, and success repairs everything
      ensures UniquelyNamed(packages) && Quiet(others) && AreTruthful(commands) ==>
                && (end.Refused? <==> !AllRepairable(old(entries), packages))
                && RepairedPartly(old(entries), packages, entries)
                && (end.Repaired? ==> forall p | p in packages :: LatestIsRight(Registered(entries, p.name), p))
    {
      ghost var before := entries;
      trace := [];
      var removals := BootstrapLatestRemovals(packages, LookupAll(entries, packages));
      Preflight(before, packages);
      if removals.Err? {
        NothingRemoved(before, packages);
        return Refused, trace;
      }
      end, trace := RemoveAccidental(removals.value, others, commands);
      if UniquelyNamed(packages) && Quiet(others) && AreTruthful(commands) {
        QuietTrace(before, packages, removals.value, trace, others, commands, end);
      }
    }
  }

  lemma OneMoreRound(
      before: Registry, todo: seq<Artifact>, trace: seq<Occasion>, others: Others, commands: nat -> Removal,
      o: Occasion)
    requires |trace| < |todo| && IsTrace(before, todo, trace, others, commands) && AllDecided(trace)
    requires o.package == todo[|trace|] && IsDecided(o)
    requires IsOccasion(|trace|, Left(before, trace), o, others, commands(|trace|))
    ensures IsTrace(before, todo, trace + [o], others, commands) && AllDecided(trace + [o])
    ensures AllPassedOn(trace, commands) ==>
              AllPassedOn((trace + [o])[..|trace|], commands)
              && (AllPassedOn(trace + [o], commands) <==> PassedOn(o, commands(|trace|)))
  {
    assert (trace + [o])[..|trace|] == trace;
  }

  lemma RepairStops(todo: seq<Artifact>, trace: seq<Occasion>, commands: nat -> Removal, end: RepairEnd)
    requires trace != [] && AllPassedOn(trace[..|trace| - 1], commands) && !end.Repaired?
    requires end.Refused? <==> !Repairable(trace[|trace| - 1].seen, trace[|trace| - 1].package)
    requires end.CommandFailed? ==> trace[|trace| - 1].met.Some? && !commands(|trace| - 1).reported
    ensures RepairEnds(end, todo, trace, commands)
  {
  }

  /** The packages whose `latest` the check of the inventory wants removed. */
  function ToRepair(registry: Registry, packages: seq<Artifact>): seq<Artifact>
    requires AllRepairable(registry, packages)
  {
    RefusesAsAWhole(registry, packages);
    BootstrapLatestRemovals(packages, LookupAll(registry, packages)).value
  }

  // ---------------------------------------------------------------------------------------------
  // What a removal removes

  /** The entry's `latest` is this alpha release, and there is no stable version: all that a removal is
      meant to take away. */
  predicate OnlyAccidental(p: Artifact, e: Entry) {
    LATEST in e.tags && e.tags[LATEST] == p.version && forall v | v in e.versions :: !IsStableKey(v)
  }

  /** The package is published with this content, is the alpha release in both channels, and there is no
      stable version. */
  lemma ToRepairMeans(p: Artifact, e: Entry)
    ensures IsToRepair(p, e) <==>
      && NpmReleaseTag(p.version) == Ok(ALPHA)
      && p.version in e.versions && e.versions[p.version] == p.integrity
      && ALPHA in e.tags && e.tags[ALPHA] == p.version
      && OnlyAccidental(p, e)
  {
    if NpmReleaseTag(p.version) == Ok(ALPHA) {
      if ALPHA in e.tags && e.tags[ALPHA] == p.version {
        ChannelAtVersion(e, ALPHA, p.version);
      }
      if LATEST in e.tags && e.tags[LATEST] == p.version {
        ChannelAtVersion(e, LATEST, p.version);
      }
    }
  }

  /** The command does not look again. It takes away only the accidental `latest` exactly if, since the
      lookup, nobody has moved `latest` and nobody has published a stable version; and as long as the alpha
      release itself stands, exactly if the entry is still to be repaired. */
  lemma RemovalIsRight(n: nat, before: Registry, o: Occasion, others: Others, command: Removal)
    requires IsOccasion(n, before, o, others, command) && IsDecided(o) && o.met.Some?
    ensures var p, seen, met := o.package, Registered(o.seen, o.package.name), Registered(o.met.value, o.package.name);
      && (OnlyAccidental(p, met) <==>
            LATEST in met.tags && met.tags[LATEST] == seen.tags[LATEST]
            && forall v | v in met.versions && v !in seen.versions :: !IsStableKey(v))
      && (IsAlphaRelease(p, met) ==> (OnlyAccidental(p, met) <==> IsToRepair(p, met)))
      && (met == seen ==> OnlyAccidental(p, met))
  {
    var p, seen, met := o.package, Registered(o.seen, o.package.name), Registered(o.met.value, o.package.name);
    ToRepairMeans(p, seen);
    ToRepairMeans(p, met);
  }

  lemma {:induction false} OccasionAt(
      before: Registry, todo: seq<Artifact>, trace: seq<Occasion>, others: Others, commands: nat -> Removal, i: nat)
    requires IsTrace(before, todo, trace, others, commands) && i < |trace|
    ensures i < |todo| && trace[i].package == todo[i]
    ensures IsOccasion(i, Left(before, trace[..i]), trace[i], others, commands(i))
    decreases |trace|
  {
    var n := |trace| - 1;
    if i < n {
      OccasionAt(before, todo, trace[..n], others, commands, i);
      assert trace[..n][..i] == trace[..i];
    }
  }

  /** In any repair, whatever others do: a tag goes only after a lookup found the entry to be repaired, and
      only the accidental one goes if nobody changed the entry between that lookup and the command. */
  lemma RoundsRemoveAccidental(
      before: Registry, todo: seq<Artifact>, trace: seq<Occasion>, others: Others, commands: nat -> Removal, i: nat)
    requires IsTrace(before, todo, trace, others, commands) && AllDecided(trace) && i < |trace| && trace[i].met.Some?
    ensures var p := trace[i].package;
      && p in todo && IsToRepair(p, Registered(trace[i].seen, p.name))
      && (Registered(trace[i].met.value, p.name) == Registered(trace[i].seen, p.name) ==>
            OnlyAccidental(p, Registered(trace[i].met.value, p.name)))
  {
    OccasionAt(before, todo, trace, others, commands, i);
    RemovalIsRight(i, Left(before, trace[..i]), trace[i], others, commands(i));
  }

  /** The alpha release is there with its content and in its channel. */
  predicate IsAlphaRelease(p: Artifact, e: Entry) {
    p.version in e.versions && e.versions[p.version] == p.integrity && ALPHA in e.tags && e.tags[ALPHA] == p.version
  }

  // ---------------------------------------------------------------------------------------------
  // A repair that nobody disturbs

  /** Nobody else changes the registry. */
  ghost predicate Quiet(others: Others) {
    forall n, r :: others.beforeLookup(n, r) == r && others.beforeCommand(n, r) == r
  }

  /** Nobody disturbs the rounds, and each package of `todo` is to be repaired. */
  ghost predicate QuietRun(before: Registry, todo: seq<Artifact>, others: Others, commands: nat -> Removal) {
    Quiet(others) && AreTruthful(commands) && AllToRepair(before, todo, todo) && UniquelyNamed(todo)
  }

  /** After undisturbed rounds that went on, their packages have been repaired. */
  lemma {:induction false} QuietFront(
      before: Registry, todo: seq<Artifact>, trace: seq<Occasion>, others: Others, commands: nat -> Removal)
    requires IsTrace(before, todo, trace, others, commands) && AllDecided(trace) && AllPassedOn(trace, commands)
    requires QuietRun(before, todo, others, commands)
    ensures |trace| <= |todo| && Left(before, trace) == RemoveLatestOf(before, todo[..|trace|])
    decreases |trace|
  {
    if trace != [] {
      var n := |trace| - 1;
      assert trace[n] in trace && forall o | o in trace[..n] :: o in trace;
      QuietFront(before, todo, trace[..n], others, commands);
      QuietLast(before, todo, trace, others, commands);
    }
  }

  lemma QuietLast(before: Registry, todo: seq<Artifact>, trace: seq<Occasion>, others: Others, commands: nat -> Removal)
    requires IsTrace(before, todo, trace, others, commands) && trace != [] && IsDecided(trace[|trace| - 1])
    requires QuietRun(before, todo, others, commands)
    requires |trace| <= |todo| && Left(before, trace[..|trace| - 1]) == RemoveLatestOf(before, todo[..|trace| - 1])
    ensures var n := |trace| - 1;
      && trace[n].met.Some? && Repairable(trace[n].seen, trace[n].package)
      && Left(before, trace) == RemoveLatestOf(before, if commands(n).applied then todo[..n + 1] else todo[..n])
      && (PassedOn(trace[n], commands(n)) ==> Left(before, trace) == RemoveLatestOf(before, todo[..n + 1]))
  {
    var n := |trace| - 1;
    QuietRound(before, todo, n, trace[n], others, commands(n));
  }

  /** A success report means that the tag is gone. */
  ghost predicate AreTruthful(commands: nat -> Removal) {
    forall n :: commands(n).reported ==> commands(n).applied
  }

  /** An undisturbed round finds its package still to be repaired. */
  lemma QuietRound(before: Registry, todo: seq<Artifact>, n: nat, o: Occasion, others: Others, command: Removal)
    requires n < |todo| && o.package == todo[n] && IsDecided(o)
        && IsOccasion(n, RemoveLatestOf(before, todo[..n]), o, others, command)
    requires Quiet(others) && AllToRepair(before, todo, todo) && UniquelyNamed(todo)
    ensures o.met.Some? && Repairable(o.seen, o.package)
    ensures o.left == RemoveLatestOf(before, if command.applied then todo[..n + 1] else todo[..n])
  {
    assert todo[n] in todo;
    NotYetRemoved(before, todo, n);
  }

  /** An undisturbed repair is not refused, and removes what is to be removed from some of the packages, and
      from all of them if it succeeds. */
  lemma QuietEnd(
      before: Registry, todo: seq<Artifact>, trace: seq<Occasion>, others: Others, commands: nat -> Removal,
      end: RepairEnd)
    returns (done: nat)
    requires IsTrace(before, todo, trace, others, commands) && AllDecided(trace)
        && RepairEnds(end, todo, trace, commands)
    requires QuietRun(before, todo, others, commands)
    ensures !end.Refused? && done <= |todo| && (end.Repaired? ==> done == |todo|)
    ensures Left(before, trace) == RemoveLatestOf(before, todo[..done])
  {
    if end.Repaired? {
      QuietFront(before, todo, trace, others, commands);
      done := |todo|;
    } else {
      done := QuietStop(before, todo, trace, others, commands);
    }
  }

  lemma QuietStop(before: Registry, todo: seq<Artifact>, trace: seq<Occasion>, others: Others, commands: nat -> Removal)
    returns (done: nat)
    requires IsTrace(before, todo, trace, others, commands) && AllDecided(trace)
        && QuietRun(before, todo, others, commands)
    requires trace != [] && AllPassedOn(trace[..|trace| - 1], commands)
    ensures Repairable(trace[|trace| - 1].seen, trace[|trace| - 1].package)
    ensures done <= |todo| && Left(before, trace) == RemoveLatestOf(before, todo[..done])
  {
    var n := |trace| - 1;
    assert trace[n] in trace && forall o | o in trace[..n] :: o in trace;
    QuietFront(before, todo, trace[..n], others, commands);
    QuietLast(before, todo, trace, others, commands);
    done := if commands(n).applied then n + 1 else n;
  }

  lemma QuietTrace(
      before: Registry, packages: seq<Artifact>, todo: seq<Artifact>, trace: seq<Occasion>, others: Others,
      commands: nat -> Removal, end: RepairEnd)
    requires UniquelyNamed(packages) && BootstrapLatestRemovals(packages, LookupAll(before, packages)) == Ok(todo)
    requires IsTrace(before, todo, trace, others, commands) && AllDecided(trace)
        && RepairEnds(end, todo, trace, commands)
    requires Quiet(others) && AreTruthful(commands)
    ensures !end.Refused? && RepairedPartly(before, packages, Left(before, trace))
    ensures end.Repaired? ==> forall p | p in packages :: LatestIsRight(Registered(Left(before, trace), p.name), p)
  {
    Preflight(before, packages);
    TodoIsQuiet(before, packages, todo, others, commands);
    var done := QuietEnd(before, todo, trace, others, commands, end);
    PartRemoved(before, packages, todo, done);
  }

  lemma TodoIsQuiet(
      before: Registry, packages: seq<Artifact>, todo: seq<Artifact>, others: Others, commands: nat -> Removal)
    requires Quiet(others) && AreTruthful(commands) && UniquelyNamed(todo) && AllToRepair(before, packages, todo)
    ensures QuietRun(before, todo, others, commands)
  {
  }

  /** A repair that stopped anywhere can be started again: the entries that it has repaired pass the check. */
  lemma RepairResumes(before: Registry, packages: seq<Artifact>, after: Registry)
    requires UniquelyNamed(packages) && AllRepairable(before, packages) && RepairedPartly(before, packages, after)
    ensures AllRepairable(after, packages) && Plan(after, packages) == Ok([])
  {
    var done :| AllToRepair(before, packages, done) && after == RemoveLatestOf(before, done);
    forall p | p in packages ensures Repairable(after, p) {
      assert Repairable(before, p);
      RemoveLatestSpares(before, done, p.name);
      if q: Artifact :| q in done && q.name == p.name {
        SameName(packages, p, q);
        RepairedPasses(p, Registered(before, p.name));
      }
    }
    PlanIsEmpty(after, packages);
  }

  lemma SameName(packages: seq<Artifact>, p: Artifact, q: Artifact)
    requires UniquelyNamed(packages) && p in packages && q in packages && p.name == q.name
    ensures p == q
  {
  }

  lemma RepairedPasses(p: Artifact, e: Entry)
    requires IsToRepair(p, e)
    ensures CheckPackage(p, RemoveLatest(e)) == Ok(false) && CheckRepair(p, RemoveLatest(e)) == Ok(false)
  {
    ToRepairMeans(p, e);
    ChannelUnmoved(e, RemoveLatest(e), ALPHA, p.version);
  }

  /** The entry's `latest` is the package's accidental one, with everything else as it should be. */
  predicate IsToRepair(p: Artifact, e: Entry) {
    CheckPackage(p, e) == Ok(false) && CheckRepair(p, e) == Ok(true)
  }

  predicate AllRepairable(registry: Registry, packages: seq<Artifact>) {
    forall p | p in packages :: Repairable(registry, p)
  }

  /** Only the accidental `latest` of some packages has gone. */
  ghost predicate RepairedPartly(before: Registry, packages: seq<Artifact>, after: Registry) {
    exists done :: AllToRepair(before, packages, done) && after == RemoveLatestOf(before, done)
  }

  predicate AllToRepair(before: Registry, packages: seq<Artifact>, done: seq<Artifact>) {
    forall p | p in done :: p in packages && IsToRepair(p, Registered(before, p.name))
  }

  lemma NothingRemoved(before: Registry, packages: seq<Artifact>)
    ensures RepairedPartly(before, packages, before)
  {
    assert RemoveLatestOf(before, []) == before;
  }

  lemma PartRemoved(before: Registry, packages: seq<Artifact>, todo: seq<Artifact>, done: nat)
    requires done <= |todo| && AllToRepair(before, packages, todo)
    ensures RepairedPartly(before, packages, RemoveLatestOf(before, todo[..done]))
    ensures done == |todo| ==> todo[..done] == todo
  {
    FrontToRepair(before, packages, todo, done);
  }

  lemma FrontToRepair(before: Registry, packages: seq<Artifact>, todo: seq<Artifact>, done: nat)
    requires done <= |todo| && AllToRepair(before, packages, todo)
    ensures AllToRepair(before, packages, todo[..done])
  {
    assert forall p | p in todo[..done] :: p in todo;
  }

  /** What the check of the whole inventory establishes. */
  lemma Preflight(before: Registry, packages: seq<Artifact>)
    ensures var r := BootstrapLatestRemovals(packages, LookupAll(before, packages));
      && (r.Ok? <==> AllRepairable(before, packages))
      && (r.Ok? ==> AllToRepair(before, packages, r.value))
      && (r.Ok? && UniquelyNamed(packages) ==>
            UniquelyNamed(r.value)
            && forall p | p in packages :: LatestIsRight(Registered(RemoveLatestOf(before, r.value), p.name), p))
  {
    var r := BootstrapLatestRemovals(packages, LookupAll(before, packages));
    RefusesAsAWhole(before, packages);
    if r.Ok? && UniquelyNamed(packages) {
      RemovalsAreUnique(before, packages);
      AllRepaired(before, packages, r.value);
    }
  }

  lemma NotYetRemoved(before: Registry, todo: seq<Artifact>, n: nat)
    requires UniquelyNamed(todo) && n < |todo|
    ensures Registered(RemoveLatestOf(before, todo[..n]), todo[n].name) == Registered(before, todo[n].name)
    ensures RemoveLatestOf(before, todo[..n + 1]) ==
              RemoveLatestAt(RemoveLatestOf(before, todo[..n]), todo[n].name)
  {
    RemoveLatestSpares(before, todo[..n], todo[n].name);
    assert todo[..n + 1][..n] == todo[..n];
  }

  /** An alpha release holds its alpha tag and is not `latest`. */
  predicate LatestIsRight(e: Entry, p: Artifact) {
    NpmReleaseTag(p.version) == Ok(ALPHA) ==>
      ALPHA in e.tags && e.tags[ALPHA] == p.version && (LATEST in e.tags ==> e.tags[LATEST] != p.version)
  }

  function RemoveLatestOf(registry: Registry, done: seq<Artifact>): Registry {
    if done == [] then registry
    else
      RemoveLatestAt(RemoveLatestOf(registry, done[..|done| - 1]), done[|done| - 1].name)
  }

  lemma {:induction false} RemoveLatestSpares(registry: Registry, done: seq<Artifact>, name: string)
    ensures Registered(RemoveLatestOf(registry, done), name) ==
              if exists p :: p in done && p.name == name
              then RemoveLatest(Registered(registry, name)) else Registered(registry, name)
  {
    if done != [] {
      RemoveLatestSpares(registry, done[..|done| - 1], name);
      LastOf(done);
    }
  }

  lemma SingleRemoval(pkg: Artifact, e: Entry)
    ensures Removals([pkg], [e]).Ok? <==> CheckRepair(pkg, e).Ok?
    ensures Removals([pkg], [e]).Ok? ==> (Removals([pkg], [e]).value != [] <==> CheckRepair(pkg, e).value)
  {
    assert [pkg][..0] == [] && [e][..0] == [];
    assert Removals([], []) == Ok([]);
  }

  lemma SinglePlan(pkg: Artifact, e: Entry)
    ensures PublicationPlan([pkg], [e]) == Ok([]) <==> CheckPackage(pkg, e) == Ok(false)
  {
    assert [pkg][..0] == [];
    assert PublicationPlan([], [e]) == Ok([]);
  }

  lemma Recheck(pkg: Artifact, e: Entry)
    ensures var again := BootstrapLatestRemovals([pkg], [e]);
      && (again.Ok? <==> CheckPackage(pkg, e) == Ok(false) && CheckRepair(pkg, e).Ok?)
      && (again.Ok? ==> (again.value != [] <==> CheckRepair(pkg, e) == Ok(true)))
  {
    SingleRemoval(pkg, e);
    SinglePlan(pkg, e);
  }

  lemma {:induction false} RemovalsSelect(packages: seq<Artifact>, registered: seq<Entry>)
    requires |registered| == |packages| && Removals(packages, registered).Ok?
    ensures forall p | p in Removals(packages, registered).value :: p in packages
    ensures UniquelyNamed(packages) ==> UniquelyNamed(Removals(packages, registered).value)
  {
    if packages != [] {
      var n := |packages| - 1;
      RemovalsSelect(packages[..n], registered[..n]);
      LastOf(packages);
      var q := Removals(packages[..n], registered[..n]).value;
      forall i | 0 <= i < |q| && UniquelyNamed(packages) ensures q[i].name != packages[n].name {
        assert q[i] in q;
      }
    }
  }

  lemma RemovalsAreUnique(registry: Registry, packages: seq<Artifact>)
    requires UniquelyNamed(packages) && BootstrapLatestRemovals(packages, LookupAll(registry, packages)).Ok?
    ensures UniquelyNamed(BootstrapLatestRemovals(packages, LookupAll(registry, packages)).value)
  {
    RemovalsSelect(packages, LookupAll(registry, packages));
  }

  lemma RightAfterRepair(p: Artifact, e: Entry)
    requires CheckRepair(p, e).Ok?
    ensures LatestIsRight(if CheckRepair(p, e).value then RemoveLatest(e) else e, p)
  {
  }

  lemma OneRepaired(registry: Registry, packages: seq<Artifact>, todo: seq<Artifact>, p: Artifact)
    requires UniquelyNamed(packages) && p in packages && CheckRepair(p, Registered(registry, p.name)).Ok?
    requires p in todo <==> CheckRepair(p, Registered(registry, p.name)).value
    requires forall q | q in todo :: q in packages
    ensures LatestIsRight(Registered(RemoveLatestOf(registry, todo), p.name), p)
  {
    RemoveLatestSpares(registry, todo, p.name);
    RightAfterRepair(p, Registered(registry, p.name));
    if exists q :: q in todo && q.name == p.name {
      var q :| q in todo && q.name == p.name;
      assert q in packages && q == p;
    }
  }

  lemma AllRepaired(registry: Registry, packages: seq<Artifact>, todo: seq<Artifact>)
    requires UniquelyNamed(packages)
    requires BootstrapLatestRemovals(packages, LookupAll(registry, packages)) == Ok(todo)
    ensures forall p | p in packages :: LatestIsRight(Registered(RemoveLatestOf(registry, todo), p.name), p)
  {
    RefusesAsAWhole(registry, packages);
    forall p | p in packages ensures LatestIsRight(Registered(RemoveLatestOf(registry, todo), p.name), p) {
      assert Repairable(registry, p);
      OneRepaired(registry, packages, todo, p);
    }
  }
}
