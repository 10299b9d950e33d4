/** The publication plan, its resumption after a crash, and the order of its publications
    (scripts/release-packages.ts). The registry maps a package name to its versions and channel tags. */
module Publication {
  import opened Wrappers
  import opened ReleaseVersion
  import PublicationOrder

  datatype Artifact = Artifact(name: string, version: string, integrity: string)

  /** The versions with their integrity, and the channel tags, that the registry has for one name. */
  datatype Entry = Entry(versions: map<string, string>, tags: map<string, string>)

  const UNKNOWN := Entry(map[], map[])
  const STAGE := "0.0.0-stage"
  const ALPHA := "alpha"
  const LATEST := "latest"

  type Registry = map<string, Entry>

  /** registeredPackage: a name that the registry does not know has no versions. */
  function Registered(registry: Registry, name: string): Entry {
    if name in registry then registry[name] else UNKNOWN
  }

  function LookupAll(registry: Registry, packages: seq<Artifact>): (entries: seq<Entry>)
    ensures |entries| == |packages|
    ensures forall i | 0 <= i < |packages| :: entries[i] == Registered(registry, packages[i].name)
  {
    seq(|packages|, i requires 0 <= i < |packages| => Registered(registry, packages[i].name))
  }

  datatype Refusal = MissingLookup | InvalidVersion | MovesBackward | DifferentContent | Unpublished | WrongAlpha
      | StableExists

  function NpmReleaseTag(version: string): Result<string, Refusal> {
    var kind := DesktopReleaseKind(version);
    if kind.Err? then Err(InvalidVersion) else Ok(if kind.value.Preview? then ALPHA else LATEST)
  }

  /** The tag names a real release: it is neither missing, nor empty, nor the staging placeholder. */
  predicate HasReal(e: Entry, channel: string) {
    channel in e.tags && e.tags[channel] != "" && e.tags[channel] != STAGE
  }

  /** Why the channel forbids the version, if it does. */
  function ChannelRefuses(e: Entry, channel: string, version: string): Option<Refusal> {
    if !HasReal(e, channel) then None
    else
      var c := CompareReleaseVersions(e.tags[channel], version);
      if c.Err? then Some(InvalidVersion) else if c.value > 0 then Some(MovesBackward) else None
  }

  /** Whether the package is still to be published. */
  function CheckPackage(pkg: Artifact, e: Entry): Result<bool, Refusal> {
    var alpha, latest := ChannelRefuses(e, ALPHA, pkg.version), ChannelRefuses(e, LATEST, pkg.version);
    if alpha.Some? then Err(alpha.value)
    else if latest.Some? then Err(latest.value)
    else if pkg.version !in e.versions then Ok(true)
    else if e.versions[pkg.version] != pkg.integrity then Err(DifferentContent)
    else Ok(false)
  }

  /** publicationPlan: a filter that keeps the order and throws at the first refusal. */
  function PublicationPlan(packages: seq<Artifact>, registered: seq<Entry>): Result<seq<Artifact>, Refusal> {
    if packages == [] then Ok([])
    else
      var n := |packages| - 1;
      var before := PublicationPlan(packages[..n], registered);
      if before.Err? then before
      else if n >= |registered| then Err(MissingLookup)
      else
        var check := CheckPackage(packages[n], registered[n]);
        if check.Err? then Err(check.error)
        else Ok(if check.value then before.value + [packages[n]] else before.value)
  }

  function Plan(registry: Registry, packages: seq<Artifact>): Result<seq<Artifact>, Refusal> {
    PublicationPlan(packages, LookupAll(registry, packages))
  }

  ghost predicate UniquelyNamed(packages: seq<Artifact>) {
    forall i, j | 0 <= i < j < |packages| :: packages[i].name != packages[j].name
  }

  /** The inventory of one release: every package at the release version, each once. */
  ghost predicate IsInventory(packages: seq<Artifact>, version: string) {
    Accepted(version) && UniquelyNamed(packages) && forall p | p in packages :: p.version == version
  }

  // ---------------------------------------------------------------------------------------------
  // What the registry does

  /** npm may set `latest` by itself when the name has none or only the staging placeholder. */
  predicate MayPromote(e: Entry) {
    LATEST !in e.tags || e.tags[LATEST] == "" || e.tags[LATEST] == STAGE
  }

  /** The registry accepts a publication. Nothing here protects a version that exists: that is left to
      the plan. */
  function Publish(registry: Registry, pkg: Artifact, tag: string, promote: bool): Registry {
    var e := Registered(registry, pkg.name);
    var tags := e.tags[tag := pkg.version];
    registry[pkg.name := Entry(e.versions[pkg.version := pkg.integrity],
                               if promote && MayPromote(e) then tags[LATEST := pkg.version] else tags)]
  }

  /** The first publications of `pending` have been accepted. */
  function PublishAll(registry: Registry, pending: seq<Artifact>, tag: string, promotes: nat -> bool): Registry {
    if pending == [] then registry
    else
      var n := |pending| - 1;
      Publish(PublishAll(registry, pending[..n], tag, promotes), pending[n], tag, promotes(n))
  }

  function RemoveLatest(e: Entry): Entry {
    e.(tags := e.tags - {LATEST})
  }

  function NamesOf(packages: seq<Artifact>): set<string> {
    set p | p in packages :: p.name
  }

  lemma {:induction false} PublishAllTouches(
      registry: Registry, pending: seq<Artifact>, tag: string, promotes: nat -> bool, name: string)
    requires name !in NamesOf(pending)
    ensures Registered(PublishAll(registry, pending, tag, promotes), name) == Registered(registry, name)
  {
    if pending != [] {
      var n := |pending| - 1;
      assert pending[n] in pending && forall p | p in pending[..n] :: p in pending;
      PublishAllTouches(registry, pending[..n], tag, promotes, name);
    }
  }

  /** What a published package's entry has become. */
  ghost predicate IsPublished(before: Entry, after: Entry, pkg: Artifact, tag: string) {
    && after.versions == before.versions[pkg.version := pkg.integrity]
    && (after.tags == before.tags[tag := pkg.version]
        || (MayPromote(before) && after.tags == before.tags[tag := pkg.version][LATEST := pkg.version]))
  }

  lemma {:induction false} PublishAllPublishes(
      registry: Registry, pending: seq<Artifact>, tag: string, promotes: nat -> bool, i: nat)
    requires UniquelyNamed(pending) && i < |pending|
    ensures IsPublished(Registered(registry, pending[i].name),
                        Registered(PublishAll(registry, pending, tag, promotes), pending[i].name), pending[i], tag)
  {
    var n := |pending| - 1;
    if i < n {
      PublishAllPublishes(registry, pending[..n], tag, promotes, i);
    } else {
      assert pending[n].name !in NamesOf(pending[..n]);
      PublishAllTouches(registry, pending[..n], tag, promotes, pending[n].name);
    }
  }

  /** Publishing only versions that the registry does not have leaves those that it has alone. */
  lemma {:induction false} NewVersionsOnly(
      registry: Registry, pending: seq<Artifact>, tag: string, promotes: nat -> bool, name: string, version: string)
    requires forall p | p in pending :: p.version !in Registered(registry, p.name).versions
    requires version in Registered(registry, name).versions
    ensures var after := Registered(PublishAll(registry, pending, tag, promotes), name);
            version in after.versions && after.versions[version] == Registered(registry, name).versions[version]
  {
    if pending != [] {
      var n := |pending| - 1;
      assert pending[n] in pending && forall p | p in pending[..n] :: p in pending;
      NewVersionsOnly(registry, pending[..n], tag, promotes, name, version);
    }
  }

  // ---------------------------------------------------------------------------------------------
  // The plan

  /** The plan of a shorter inventory does not depend on what follows it. */
  lemma {:induction false} PlanOfPrefix(packages: seq<Artifact>, registered: seq<Entry>, more: seq<Entry>)
    requires |registered| >= |packages| && registered <= more
    ensures PublicationPlan(packages, registered) == PublicationPlan(packages, more)
  {
    if packages != [] {
      PlanOfPrefix(packages[..|packages| - 1], registered, more);
    }
  }

  lemma PlanOfFront(registry: Registry, packages: seq<Artifact>)
    requires packages != []
    ensures PublicationPlan(packages[..|packages| - 1], LookupAll(registry, packages)) ==
        Plan(registry, packages[..|packages| - 1])
  {
    var front := packages[..|packages| - 1];
    assert LookupAll(registry, front) <= LookupAll(registry, packages);
    PlanOfPrefix(front, LookupAll(registry, front), LookupAll(registry, packages));
  }

  lemma {:induction false} PlanSelects(registry: Registry, packages: seq<Artifact>)
    requires Plan(registry, packages).Ok?
    ensures forall p | p in Plan(registry, packages).value :: p in packages
    ensures UniquelyNamed(packages) ==> UniquelyNamed(Plan(registry, packages).value)
  {
    if packages != [] {
      var n := |packages| - 1;
      PlanOfFront(registry, packages);
      PlanSelects(registry, packages[..n]);
      LastOf(packages);
      var q := Plan(registry, packages[..n]).value;
      forall i | 0 <= i < |q| && UniquelyNamed(packages) ensures q[i].name != packages[n].name {
        assert q[i] in q;
      }
    }
  }

  /** A plan is made exactly when no package is refused, and then holds what is not registered yet. */
  lemma {:induction false} PlanHolds(registry: Registry, packages: seq<Artifact>)
    ensures Plan(registry, packages).Ok? <==>
        forall p | p in packages :: CheckPackage(p, Registered(registry, p.name)).Ok?
    ensures Plan(registry, packages).Ok? ==> forall p ::
              p in Plan(registry, packages).value <==>
                  p in packages && p.version !in Registered(registry, p.name).versions
  {
    if packages != [] {
      var n := |packages| - 1;
      PlanHolds(registry, packages[..n]);
      PlanOfFront(registry, packages);
      CheckMeans(packages[n], Registered(registry, packages[n].name));
      LastOf(packages);
    }
  }

  lemma LastOf(packages: seq<Artifact>)
    requires packages != []
    ensures forall p :: p in packages <==> p in packages[..|packages| - 1] || p == packages[|packages| - 1]
  {
    var n := |packages| - 1;
    assert packages == packages[..n] + [packages[n]];
  }

  lemma CheckMeans(p: Artifact, e: Entry)
    ensures CheckPackage(p, e).Ok? ==> (CheckPackage(p, e).value <==> p.version !in e.versions)
  {
  }

  /** Exactly the packages at `i` and before it make up the first part of the plan. */
  lemma {:induction false} PlanIsOrdered(registry: Registry, packages: seq<Artifact>, i: nat)
    requires Plan(registry, packages).Ok? && i <= |packages|
    ensures Plan(registry, packages[..i]).Ok? && Plan(registry, packages[..i]).value <= Plan(registry, packages).value
    decreases |packages|
  {
    if i < |packages| {
      var front := packages[..|packages| - 1];
      PlanOfFront(registry, packages);
      PlanIsOrdered(registry, front, i);
      assert front[..i] == packages[..i];
    } else {
      assert packages[..i] == packages;
    }
  }

  // ---------------------------------------------------------------------------------------------
  // History

  /** Whenever the next planned package is about to be published, after any number of accepted ones, the
      registry does not have its version: the plan never publishes over a version that exists. */
  lemma NeverOverwrites(registry: Registry, packages: seq<Artifact>, tag: string, promotes: nat -> bool, k: nat)
    requires UniquelyNamed(packages) && Plan(registry, packages).Ok? && k < |Plan(registry, packages).value|
    ensures var pending := Plan(registry, packages).value;
            var now := PublishAll(registry, pending[..k], tag, promotes);
            pending[k].version !in Registered(now, pending[k].name).versions
  {
    PlanHolds(registry, packages);
    PlanSelects(registry, packages);
    var pending := Plan(registry, packages).value;
    assert pending[k] in pending;
    PublishAllTouches(registry, pending[..k], tag, promotes, pending[k].name);
  }

  /** So wherever a run of a plan stops, the content of every version published before is unchanged. */
  lemma HistoryIsImmutable(
      registry: Registry, packages: seq<Artifact>, tag: string, promotes: nat -> bool, k: nat, name: string,
      version: string)
    requires Plan(registry, packages).Ok? && k <= |Plan(registry, packages).value|
    requires version in Registered(registry, name).versions
    ensures var after := Registered(PublishAll(registry, Plan(registry, packages).value[..k], tag, promotes), name);
            version in after.versions && after.versions[version] == Registered(registry, name).versions[version]
  {
    PlanHolds(registry, packages);
    var pending := Plan(registry, packages).value;
    assert forall p | p in pending[..k] :: p in pending;
    NewVersionsOnly(registry, pending[..k], tag, promotes, name, version);
  }

  /** The plan is what protects history: published regardless, a package that the plan refuses for its
      content replaces the content of the version. */
  lemma UnplannedOverwrites(registry: Registry, p: Artifact, tag: string, promote: bool)
    requires CheckPackage(p, Registered(registry, p.name)) == Err(DifferentContent)
    ensures Plan(registry, [p]).Err?
    ensures var before, after := Registered(registry, p.name), Registered(Publish(registry, p, tag, promote), p.name);
            p.version in before.versions && after.versions[p.version] == p.integrity != before.versions[p.version]
  {
    PlanHolds(registry, [p]);
    assert p in [p];
  }

  // ---------------------------------------------------------------------------------------------
  // Resumption

  lemma SameVersion(version: string)
    requires Accepted(version)
    ensures CompareReleaseVersions(version, version) == Ok(0)
  {
    ZeroMeansIdentical(version, version);
  }

  lemma ChannelAtVersion(e: Entry, channel: string, version: string)
    requires channel in e.tags && e.tags[channel] == version && Accepted(version)
    ensures ChannelRefuses(e, channel, version).None?
  {
    SameVersion(version);
  }

  lemma ChannelUnmoved(e: Entry, e': Entry, channel: string, version: string)
    requires channel in e.tags <==> channel in e'.tags
    requires channel in e.tags ==> e.tags[channel] == e'.tags[channel]
    ensures ChannelRefuses(e, channel, version) == ChannelRefuses(e', channel, version)
  {
  }

  /** After a publication each channel is at the version or where it was. */
  lemma ChannelAfter(before: Entry, after: Entry, pkg: Artifact, tag: string, channel: string)
    requires Accepted(pkg.version) && IsPublished(before, after, pkg, tag)
    requires ChannelRefuses(before, channel, pkg.version).None?
    ensures ChannelRefuses(after, channel, pkg.version).None?
  {
    if channel in after.tags && after.tags[channel] == pkg.version {
      ChannelAtVersion(after, channel, pkg.version);
    } else {
      ChannelUnmoved(before, after, channel, pkg.version);
    }
  }

  /** The run's own effect on a package makes the plan skip it, not refuse it. */
  lemma PublishedIsSkipped(before: Entry, after: Entry, pkg: Artifact, tag: string)
    requires Accepted(pkg.version) && CheckPackage(pkg, before).Ok?
    requires IsPublished(before, after, pkg, tag)
    ensures CheckPackage(pkg, after) == Ok(false)
  {
    ChannelAfter(before, after, pkg, tag, ALPHA);
    ChannelAfter(before, after, pkg, tag, LATEST);
  }

  function Without(packages: seq<Artifact>, names: set<string>): seq<Artifact> {
    if packages == [] then []
    else
      var last := packages[|packages| - 1];
      var front := Without(packages[..|packages| - 1], names);
      if last.name in names then front else front + [last]
  }

  lemma {:induction false} WithoutAll(packages: seq<Artifact>, names: set<string>)
    requires forall p | p in packages :: p.name in names
    ensures Without(packages, names) == []
  {
    if packages != [] {
      WithoutAll(packages[..|packages| - 1], names);
    }
  }

  lemma {:induction false} WithoutFirst(packages: seq<Artifact>, k: nat)
    requires UniquelyNamed(packages) && k <= |packages|
    ensures Without(packages, NamesOf(packages[..k])) == packages[k..]
    decreases |packages|
  {
    if k == |packages| {
      assert packages[..k] == packages;
      WithoutAll(packages, NamesOf(packages));
    } else {
      var n := |packages| - 1;
      assert packages[..n][..k] == packages[..k];
      WithoutFirst(packages[..n], k);
      assert packages[n].name !in NamesOf(packages[..k]);
      assert packages[k..] == packages[..n][k..] + [packages[n]];
    }
  }

  /** If each package of `done` is now skipped and the others are as before, the plan loses just `done`. */
  lemma {:induction false} PlanLoses(before: Registry, after: Registry, packages: seq<Artifact>, names: set<string>)
    requires Plan(before, packages).Ok?
    requires forall p | p in packages && p.name !in names :: Registered(after, p.name) == Registered(before, p.name)
    requires forall p | p in packages && p.name in names ::
               CheckPackage(p, Registered(before, p.name)).Ok? ==>
                   CheckPackage(p, Registered(after, p.name)) == Ok(false)
    ensures Plan(after, packages) == Ok(Without(Plan(before, packages).value, names))
  {
    if packages != [] {
      var n := |packages| - 1;
      var last := packages[n];
      PlanOfFront(before, packages);
      PlanOfFront(after, packages);
      assert last in packages && forall p | p in packages[..n] :: p in packages;
      PlanLoses(before, after, packages[..n], names);
      var q := Plan(before, packages[..n]).value;
      assert (q + [last])[..|q|] == q;
    }
  }

  /** Crash-safe resumption: however many of the planned publications were accepted before the run stopped,
      the last one perhaps reported as failed, a rerun is not refused and plans exactly the remaining
      packages in the same order. */
  lemma RerunResumes(
      registry: Registry, packages: seq<Artifact>, version: string, tag: string, promotes: nat -> bool, k: nat)
    requires IsInventory(packages, version) && NpmReleaseTag(version) == Ok(tag)
    requires Plan(registry, packages).Ok? && k <= |Plan(registry, packages).value|
    ensures var pending := Plan(registry, packages).value;
            Plan(PublishAll(registry, pending[..k], tag, promotes), packages) == Ok(pending[k..])
  {
    PlanHolds(registry, packages);
    PlanSelects(registry, packages);
    var pending := Plan(registry, packages).value;
    var accepted := pending[..k];
    var after := PublishAll(registry, accepted, tag, promotes);
    forall p | p in packages && p.name !in NamesOf(accepted)
      ensures Registered(after, p.name) == Registered(registry, p.name)
    {
      PublishAllTouches(registry, accepted, tag, promotes, p.name);
    }
    forall p | p in packages && p.name in NamesOf(accepted)
      ensures CheckPackage(p, Registered(after, p.name)) == Ok(false)
    {
      var i :| 0 <= i < k && accepted[i].name == p.name;
      assert accepted[i] in pending && accepted[i] in packages;
      assert accepted[i] == p;
      PublishAllPublishes(registry, accepted, tag, promotes, i);
      PublishedIsSkipped(Registered(registry, p.name), Registered(after, p.name), p, tag);
    }
    PlanLoses(registry, after, packages, NamesOf(accepted));
    WithoutFirst(pending, k);
  }

  // ---------------------------------------------------------------------------------------------
  // Dependencies come first

  /** The inventory lists the packages in publication order. */
  ghost predicate Lists(inventory: seq<Artifact>, ordered: seq<PublicationOrder.Package>) {
    |inventory| == |ordered| && forall i | 0 <= i < |inventory| :: inventory[i].name == ordered[i].name
  }

  /** Where a planned package stands in the inventory. */
  lemma {:induction false} PositionOf(registry: Registry, packages: seq<Artifact>, k: nat) returns (b: nat)
    requires Plan(registry, packages).Ok? && k < |Plan(registry, packages).value|
    ensures b < |packages| && packages[b] == Plan(registry, packages).value[k]
    ensures Plan(registry, packages[..b]) == Ok(Plan(registry, packages).value[..k])
    decreases |packages|
  {
    var n := |packages| - 1;
    PlanOfFront(registry, packages);
    var q := Plan(registry, packages[..n]).value;
    if k < |q| {
      b := PositionOf(registry, packages[..n], k);
      assert packages[..n][..b] == packages[..b];
      assert q[..k] == Plan(registry, packages).value[..k];
    } else {
      b := n;
      assert Plan(registry, packages).value[..k] == q;
    }
  }

  /** Whenever the next planned package is about to be published, after any number of accepted ones, every
      runtime dependency of it within the release is registered at that version. */
  lemma DependenciesRegistered(
      workspace: seq<PublicationOrder.Package>, ordered: seq<PublicationOrder.Package>,
      registry: Registry, inventory: seq<Artifact>, version: string, tag: string, promotes: nat -> bool,
      k: nat, b: nat, dependency: string)
    requires PublicationOrder.DependenciesFirst(workspace, ordered) && Lists(inventory, ordered)
    requires IsInventory(inventory, version) && Plan(registry, inventory).Ok? && k < |Plan(registry, inventory).value|
    requires b < |inventory| && inventory[b] == Plan(registry, inventory).value[k]
    requires dependency in PublicationOrder.Deps(ordered[b]) && PublicationOrder.Lookup(workspace, dependency).Some?
    ensures var now := PublishAll(registry, Plan(registry, inventory).value[..k], tag, promotes);
            version in Registered(now, dependency).versions
  {
    var pending := Plan(registry, inventory).value;
    PlanSelects(registry, inventory);
    var p := PositionOf(registry, inventory, k);
    assert p == b;
    var d :| d in ordered[..b] && d.name == dependency;
    var a :| 0 <= a < b && ordered[a] == d;
    assert inventory[a] in inventory && inventory[a].name == dependency;
    EarlierIsRegistered(registry, inventory[..b], pending[..k], tag, promotes, a);
  }

  /** Everything in a fully published front of the inventory is registered. */
  lemma EarlierIsRegistered(
      registry: Registry, front: seq<Artifact>, accepted: seq<Artifact>, tag: string, promotes: nat -> bool, a: nat)
    requires Plan(registry, front) == Ok(accepted) && UniquelyNamed(accepted) && a < |front|
    ensures var now := PublishAll(registry, accepted, tag, promotes);
            front[a].version in Registered(now, front[a].name).versions
  {
    var artifact := front[a];
    if artifact.version in Registered(registry, artifact.name).versions {
      PlanHolds(registry, front);
      NewVersionsOnly(registry, accepted, tag, promotes, artifact.name, artifact.version);
    } else {
      PlanHolds(registry, front);
      var i :| 0 <= i < |accepted| && accepted[i] == artifact;
      PublishAllPublishes(registry, accepted, tag, promotes, i);
    }
  }
}
