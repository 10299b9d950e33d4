/** The channels over any history of releases and of `latest` tags removed by repairs, whatever entry a
    removal met, and the final verification of a release (scripts/release-packages.ts). */
module ChannelHistory {
  import opened Wrappers
  import opened ReleaseVersion
  import opened Publication
  import opened Channels

  /** A release whose plan was made and whose first `accepted` publications npm accepted, or the removal of
      `latest` from the entry that a repair command met. */
  datatype Change =
    | Release(packages: seq<Artifact>, version: string, promotes: nat -> bool, accepted: nat)
    | RemoveTag(name: string)

  ghost predicate Permitted(registry: Registry, c: Change) {
    match c
    case Release(packages, version, _, accepted) =>
      && IsInventory(packages, version)
      && Plan(registry, packages).Ok? && accepted <= |Plan(registry, packages).value|
    case RemoveTag(_) => true
  }

  function TagOf(version: string): string {
    if DesktopReleaseKind(version) == Ok(Preview) then ALPHA else LATEST
  }

  ghost function After(registry: Registry, c: Change): Registry
    requires Permitted(registry, c)
  {
    match c
    case Release(packages, version, promotes, accepted) =>
      PublishAll(registry, Plan(registry, packages).value[..accepted], TagOf(version), promotes)
    case RemoveTag(name) => RemoveLatestAt(registry, name)
  }

  ghost predicate IsHistory(history: seq<Registry>, changes: seq<Change>) {
    && |history| == |changes| + 1
    && forall i | 0 <= i < |changes| :: Changes(history[i], changes[i], history[i + 1])
  }

  ghost predicate Changes(before: Registry, c: Change, after: Registry) {
    Permitted(before, c) && after == After(before, c)
  }

  /** A removal loses nothing: `latest` was no release, or none above `alpha`. */
  predicate IsGentle(e: Entry) {
    HasReal(e, LATEST) ==> Reaches(e, ALPHA, e.tags[LATEST])
  }

  /** Every removal of the history met an entry from which it loses nothing. */
  ghost predicate AllGentle(history: seq<Registry>, changes: seq<Change>)
    requires |history| == |changes| + 1
  {
    forall i | 0 <= i < |changes| && changes[i].RemoveTag? :: IsGentle(Registered(history[i], changes[i].name))
  }

  /** What a change does to one entry, if removals are perhaps known to be gentle. */
  ghost predicate EntryChange(before: Entry, after: Entry, gentle: bool) {
    || after == before
    || (exists p: Artifact, tag: string :: Publishes(before, after, p, tag))
    || (after == RemoveLatest(before) && (gentle ==> IsGentle(before)))
  }

  ghost predicate Publishes(before: Entry, after: Entry, p: Artifact, tag: string) {
    Accepted(p.version) && (tag == ALPHA || tag == LATEST) && CheckPackage(p, before).Ok?
        && IsPublished(before, after, p, tag)
  }

  lemma ChangeOfEntry(registry: Registry, c: Change, name: string, gentle: bool)
    requires Permitted(registry, c)
    requires gentle && c.RemoveTag? ==> IsGentle(Registered(registry, c.name))
    ensures EntryChange(Registered(registry, name), Registered(After(registry, c), name), gentle)
  {
    if c.Release? {
      var pending := Plan(registry, c.packages).value;
      var accepted := pending[..c.accepted];
      PlanHolds(registry, c.packages);
      PlanSelects(registry, c.packages);
      if name in NamesOf(accepted) {
        var i :| 0 <= i < |accepted| && accepted[i].name == name;
        assert accepted[i] in pending;
        PublishAllPublishes(registry, accepted, TagOf(c.version), c.promotes, i);
        assert Publishes(Registered(registry, name), Registered(After(registry, c), name), accepted[i],
            TagOf(c.version));
      } else {
        PublishAllTouches(registry, accepted, TagOf(c.version), c.promotes, name);
      }
    }
  }

  // ---------------------------------------------------------------------------------------------
  // No channel moves backward

  predicate Reaches(e: Entry, channel: string, version: string) {
    HasReal(e, channel) && AtMost(version, e.tags[channel])
  }

  /** The entry keeps what `channel` once held: the channel has not fallen below it, and if `latest` was
      removed, `alpha` still stands above it. */
  predicate Remembers(e: Entry, channel: string, version: string) {
    if channel == ALPHA then Reaches(e, ALPHA, version)
    else if LATEST in e.tags then Reaches(e, LATEST, version)
    else Reaches(e, ALPHA, version)
  }

  lemma AllowedMeans(e: Entry, channel: string, version: string)
    requires Accepted(version) && ChannelRefuses(e, channel, version).None? && HasReal(e, channel)
    ensures AtMost(e.tags[channel], version)
  {
  }

  lemma ReachesNew(e: Entry, channel: string, old_: string, version: string)
    requires Accepted(version) && ChannelRefuses(e, channel, version).None? && Reaches(e, channel, old_)
    ensures AtMost(old_, version)
  {
    AllowedMeans(e, channel, version);
    TotalOrder(old_, e.tags[channel], version);
  }

  lemma AcceptedIsReal(version: string)
    requires Accepted(version)
    ensures version != "" && version != STAGE
  {
    assert Split("", '.') == [""];
    StageIsRefused();
  }

  lemma StageIsRefused()
    ensures !Accepted(STAGE)
  {
    assert STAGE == "0.0.0" + ['-'] + "stage";
    IndexOfPrefix("0.0.0", '-', "stage");
    assert Prerelease(STAGE)[0] == 's';
  }

  lemma PublicationRemembers(before: Entry, after: Entry, p: Artifact, tag: string, channel: string, version: string)
    requires Accepted(p.version) && (tag == ALPHA || tag == LATEST) && (channel == ALPHA || channel == LATEST)
    requires ChannelRefuses(before, ALPHA, p.version).None? && ChannelRefuses(before, LATEST, p.version).None?
    requires IsPublished(before, after, p, tag) && Remembers(before, channel, version)
    ensures Remembers(after, channel, version)
  {
    AcceptedIsReal(p.version);
    if Reaches(before, ALPHA, version) {
      ReachesNew(before, ALPHA, version, p.version);
    }
    if Reaches(before, LATEST, version) {
      ReachesNew(before, LATEST, version, p.version);
    }
  }

  /** A repair is due only to an alpha release that stands in both channels. */
  lemma RepairMeans(p: Artifact, e: Entry)
    requires CheckRepair(p, e) == Ok(true)
    ensures TagOf(p.version) == ALPHA
    ensures ALPHA in e.tags && LATEST in e.tags && e.tags[ALPHA] == e.tags[LATEST] == p.version
  {
  }

  lemma RemovalKeepsAlpha(e: Entry, version: string)
    ensures Reaches(e, ALPHA, version) <==> Reaches(RemoveLatest(e), ALPHA, version)
    ensures LATEST !in RemoveLatest(e).tags
  {
  }

  /** Nothing that `latest` held before is forgotten in a gentle removal. */
  lemma RemovalRemembers(before: Entry, channel: string, version: string)
    requires channel == ALPHA || (channel == LATEST && IsGentle(before))
    requires Remembers(before, channel, version)
    ensures Remembers(RemoveLatest(before), channel, version)
  {
    RemovalKeepsAlpha(before, version);
    if channel == LATEST && LATEST in before.tags {
      GentleReaches(before, version);
    }
  }

  lemma GentleReaches(e: Entry, version: string)
    requires IsGentle(e) && Reaches(e, LATEST, version)
    ensures Reaches(e, ALPHA, version)
  {
    TotalOrder(version, e.tags[LATEST], e.tags[ALPHA]);
  }

  /** A removal remembers the release that it takes away exactly if it is gentle. */
  lemma GentleExactlyIf(e: Entry)
    requires HasReal(e, LATEST)
    ensures Remembers(RemoveLatest(e), LATEST, e.tags[LATEST]) <==> IsGentle(e)
  {
    assert |ALPHA| != |LATEST|;
    RemovalKeepsAlpha(e, e.tags[LATEST]);
  }

  /** So a command loses nothing if the entry that it meets is still to be repaired. */
  lemma RepairIsGentle(p: Artifact, e: Entry)
    requires IsToRepair(p, e)
    ensures IsGentle(e)
  {
    RepairMeans(p, e);
    ReleaseIsAccepted(p, e);
    TotalOrder(p.version, p.version, p.version);
  }

  lemma ReleaseIsAccepted(p: Artifact, e: Entry)
    requires IsToRepair(p, e)
    ensures Accepted(p.version)
  {
  }

  lemma EntryRemembers(before: Entry, after: Entry, channel: string, version: string)
    requires channel == ALPHA || channel == LATEST
    requires EntryChange(before, after, channel == LATEST) && Remembers(before, channel, version)
    ensures Remembers(after, channel, version)
  {
    if after != before {
      if exists p: Artifact, tag: string :: Publishes(before, after, p, tag) {
        var p: Artifact, tag: string :| Publishes(before, after, p, tag);
        PublicationRemembers(before, after, p, tag, channel, version);
      } else {
        RemovalRemembers(before, channel, version);
      }
    }
  }

  lemma NowRemembers(e: Entry, channel: string)
    requires HasReal(e, channel) && Accepted(e.tags[channel]) && (channel == ALPHA || channel == LATEST)
    ensures Remembers(e, channel, e.tags[channel])
  {
    TotalOrder(e.tags[channel], e.tags[channel], e.tags[channel]);
  }

  /** What every change of an entry keeps, the entry keeps over its history. */
  lemma {:induction false} EntryKeeps(entries: seq<Entry>, i: nat, j: nat, keeps: Entry -> bool)
    requires i <= j < |entries| && keeps(entries[i])
    requires forall k: nat | k + 1 < |entries| && keeps(entries[k]) :: keeps(entries[k + 1])
    ensures keeps(entries[j])
    decreases j
  {
    if i < j {
      EntryKeeps(entries, i, j - 1, keeps);
      assert keeps(entries[j - 1 + 1]);
    }
  }

  lemma HistoryOfEntry(history: seq<Registry>, changes: seq<Change>, k: nat, name: string, gentle: bool)
    requires IsHistory(history, changes) && k < |changes| && (gentle ==> AllGentle(history, changes))
    ensures EntryChange(Registered(history[k], name), Registered(history[k + 1], name), gentle)
  {
    assert Changes(history[k], changes[k], history[k + 1]);
    ChangeOfEntry(history[k], changes[k], name, gentle);
  }

  lemma HistoryRemembers(
      history: seq<Registry>, changes: seq<Change>, i: nat, j: nat, name: string, channel: string, version: string)
    requires IsHistory(history, changes) && i <= j < |history|
    requires channel == ALPHA || (channel == LATEST && AllGentle(history, changes))
    requires Remembers(Registered(history[i], name), channel, version)
    ensures Remembers(Registered(history[j], name), channel, version)
  {
    var keeps := (e: Entry) => Remembers(e, channel, version);
    var entries := seq(|history|, k requires 0 <= k < |history| => Registered(history[k], name));
    forall k: nat | k + 1 < |entries| && keeps(entries[k]) ensures keeps(entries[k + 1]) {
      HistoryOfEntry(history, changes, k, name, channel == LATEST);
      EntryRemembers(entries[k], entries[k + 1], channel, version);
    }
    EntryKeeps(entries, i, j, keeps);
  }

  /** No package's `alpha` ever moves to a lower version or goes away, whatever entries the repairs met. Nor
      does `latest` move to a lower version, not even across a removal, as long as each removal met an entry
      whose `latest` was not above its `alpha`. */
  lemma ChannelsNeverFall(history: seq<Registry>, changes: seq<Change>, i: nat, j: nat, name: string, channel: string)
    requires IsHistory(history, changes) && i <= j < |history|
    requires channel == ALPHA || (channel == LATEST && AllGentle(history, changes))
    requires var e := Registered(history[i], name); HasReal(e, channel) && Accepted(e.tags[channel])
    ensures var e, e' := Registered(history[i], name), Registered(history[j], name);
            channel in e'.tags ==> AtMost(e.tags[channel], e'.tags[channel])
    ensures channel == ALPHA ==> ALPHA in Registered(history[j], name).tags
  {
    NowRemembers(Registered(history[i], name), channel);
    HistoryRemembers(history, changes, i, j, name, channel, Registered(history[i], name).tags[channel]);
  }

  // ---------------------------------------------------------------------------------------------
  // verifyPublishedRelease

  /** One package of the release: its content, its channel, and that an alpha is not `latest`. */
  predicate IsVerified(p: Artifact, e: Entry) {
    && p.version in e.versions && e.versions[p.version] == p.integrity
    && TagOf(p.version) in e.tags && e.tags[TagOf(p.version)] == p.version
    && !(TagOf(p.version) == ALPHA && LATEST in e.tags && e.tags[LATEST] == p.version)
  }

  method VerifyPublishedRelease(registry: Registry, packages: seq<Artifact>) returns (ok: bool)
    ensures ok <==> forall p | p in packages :: IsVerified(p, Registered(registry, p.name))
  {
    var n := 0;
    while n < |packages|
      invariant 0 <= n <= |packages|
      invariant forall i | 0 <= i < n :: IsVerified(packages[i], Registered(registry, packages[i].name))
    {
      var e := Registered(registry, packages[n].name);
      if !IsVerified(packages[n], e) {
        assert packages[n] in packages;
        return false;
      }
      n := n + 1;
    }
    return true;
  }

  /** After a release whose every publication was accepted and whose repair succeeded, the final
      verification passes for an alpha release; for a stable one exactly if the packages that were already
      registered had their `latest` at this version before. */
  lemma CompleteReleaseVerifies(
      registry: Registry, packages: seq<Artifact>, version: string, promotes: nat -> bool, todo: seq<Artifact>,
      p: Artifact)
    requires IsInventory(packages, version) && Plan(registry, packages).Ok? && p in packages
    requires var published := PublishAll(registry, Plan(registry, packages).value, TagOf(version), promotes);
             BootstrapLatestRemovals(packages, LookupAll(published, packages)) == Ok(todo)
    ensures var published := PublishAll(registry, Plan(registry, packages).value, TagOf(version), promotes);
            var final := Registered(RemoveLatestOf(published, todo), p.name);
            var first := Registered(registry, p.name);
            IsVerified(p, final) <==>
              || TagOf(version) == ALPHA || version !in first.versions
              || (LATEST in first.tags && first.tags[LATEST] == version)
  {
    var pending := Plan(registry, packages).value;
    var published := PublishAll(registry, pending, TagOf(version), promotes);
    Preflight(published, packages);
    assert Repairable(published, p);
    OnlyAlphaIsRepaired(published, packages, todo, p);
    BeforeRepair(registry, packages, version, promotes, p);
    var final := Registered(RemoveLatestOf(published, todo), p.name);
    FinalEntry(Registered(registry, p.name), Registered(published, p.name), final, p);
  }

  /** The entry once every planned publication was accepted. */
  ghost predicate IsComplete(first: Entry, e: Entry, p: Artifact) {
    if p.version in first.versions then e == first else IsPublished(first, e, p, TagOf(p.version))
  }

  lemma BeforeRepair(registry: Registry, packages: seq<Artifact>, version: string, promotes: nat -> bool, p: Artifact)
    requires IsInventory(packages, version) && Plan(registry, packages).Ok? && p in packages
    ensures IsComplete(Registered(registry, p.name),
                       Registered(PublishAll(registry, Plan(registry, packages).value, TagOf(version), promotes),
                           p.name), p)
  {
    var pending := Plan(registry, packages).value;
    if version in Registered(registry, p.name).versions {
      NotPending(registry, packages, p);
      PublishAllTouches(registry, pending, TagOf(version), promotes, p.name);
    } else {
      PlanHolds(registry, packages);
      PlanSelects(registry, packages);
      var i :| 0 <= i < |pending| && pending[i] == p;
      PublishAllPublishes(registry, pending, TagOf(version), promotes, i);
    }
  }

  lemma FinalEntry(first: Entry, e: Entry, final: Entry, p: Artifact)
    requires IsComplete(first, e, p) && p.version in e.versions && e.versions[p.version] == p.integrity
    requires final.versions == e.versions && (final == e || TagOf(p.version) == ALPHA)
    requires TagOf(p.version) == ALPHA ==>
               && ALPHA in final.tags && final.tags[ALPHA] == p.version
               && (LATEST in final.tags ==> final.tags[LATEST] != p.version)
    ensures IsVerified(p, final) <==>
              || TagOf(p.version) == ALPHA || p.version !in first.versions
              || (LATEST in first.tags && first.tags[LATEST] == p.version)
  {
  }

  lemma NotPending(registry: Registry, packages: seq<Artifact>, p: Artifact)
    requires UniquelyNamed(packages) && Plan(registry, packages).Ok? && p in packages
    requires p.version in Registered(registry, p.name).versions
    ensures p.name !in NamesOf(Plan(registry, packages).value)
  {
    PlanHolds(registry, packages);
    PlanSelects(registry, packages);
  }

  lemma OnlyAlphaIsRepaired(published: Registry, packages: seq<Artifact>, todo: seq<Artifact>, p: Artifact)
    requires UniquelyNamed(packages) && p in packages && Accepted(p.version)
    requires Repairable(published, p) && AllToRepair(published, packages, todo)
    requires LatestIsRight(Registered(RemoveLatestOf(published, todo), p.name), p)
    ensures var e, final := Registered(published, p.name), Registered(RemoveLatestOf(published, todo), p.name);
            && final.versions == e.versions && (final == e || TagOf(p.version) == ALPHA)
            && p.version in e.versions && e.versions[p.version] == p.integrity
            && (TagOf(p.version) == ALPHA ==>
                  && ALPHA in final.tags && final.tags[ALPHA] == p.version
                  && (LATEST in final.tags ==> final.tags[LATEST] != p.version))
  {
    RemoveLatestSpares(published, todo, p.name);
    PublishedAs(p, Registered(published, p.name));
    if TagOf(p.version) == ALPHA {
      TagIsKind(p.version);
    }
    if q :| q in todo && q.name == p.name {
      SameName(packages, p, q);
      RepairMeans(p, Registered(published, p.name));
    }
  }

  lemma PublishedAs(p: Artifact, e: Entry)
    requires CheckPackage(p, e) == Ok(false)
    ensures p.version in e.versions && e.versions[p.version] == p.integrity
  {
  }

  lemma TagIsKind(version: string)
    requires TagOf(version) == ALPHA
    ensures NpmReleaseTag(version) == Ok(ALPHA)
  {
  }

  // ---------------------------------------------------------------------------------------------
  // publishReleasePackages

  datatype ReleaseEnd = PlanRefused | PublicationFailed | RepairStopped | NotVerified | Verified

  /** One run of the publication of an inventory. The oracles say what npm does with each publication and
      each removal, and what others do to the registry during the repair. */
  method PublishReleasePackages(
      registry: NpmRegistry, packages: seq<Artifact>, version: string,
      accepts: nat -> bool, promotes: nat -> bool, reports: nat -> bool,
      others: Others, commands: nat -> Removal)
    returns (end: ReleaseEnd)
    requires IsInventory(packages, version)
    requires forall n :: reports(n) ==> accepts(n)
    modifies registry
    // every package is checked before the first write
    ensures end.PlanRefused? <==> Plan(old(registry.entries), packages).Err?
    ensures end.PlanRefused? ==> registry.entries == old(registry.entries)
    // wherever publishing stopped, a rerun is permitted and has exactly the rest to do
    ensures end.PublicationFailed? ==>
        exists k :: StoppedAfter(old(registry.entries), packages, version, promotes, k, registry.entries)
    // wherever an undisturbed repair stopped, a rerun has nothing to publish and is free to repair the rest
    ensures end.RepairStopped? && Quiet(others) && AreTruthful(commands) ==>
              Plan(old(registry.entries), packages).Ok?
              && RepairLeft(PublishedOf(old(registry.entries), packages, version, promotes), packages, registry.entries)
    ensures end.Verified? ==> forall p | p in packages :: IsVerified(p, Registered(registry.entries, p.name))
  {
    ghost var before := registry.entries;
    var plan := Plan(registry.entries, packages);
    if plan.Err? {
      return PlanRefused;
    }
    var pending := plan.value;
    var published;
    ghost var accepted;
    published, accepted := registry.PublishPending(pending, TagOf(version), accepts, promotes, reports);
    if !published {
      RerunResumes(before, packages, version, TagOf(version), promotes, accepted);
      assert StoppedAfter(before, packages, version, promotes, accepted, registry.entries);
      return PublicationFailed;
    }
    assert pending[..accepted] == pending;
    ghost var complete := registry.entries;
    RerunResumes(before, packages, version, TagOf(version), promotes, |pending|);
    ghost var trace;
    var repair;
    repair, trace := registry.ReconcileBootstrapChannels(packages, others, commands);
    if !repair.Repaired? {
      if Quiet(others) && AreTruthful(commands) {
        StopLeaves(complete, packages, registry.entries);
      }
      return RepairStopped;
    }
    var ok := VerifyPublishedRelease(registry.entries, packages);
    end := if ok then Verified else NotVerified;
  }

  /** The registry once every planned publication was accepted. */
  ghost function PublishedOf(
      before: Registry, packages: seq<Artifact>, version: string, promotes: nat -> bool): Registry
    requires Plan(before, packages).Ok?
  {
    PublishAll(before, Plan(before, packages).value, TagOf(version), promotes)
  }

  /** Only some accidental `latest` have gone; a rerun plans no publication, and passes the check of the
      inventory exactly if this run did. */
  ghost predicate RepairLeft(published: Registry, packages: seq<Artifact>, after: Registry) {
    && RepairedPartly(published, packages, after)
    && Plan(after, packages) == Ok([])
    && (AllRepairable(after, packages) <==> AllRepairable(published, packages))
  }

  lemma StopLeaves(published: Registry, packages: seq<Artifact>, after: Registry)
    requires UniquelyNamed(packages) && Plan(published, packages) == Ok([])
    requires RepairedPartly(published, packages, after) && (!AllRepairable(published, packages) ==> after == published)
    ensures RepairLeft(published, packages, after)
  {
    if AllRepairable(published, packages) {
      RepairResumes(published, packages, after);
    }
  }

  /** The first `k` planned publications are in the registry, nothing else changed, and a rerun plans the rest. */
  ghost predicate StoppedAfter(
      before: Registry, packages: seq<Artifact>, version: string, promotes: nat -> bool, k: nat, after: Registry)
  {
    && Plan(before, packages).Ok? && k <= |Plan(before, packages).value|
    && after == PublishAll(before, Plan(before, packages).value[..k], TagOf(version), promotes)
    && Plan(after, packages) == Ok(Plan(before, packages).value[k..])
  }
}
