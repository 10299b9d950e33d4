/** Concrete releases in which the channels do not end as a release means them to
    (scripts/release-packages.ts). */
module ReleaseExamples {
  import opened Wrappers
  import opened ReleaseVersion
  import opened Publication
  import opened Channels
  import opened ChannelHistory

  function Dotted(a: string, b: string, c: string): string {
    a + ['.'] + (b + ['.'] + c)
  }

  lemma NumeralIsPlain(s: string)
    requires IsNumeral(s)
    ensures '.' !in s && '-' !in s
  {
  }

  lemma DottedParts(a: string, b: string, c: string)
    requires '.' !in a && '.' !in b && '.' !in c
    ensures Split(Dotted(a, b, c), '.') == [a, b, c]
  {
    SplitAt(a, '.', b + ['.'] + c);
    SplitAt(b, '.', c);
    SplitWhole(c, '.');
  }

  lemma DottedHasNoHyphen(a: string, b: string, c: string)
    requires IsNumeral(a) && IsNumeral(b) && IsNumeral(c)
    ensures '-' !in Dotted(a, b, c) && '.' !in a && '.' !in b && '.' !in c
  {
    NumeralIsPlain(a);
    NumeralIsPlain(b);
    NumeralIsPlain(c);
    assert '-' !in b + ['.'] + c;
  }

  /** Three numerals make a stable version. */
  lemma StableVersion(a: string, b: string, c: string)
    requires IsNumeral(a) && IsNumeral(b) && IsNumeral(c)
    ensures DesktopReleaseKind(Dotted(a, b, c)) == Ok(Stable) && FieldsOf(Dotted(a, b, c)).core == [a, b, c]
    ensures IsStableKey(Dotted(a, b, c))
  {
    DottedHasNoHyphen(a, b, c);
    DottedParts(a, b, c);
    NotFound(Dotted(a, b, c), '-');
    assert Core(Dotted(a, b, c)) == Dotted(a, b, c);
    assert forall p | p in [a, b, c] :: IsNumeral(p);
  }

  /** With `-alpha.` and a numeral they make a preview. */
  lemma AlphaVersion(core: string, a: string, b: string, c: string, n: string)
    requires IsNumeral(a) && IsNumeral(b) && IsNumeral(c) && IsNumeral(n) && core == Dotted(a, b, c)
    ensures DesktopReleaseKind(core + ['-'] + ("alpha." + n)) == Ok(Preview)
    ensures FieldsOf(core + ['-'] + ("alpha." + n)) == Fields([a, b, c], Preview, n)
  {
    var v := core + ['-'] + ("alpha." + n);
    DottedHasNoHyphen(a, b, c);
    DottedParts(a, b, c);
    IndexOfPrefix(core, '-', "alpha." + n);
    assert Core(v) == core;
    assert Prerelease(v) == "alpha." + n;
    AlphaIsPrerelease(n);
    PreviewLast(v);
  }

  lemma AlphaIsPrerelease(n: string)
    requires IsNumeral(n)
    ensures forall p | p in Split("alpha." + n, '.') :: IsIdentifier(p)
    ensures "alpha." <= "alpha." + n && ("alpha." + n)[6..] == n
  {
    AlphaParts(n);
    assert IsIdentifier("alpha") && IsIdentifier(n);
  }

  lemma KeyHasNoHyphen(v: string)
    requires IsStableKey(v)
    ensures '-' !in v
  {
    var parts := Split(v, '.');
    JoinSplit(v, '.');
    KeyOfParts(parts[0], parts[1], parts[2]);
    assert parts == [parts[0], parts[1], parts[2]];
  }

  lemma KeyOfParts(a: string, b: string, c: string)
    requires AllDigits(a) && AllDigits(b) && AllDigits(c)
    ensures '-' !in Join([a, b, c], '.')
  {
    assert [a, b, c][1..] == [b, c] && [b, c][1..] == [c];
    assert Join([c], '.') == c;
    assert Join([b, c], '.') == b + ['.'] + c;
    assert '-' !in a && '-' !in b + ['.'] + c;
  }

  const STABLE := "1.0.0"
  const EARLIER := "0.9.0"
  const PREVIEW := "1.0.0-alpha.1"
  const NEXT := "1.0.0-alpha.2"

  lemma Spelled()
    ensures STABLE == Dotted("1", "0", "0") && EARLIER == Dotted("0", "9", "0")
    ensures PREVIEW == STABLE + ['-'] + ("alpha." + "1") && NEXT == STABLE + ['-'] + ("alpha." + "2")
  {
  }

  lemma StableParses()
    ensures DesktopReleaseKind(STABLE) == Ok(Stable) && FieldsOf(STABLE).core == ["1", "0", "0"]
    ensures FieldsOf(STABLE).kind.Stable? && IsStableKey(STABLE)
  {
    Spelled();
    StableVersion("1", "0", "0");
  }

  lemma EarlierParses()
    ensures DesktopReleaseKind(EARLIER) == Ok(Stable) && FieldsOf(EARLIER).core == ["0", "9", "0"]
  {
    Spelled();
    StableVersion("0", "9", "0");
  }

  lemma PreviewParses()
    ensures DesktopReleaseKind(PREVIEW) == Ok(Preview) && !IsStableKey(PREVIEW)
    ensures FieldsOf(PREVIEW) == Fields(["1", "0", "0"], Preview, "1")
  {
    Spelled();
    AlphaVersion(STABLE, "1", "0", "0", "1");
    HyphenIsNoKey(STABLE, "alpha." + "1");
  }

  lemma HyphenIsNoKey(core: string, prerelease: string)
    ensures !IsStableKey(core + ['-'] + prerelease)
  {
    var v := core + ['-'] + prerelease;
    assert v[|core|] == '-';
    if IsStableKey(v) {
      KeyHasNoHyphen(v);
    }
  }

  lemma NextParses()
    ensures DesktopReleaseKind(NEXT) == Ok(Preview) && FieldsOf(NEXT) == Fields(["1", "0", "0"], Preview, "2")
  {
    Spelled();
    AlphaVersion(STABLE, "1", "0", "0", "2");
  }

  // ---------------------------------------------------------------------------------------------
  // A stable tag that the repair removes

  /** An alpha release in both channels, and nothing else. */
  function Accidental(p: Artifact): Entry {
    Entry(map[p.version := p.integrity], map[ALPHA := p.version, LATEST := p.version])
  }

  /** Between the lookup and the command of a round somebody releases a stable version. */
  function ReleaserOf(p: Artifact, stable: string): Others {
    Others((_, registry) => registry, (_, registry: Registry) => registry[p.name := WithStable(p, stable)])
  }

  function WithStable(p: Artifact, stable: string): Entry {
    Entry(map[p.version := p.integrity, stable := "content of the release"], map[ALPHA := p.version, LATEST := stable])
  }

  lemma AccidentalIsToRepair(p: Artifact)
    requires DesktopReleaseKind(p.version) == Ok(Preview) && !IsStableKey(p.version)
    ensures IsToRepair(p, Accidental(p))
  {
    ToRepairMeans(p, Accidental(p));
    assert forall v | v in Accidental(p).versions :: v == p.version;
  }

  /** The lookup finds the accidental `latest`, and the command takes the stable one away. */
  lemma StableIsRemoved(p: Artifact, stable: string) returns (o: Occasion)
    requires DesktopReleaseKind(p.version) == Ok(Preview) && !IsStableKey(p.version) && IsStableKey(stable)
    ensures IsOccasion(0, map[p.name := Accidental(p)], o, ReleaserOf(p, stable), Removal(true, true)) && IsDecided(o)
    ensures o.package == p && o.met.Some?
    ensures var met := Registered(o.met.value, p.name);
            LATEST in met.tags && met.tags[LATEST] == stable && !OnlyAccidental(p, met)
    ensures LATEST !in Registered(o.left, p.name).tags
  {
    AccidentalIsToRepair(p);
    var seen: Registry := map[p.name := Accidental(p)];
    var met := seen[p.name := WithStable(p, stable)];
    o := Occasion(p, seen, Some(met), RemoveLatestAt(met, p.name));
    assert stable in WithStable(p, stable).versions;
  }

  lemma StableLatestIsRemoved() returns (o: Occasion)
    ensures var p := Artifact("core", PREVIEW, "content of the preview");
      && IsOccasion(0, map["core" := Accidental(p)], o, ReleaserOf(p, STABLE), Removal(true, true)) && IsDecided(o)
      && o.package == p && o.met.Some?
      && LATEST in Registered(o.met.value, "core").tags && Registered(o.met.value, "core").tags[LATEST] == STABLE
      && LATEST !in Registered(o.left, "core").tags
  {
    PreviewParses();
    StableParses();
    o := StableIsRemoved(Artifact("core", PREVIEW, "content of the preview"), STABLE);
  }

  /** The plan for a single package that is to be published. */
  lemma OnePlanned(registry: Registry, q: Artifact)
    requires CheckPackage(q, Registered(registry, q.name)) == Ok(true)
    ensures Plan(registry, [q]) == Ok([q])
  {
    var e := Registered(registry, q.name);
    assert LookupAll(registry, [q]) == [e];
    var none: seq<Artifact> := [];
    assert [q][..0] == none && PublicationPlan(none, [e]) == Ok(none) && none + [q] == [q];
    assert PublicationPlan([q], [e]) == Ok([q]);
  }

  lemma OnePublished(registry: Registry, q: Artifact, tag: string, promotes: nat -> bool)
    ensures PublishAll(registry, [q], tag, promotes) == Publish(registry, q, tag, promotes(0))
  {
    assert [q][..0] == [];
    assert PublishAll(registry, [], tag, promotes) == registry;
  }

  /** One release of one package, which npm accepts. */
  lemma OneRelease(registry: Registry, q: Artifact, promotes: nat -> bool)
    requires CheckPackage(q, Registered(registry, q.name)) == Ok(true) && DesktopReleaseKind(q.version) == Ok(Preview)
    requires promotes(0)
    ensures Changes(registry, Release([q], q.version, promotes, 1), Publish(registry, q, ALPHA, true))
  {
    OnePlanned(registry, q);
    OnePublished(registry, q, ALPHA, promotes);
    assert [q][..1] == [q];
    assert Permitted(registry, Release([q], q.version, promotes, 1));
    assert TagOf(q.version) == ALPHA && Plan(registry, [q]).value[..1] == [q];
    assert After(registry, Release([q], q.version, promotes, 1)) == Publish(registry, q, ALPHA, true);
  }

  /** The stable `latest` is removed, and then the next alpha is released and promoted by npm. */
  ghost function Fall(first: Registry, next: Artifact, promotes: nat -> bool): (seq<Registry>, seq<Change>) {
    var removed := RemoveLatestAt(first, next.name);
    ([first, removed, Publish(removed, next, ALPHA, true)],
     [RemoveTag(next.name), Release([next], next.version, promotes, 1)])
  }

  lemma FallIsHistory(first: Registry, next: Artifact, promotes: nat -> bool)
    requires CheckPackage(next, Registered(RemoveLatestAt(first, next.name), next.name)) == Ok(true)
    requires DesktopReleaseKind(next.version) == Ok(Preview) && promotes(0)
    ensures IsHistory(Fall(first, next, promotes).0, Fall(first, next, promotes).1)
  {
    var (history, changes) := Fall(first, next, promotes);
    OneRelease(history[1], next, promotes);
    assert Changes(history[0], changes[0], history[1]);
  }

  lemma NextPasses(p: Artifact, stable: string, next: Artifact)
    requires CompareReleaseVersions(p.version, next.version) == Ok(-1)
    requires next.version != p.version && next.version != stable
    ensures CheckPackage(next, RemoveLatest(WithStable(p, stable))) == Ok(true)
  {
    var e := RemoveLatest(WithStable(p, stable));
    assert |ALPHA| != |LATEST|;
    assert LATEST !in e.tags && e.tags[ALPHA] == p.version && next.version !in e.versions;
  }

  lemma Promoted(registry: Registry, next: Artifact)
    requires LATEST !in Registered(registry, next.name).tags
    ensures var e := Registered(Publish(registry, next, ALPHA, true), next.name);
            LATEST in e.tags && e.tags[LATEST] == next.version
  {
  }

  /** So `latest` can fall: without the condition on the removals it moves from the stable version down to
      an alpha of it. */
  lemma LatestFalls(p: Artifact, stable: string, next: Artifact, promotes: nat -> bool)
    requires DesktopReleaseKind(next.version) == Ok(Preview) && next.name == p.name && promotes(0)
    requires CompareReleaseVersions(p.version, next.version) == Ok(-1)
    requires CompareReleaseVersions(stable, next.version) == Ok(1)
    requires next.version != p.version && next.version != stable
    ensures var (history, changes) := Fall(map[p.name := WithStable(p, stable)], next, promotes);
      && IsHistory(history, changes)
      && Falls(Registered(history[0], p.name), Registered(history[2], p.name))
  {
    var first: Registry := map[p.name := WithStable(p, stable)];
    NextPasses(p, stable, next);
    FallIsHistory(first, next, promotes);
    Promoted(RemoveLatestAt(first, p.name), next);
    assert |ALPHA| != |LATEST|;
  }

  /** `latest` has moved to a lower version. */
  predicate Falls(before: Entry, after: Entry) {
    && LATEST in before.tags && LATEST in after.tags
    && CompareReleaseVersions(before.tags[LATEST], after.tags[LATEST]) == Ok(1)
  }

  lemma StableLatestFalls(promotes: nat -> bool)
    requires promotes(0)
    ensures var p := Artifact("core", PREVIEW, "content of the preview");
      var next := Artifact("core", NEXT, "content of the next");
      var (history, changes) := Fall(map["core" := WithStable(p, STABLE)], next, promotes);
      IsHistory(history, changes) && Falls(Registered(history[0], "core"), Registered(history[2], "core"))
  {
    PreviewParses();
    NextParses();
    StableParses();
    PreviewsCompare(FieldsOf(PREVIEW), FieldsOf(NEXT), FieldsOf(STABLE));
    assert |PREVIEW| != |STABLE| && PREVIEW[12] != NEXT[12];
    LatestFalls(
      Artifact("core", PREVIEW, "content of the preview"), STABLE, Artifact("core", NEXT, "content of the next"),
      promotes);
  }

  lemma PreviewsCompare(one: Fields, two: Fields, stable: Fields)
    requires one == Fields(["1", "0", "0"], Preview, "1") && two == Fields(["1", "0", "0"], Preview, "2")
    requires stable.core == ["1", "0", "0"] && stable.kind.Stable?
    ensures CompareFields(one, two) == -1 && CompareFields(stable, two) == 1
  {
    SameCores(one.core);
    assert "1"[..0] == "" && "2"[..0] == "";
    assert DecimalValue("1") == 1 && DecimalValue("2") == 2;
    assert ComparePart("1", "2") == -1;
  }

  lemma SameCores(core: seq<string>)
    requires |core| == 3
    ensures CompareCores(core, core, 0) == 0
  {
    assert forall i | 0 <= i < 3 :: ComparePart(core[i], core[i]) == 0;
    assert CompareCores(core, core, 2) == 0;
    assert CompareCores(core, core, 1) == 0;
  }

  // ---------------------------------------------------------------------------------------------
  // A stable release that is not verified

  /** The version was published while `latest` stayed at an earlier one. */
  function HeldBack(p: Artifact, earlier: string): Entry {
    Entry(map[earlier := "content before", p.version := p.integrity], map[LATEST := earlier])
  }

  /** The release has nothing to publish and nothing to repair, and its verification fails. */
  ghost predicate CompletesUnverified(registry: Registry, p: Artifact, promotes: nat -> bool) {
    && IsInventory([p], p.version) && Plan(registry, [p]) == Ok([])
    && BootstrapLatestRemovals([p], LookupAll(PublishedOf(registry, [p], p.version, promotes), [p])) == Ok([])
    && !IsVerified(p, Registered(registry, p.name))
  }

  lemma HeldBackIsUnverified(p: Artifact, earlier: string, promotes: nat -> bool)
    requires DesktopReleaseKind(p.version) == Ok(Stable) && CompareReleaseVersions(earlier, p.version) == Ok(-1)
    requires earlier != p.version
    ensures CompletesUnverified(map[p.name := HeldBack(p, earlier)], p, promotes)
  {
    var e := HeldBack(p, earlier);
    var registry: Registry := map[p.name := e];
    HeldBackPasses(p, earlier);
    SinglePlan(p, e);
    Recheck(p, e);
    assert LookupAll(registry, [p]) == [e];
    assert PublishedOf(registry, [p], p.version, promotes) == registry;
  }

  lemma HeldBackPasses(p: Artifact, earlier: string)
    requires DesktopReleaseKind(p.version) == Ok(Stable) && CompareReleaseVersions(earlier, p.version) == Ok(-1)
    ensures CheckPackage(p, HeldBack(p, earlier)) == Ok(false) && CheckRepair(p, HeldBack(p, earlier)) == Ok(false)
  {
    ChannelsPermit(p, earlier);
    NothingToRepair(p, HeldBack(p, earlier));
  }

  lemma ChannelsPermit(p: Artifact, earlier: string)
    requires CompareReleaseVersions(earlier, p.version) == Ok(-1)
    ensures ChannelRefuses(HeldBack(p, earlier), ALPHA, p.version).None?
    ensures ChannelRefuses(HeldBack(p, earlier), LATEST, p.version).None?
  {
    assert |ALPHA| != |LATEST|;
    assert ALPHA !in HeldBack(p, earlier).tags && HeldBack(p, earlier).tags[LATEST] == earlier;
  }

  lemma NothingToRepair(p: Artifact, e: Entry)
    requires DesktopReleaseKind(p.version) == Ok(Stable)
    ensures CheckRepair(p, e) == Ok(false)
  {
    assert |ALPHA| != |LATEST|;
    assert NpmReleaseTag(p.version) == Ok(LATEST);
  }

  lemma HeldBackReleaseFails(promotes: nat -> bool)
    ensures var p := Artifact("core", STABLE, "content of the release");
            CompletesUnverified(map["core" := HeldBack(p, EARLIER)], p, promotes)
  {
    StableParses();
    EarlierParses();
    EarlierComesFirst(EARLIER, STABLE);
    assert EARLIER[0] != STABLE[0];
    HeldBackIsUnverified(Artifact("core", STABLE, "content of the release"), EARLIER, promotes);
  }

  lemma EarlierComesFirst(earlier: string, later: string)
    requires Accepted(earlier) && Accepted(later)
    requires FieldsOf(earlier).core == ["0", "9", "0"] && FieldsOf(later).core == ["1", "0", "0"]
    ensures CompareReleaseVersions(earlier, later) == Ok(-1)
  {
    FieldsComeFirst(FieldsOf(earlier), FieldsOf(later));
  }

  lemma FieldsComeFirst(earlier: Fields, later: Fields)
    requires earlier.core == ["0", "9", "0"] && later.core == ["1", "0", "0"]
    ensures CompareFields(earlier, later) == -1
  {
    assert "0"[..0] == "" && "1"[..0] == "";
    assert DecimalValue("0") == 0 && DecimalValue("1") == 1;
    assert ComparePart("0", "1") == -1;
  }
}
