/** The version strings that a release accepts (scripts/desktop-release.ts) and their order
    (compareReleaseVersions of scripts/release-packages.ts), against SemVer 2.0.0. */
module ReleaseVersion {
  import opened Wrappers

  predicate IsDigit(c: char) {
    '0' <= c <= '9'
  }

  predicate AllDigits(s: string) {
    forall i | 0 <= i < |s| :: IsDigit(s[i])
  }

  /** 0|[1-9]\d* */
  predicate IsNumeral(s: string) {
    AllDigits(s) && s != "" && (s == "0" || s[0] != '0')
  }

  /** BigInt of a string of digits. */
  function DecimalValue(s: string): nat
    requires AllDigits(s)
  {
    if s == "" then 0 else 10 * DecimalValue(s[..|s| - 1]) + (s[|s| - 1] as nat - '0' as nat)
  }

  /** The position of the first `c`, or the length. */
  function IndexOf(s: string, c: char): (i: nat)
    ensures i <= |s|
  {
    if s == "" || s[0] == c then 0 else 1 + IndexOf(s[1..], c)
  }

  /** The position after the last `c`, or 0. */
  function AfterLast(s: string, c: char): (i: nat)
    ensures i <= |s|
  {
    if s == "" then 0
    else if s[|s| - 1] == c then |s|
    else AfterLast(s[..|s| - 1], c)
  }

  function Split(s: string, separator: char): (parts: seq<string>)
    ensures |parts| > 0
    decreases |s|
  {
    var i := IndexOf(s, separator);
    if i == |s| then [s] else [s[..i]] + Split(s[i + 1..], separator)
  }

  predicate IsIdentifierChar(c: char) {
    IsDigit(c) || 'A' <= c <= 'Z' || 'a' <= c <= 'z' || c == '-'
  }

  predicate IsIdentifier(s: string) {
    s != "" && forall i | 0 <= i < |s| :: IsIdentifierChar(s[i])
  }

  /** What precedes the first hyphen. */
  function Core(version: string): string {
    version[..IndexOf(version, '-')]
  }

  /** `version.includes("-")` */
  predicate HasPrerelease(version: string) {
    IndexOf(version, '-') < |version|
  }

  /** What follows the first hyphen. */
  function Prerelease(version: string): string {
    if HasPrerelease(version) then version[IndexOf(version, '-') + 1..] else ""
  }

  /** The pattern RELEASE_VERSION. */
  predicate MatchesReleaseVersion(version: string) {
    && |Split(Core(version), '.')| == 3
    && (forall p | p in Split(Core(version), '.') :: IsNumeral(p))
    && (HasPrerelease(version) ==> forall p | p in Split(Prerelease(version), '.') :: IsIdentifier(p))
  }

  datatype Kind = Stable | Preview

  function DesktopReleaseKind(version: string): Result<Kind, ()> {
    if !MatchesReleaseVersion(version) then Err(())
    else if !HasPrerelease(version) || Prerelease(version) == "" then Ok(Stable)
    else if "alpha." <= Prerelease(version) && IsNumeral(Prerelease(version)[6..]) then Ok(Preview)
    else Err(())
  }

  predicate Accepted(version: string) {
    DesktopReleaseKind(version).Ok?
  }

  /** `left.slice(left.lastIndexOf(".") + 1)` */
  function LastPart(version: string): string {
    version[AfterLast(version, '.')..]
  }

  function Sign(a: nat, b: nat): int {
    if a > b then 1 else if a < b then -1 else 0
  }

  function ComparePart(left: string, right: string): int {
    if AllDigits(left) && AllDigits(right) then Sign(DecimalValue(left), DecimalValue(right)) else 0
  }

  /** The loop over the three indices of the core. */
  function CompareCores(left: seq<string>, right: seq<string>, index: nat): int
    decreases 3 - index
  {
    if index >= 3 || index >= |left| || index >= |right| then 0
    else if ComparePart(left[index], right[index]) != 0 then ComparePart(left[index], right[index])
    else CompareCores(left, right, index + 1)
  }

  /** The comparison, from the parts that it takes from each string. */
  function CompareFields(left: Fields, right: Fields): int {
    var core := CompareCores(left.core, right.core, 0);
    if core != 0 then core
    else if left.kind != right.kind then (if left.kind.Stable? then 1 else -1)
    else if left.kind.Stable? then 0
    else ComparePart(left.last, right.last)
  }

  /** The core split at its dots, the kind, and what follows the last dot. */
  datatype Fields = Fields(core: seq<string>, kind: Kind, last: string)

  function FieldsOf(version: string): Fields
    requires Accepted(version)
  {
    Fields(Split(Core(version), '.'), DesktopReleaseKind(version).value, LastPart(version))
  }

  /** It throws if one of the strings is not accepted. */
  function CompareReleaseVersions(left: string, right: string): Result<int, ()> {
    if !Accepted(left) || !Accepted(right) then Err(()) else Ok(CompareFields(FieldsOf(left), FieldsOf(right)))
  }

  predicate AtMost(left: string, right: string) {
    var c := CompareReleaseVersions(left, right);
    c.Ok? && c.value <= 0
  }

  // ---------------------------------------------------------------------------------------------
  // SemVer 2.0.0, sections 9 to 11

  datatype Identifier = Numeric(value: nat) | Alphanumeric(text: string)

  datatype SemVer = SemVer(major: nat, minor: nat, patch: nat, prerelease: seq<Identifier>)

  /** Lexical order in ASCII. */
  function CompareText(a: string, b: string): int {
    if a == "" || b == "" then Sign(|a|, |b|)
    else if a[0] != b[0] then (if a[0] < b[0] then -1 else 1)
    else CompareText(a[1..], b[1..])
  }

  /** Section 11.4.1 to 11.4.3. */
  function CompareIdentifier(a: Identifier, b: Identifier): int {
    match (a, b)
    case (Numeric(m), Numeric(n)) => Sign(m, n)
    case (Alphanumeric(s), Alphanumeric(t)) => CompareText(s, t)
    case (Numeric(_), Alphanumeric(_)) => -1
    case (Alphanumeric(_), Numeric(_)) => 1
  }

  /** Section 11.4: identifier by identifier, and a larger set of fields is higher. */
  function CompareIdentifiers(a: seq<Identifier>, b: seq<Identifier>): int {
    if a == [] || b == [] then Sign(|a|, |b|)
    else if CompareIdentifier(a[0], b[0]) != 0 then CompareIdentifier(a[0], b[0])
    else CompareIdentifiers(a[1..], b[1..])
  }

  /** Section 11.2 and 11.3. */
  function Precedence(a: SemVer, b: SemVer): int {
    if a.major != b.major then Sign(a.major, b.major)
    else if a.minor != b.minor then Sign(a.minor, b.minor)
    else if a.patch != b.patch then Sign(a.patch, b.patch)
    else if a.prerelease == [] || b.prerelease == [] then
      (if a.prerelease == b.prerelease then 0 else if a.prerelease == [] then 1 else -1)
    else CompareIdentifiers(a.prerelease, b.prerelease)
  }

  /** Section 9: an identifier of digits only is numeric. */
  function MeaningOfIdentifier(s: string): Identifier {
    if AllDigits(s) then Numeric(DecimalValue(s)) else Alphanumeric(s)
  }

  function MeaningOfPrerelease(parts: seq<string>): seq<Identifier> {
    if parts == [] then [] else [MeaningOfIdentifier(parts[0])] + MeaningOfPrerelease(parts[1..])
  }

  /** The version that a string denotes. */
  function Meaning(version: string): SemVer
    requires MatchesReleaseVersion(version)
  {
    var core := Split(Core(version), '.');
    assert core[0] in core && core[1] in core && core[2] in core;
    SemVer(DecimalValue(core[0]), DecimalValue(core[1]), DecimalValue(core[2]),
           if HasPrerelease(version) then MeaningOfPrerelease(Split(Prerelease(version), '.')) else [])
  }

  // ---------------------------------------------------------------------------------------------
  // Decimal numerals without leading zeros are injective

  function Decimal(n: nat): string {
    if n < 10 then [n as char + '0'] else Decimal(n / 10) + [(n % 10) as char + '0']
  }

  lemma {:induction false} PositiveValue(s: string)
    requires s != "" && s[0] != '0' && AllDigits(s)
    ensures DecimalValue(s) > 0
    decreases |s|
  {
    if |s| > 1 {
      PositiveValue(s[..|s| - 1]);
    }
  }

  lemma {:induction false} DecimalOfValue(s: string)
    requires IsNumeral(s)
    ensures Decimal(DecimalValue(s)) == s
    decreases |s|
  {
    var last := s[|s| - 1] as nat - '0' as nat;
    if |s| > 1 {
      var front := s[..|s| - 1];
      PositiveValue(front);
      DecimalOfValue(front);
      assert DecimalValue(s) == 10 * DecimalValue(front) + last;
      assert DecimalValue(s) / 10 == DecimalValue(front) && DecimalValue(s) % 10 == last;
      assert s == front + [s[|s| - 1]];
    } else {
      assert s[..0] == "";
      assert DecimalValue(s) == last;
    }
  }

  lemma NumeralsInjective(s: string, t: string)
    requires IsNumeral(s) && IsNumeral(t) && DecimalValue(s) == DecimalValue(t)
    ensures s == t
  {
    DecimalOfValue(s);
    DecimalOfValue(t);
  }

  // ---------------------------------------------------------------------------------------------
  // What an accepted string looks like

  lemma {:induction false} FirstIs(s: string, c: char, i: nat)
    requires i < |s| && s[i] == c && c !in s[..i]
    ensures IndexOf(s, c) == i
  {
    if i > 0 {
      assert s[0] in s[..i];
      assert s[1..][..i - 1] == s[1..i];
      FirstIs(s[1..], c, i - 1);
    }
  }

  lemma {:induction false} NotFound(s: string, c: char)
    requires c !in s
    ensures IndexOf(s, c) == |s|
  {
    if s != "" {
      assert s[0] in s && forall d | d in s[1..] :: d in s;
      NotFound(s[1..], c);
    }
  }

  lemma {:induction false} IndexOfFinds(s: string, c: char)
    ensures c in s ==> IndexOf(s, c) < |s| && s[IndexOf(s, c)] == c
    ensures IndexOf(s, c) < |s| ==> c in s
  {
    if s != "" {
      assert s == [s[0]] + s[1..];
      IndexOfFinds(s[1..], c);
    }
  }

  lemma {:induction false} LastIs(s: string, c: char, i: nat)
    requires i < |s| && s[i] == c && c !in s[i + 1..]
    ensures AfterLast(s, c) == i + 1
  {
    var front := s[..|s| - 1];
    if i < |s| - 1 {
      assert s[|s| - 1] in s[i + 1..];
      assert front[i + 1..] == s[i + 1..|s| - 1];
      LastIs(front, c, i);
    }
  }

  lemma IndexOfPrefix(a: string, c: char, b: string)
    requires c !in a
    ensures IndexOf(a + [c] + b, c) == |a|
  {
    assert (a + [c] + b)[..|a|] == a;
    FirstIs(a + [c] + b, c, |a|);
  }

  lemma AfterLastSuffix(a: string, c: char, b: string)
    requires c !in b
    ensures AfterLast(a + [c] + b, c) == |a| + 1
  {
    assert (a + [c] + b)[|a| + 1..] == b;
    LastIs(a + [c] + b, c, |a|);
  }

  lemma SplitAt(a: string, c: char, b: string)
    requires c !in a
    ensures Split(a + [c] + b, c) == [a] + Split(b, c)
  {
    IndexOfPrefix(a, c, b);
    assert (a + [c] + b)[..|a|] == a && (a + [c] + b)[|a| + 1..] == b;
  }

  lemma SplitWhole(a: string, c: char)
    requires c !in a
    ensures Split(a, c) == [a]
  {
    NotFound(a, c);
  }

  function Join(parts: seq<string>, c: char): string
    requires |parts| > 0
  {
    if |parts| == 1 then parts[0] else parts[0] + [c] + Join(parts[1..], c)
  }

  lemma CutAt(s: string, i: nat)
    requires i < |s|
    ensures s == s[..i] + [s[i]] + s[i + 1..]
  {
  }

  lemma {:induction false} JoinSplit(s: string, c: char)
    ensures Join(Split(s, c), c) == s
    decreases |s|
  {
    var i := IndexOf(s, c);
    IndexOfFinds(s, c);
    if i < |s| {
      var rest := s[i + 1..];
      JoinSplit(rest, c);
      CutAt(s, i);
      var parts := Split(rest, c);
      assert Split(s, c) == [s[..i]] + parts && ([s[..i]] + parts)[1..] == parts;
    }
  }

  lemma AlphaParts(n: string)
    requires IsNumeral(n)
    ensures Split("alpha." + n, '.') == ["alpha", n]
    ensures MeaningOfPrerelease(Split("alpha." + n, '.')) == [Alphanumeric("alpha"), Numeric(DecimalValue(n))]
  {
    assert "alpha." + n == "alpha" + ['.'] + n;
    assert '.' !in "alpha";
    assert '.' !in n;
    SplitAt("alpha", '.', n);
    SplitWhole(n, '.');
    var parts := ["alpha", n];
    assert !AllDigits("alpha") by { assert !IsDigit("alpha"[0]); }
    assert parts[1..] == [n] && [n][1..] == [];
    assert MeaningOfPrerelease([n]) == [Numeric(DecimalValue(n))];
  }

  /** The number of an accepted preview. */
  function AlphaNumber(version: string): string
    requires DesktopReleaseKind(version) == Ok(Preview)
  {
    Prerelease(version)[6..]
  }

  lemma PreviewText(version: string)
    requires DesktopReleaseKind(version) == Ok(Preview)
    ensures IsNumeral(AlphaNumber(version))
    ensures Prerelease(version) == "alpha." + AlphaNumber(version)
    ensures version == Core(version) + "-alpha." + AlphaNumber(version)
  {
    IndexOfFinds(version, '-');
    CutAt(version, IndexOf(version, '-'));
    DropPrefix("alpha.", Prerelease(version));
    Hyphenated(Core(version), AlphaNumber(version));
  }

  lemma DropPrefix(prefix: string, s: string)
    requires prefix <= s
    ensures s == prefix + s[|prefix|..]
  {
  }

  lemma Hyphenated(core: string, n: string)
    ensures core + ['-'] + ("alpha." + n) == core + "-alpha." + n
  {
    assert ['-'] + "alpha." == "-alpha.";
  }

  lemma PreviewLast(version: string)
    requires DesktopReleaseKind(version) == Ok(Preview)
    ensures LastPart(version) == AlphaNumber(version)
  {
    PreviewText(version);
    var n := AlphaNumber(version);
    var before := Core(version) + "-alpha";
    assert version == before + ['.'] + n;
    AfterLastSuffix(before, '.', n);
  }

  lemma PreviewMeaning(version: string)
    requires DesktopReleaseKind(version) == Ok(Preview)
    ensures IsNumeral(AlphaNumber(version))
    ensures Meaning(version).prerelease == [Alphanumeric("alpha"), Numeric(DecimalValue(AlphaNumber(version)))]
  {
    PreviewText(version);
    AlphaParts(AlphaNumber(version));
  }

  lemma PrereleaseNotEmpty(version: string)
    requires MatchesReleaseVersion(version)
    ensures HasPrerelease(version) ==> Prerelease(version) != ""
  {
    SplitWhole("", '.');
    assert "" in Split("", '.');
  }

  lemma StableText(version: string)
    requires DesktopReleaseKind(version) == Ok(Stable)
    ensures !HasPrerelease(version) && version == Core(version) && Meaning(version).prerelease == []
  {
    PrereleaseNotEmpty(version);
  }

  // ---------------------------------------------------------------------------------------------
  // The order, from the fields

  /** What the fields of an accepted string are. */
  predicate FieldsOk(f: Fields) {
    && |f.core| == 3 && IsNumeral(f.core[0]) && IsNumeral(f.core[1]) && IsNumeral(f.core[2])
    && (f.kind.Preview? ==> IsNumeral(f.last))
  }

  function MeaningOfFields(f: Fields): SemVer
    requires FieldsOk(f)
  {
    SemVer(DecimalValue(f.core[0]), DecimalValue(f.core[1]), DecimalValue(f.core[2]),
           if f.kind.Stable? then [] else [Alphanumeric("alpha"), Numeric(DecimalValue(f.last))])
  }

  lemma FieldsAreOk(version: string)
    requires Accepted(version)
    ensures FieldsOk(FieldsOf(version)) && MeaningOfFields(FieldsOf(version)) == Meaning(version)
  {
    var core := Split(Core(version), '.');
    assert core[0] in core && core[1] in core && core[2] in core;
    if DesktopReleaseKind(version).value.Stable? {
      StableText(version);
    } else {
      PreviewLast(version);
      PreviewMeaning(version);
    }
  }

  /** An accepted string can be rebuilt from its fields. */
  lemma FieldsDetermine(left: string, right: string)
    requires Accepted(left) && Accepted(right)
    requires FieldsOf(left).core == FieldsOf(right).core && FieldsOf(left).kind == FieldsOf(right).kind
    requires FieldsOf(left).kind.Preview? ==> FieldsOf(left).last == FieldsOf(right).last
    ensures left == right
  {
    JoinSplit(Core(left), '.');
    JoinSplit(Core(right), '.');
    if DesktopReleaseKind(left).value.Stable? {
      StableText(left);
      StableText(right);
    } else {
      PreviewText(left);
      PreviewText(right);
      PreviewLast(left);
      PreviewLast(right);
    }
  }

  lemma CoresCompared(l: seq<string>, r: seq<string>)
    requires |l| == |r| == 3
    requires IsNumeral(l[0]) && IsNumeral(l[1]) && IsNumeral(l[2]) && IsNumeral(r[0]) && IsNumeral(r[1])
        && IsNumeral(r[2])
    ensures CompareCores(l, r, 0) ==
      (if DecimalValue(l[0]) != DecimalValue(r[0]) then Sign(DecimalValue(l[0]), DecimalValue(r[0]))
       else if DecimalValue(l[1]) != DecimalValue(r[1]) then Sign(DecimalValue(l[1]), DecimalValue(r[1]))
       else Sign(DecimalValue(l[2]), DecimalValue(r[2])))
  {
    assert CompareCores(l, r, 3) == 0;
    assert CompareCores(l, r, 2) == ComparePart(l[2], r[2]);
    assert CompareCores(l, r, 1) ==
        if ComparePart(l[1], r[1]) != 0 then ComparePart(l[1], r[1]) else CompareCores(l, r, 2);
  }

  lemma AlphaPrecedence(m: nat, n: nat)
    ensures CompareIdentifiers([Alphanumeric("alpha"), Numeric(m)], [Alphanumeric("alpha"), Numeric(n)]) == Sign(m, n)
  {
    SameText("alpha");
    assert [Alphanumeric("alpha"), Numeric(m)][1..] == [Numeric(m)]
        && [Alphanumeric("alpha"), Numeric(n)][1..] == [Numeric(n)];
    assert [Numeric(m)][1..] == [] && [Numeric(n)][1..] == [];
    assert CompareIdentifiers([Numeric(m)], [Numeric(n)]) == Sign(m, n);
  }

  lemma {:induction false} SameText(s: string)
    ensures CompareText(s, s) == 0
  {
    if s != "" {
      SameText(s[1..]);
    }
  }

  lemma FieldsAgree(l: Fields, r: Fields)
    requires FieldsOk(l) && FieldsOk(r)
    ensures CompareFields(l, r) == Precedence(MeaningOfFields(l), MeaningOfFields(r))
  {
    CoresCompared(l.core, r.core);
    if l.kind.Preview? && r.kind.Preview? {
      AlphaPrecedence(DecimalValue(l.last), DecimalValue(r.last));
    }
  }

  lemma FieldsOrdered(a: Fields, b: Fields, c: Fields)
    requires FieldsOk(a) && FieldsOk(b) && FieldsOk(c)
    ensures CompareFields(b, a) == -CompareFields(a, b)
    ensures CompareFields(a, b) <= 0 && CompareFields(b, c) <= 0 ==> CompareFields(a, c) <= 0
  {
    CoresCompared(a.core, b.core);
    CoresCompared(b.core, a.core);
    CoresCompared(b.core, c.core);
    CoresCompared(a.core, c.core);
  }

  lemma FieldsEqual(l: Fields, r: Fields)
    requires FieldsOk(l) && FieldsOk(r) && CompareFields(l, r) == 0
    ensures l.core == r.core && l.kind == r.kind && (l.kind.Preview? ==> l.last == r.last)
  {
    CoresCompared(l.core, r.core);
    NumeralsInjective(l.core[0], r.core[0]);
    NumeralsInjective(l.core[1], r.core[1]);
    NumeralsInjective(l.core[2], r.core[2]);
    if l.kind.Preview? {
      NumeralsInjective(l.last, r.last);
    }
  }

  // ---------------------------------------------------------------------------------------------
  // The order on strings

  /** On the accepted strings the order is the precedence of SemVer 2.0.0, section 11. */
  lemma AgreesWithSemVer(left: string, right: string)
    requires Accepted(left) && Accepted(right)
    ensures CompareReleaseVersions(left, right) == Ok(Precedence(Meaning(left), Meaning(right)))
  {
    FieldsAreOk(left);
    FieldsAreOk(right);
    FieldsAgree(FieldsOf(left), FieldsOf(right));
  }

  /** Two accepted strings compare equal exactly when they are the same string. */
  lemma ZeroMeansIdentical(left: string, right: string)
    requires Accepted(left) && Accepted(right)
    ensures CompareReleaseVersions(left, right) == Ok(0) <==> left == right
  {
    FieldsAreOk(left);
    FieldsAreOk(right);
    if CompareReleaseVersions(left, right) == Ok(0) {
      FieldsEqual(FieldsOf(left), FieldsOf(right));
      FieldsDetermine(left, right);
    } else if left == right {
      CoresCompared(FieldsOf(left).core, FieldsOf(left).core);
    }
  }

  /** The order is total on the accepted strings, and only on them. */
  lemma TotalOrder(a: string, b: string, c: string)
    ensures CompareReleaseVersions(a, b).Ok? <==> Accepted(a) && Accepted(b)
    ensures Accepted(a) && Accepted(b) ==>
              CompareReleaseVersions(b, a).value == -CompareReleaseVersions(a, b).value
    ensures Accepted(a) && Accepted(b) ==> AtMost(a, b) || AtMost(b, a)
    ensures AtMost(a, b) && AtMost(b, a) ==> a == b
    ensures AtMost(a, b) && AtMost(b, c) ==> AtMost(a, c)
  {
    if Accepted(a) && Accepted(b) {
      FieldsAreOk(a);
      FieldsAreOk(b);
      FieldsOrdered(FieldsOf(a), FieldsOf(b), FieldsOf(b));
      ZeroMeansIdentical(a, b);
      if Accepted(c) {
        FieldsAreOk(c);
        FieldsOrdered(FieldsOf(a), FieldsOf(b), FieldsOf(c));
      }
    }
  }
}
