/** Release versions: compareVersions and its helpers, and the choice of the latest release, from
    internal/server/release_check.go. */
module Versions {
  import opened Basics
  import opened Text

  // ---- Reading versions ------------------------------------------------------------

  /** normalizeVersion: a leading `v` is dropped, a leading `V` is not. */
  function Normalize(version: string): string {
    var v := TrimSpace(version);
    if v != "" && v[0] == 'v' then v[1..] else v
  }

  predicate IsDev(v: string) {
    StartsWithFolded(TrimSpace(v), "dev")
  }

  function WithoutPrefix(s: string, c: char): string {
    if s != "" && s[0] == c then s[1..] else s
  }

  /** devSuffix; its "vdev" branch cannot be taken for a version that starts with "dev". */
  function DevSuffix(v: string): string
    requires IsDev(v)
  {
    TrimSpace(WithoutPrefix(WithoutPrefix(TrimSpace(v)[3..], '-'), '_'))
  }

  function DigitsValue(s: string): Option<int> {
    if s == "" then None
    else if !('0' <= s[|s| - 1] <= '9') then None
    else
      var last := s[|s| - 1] as int - '0' as int;
      if |s| == 1 then Some(last)
      else match DigitsValue(s[..|s| - 1])
           case None => None
           case Some(n) => Some(10 * n + last)
  }

  /** strconv.Atoi with 64-bit integers */
  function Atoi(s: string): Option<int> {
    var negative := s != "" && s[0] == '-';
    var digits := if s != "" && (s[0] == '-' || s[0] == '+') then s[1..] else s;
    match DigitsValue(digits)
    case None => None
    case Some(n) =>
      var value := if negative then -n else n;
      if -0x8000_0000_0000_0000 <= value <= 0x7FFF_FFFF_FFFF_FFFF then Some(value) else None
  }

  function ParsePart(part: string): Option<int> {
    if TrimSpace(part) == "" then Some(0) else Atoi(TrimSpace(part))
  }

  function ParseAll(parts: seq<string>): Option<seq<int>> {
    if parts == [] then Some([])
    else match (ParsePart(parts[0]), ParseAll(parts[1..]))
         case (Some(n), Some(rest)) => Some([n] + rest)
         case _ => None
  }

  /** parseSemverParts */
  function ParseParts(v: string): Option<seq<int>> {
    if v == "" then None else ParseAll(Split(v, '.'))
  }

  lemma {:induction false} ParseAllStops(parts: seq<string>, i: nat)
    requires i < |parts| && ParsePart(parts[i]).None?
    ensures ParseAll(parts).None?
  {
    if i > 0 {
      ParseAllStops(parts[1..], i - 1);
    }
  }

  lemma ParseOne(part: string)
    ensures ParseAll([part]) == if ParsePart(part).Some? then Some([ParsePart(part).value]) else None
  {
    assert [part][1..] == [];
    if ParsePart(part).Some? {
      assert [ParsePart(part).value] + [] == [ParsePart(part).value];
    }
  }

  lemma {:induction false} ParseAllAppend(parts: seq<string>, part: string)
    ensures ParseAll(parts + [part]) ==
            if ParseAll(parts).Some? && ParsePart(part).Some?
            then Some(ParseAll(parts).value + [ParsePart(part).value])
            else None
  {
    if parts == [] {
      assert parts + [part] == [part];
      ParseOne(part);
      if ParsePart(part).Some? {
        assert [] + [ParsePart(part).value] == [ParsePart(part).value];
      }
    } else {
      assert (parts + [part])[1..] == parts[1..] + [part];
      ParseAllAppend(parts[1..], part);
      if ParsePart(parts[0]).Some? && ParseAll(parts[1..]).Some? && ParsePart(part).Some? {
        Regroup([ParsePart(parts[0]).value], ParseAll(parts[1..]).value, [ParsePart(part).value]);
      }
    }
  }

  method ParseSemverParts(v: string) returns (r: Option<seq<int>>)
    ensures r == ParseParts(v)
  {
    if v == "" {
      return None;
    }
    var parts := Split(v, '.');
    var numbers: seq<int> := [];
    for i := 0 to |parts|
      invariant ParseAll(parts[..i]) == Some(numbers)
    {
      assert parts[..i + 1] == parts[..i] + [parts[i]];
      ParseAllAppend(parts[..i], parts[i]);
      var part := TrimSpace(parts[i]);
      if part == "" {
        numbers := numbers + [0];
        continue;
      }
      var n := Atoi(part);
      if n.None? {
        ParseAllStops(parts, i);
        return None;
      }
      numbers := numbers + [n.value];
    }
    assert parts[..|parts|] == parts;
    return Some(numbers);
  }

  // ---- Comparing ---------------------------------------------------------------------

  /** A missing component counts as zero. */
  function Component(a: seq<int>, i: nat): int {
    if i < |a| then a[i] else 0
  }

  function Longer(a: seq<int>, b: seq<int>): nat {
    if |b| > |a| then |b| else |a|
  }

  function CompareFrom(a: seq<int>, b: seq<int>, i: nat): int
    decreases Longer(a, b) - i
  {
    if i >= Longer(a, b) then 0
    else if Component(a, i) > Component(b, i) then 1
    else if Component(a, i) < Component(b, i) then -1
    else CompareFrom(a, b, i + 1)
  }

  function CompareParts(a: seq<int>, b: seq<int>): int {
    CompareFrom(a, b, 0)
  }

  /** compareSemver */
  method CompareSemver(a: seq<int>, b: seq<int>) returns (r: int)
    ensures r == CompareParts(a, b)
  {
    var maxLen := |a|;
    if |b| > maxLen {
      maxLen := |b|;
    }
    for i := 0 to maxLen
      invariant CompareParts(a, b) == CompareFrom(a, b, i)
    {
      var left, right := 0, 0;
      if i < |a| {
        left := a[i];
      }
      if i < |b| {
        right := b[i];
      }
      if left > right {
        return 1;
      }
      if left < right {
        return -1;
      }
    }
    return 0;
  }

  /** The first differing component decides, at whatever index it is. */
  ghost predicate Below(a: seq<int>, b: seq<int>, k: nat) {
    Component(a, k) < Component(b, k) && forall i :: 0 <= i < k ==> Component(a, i) == Component(b, i)
  }

  ghost predicate SameVersion(a: seq<int>, b: seq<int>) {
    forall i: nat :: Component(a, i) == Component(b, i)
  }

  lemma {:induction false} CompareFromMeaning(a: seq<int>, b: seq<int>, i: nat)
    requires forall j :: 0 <= j < i ==> Component(a, j) == Component(b, j)
    ensures CompareFrom(a, b, i) == 0 <==> SameVersion(a, b)
    ensures CompareFrom(a, b, i) == -1 <==> exists k: nat :: Below(a, b, k)
    ensures CompareFrom(a, b, i) == 1 <==> exists k: nat :: Below(b, a, k)
    ensures CompareFrom(a, b, i) in {-1, 0, 1}
    decreases Longer(a, b) - i
  {
    if i < Longer(a, b) {
      if Component(a, i) > Component(b, i) {
        assert Below(b, a, i);
      } else if Component(a, i) < Component(b, i) {
        assert Below(a, b, i);
      } else {
        CompareFromMeaning(a, b, i + 1);
      }
    } else {
      assert SameVersion(a, b);
    }
  }

  /** Comparing dotted numbers is a total preorder in which missing components are zero. */
  lemma PartsAreOrdered(a: seq<int>, b: seq<int>, c: seq<int>)
    ensures CompareParts(a, b) in {-1, 0, 1}
    ensures CompareParts(a, b) == -CompareParts(b, a)
    ensures CompareParts(a, b) == 0 <==> SameVersion(a, b)
    ensures CompareParts(a, b) <= 0 && CompareParts(b, c) <= 0 ==> CompareParts(a, c) <= 0
  {
    CompareFromMeaning(a, b, 0);
    CompareFromMeaning(b, a, 0);
    CompareFromMeaning(b, c, 0);
    CompareFromMeaning(a, c, 0);
    if CompareParts(a, b) <= 0 && CompareParts(b, c) <= 0 {
      if CompareParts(a, b) == -1 {
        var k: nat :| Below(a, b, k);
        if CompareParts(b, c) == -1 {
          var m: nat :| Below(b, c, m);
          assert Below(a, c, if k < m then k else m);
        } else {
          assert Below(a, c, k);
        }
      } else if CompareParts(b, c) == -1 {
        var m: nat :| Below(b, c, m);
        assert Below(a, c, m);
      } else {
        assert SameVersion(a, c);
      }
    }
  }

  /** strings.Compare */
  function CompareText(a: string, b: string): int {
    if a == "" then (if b == "" then 0 else -1)
    else if b == "" then 1
    else if a[0] < b[0] then -1
    else if a[0] > b[0] then 1
    else CompareText(a[1..], b[1..])
  }

  lemma {:induction false} TextIsOrdered(a: string, b: string, c: string)
    ensures CompareText(a, b) in {-1, 0, 1}
    ensures CompareText(a, b) == -CompareText(b, a)
    ensures CompareText(a, b) <= 0 && CompareText(b, c) <= 0 ==> CompareText(a, c) <= 0
  {
    if a != "" && b != "" && c != "" {
      TextIsOrdered(a[1..], b[1..], c[1..]);
    } else if a != "" && b != "" {
      TextIsOrdered(a[1..], b[1..], c);
    }
  }

  /** What compareVersions reads off a version: nothing, a development version with its suffix, or a
      release. A text comes with the numbers it can be parsed into. */
  datatype View =
    | Empty
    | Dev(suffix: string, parts: Option<seq<int>>, number: Option<int>)
    | Plain(text: string, parts: Option<seq<int>>)

  function Look(version: string): View {
    var v := Normalize(version);
    if v == "" then Empty
    else if IsDev(v) then Dev(DevSuffix(v), ParseParts(DevSuffix(v)), Atoi(DevSuffix(v)))
    else Plain(v, ParseParts(v))
  }

  function CompareInts(a: int, b: int): int {
    if a > b then 1 else if a < b then -1 else 0
  }

  function CompareViews(a: View, b: View): int {
    if a.Empty? && b.Empty? then 0
    else if a.Empty? then -1
    else if b.Empty? then 1
    else if a.Dev? && !b.Dev? then -1
    else if !a.Dev? && b.Dev? then 1
    else if a.parts.Some? && b.parts.Some? then CompareParts(a.parts.value, b.parts.value)
    else if a.Dev? then
      if a.number.Some? && b.number.Some? then CompareInts(a.number.value, b.number.value)
      else CompareText(a.suffix, b.suffix)
    else CompareText(a.text, b.text)
  }

  /** compareVersions, with compareDevVersions for two development versions */
  function Compare(a: string, b: string): int {
    CompareViews(Look(a), Look(b))
  }

  lemma ViewsAreAntisymmetric(a: View, b: View)
    ensures CompareViews(a, b) == -CompareViews(b, a)
  {
    if !a.Empty? && !b.Empty? && a.parts.Some? && b.parts.Some? {
      PartsAreOrdered(a.parts.value, b.parts.value, []);
    } else if a.Dev? && b.Dev? {
      TextIsOrdered(a.suffix, b.suffix, "");
    } else if a.Plain? && b.Plain? {
      TextIsOrdered(a.text, b.text, "");
    }
  }

  /** On all strings, swapping the arguments negates the answer. */
  lemma CompareIsAntisymmetric(a: string, b: string)
    ensures Compare(a, b) == -Compare(b, a)
  {
    ViewsAreAntisymmetric(Look(a), Look(b));
  }

  // ---- Where the order is total -------------------------------------------------------

  /** What a version is to the comparison: nothing, a bare "dev", a numbered or named development
      version, a numbered or named release. */
  datatype Rank =
    | Blank
    | BareDev
    | DevNumber(parts: seq<int>)
    | DevName(name: string)
    | Number(parts: seq<int>)
    | Name(name: string)
  {
    function Level(): int {
      match this
      case Blank => 0
      case BareDev => 1
      case DevNumber(_) => 2
      case DevName(_) => 2
      case Number(_) => 3
      case Name(_) => 3
    }

    predicate Numbered() { DevNumber? || Number? }
    predicate Named() { DevName? || Name? }
  }

  function RankOfView(v: View): Rank {
    match v
    case Empty => Blank
    case Dev(suffix, parts, _) =>
      if suffix == "" then BareDev else if parts.Some? then DevNumber(parts.value) else DevName(suffix)
    case Plain(text, parts) => if parts.Some? then Number(parts.value) else Name(text)
  }

  function RankOf(version: string): Rank {
    RankOfView(Look(version))
  }

  /** Two versions of one level, one a number and one a name: compared as text. */
  predicate Mixed(a: Rank, b: Rank) {
    a.Level() == b.Level() && ((a.Numbered() && b.Named()) || (a.Named() && b.Numbered()))
  }

  function CompareRanks(a: Rank, b: Rank): int
    requires !Mixed(a, b)
  {
    if a.Level() != b.Level() then CompareInts(a.Level(), b.Level())
    else if a.Numbered() then CompareParts(a.parts, b.parts)
    else if a.Named() then CompareText(a.name, b.name)
    else 0
  }

  lemma {:induction false} DigitsOnly(s: string)
    requires DigitsValue(s).Some?
    ensures forall i :: 0 <= i < |s| ==> '0' <= s[i] <= '9'
  {
    if |s| > 1 {
      DigitsOnly(s[..|s| - 1]);
    }
  }

  /** A whole number is a dotted number of one component, so the integer branch of
      compareDevVersions is never reached. */
  lemma IntegerIsDotted(s: string)
    requires Atoi(s).Some?
    ensures ParseParts(s) == Some([Atoi(s).value])
  {
    var digits := if s[0] == '-' || s[0] == '+' then s[1..] else s;
    DigitsOnly(digits);
    assert forall i :: 0 <= i < |s| ==> s[i] == '-' || s[i] == '+' || '0' <= s[i] <= '9';
    assert '.' !in s;
    assert !IsSpace(s[0]) && !IsSpace(s[|s| - 1]);
    assert TrimSpace(s) == s;
    PartsOfOne(s);
  }

  predicate ViewOk(v: View) {
    v.Dev? ==> && (v.number.Some? ==> v.parts == Some([v.number.value]))
               && (v.suffix == "" ==> v.parts.None?)
  }

  lemma LookIsOk(version: string)
    ensures ViewOk(Look(version))
  {
    var v := Normalize(version);
    if v != "" && IsDev(v) && Atoi(DevSuffix(v)).Some? {
      IntegerIsDotted(DevSuffix(v));
    }
  }

  lemma ViewsCompareByRank(a: View, b: View)
    requires ViewOk(a) && ViewOk(b) && !Mixed(RankOfView(a), RankOfView(b))
    ensures CompareViews(a, b) == CompareRanks(RankOfView(a), RankOfView(b))
  {
  }

  lemma CompareIsByRank(a: string, b: string)
    ensures !Mixed(RankOf(a), RankOf(b)) ==> Compare(a, b) == CompareRanks(RankOf(a), RankOf(b))
  {
    LookIsOk(a);
    LookIsOk(b);
    if !Mixed(RankOf(a), RankOf(b)) {
      ViewsCompareByRank(Look(a), Look(b));
    }
  }

  lemma RanksAreTransitive(x: Rank, y: Rank, z: Rank)
    requires !Mixed(x, y) && !Mixed(y, z) && !Mixed(x, z)
    requires CompareRanks(x, y) <= 0 && CompareRanks(y, z) <= 0
    ensures CompareRanks(x, z) <= 0
  {
    if x.Level() == y.Level() == z.Level() {
      if x.Numbered() {
        PartsAreOrdered(x.parts, y.parts, z.parts);
      } else if x.Named() {
        TextIsOrdered(x.name, y.name, z.name);
      }
    }
  }

  /** The comparison is a total preorder on every set of versions that does not mix numbered and named
      versions of one level: in particular on blanks, dotted integers, a bare "dev" and "dev" with
      dotted integers. */
  lemma CompareIsTransitive(a: string, b: string, c: string)
    ensures var x, y, z := RankOf(a), RankOf(b), RankOf(c);
            (!Mixed(x, y) && !Mixed(y, z) && !Mixed(x, z) && Compare(a, b) <= 0 && Compare(b, c) <= 0) ==>
              Compare(a, c) <= 0
  {
    CompareIsByRank(a, b);
    CompareIsByRank(b, c);
    CompareIsByRank(a, c);
    var x, y, z := RankOf(a), RankOf(b), RankOf(c);
    if !Mixed(x, y) && !Mixed(y, z) && !Mixed(x, z) && Compare(a, b) <= 0 && Compare(b, c) <= 0 {
      RanksAreTransitive(x, y, z);
    }
  }

  ghost predicate SameRank(x: Rank, y: Rank)
    requires !Mixed(x, y)
  {
    && x.Level() == y.Level()
    && (x.Numbered() ==> SameVersion(x.parts, y.parts))
    && (x.Named() ==> x.name == y.name)
  }

  /** Equal versions are those of equal rank up to missing zero components. */
  lemma EqualVersions(a: string, b: string)
    ensures var x, y := RankOf(a), RankOf(b);
            !Mixed(x, y) ==> (Compare(a, b) == 0 <==> SameRank(x, y))
  {
    CompareIsByRank(a, b);
    var x, y := RankOf(a), RankOf(b);
    if !Mixed(x, y) && x.Level() == y.Level() {
      if x.Numbered() {
        PartsAreOrdered(x.parts, y.parts, []);
      } else if x.Named() {
        EqualText(x.name, y.name);
      }
    }
  }

  lemma {:induction false} EqualText(a: string, b: string)
    ensures CompareText(a, b) == 0 <==> a == b
  {
    if a != "" && b != "" {
      EqualText(a[1..], b[1..]);
      if a[0] == b[0] && a[1..] == b[1..] {
        assert a == [a[0]] + a[1..] && b == [b[0]] + b[1..];
      }
    }
  }

  lemma {:induction false} SplitOne(s: string)
    requires IndexOf(s, '.') == |s|
    ensures Split(s, '.') == [s]
  {
  }

  lemma {:induction false} StartsWithDigit(s: string)
    requires s != "" && '0' <= s[0] <= '9' && !IsSpace(s[|s| - 1])
    ensures TrimSpace(s) == s && Normalize(s) == s && !IsDev(s)
  {
    assert !IsSpace(s[0]) && Lower(s[0]) == s[0] != 'd';
  }

  lemma {:induction false} PartsOfOne(s: string)
    requires s != "" && TrimSpace(s) == s && IndexOf(s, '.') == |s|
    ensures ParseParts(s) == if Atoi(s).Some? then Some([Atoi(s).value]) else None
  {
    SplitOne(s);
    ParseOne(s);
  }

  /** Text that starts with a digit, ends with no space and has no dot is one part. */
  lemma {:induction false} OnePart(s: string)
    requires s != "" && '0' <= s[0] <= '9' && !IsSpace(s[|s| - 1]) && IndexOf(s, '.') == |s|
    ensures Look(s).Plain? && Look(s).text == s
    ensures Look(s).parts == if Atoi(s).Some? then Some([Atoi(s).value]) else None
  {
    StartsWithDigit(s);
    PartsOfOne(s);
  }

  lemma LookAtTwo() ensures Look("2") == Plain("2", Some([2])) {
    OnePart("2");
    assert Atoi("2") == Some(2);
  }

  lemma LookAtTen() ensures Look("10") == Plain("10", Some([10])) {
    OnePart("10");
    assert "10"[..1] == "1" && DigitsValue("1") == Some(1);
    assert Atoi("10") == Some(10);
  }

  lemma LookAtName() ensures Look("1x") == Plain("1x", None) {
    OnePart("1x");
    assert Atoi("1x") == None;
  }

  lemma CycleOfViews(two: View, ten: View, name: View)
    requires two == Plain("2", Some([2])) && ten == Plain("10", Some([10])) && name == Plain("1x", None)
    ensures CompareViews(two, ten) < 0 && CompareViews(ten, name) < 0 && CompareViews(name, two) < 0
    ensures Mixed(RankOfView(two), RankOfView(name))
  {
    assert "10"[1..] == "0" && "1x"[1..] == "x";
    assert CompareText("10", "1x") == CompareText("0", "x");
  }

  /** Mixing breaks it: 2 < 10 as numbers, but 10 < 1x < 2 as text. */
  lemma MixedVersionsCycle()
    ensures Compare("2", "10") < 0 && Compare("10", "1x") < 0 && Compare("1x", "2") < 0
    ensures Mixed(RankOf("2"), RankOf("1x"))
  {
    LookAtTwo();
    LookAtTen();
    LookAtName();
    CycleOfViews(Look("2"), Look("10"), Look("1x"));
  }

  // ---- Choosing a release -----------------------------------------------------------

  datatype Release = Release(tag: string, name: string, branch: string, draft: bool)

  predicate IsDevWord(s: string) {
    |TrimSpace(s)| == 3 && StartsWithFolded(TrimSpace(s), "dev")
  }

  predicate IsDevRelease(r: Release) {
    || StartsWithFolded(TrimSpace(r.tag), "dev")
    || StartsWithFolded(TrimSpace(r.name), "dev")
    || IsDevWord(r.branch)
  }

  function VersionOf(r: Release): string {
    if r.tag != "" then r.tag else r.name
  }

  predicate Offered(r: Release, channel: string) {
    !r.draft && (IsDevRelease(r) <==> IsDevWord(channel))
  }

  ghost predicate Descending(rs: seq<Release>) {
    forall i :: 0 <= i < |rs| - 1 ==> Compare(VersionOf(rs[i]), VersionOf(rs[i + 1])) >= 0
  }

  /** What sort.Slice may leave: a permutation, in descending order of its neighbours when the
      comparison is an order on them. */
  ghost predicate SortedDescending(sorted: seq<Release>, rs: seq<Release>) {
    && multiset(sorted) == multiset(rs)
    && (Comparable(rs) ==> Descending(sorted))
  }

  ghost predicate Comparable(rs: seq<Release>) {
    forall r, s :: r in rs && s in rs ==> !Mixed(RankOf(VersionOf(r)), RankOf(VersionOf(s)))
  }

  lemma {:induction false} FirstIsMaximum(sorted: seq<Release>, k: nat)
    requires Comparable(sorted) && k < |sorted|
    requires Descending(sorted)
    ensures Compare(VersionOf(sorted[k]), VersionOf(sorted[0])) <= 0
  {
    if k == 0 {
      CompareIsAntisymmetric(VersionOf(sorted[0]), VersionOf(sorted[0]));
    } else {
      FirstIsMaximum(sorted, k - 1);
      assert sorted[k] in sorted && sorted[k - 1] in sorted && sorted[0] in sorted;
      NextIsBelow(VersionOf(sorted[k]), VersionOf(sorted[k - 1]), VersionOf(sorted[0]));
    }
  }

  lemma NextIsBelow(next: string, last: string, first: string)
    ensures var x, y, z := RankOf(next), RankOf(last), RankOf(first);
            (!Mixed(x, y) && !Mixed(y, z) && !Mixed(x, z) && Compare(last, next) >= 0 && Compare(last, first) <= 0) ==>
              Compare(next, first) <= 0
  {
    CompareIsAntisymmetric(last, next);
    CompareIsTransitive(next, last, first);
  }

  /** The releases of a channel, in their order. */
  function OfChannel(releases: seq<Release>, channel: string): seq<Release> {
    if releases == [] then []
    else
      var last := releases[|releases| - 1];
      OfChannel(releases[..|releases| - 1], channel) + if Offered(last, channel) then [last] else []
  }

  lemma {:induction false} OfChannelIsOffered(releases: seq<Release>, channel: string, r: Release)
    ensures r in OfChannel(releases, channel) <==> r in releases && Offered(r, channel)
  {
    if releases != [] {
      SplitLast(releases);
      OfChannelIsOffered(releases[..|releases| - 1], channel, r);
    }
  }

  /** The first loop of selectReleaseForChannel. */
  method FilterReleases(releases: seq<Release>, channel: string) returns (filtered: seq<Release>)
    ensures filtered == OfChannel(releases, channel)
    ensures forall r :: r in filtered <==> r in releases && Offered(r, channel)
  {
    filtered := [];
    for i := 0 to |releases|
      invariant filtered == OfChannel(releases[..i], channel)
    {
      var rel := releases[i];
      assert releases[..i + 1][..i] == releases[..i];
      if rel.draft {
        continue;
      }
      var isDev := IsDevRelease(rel);
      if IsDevWord(channel) {
        if isDev {
          filtered := filtered + [rel];
        }
      } else {
        if !isDev {
          filtered := filtered + [rel];
        }
      }
    }
    assert releases[..|releases|] == releases;
    forall r
      ensures r in filtered <==> r in releases && Offered(r, channel)
    {
      OfChannelIsOffered(releases, channel, r);
    }
  }

  // ---- A sort that meets what is asked of sort.Slice --------------------------------------

  function Insert(r: Release, rs: seq<Release>): seq<Release> {
    if rs == [] || Compare(VersionOf(r), VersionOf(rs[0])) >= 0 then [r] + rs else [rs[0]] + Insert(r, rs[1..])
  }

  lemma {:induction false} InsertHasTheSame(r: Release, rs: seq<Release>)
    ensures multiset(Insert(r, rs)) == multiset{r} + multiset(rs)
  {
    if rs != [] && Compare(VersionOf(r), VersionOf(rs[0])) < 0 {
      InsertHasTheSame(r, rs[1..]);
      SplitFirst(rs);
      ConsCount(rs[0], rs[1..]);
      ConsCount(rs[0], Insert(r, rs[1..]));
    } else {
      ConsCount(r, rs);
    }
  }

  lemma ConsCount(r: Release, rs: seq<Release>)
    ensures multiset([r] + rs) == multiset{r} + multiset(rs)
  {
  }

  lemma SplitFirst(rs: seq<Release>)
    requires rs != []
    ensures rs == [rs[0]] + rs[1..]
  {
  }

  lemma {:induction false} InsertDescends(r: Release, rs: seq<Release>)
    requires Descending(rs)
    ensures Descending(Insert(r, rs))
  {
    if rs != [] && Compare(VersionOf(r), VersionOf(rs[0])) < 0 {
      var rest := Insert(r, rs[1..]);
      TailDescends(rs);
      InsertDescends(r, rs[1..]);
      CompareIsAntisymmetric(VersionOf(r), VersionOf(rs[0]));
      assert rest[0] == r || rest[0] == rs[1];
      ConsDescends(rs[0], rest);
    } else if rs != [] {
      ConsDescends(r, rs);
    }
  }

  lemma TailDescends(rs: seq<Release>)
    requires Descending(rs) && rs != []
    ensures Descending(rs[1..])
  {
    var rest := rs[1..];
    forall i | 0 <= i < |rest| - 1
      ensures Compare(VersionOf(rest[i]), VersionOf(rest[i + 1])) >= 0
    {
      var j := i + 1;
      assert Compare(VersionOf(rs[j]), VersionOf(rs[j + 1])) >= 0;
    }
  }

  lemma ConsDescends(r: Release, rs: seq<Release>)
    requires Descending(rs) && (rs != [] ==> Compare(VersionOf(r), VersionOf(rs[0])) >= 0)
    ensures Descending([r] + rs)
  {
  }

  function Sorted(rs: seq<Release>): seq<Release> {
    if rs == [] then [] else Insert(rs[0], Sorted(rs[1..]))
  }

  /** Inserting one by one is such a sort, on all releases. */
  lemma SortingIsPossible(rs: seq<Release>)
    ensures SortedDescending(Sorted(rs), rs)
  {
    SortedHasTheSame(rs);
    SortedDescends(rs);
  }

  lemma {:induction false} SortedHasTheSame(rs: seq<Release>)
    ensures multiset(Sorted(rs)) == multiset(rs)
  {
    if rs != [] {
      SplitFirst(rs);
      SortedHasTheSame(rs[1..]);
      InsertHasTheSame(rs[0], Sorted(rs[1..]));
      ConsCount(rs[0], rs[1..]);
    }
  }

  lemma {:induction false} SortedDescends(rs: seq<Release>)
    ensures Descending(Sorted(rs))
  {
    if rs != [] {
      SortedDescends(rs[1..]);
      InsertDescends(rs[0], Sorted(rs[1..]));
    }
  }

  /** selectReleaseForChannel with that sort. */
  method SelectByInsertion(releases: seq<Release>, channel: string) returns (r: Option<Release>)
    ensures r.None? <==> releases == []
    ensures r.Some? && Comparable(releases) ==>
              && r.value in releases
              && forall o :: o in releases && (Offered(o, channel) <==> Offered(r.value, channel)) ==>
                   Compare(VersionOf(o), VersionOf(r.value)) <= 0
  {
    forall rs
      ensures SortedDescending(Sorted(rs), rs)
    {
      SortingIsPossible(rs);
    }
    r := SelectRelease(releases, channel, Sorted);
  }

  /** selectReleaseForChannel; `sort` stands for sort.Slice. The chosen release is one of the
      channel's, or of all when the channel has none, and on comparable versions a latest one. */
  method SelectRelease(releases: seq<Release>, channel: string, sort: seq<Release> -> seq<Release>)
    returns (r: Option<Release>)
    requires forall rs :: SortedDescending(sort(rs), rs)
    ensures r.None? <==> releases == []
    ensures r.Some? ==> r.value in releases
    ensures r.Some? && (exists o :: o in releases && Offered(o, channel)) ==> Offered(r.value, channel)
    ensures r.Some? && (exists o :: o in releases && Offered(o, channel))
              && (forall o, p :: o in releases && p in releases && Offered(o, channel) && Offered(p, channel) ==>
                    !Mixed(RankOf(VersionOf(o)), RankOf(VersionOf(p)))) ==>
              forall o :: o in releases && Offered(o, channel) ==> Compare(VersionOf(o), VersionOf(r.value)) <= 0
    ensures r.Some? && (forall o :: o in releases ==> !Offered(o, channel)) && Comparable(releases) ==>
              forall o :: o in releases ==> Compare(VersionOf(o), VersionOf(r.value)) <= 0
  {
    if releases == [] {
      return None;
    }
    var filtered := FilterReleases(releases, channel);
    if filtered == [] {
      filtered := releases;
    }
    var sorted := sort(filtered);
    assert SortedDescending(sorted, filtered);
    forall x
      ensures x in sorted <==> x in filtered
    {
      assert x in sorted <==> x in multiset(sorted);
      assert x in filtered <==> x in multiset(filtered);
    }
    assert filtered[0] in sorted;
    if Comparable(filtered) {
      forall o | o in filtered
        ensures Compare(VersionOf(o), VersionOf(sorted[0])) <= 0
      {
        var k :| 0 <= k < |sorted| && sorted[k] == o;
        FirstIsMaximum(sorted, k);
      }
    }
    return Some(sorted[0]);
  }
}
