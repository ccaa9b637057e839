/** What the version comparison of internal/server/release_check.go makes of texts: decimal numbers
    joined by dots, with or without a leading "v", with white space around, alone or after "dev". */
module VersionTexts {
  import opened Basics
  import opened Text
  import opened Versions

  // ---- Decimal numbers ------------------------------------------------------------------

  function Digit(d: nat): char
    requires d < 10
  {
    ('0' as int + d) as char
  }

  function Decimal(n: nat): string {
    if n < 10 then [Digit(n)] else Decimal(n / 10) + [Digit(n % 10)]
  }

  predicate Digits(s: string) {
    s != "" && forall i :: 0 <= i < |s| ==> '0' <= s[i] <= '9'
  }

  lemma {:induction false} DecimalIsRead(n: nat)
    ensures Digits(Decimal(n)) && DigitsValue(Decimal(n)) == Some(n)
  {
    if n >= 10 {
      DecimalIsRead(n / 10);
      assert Decimal(n)[..|Decimal(n)| - 1] == Decimal(n / 10);
    }
  }

  const LARGEST := 0x7FFF_FFFF_FFFF_FFFF

  ghost predicate Small(ns: seq<nat>) {
    forall i :: 0 <= i < |ns| ==> ns[i] <= LARGEST
  }

  lemma {:induction false} DecimalIsParsed(n: nat)
    requires n <= LARGEST
    ensures ParsePart(Decimal(n)) == Some(n)
  {
    DecimalIsRead(n);
    var s := Decimal(n);
    assert !IsSpace(s[0]) && !IsSpace(s[|s| - 1]) && TrimSpace(s) == s;
    assert s[0] != '-' && s[0] != '+';
  }

  function Decimals(ns: seq<nat>): (r: seq<string>)
    ensures |r| == |ns| && forall i :: 0 <= i < |r| ==> r[i] == Decimal(ns[i])
  {
    seq(|ns|, i requires 0 <= i < |ns| => Decimal(ns[i]))
  }

  /** n0.n1. ... .nk */
  function Dotted(ns: seq<nat>): string {
    Join(Decimals(ns), '.')
  }

  predicate DigitsAndDots(s: string) {
    && s != "" && '0' <= s[0] <= '9' && '0' <= s[|s| - 1] <= '9'
    && forall i :: 0 <= i < |s| ==> s[i] == '.' || '0' <= s[i] <= '9'
  }

  lemma {:induction false} JoinedDigits(parts: seq<string>)
    requires parts != [] && forall i :: 0 <= i < |parts| ==> Digits(parts[i])
    ensures DigitsAndDots(Join(parts, '.'))
  {
    if |parts| > 1 {
      JoinedDigits(parts[1..]);
      var rest := Join(parts[1..], '.');
      var s := parts[0] + "." + rest;
      assert s[|s| - 1] == rest[|rest| - 1];
    }
  }

  lemma {:induction false} DecimalsAreDigits(ns: seq<nat>)
    ensures forall i :: 0 <= i < |ns| ==> Digits(Decimals(ns)[i]) && '.' !in Decimals(ns)[i]
  {
    forall i | 0 <= i < |ns|
      ensures Digits(Decimals(ns)[i])
    {
      DecimalIsRead(ns[i]);
    }
  }

  lemma {:induction false} DecimalsAreParsed(ns: seq<nat>)
    requires Small(ns)
    ensures ParseAll(Decimals(ns)) == Some(ns)
  {
    if ns != [] {
      DecimalIsParsed(ns[0]);
      DecimalsAreParsed(ns[1..]);
      assert Decimals(ns)[1..] == Decimals(ns[1..]);
      assert [ns[0] as int] + ns[1..] == ns;
    }
  }

  lemma {:induction false} DottedIsParsed(ns: seq<nat>)
    requires ns != [] && Small(ns)
    ensures DigitsAndDots(Dotted(ns)) && ParseParts(Dotted(ns)) == Some(ns)
  {
    DecimalsAreDigits(ns);
    JoinedDigits(Decimals(ns));
    SplitJoined(Decimals(ns), '.');
    DecimalsAreParsed(ns);
  }

  // ---- Spellings ------------------------------------------------------------------------

  /** A release, or a development version after one of three prefixes. */
  datatype Style = Release | Dev | DevDash | DevUnderscore

  function Prefix(style: Style): string {
    match style
    case Release => ""
    case Dev => "dev"
    case DevDash => "dev-"
    case DevUnderscore => "dev_"
  }

  function Core(v: bool, style: Style, ns: seq<nat>): string {
    (if v then "v" else "") + (Prefix(style) + Dotted(ns))
  }

  /** The text spells these numbers, in this style. */
  ghost predicate Spells(text: string, style: Style, ns: seq<nat>) {
    && ns != [] && Small(ns)
    && exists before, v, after :: AllBlank(before) && AllBlank(after) && text == before + Core(v, style, ns) + after
  }

  predicate Tight(s: string) {
    s != "" && !IsSpace(s[0]) && !IsSpace(s[|s| - 1])
  }

  lemma {:induction false} DigitsAreTight(d: string)
    requires DigitsAndDots(d)
    ensures Tight(d) && TrimSpace(d) == d && d[0] != 'v' && d[0] != 'd'
  {
  }

  lemma {:induction false} PrefixedIsTight(p: string, d: string)
    requires DigitsAndDots(d) && (p != "" ==> p[0] == 'd')
    ensures Tight(p + d) && TrimSpace(p + d) == p + d && (p + d)[0] != 'v'
  {
    var s := p + d;
    assert s[|s| - 1] == d[|d| - 1] && s[0] == if p != "" then p[0] else d[0];
    assert Tight(s);
  }

  lemma {:induction false} NormalizeDropsV(before: string, v: bool, s: string, after: string)
    requires AllBlank(before) && AllBlank(after) && Tight(s) && s[0] != 'v'
    ensures Normalize(before + ((if v then "v" else "") + s) + after) == s
  {
    var core := (if v then "v" else "") + s;
    if v {
      assert core[0] == 'v' && core[1..] == s && core[|core| - 1] == s[|s| - 1];
    } else {
      assert core == s;
    }
    TrimPadded(before, core, after);
  }

  lemma {:induction false} SpelledIsNormalized(text: string, style: Style, ns: seq<nat>)
    requires Spells(text, style, ns)
    ensures Normalize(text) == Prefix(style) + Dotted(ns)
  {
    var before, v, after :| AllBlank(before) && AllBlank(after) && text == before + Core(v, style, ns) + after;
    DottedIsParsed(ns);
    PrefixedIsTight(Prefix(style), Dotted(ns));
    NormalizeDropsV(before, v, Prefix(style) + Dotted(ns), after);
  }

  lemma {:induction false} ReleaseIsRead(text: string, d: string, ns: seq<nat>)
    requires Normalize(text) == d && DigitsAndDots(d) && ParseParts(d) == Some(ns)
    ensures RankOf(text) == Number(ns)
  {
    DigitsAreTight(d);
    assert Lower(d[0]) == d[0];
    assert !IsDev(d);
  }

  lemma {:induction false} StartsWithDev(s: string)
    requires |s| >= 3 && s[..3] == "dev" && TrimSpace(s) == s
    ensures IsDev(s)
  {
    assert s[0] == s[..3][0] && s[1] == s[..3][1] && s[2] == s[..3][2];
    assert Lower('d') == 'd' && Lower('e') == 'e' && Lower('v') == 'v';
  }

  /** A dash or an underscore before digits is dropped, and nothing else. */
  lemma {:induction false} SeparatorIsDropped(sep: string, d: string)
    requires DigitsAndDots(d) && sep in {"", "-", "_"}
    ensures TrimSpace(WithoutPrefix(WithoutPrefix(sep + d, '-'), '_')) == d
  {
    DigitsAreTight(d);
    assert WithoutPrefix(d, '-') == d && WithoutPrefix(d, '_') == d;
    if sep == "" {
      assert sep + d == d;
    } else if sep == "-" {
      PrefixDrops('-', d);
      assert sep + d == ['-'] + d;
    } else {
      PrefixDrops('_', d);
      assert sep + d == ['_'] + d;
      assert WithoutPrefix(['_'] + d, '-') == ['_'] + d;
    }
  }

  lemma {:induction false} PrefixDrops(c: char, s: string)
    ensures WithoutPrefix([c] + s, c) == s
  {
    assert ([c] + s)[1..] == s;
  }

  function Separator(style: Style): string {
    match style
    case DevDash => "-"
    case DevUnderscore => "_"
    case _ => ""
  }

  lemma {:induction false} DevIsRead(text: string, sep: string, d: string, ns: seq<nat>)
    requires Normalize(text) == "dev" + sep + d && sep in {"", "-", "_"}
    requires DigitsAndDots(d) && ParseParts(d) == Some(ns)
    ensures RankOf(text) == DevNumber(ns)
  {
    var s := "dev" + sep + d;
    PrefixedIsTight("dev" + sep, d);
    assert s[..3] == "dev" && s[3..] == sep + d;
    StartsWithDev(s);
    SeparatorIsDropped(sep, d);
    assert DevSuffix(s) == d;
  }

  /** Every spelling of some numbers has them as its rank. */
  lemma {:induction false} SpelledIsRanked(text: string, style: Style, ns: seq<nat>)
    requires Spells(text, style, ns)
    ensures RankOf(text) == RankIn(style, ns)
  {
    SpelledIsNormalized(text, style, ns);
    DottedIsParsed(ns);
    if style.Release? {
      assert Prefix(style) + Dotted(ns) == Dotted(ns);
      ReleaseIsRead(text, Dotted(ns), ns);
    } else {
      assert Prefix(style) == "dev" + Separator(style);
      DevIsRead(text, Separator(style), Dotted(ns), ns);
    }
  }

  lemma {:induction false} BlankAndDev()
    ensures RankOf("") == Blank && RankOf("dev") == BareDev
  {
    assert TrimSpace("") == "" && Normalize("") == "";
    BareDevIsRead("dev");
  }

  lemma {:induction false} BareDevIsRead(s: string)
    requires s == "dev"
    ensures RankOf(s) == BareDev
  {
    assert TrimSpace(s) == s && Normalize(s) == s && s[..3] == "dev" && s[3..] == "";
    StartsWithDev(s);
    assert TrimSpace("") == "";
    assert DevSuffix(s) == "";
  }

  function RankIn(style: Style, ns: seq<nat>): Rank {
    if style.Release? then Number(ns) else DevNumber(ns)
  }

  /** How an answer of the comparison says that numbers differ. */
  ghost predicate Orders(c: int, ns: seq<nat>, ms: seq<nat>) {
    && (c == 0 <==> SameVersion(ns, ms))
    && (c < 0 <==> exists k: nat :: Below(ns, ms, k))
    && (c > 0 <==> exists k: nat :: Below(ms, ns, k))
  }

  lemma {:induction false} RanksCompare(s: Style, ns: seq<nat>, t: Style, ms: seq<nat>)
    ensures !Mixed(RankIn(s, ns), RankIn(t, ms))
    ensures s.Release? == t.Release? ==> Orders(CompareRanks(RankIn(s, ns), RankIn(t, ms)), ns, ms)
    ensures !s.Release? && t.Release? ==> CompareRanks(RankIn(s, ns), RankIn(t, ms)) < 0
  {
    CompareFromMeaning(ns, ms, 0);
  }

  lemma {:induction false} CompareIsOfRanks(a: string, x: Rank, b: string, y: Rank) returns (c: int)
    requires RankOf(a) == x && RankOf(b) == y && !Mixed(x, y)
    ensures c == Compare(a, b) == CompareRanks(x, y)
  {
    CompareIsByRank(a, b);
    c := Compare(a, b);
  }

  /** Releases compare as their numbers do: the first that differs decides, and numbers left out are
      zero. So do development versions among themselves, and every one of them is below every
      release. White space around and a "v" in front make no difference. */
  lemma {:induction false} NumbersCompare(a: string, s: Style, ns: seq<nat>, b: string, t: Style, ms: seq<nat>)
    requires Spells(a, s, ns) && Spells(b, t, ms)
    ensures s.Release? == t.Release? ==> Orders(Compare(a, b), ns, ms)
    ensures !s.Release? && t.Release? ==> Compare(a, b) < 0
  {
    SpelledIsRanked(a, s, ns);
    SpelledIsRanked(b, t, ms);
    RanksCompare(s, ns, t, ms);
    var c := CompareIsOfRanks(a, RankIn(s, ns), b, RankIn(t, ms));
    assert s.Release? == t.Release? ==> Orders(c, ns, ms);
  }

  /** A blank version is below a bare "dev", and that below all numbers. */
  lemma {:induction false} BareVersionsCompare(a: string, s: Style, ns: seq<nat>)
    requires Spells(a, s, ns)
    ensures Compare("", "dev") < 0 && Compare("", a) < 0 && Compare("dev", a) < 0
  {
    SpelledIsRanked(a, s, ns);
    BlankAndDev();
    var c1 := CompareIsOfRanks("", Blank, "dev", BareDev);
    var c2 := CompareIsOfRanks("", Blank, a, RankIn(s, ns));
    var c3 := CompareIsOfRanks("dev", BareDev, a, RankIn(s, ns));
  }

  lemma {:induction false} AllComparable(releases: seq<Versions.Release>, numbers: Versions.Release -> seq<nat>)
    requires forall o :: o in releases ==> Spells(VersionOf(o), Style.Release, numbers(o))
    ensures Comparable(releases)
  {
    forall o | o in releases
      ensures RankOf(VersionOf(o)) == Number(numbers(o))
    {
      SpelledIsRanked(VersionOf(o), Style.Release, numbers(o));
    }
    NumbersAreComparable(releases, numbers);
  }

  lemma {:induction false} NumbersAreComparable(releases: seq<Versions.Release>,
                                                numbers: Versions.Release -> seq<nat>)
    requires forall o :: o in releases ==> RankOf(VersionOf(o)) == Number(numbers(o))
    ensures Comparable(releases)
  {
  }

  lemma {:induction false} NotAbove(o: Versions.Release, ns: seq<nat>, r: Versions.Release, ms: seq<nat>)
    requires Spells(VersionOf(o), Style.Release, ns) && Spells(VersionOf(r), Style.Release, ms)
    requires Compare(VersionOf(o), VersionOf(r)) <= 0
    ensures forall k: nat :: !Below(ms, ns, k)
  {
    NumbersCompare(VersionOf(o), Style.Release, ns, VersionOf(r), Style.Release, ms);
  }

  /** On releases whose versions spell numbers, the one selectReleaseForChannel chooses has the largest
      of all it could choose from. */
  method SelectLargest(releases: seq<Versions.Release>, channel: string,
                       sort: seq<Versions.Release> -> seq<Versions.Release>,
                       ghost numbers: Versions.Release -> seq<nat>)
    returns (r: Option<Versions.Release>)
    requires forall rs :: SortedDescending(sort(rs), rs)
    requires forall o :: o in releases ==> Spells(VersionOf(o), Style.Release, numbers(o))
    ensures r.None? <==> releases == []
    ensures r.Some? ==>
              && r.value in releases
              && ((exists o :: o in releases && Offered(o, channel)) ==> Offered(r.value, channel))
              && forall o, k: nat :: o in releases && (Offered(o, channel) <==> Offered(r.value, channel)) ==>
                   !Below(numbers(r.value), numbers(o), k)
  {
    AllComparable(releases, numbers);
    r := SelectRelease(releases, channel, sort);
    if r.Some? {
      forall o | o in releases && Compare(VersionOf(o), VersionOf(r.value)) <= 0
        ensures forall k: nat :: !Below(numbers(r.value), numbers(o), k)
      {
        NotAbove(o, numbers(o), r.value, numbers(r.value));
      }
    }
  }
}
