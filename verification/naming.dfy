/**
 * The provider's file-naming grammar: the candidate filenames the fetcher
 * probes for a date, and the pieces it reads back out of a filename (horizon
 * bucket, date, outlook key and revision).
 *
 * A filename is
 *   {date}{time}_MSC_ThunderstormOutlook_{spc}_{province}_{period}_v{n}.json
 * and the generator tries every date, then every publication time, then every
 * (centre, sub-region) pair, then every horizon, then revisions 1 to 4.
 */
module Naming {
  import opened Wrappers
  import opened Text
  import opened Seqs

  /** The four forecast-horizon tokens (12, 24, 36 and 60 hours). */
  const P12: string := "PT012H00M"
  const P24: string := "PT024H00M"
  const P36: string := "PT036H00M"
  const P60: string := "PT060H00M"

  // Each table below is written as its first entry followed by the rest.
  // The two forms denote the same list; a single display would make the
  // verifier unfold every loop over the table eagerly, whereas a
  // concatenation is only unfolded as far as a proof asks.

  /** Publication times tried for every date. */
  const Times: seq<string> := ["T1700Z"] + ["T1900Z", "T2000Z"]

  /** (storm prediction centre, sub-region) pairs, in probing order. */
  const Regions: seq<(string, string)> := [("OSPC", "ON")] + [
    ("QSPC", "QC"),
    ("PSPC", "BC-YT"),
    ("ASPC", "NB"),
    ("ASPC", "NS"),
    ("ASPC", "PE"),
    ("ASPC", "NL"),
    ("BCSPC", "BC"),
    ("PASPC", "MK"),
    ("PASPC", "PRAIRIES")
  ]

  const Periods: seq<string> := [P12] + [P24, P36, P60]

  /** Revisions tried for every outlook: Python's `range(1, 5)`. */
  const Versions: seq<nat> := [1] + [2, 3, 4]

  /** Candidates generated per date: 3 times, 10 region pairs, 4 horizons, 4 revisions. */
  const PerDate: nat := 480

  /** The snapshot bucket an outlook lands in; `Days[e]` is the bucket of `Periods[e]`. */
  datatype Day = Day1 | Day2 | Day3 | Day4

  const Days: seq<Day> := [Day1, Day2, Day3, Day4]

  /** The parameters one candidate filename is built from. */
  datatype Candidate = Candidate(date: string, time: string, spc: string, province: string, period: string, version: nat)

  /** The f-string that renders a candidate as a filename. The constant text
      `_MSC_ThunderstormOutlook_` is written as separate pieces so that each
      piece lines up with one `_`-separated field of `Fields`. */
  function Render(c: Candidate): string
  {
    c.date + c.time + "_" + "MSC" + "_" + "ThunderstormOutlook" + "_" + c.spc + "_" + c.province + "_" + c.period
      + "_" + "v" + NatToString(c.version) + ".json"
  }

  /** Innermost loop: one candidate per revision. */
  function ForPeriod(date: string, time: string, region: (string, string), period: string): seq<Candidate>
  {
    Map(Versions, (v: nat) => Candidate(date, time, region.0, region.1, period, v))
  }

  /** The loop bodies as function values, so that each level is one named term. */
  function PeriodBody(date: string, time: string, region: (string, string)): string -> seq<Candidate>
  {
    (p: string) => ForPeriod(date, time, region, p)
  }

  function ForRegion(date: string, time: string, region: (string, string)): seq<Candidate>
  {
    FlatMap(Periods, PeriodBody(date, time, region))
  }

  function RegionBody(date: string, time: string): ((string, string)) -> seq<Candidate>
  {
    (r: (string, string)) => ForRegion(date, time, r)
  }

  function ForTime(date: string, time: string): seq<Candidate>
  {
    FlatMap(Regions, RegionBody(date, time))
  }

  function TimeBody(date: string): string -> seq<Candidate>
  {
    (t: string) => ForTime(date, t)
  }

  function ForDate(date: string): seq<Candidate>
  {
    FlatMap(Times, TimeBody(date))
  }

  /** The parameters of every candidate, in the order the nested loops produce them. */
  function Params(dates: seq<string>): seq<Candidate>
  {
    FlatMap(dates, ForDate)
  }

  /** The candidate filenames for a list of dates. */
  function Candidates(dates: seq<string>): seq<string>
  {
    Map(Params(dates), Render)
  }

  /** The date list the generator uses: only the current UTC date, given as
      `YYYYMMDD`. The clock reading is a parameter of the model. */
  function DatePatterns(today: string): (r: seq<string>)
    ensures |r| == 1 && r[0] == today
  {
    [today]
  }

  /** The filenames probed in one run. */
  function ConstructPatterns(today: string): seq<string>
  {
    Candidates(DatePatterns(today))
  }

  // ---------------------------------------------------------------------
  // Decoding a filename

  /** The bucket a filename goes to, by substring tests in this order; a name
      with none of the first three tokens goes to `day4`. */
  function Classify(name: string): Day
  {
    if Contains(name, P12) then Day1
    else if Contains(name, P24) then Day2
    else if Contains(name, P36) then Day3
    else Day4
  }

  /** `pattern[:8]`. */
  function DateOf(name: string): string
  {
    Prefix(name, 8)
  }

  /** `f"{pattern[:15]}_{pattern.split('_')[3]}_{pattern.split('_')[4]}"`;
      None where Python raises IndexError (fewer than five fields). */
  function OutlookKey(name: string): (r: Option<string>)
    ensures r.Some? <==> |Split(name, "_")| >= 5
  {
    var fields := Split(name, "_");
    if |fields| < 5 then None else Some(Prefix(name, 15) + "_" + fields[3] + "_" + fields[4])
  }

  /** `int(pattern.split("_v")[-1].split(".")[0])`; None where Python's `int`
      raises ValueError. */
  function ParseVersion(name: string): Option<nat>
  {
    ParseNat(Split(Last(Split(name, "_v")), ".")[0])
  }

  // ---------------------------------------------------------------------
  // The grammar the round trip needs

  /** What `strftime("%Y%m%d")` yields: eight ASCII digits. */
  predicate ValidDate(d: string)
  {
    |d| == 8 && AllDigits(d)
  }

  /** A field that neither contains the `_` separator nor a `v` (so that
      `_v` can only occur in front of the revision). */
  predicate Plain(s: string)
  {
    '_' !in s && 'v' !in s
  }

  /** A field that contains none of the horizon tokens. */
  predicate NoHorizon(s: string)
  {
    forall e :: 0 <= e < |Periods| ==> !Contains(s, Periods[e])
  }

  /** The conditions under which a rendered name decodes back to its parameters. */
  predicate WellFormed(c: Candidate)
  {
    && ValidDate(c.date)
    && |c.time| == 6 && Plain(c.time)
    && Plain(c.spc) && NoHorizon(c.spc)
    && Plain(c.province) && NoHorizon(c.province)
    && c.period in Periods
  }

  /** The composite outlook key the source builds for a candidate, written
      from the parameters: the 15-character slice keeps the `_` after the
      time, so the key carries a doubled underscore. */
  function KeyOf(c: Candidate): string
  {
    c.date + c.time + "__" + c.spc + "_" + c.province
  }

  /** The bucket of a horizon token. */
  function DayOf(period: string): (d: Day)
    requires period in Periods
    ensures forall e :: 0 <= e < |Periods| && Periods[e] == period ==> d == Days[e]
  {
    if period == P12 then Day1 else if period == P24 then Day2 else if period == P36 then Day3 else Day4
  }

  /** The underscore-separated fields of a rendered name. */
  function Fields(c: Candidate): seq<string>
  {
    [c.date + c.time, "MSC", "ThunderstormOutlook", c.spc, c.province, c.period,
     "v" + NatToString(c.version) + ".json"]
  }

  lemma RenderJoin(c: Candidate)
    ensures Render(c) == Join(Fields(c), "_")
  {
    var f := Fields(c);
    var j6 := f[6];
    var j5 := f[5] + "_" + j6;
    var j4 := f[4] + "_" + j5;
    var j3 := f[3] + "_" + j4;
    var j2 := f[2] + "_" + j3;
    var j1 := f[1] + "_" + j2;
    assert f[5..][1..] == f[6..];
    assert Join(f[5..], "_") == j5;
    assert f[4..][1..] == f[5..];
    assert Join(f[4..], "_") == j4;
    assert f[3..][1..] == f[4..];
    assert Join(f[3..], "_") == j3;
    assert f[2..][1..] == f[3..];
    assert Join(f[2..], "_") == j2;
    assert f[1..][1..] == f[2..];
    assert Join(f[1..], "_") == j1;
    RenderNested(c);
  }

  /** The filename with its concatenation regrouped field by field. */
  lemma RenderNested(c: Candidate)
    ensures Render(c) == (c.date + c.time) + "_" + ("MSC" + "_" + ("ThunderstormOutlook" + "_" + (c.spc + "_"
      + (c.province + "_" + (c.period + "_" + ("v" + NatToString(c.version) + ".json"))))))
  {
  }

  lemma PeriodsPlain(period: string)
    requires period in Periods
    ensures Plain(period) && |period| == 9 && period[0] == 'P'
  {
  }

  /** Splitting a well-formed name on `_` gives back its seven fields. */
  lemma SplitFields(c: Candidate)
    requires WellFormed(c)
    ensures Split(Render(c), "_") == Fields(c)
  {
    RenderJoin(c);
    PeriodsPlain(c.period);
    var f := Fields(c);
    assert '_' !in NatToString(c.version);
    assert Unseparated(f, '_');
    SplitJoin(f, '_');
  }

  /** Two-character separators: no occurrence before `|a|` when the second
      character is absent from `a` and does not start `b`. */
  lemma NoneBeforePair(a: string, b: string, t: string)
    requires |t| == 2 && t[1] !in a
    requires b != [] && b[0] != t[1]
    ensures NoneBefore(a + b, t, |a|)
  {
    var s := a + b;
    forall i | 0 <= i < |a|
      ensures !OccursAt(s, t, i)
    {
      if i + 2 <= |s| {
        assert s[i..i + 2][1] == s[i + 1];
        if i + 1 < |a| {
          assert s[i + 1] == a[i + 1];
        } else {
          assert s[i + 1] == b[0];
        }
      }
    }
  }

  /** A rendered name up to its horizon token (constant text split as in `Render`). */
  function Head(c: Candidate): string
  {
    c.date + c.time + "_" + "MSC" + "_" + "ThunderstormOutlook" + "_" + c.spc + "_" + c.province + "_" + c.period
  }

  /** In a well-formed name, `v` occurs only in the revision suffix. */
  lemma HeadSplit(c: Candidate)
    requires WellFormed(c)
    ensures Render(c) == Head(c) + "_v" + (NatToString(c.version) + ".json")
    ensures 'v' !in Head(c)
  {
    PeriodsPlain(c.period);
    assert 'v' !in c.date;
  }

  /** The text after the only `_v` of a well-formed name is the revision
      digits followed by `.json`. */
  lemma VersionTail(c: Candidate)
    requires WellFormed(c)
    ensures Last(Split(Render(c), "_v")) == NatToString(c.version) + ".json"
  {
    var a := Head(c);
    var b := NatToString(c.version) + ".json";
    HeadSplit(c);
    NoneBeforePair(a, "_v" + b, "_v");
    SplitAfter(a, b, "_v");
    assert '_' !in b;
    NotContainsChar(b, "_v");
    SplitPlain(b, "_v");
  }

  /** The text before the first `.` of `digits.json` is the digits. */
  lemma DigitsBeforeDot(digits: string)
    requires AllDigits(digits)
    ensures Split(digits + ".json", ".")[0] == digits
  {
    var b := digits + ".json";
    assert b == digits + "." + "json";
    forall i | 0 <= i < |digits|
      ensures !OccursAt(b, ".", i)
    {
      assert b[i] == digits[i];
    }
    SplitAfter(digits, "json", ".");
  }

  /** The revision text between the last `_v` and the first `.` parses back
      to the revision the name was built with. */
  lemma ParseVersionRender(c: Candidate)
    requires WellFormed(c)
    ensures ParseVersion(Render(c)) == Some(c.version)
  {
    VersionTail(c);
    DigitsBeforeDot(NatToString(c.version));
    ParseNatToString(c.version);
  }

  /** The outlook key read from a well-formed name is `KeyOf` of its parameters. */
  lemma OutlookKeyRender(c: Candidate)
    requires WellFormed(c)
    ensures OutlookKey(Render(c)) == Some(KeyOf(c))
  {
    SplitFields(c);
    RenderJoin(c);
    var f := Fields(c);
    assert Render(c) == (f[0] + "_") + Join(f[1..], "_");
    assert Prefix(Render(c), 15) == f[0] + "_";
    assert f[0] + "_" + "_" == c.date + c.time + "__";
  }

  /** The date-and-time field holds no horizon token: an occurrence would
      have to start inside the eight digits of the date. */
  lemma DateTimeNoHorizon(date: string, time: string, t: string)
    requires ValidDate(date) && |time| == 6
    requires |t| == 9 && t[0] == 'P'
    ensures !Contains(date + time, t)
  {
    var s := date + time;
    forall i | 0 <= i <= |s|
      ensures !OccursAt(s, t, i)
    {
      if i + 9 <= |s| {
        assert s[i..i + 9][0] == s[i] == date[i];
      }
    }
  }

  /** Only the horizon field of a well-formed name can hold a horizon token. */
  lemma OtherFieldsNoHorizon(c: Candidate, t: string)
    requires WellFormed(c) && t in Periods
    ensures forall i :: 0 <= i < |Fields(c)| && i != 5 ==> !Contains(Fields(c)[i], t)
  {
    PeriodsPlain(t);
    var f := Fields(c);
    DateTimeNoHorizon(c.date, c.time, t);
    NotContainsShort(f[1], t);
    NotContainsChar(f[2], t);
    assert 'P' !in NatToString(c.version);
    NotContainsChar(f[6], t);
  }

  /** A well-formed name contains exactly one horizon token: its own. */
  lemma HorizonTokens(c: Candidate, e: nat)
    requires WellFormed(c) && e < |Periods|
    ensures Contains(Render(c), Periods[e]) <==> c.period == Periods[e]
  {
    var t := Periods[e];
    PeriodsPlain(t);
    PeriodsPlain(c.period);
    RenderJoin(c);
    var f := Fields(c);
    ContainsJoin(f, '_', t);
    OtherFieldsNoHorizon(c, t);
    ContainsSameLength(f[5], t);
  }

  /** Decoding a generated name gives back what built it: the date is its
      first eight characters, the outlook key is `KeyOf`, the revision parses
      back, and the bucket is the one of its horizon token. */
  lemma DecodeRender(c: Candidate)
    requires WellFormed(c)
    ensures DateOf(Render(c)) == c.date
    ensures OutlookKey(Render(c)) == Some(KeyOf(c))
    ensures ParseVersion(Render(c)) == Some(c.version)
    ensures Classify(Render(c)) == DayOf(c.period)
  {
    OutlookKeyRender(c);
    ParseVersionRender(c);
    HorizonTokens(c, 0);
    HorizonTokens(c, 1);
    HorizonTokens(c, 2);
    HorizonTokens(c, 3);
  }

  // ---------------------------------------------------------------------
  // The generated list: size, order, contents, no repeats

  /** A field shorter than a horizon token cannot contain one. */
  lemma ShortNoHorizon(s: string)
    requires |s| < 9
    ensures NoHorizon(s)
  {
    forall e | 0 <= e < |Periods|
      ensures !Contains(s, Periods[e])
    {
      NotContainsShort(s, Periods[e]);
    }
  }

  /** Every table entry is a plain field, and every region name is shorter than a horizon token. */
  lemma TablesPlain(b: nat, r: nat)
    requires b < |Times| && r < |Regions|
    ensures |Times[b]| == 6 && Plain(Times[b])
    ensures |Regions[r].0| < 9 && Plain(Regions[r].0)
    ensures |Regions[r].1| < 9 && Plain(Regions[r].1)
  {
  }

  /** Every combination drawn from the tables, with a valid date, satisfies the grammar. */
  lemma TablesWellFormed(date: string, time: string, region: (string, string), period: string, version: nat)
    requires ValidDate(date) && time in Times && region in Regions && period in Periods
    ensures WellFormed(Candidate(date, time, region.0, region.1, period, version))
  {
    var b :| 0 <= b < |Times| && Times[b] == time;
    var r :| 0 <= r < |Regions| && Regions[r] == region;
    TablesPlain(b, r);
    ShortNoHorizon(region.0);
    ShortNoHorizon(region.1);
  }

  lemma ForRegionLength(date: string, time: string, region: (string, string))
    ensures |ForRegion(date, time, region)| == 16
  {
    FlatMapLength(Periods, PeriodBody(date, time, region), 4);
  }

  lemma RegionBodyLength(date: string, time: string)
    ensures forall r :: |RegionBody(date, time)(r)| == 16
  {
    forall r: (string, string) ensures |ForRegion(date, time, r)| == 16 {
      ForRegionLength(date, time, r);
    }
  }

  lemma ForTimeLength(date: string, time: string)
    ensures |ForTime(date, time)| == 160
  {
    RegionBodyLength(date, time);
    FlatMapLength(Regions, RegionBody(date, time), 16);
  }

  lemma TimeBodyLength(date: string)
    ensures forall t :: |TimeBody(date)(t)| == 160
  {
    forall t: string ensures |ForTime(date, t)| == 160 {
      ForTimeLength(date, t);
    }
  }

  lemma ForDateLength(date: string)
    ensures |ForDate(date)| == PerDate
  {
    TimeBodyLength(date);
    FlatMapLength(Times, TimeBody(date), 160);
  }

  lemma DateLengths()
    ensures forall d :: |ForDate(d)| == PerDate
  {
    forall d: string ensures |ForDate(d)| == PerDate {
      ForDateLength(d);
    }
  }

  /** `len(patterns)` is `len(dates) * 3 * 10 * 4 * 4`. */
  lemma CandidatesLength(dates: seq<string>)
    ensures |Candidates(dates)| == |dates| * PerDate
  {
    DateLengths();
    FlatMapLength(dates, ForDate, PerDate);
  }

  /** The position of a combination in the generated list: date outermost,
      then time, region pair, horizon, and revision innermost. The block
      sizes are 480 = |Times| * 160 (`PerDate`), 160 = |Regions| * 16,
      16 = |Periods| * 4 and 4 = |Versions|. */
  function Index(a: nat, b: nat, r: nat, e: nat, g: nat): nat
  {
    a * 480 + b * 160 + r * 16 + e * 4 + g
  }

  /** The offsets of the inner loops stay inside their blocks. */
  lemma OffsetBounds(r: nat, e: nat, g: nat)
    requires r < |Regions| && e < |Periods| && g < |Versions|
    ensures e * 4 + g < 16
    ensures r * 16 + e * 4 + g < 160
  {
  }

  lemma ForRegionAt(date: string, time: string, region: (string, string), e: nat, g: nat)
    requires e < |Periods| && g < |Versions|
    ensures e * 4 + g < |ForRegion(date, time, region)|
    ensures ForRegion(date, time, region)[e * 4 + g] == Candidate(date, time, region.0, region.1, Periods[e], Versions[g])
  {
    FlatMapIndex(Periods, PeriodBody(date, time, region), 4, e, g);
  }

  lemma ForTimeAt(date: string, time: string, r: nat, e: nat, g: nat)
    requires r < |Regions| && e < |Periods| && g < |Versions|
    ensures r * 16 + e * 4 + g < |ForTime(date, time)|
    ensures ForTime(date, time)[r * 16 + e * 4 + g]
         == Candidate(date, time, Regions[r].0, Regions[r].1, Periods[e], Versions[g])
  {
    var j := e * 4 + g;
    OffsetBounds(r, e, g);
    RegionBodyLength(date, time);
    FlatMapIndex(Regions, RegionBody(date, time), 16, r, j);
    assert RegionBody(date, time)(Regions[r]) == ForRegion(date, time, Regions[r]);
    ForRegionAt(date, time, Regions[r], e, g);
  }

  lemma ForDateAt(date: string, b: nat, r: nat, e: nat, g: nat)
    requires b < |Times| && r < |Regions| && e < |Periods| && g < |Versions|
    ensures b * 160 + r * 16 + e * 4 + g < |ForDate(date)|
    ensures ForDate(date)[b * 160 + r * 16 + e * 4 + g]
         == Candidate(date, Times[b], Regions[r].0, Regions[r].1, Periods[e], Versions[g])
  {
    var j := r * 16 + e * 4 + g;
    OffsetBounds(r, e, g);
    TimeBodyLength(date);
    FlatMapIndex(Times, TimeBody(date), 160, b, j);
    assert TimeBody(date)(Times[b]) == ForTime(date, Times[b]);
    ForTimeAt(date, Times[b], r, e, g);
  }

  /** The element at `Index(a, b, r, e, g)` is built from `dates[a]`,
      `Times[b]`, `Regions[r]`, `Periods[e]` and `Versions[g]`. */
  lemma ParamsAt(dates: seq<string>, a: nat, b: nat, r: nat, e: nat, g: nat)
    requires a < |dates| && b < |Times| && r < |Regions| && e < |Periods| && g < |Versions|
    ensures Index(a, b, r, e, g) < |Params(dates)|
    ensures Params(dates)[Index(a, b, r, e, g)]
         == Candidate(dates[a], Times[b], Regions[r].0, Regions[r].1, Periods[e], Versions[g])
  {
    var j := b * 160 + r * 16 + e * 4 + g;
    DateLengths();
    FlatMapIndex(dates, ForDate, 480, a, j);
    assert Index(a, b, r, e, g) == a * 480 + j;
    ForDateAt(dates[a], b, r, e, g);
  }

  lemma VersionsAt(g: nat)
    requires g < |Versions|
    ensures Versions[g] == g + 1
  {
  }

  /** The generated filename at each position, in nesting order, with
      revision `g + 1` at the innermost position `g`. */
  lemma CandidateAt(dates: seq<string>, a: nat, b: nat, r: nat, e: nat, g: nat)
    requires a < |dates| && b < |Times| && r < |Regions| && e < |Periods| && g < |Versions|
    ensures Index(a, b, r, e, g) < |Candidates(dates)|
    ensures Candidates(dates)[Index(a, b, r, e, g)]
         == dates[a] + Times[b] + "_" + "MSC" + "_" + "ThunderstormOutlook" + "_" + Regions[r].0 + "_" + Regions[r].1
            + "_" + Periods[e] + "_" + "v" + NatToString(g + 1) + ".json"
  {
    var i := Index(a, b, r, e, g);
    ParamsAt(dates, a, b, r, e, g);
    var c := Params(dates)[i];
    assert Candidates(dates)[i] == Render(c);
    VersionsAt(g);
    assert c == Candidate(dates[a], Times[b], Regions[r].0, Regions[r].1, Periods[e], g + 1);
  }

  /** The parameters drawn from the tables, for a date in `dates`. */
  predicate FromTables(dates: seq<string>, c: Candidate)
  {
    c.date in dates && c.time in Times && (c.spc, c.province) in Regions && c.period in Periods && c.version in Versions
  }

  lemma ForRegionMember(date: string, time: string, region: (string, string), c: Candidate)
    ensures c in ForRegion(date, time, region)
        <==> c.date == date && c.time == time && (c.spc, c.province) == region && c.period in Periods && c.version in Versions
  {
    FlatMapMember(Periods, PeriodBody(date, time, region), c);
  }

  lemma ForTimeMember(date: string, time: string, c: Candidate)
    ensures c in ForTime(date, time)
        <==> c.date == date && c.time == time && (c.spc, c.province) in Regions && c.period in Periods && c.version in Versions
  {
    var f := RegionBody(date, time);
    forall r: (string, string) | c in f(r)
      ensures r == (c.spc, c.province)
    {
      ForRegionMember(date, time, r, c);
    }
    FlatMapMemberKey(Regions, f, c, (c.spc, c.province));
    ForRegionMember(date, time, (c.spc, c.province), c);
  }

  lemma ForDateMember(date: string, c: Candidate)
    ensures c in ForDate(date)
        <==> c.date == date && c.time in Times && (c.spc, c.province) in Regions && c.period in Periods && c.version in Versions
  {
    var f := TimeBody(date);
    forall t: string | c in f(t)
      ensures t == c.time
    {
      ForTimeMember(date, t, c);
    }
    FlatMapMemberKey(Times, f, c, c.time);
    ForTimeMember(date, c.time, c);
  }

  /** No omissions, nothing extra: the generated parameters are exactly the
      combinations drawn from the tables. */
  lemma ParamsMember(dates: seq<string>, c: Candidate)
    ensures c in Params(dates) <==> FromTables(dates, c)
  {
    forall d: string | c in ForDate(d)
      ensures d == c.date
    {
      ForDateMember(d, c);
    }
    FlatMapMemberKey(dates, ForDate, c, c.date);
    ForDateMember(c.date, c);
  }

  lemma TablesDistinct()
    ensures Distinct(Times) && Distinct(Regions) && Distinct(Periods) && Distinct(Versions)
  {
  }

  lemma ForRegionDistinct(date: string, time: string, region: (string, string))
    ensures Distinct(ForRegion(date, time, region))
  {
    var f := PeriodBody(date, time, region);
    TablesDistinct();
    forall i, j | 0 <= i < j < |Periods|
      ensures Disjoint(f(Periods[i]), f(Periods[j]))
    {
    }
    FlatMapDistinct(Periods, f);
  }

  lemma ForTimeDistinct(date: string, time: string)
    ensures Distinct(ForTime(date, time))
  {
    var f := RegionBody(date, time);
    TablesDistinct();
    forall i | 0 <= i < |Regions|
      ensures Distinct(f(Regions[i]))
    {
      ForRegionDistinct(date, time, Regions[i]);
    }
    forall i, j | 0 <= i < j < |Regions|
      ensures Disjoint(f(Regions[i]), f(Regions[j]))
    {
      forall p, q | 0 <= p < |f(Regions[i])| && 0 <= q < |f(Regions[j])|
        ensures f(Regions[i])[p] != f(Regions[j])[q]
      {
        ForRegionMember(date, time, Regions[i], f(Regions[i])[p]);
        ForRegionMember(date, time, Regions[j], f(Regions[j])[q]);
      }
    }
    FlatMapDistinct(Regions, f);
  }

  lemma ForDateDistinct(date: string)
    ensures Distinct(ForDate(date))
  {
    var f := TimeBody(date);
    TablesDistinct();
    forall i | 0 <= i < |Times|
      ensures Distinct(f(Times[i]))
    {
      ForTimeDistinct(date, Times[i]);
    }
    forall i, j | 0 <= i < j < |Times|
      ensures Disjoint(f(Times[i]), f(Times[j]))
    {
      forall p, q | 0 <= p < |f(Times[i])| && 0 <= q < |f(Times[j])|
        ensures f(Times[i])[p] != f(Times[j])[q]
      {
        ForTimeMember(date, Times[i], f(Times[i])[p]);
        ForTimeMember(date, Times[j], f(Times[j])[q]);
      }
    }
    FlatMapDistinct(Times, f);
  }

  /** Over a list of distinct dates, no parameter combination is generated twice. */
  lemma ParamsDistinct(dates: seq<string>)
    requires Distinct(dates)
    ensures Distinct(Params(dates))
  {
    forall i | 0 <= i < |dates|
      ensures Distinct(ForDate(dates[i]))
    {
      ForDateDistinct(dates[i]);
    }
    forall i, j | 0 <= i < j < |dates|
      ensures Disjoint(ForDate(dates[i]), ForDate(dates[j]))
    {
      forall p, q | 0 <= p < |ForDate(dates[i])| && 0 <= q < |ForDate(dates[j])|
        ensures ForDate(dates[i])[p] != ForDate(dates[j])[q]
      {
        ForDateMember(dates[i], ForDate(dates[i])[p]);
        ForDateMember(dates[j], ForDate(dates[j])[q]);
      }
    }
    FlatMapDistinct(dates, ForDate);
  }

  /** Distinct well-formed parameters render to distinct filenames. */
  lemma RenderInjective(c: Candidate, d: Candidate)
    requires WellFormed(c) && WellFormed(d)
    ensures Render(c) == Render(d) <==> c == d
  {
    if Render(c) == Render(d) {
      SplitFields(c);
      SplitFields(d);
      assert Fields(c)[0] == Fields(d)[0];
      assert c.date == (c.date + c.time)[..8] && c.time == (c.date + c.time)[8..];
      assert d.date == (d.date + d.time)[..8] && d.time == (d.date + d.time)[8..];
      ParseVersionRender(c);
      ParseVersionRender(d);
    }
  }

  /** The outlook key identifies the date, time and region pair of a
      well-formed candidate, in spite of the doubled underscore. */
  lemma KeyOfInjective(c: Candidate, d: Candidate)
    requires WellFormed(c) && WellFormed(d)
    ensures KeyOf(c) == KeyOf(d)
        <==> c.date == d.date && c.time == d.time && c.spc == d.spc && c.province == d.province
  {
    if KeyOf(c) == KeyOf(d) {
      var k := KeyOf(c);
      assert k[..14] == c.date + c.time;
      assert KeyOf(d)[..14] == d.date + d.time;
      assert c.date == (c.date + c.time)[..8] && c.time == (c.date + c.time)[8..];
      assert d.date == (d.date + d.time)[..8] && d.time == (d.date + d.time)[8..];
      assert k[16..] == c.spc + "_" + c.province;
      assert KeyOf(d)[16..] == d.spc + "_" + d.province;
      SeparatorUnique(c.spc, c.province, d.spc, d.province, '_');
    }
  }

  /** Every generated parameter combination is drawn from the tables and well formed. */
  lemma ParamsWellFormed(dates: seq<string>, i: nat)
    requires forall k :: 0 <= k < |dates| ==> ValidDate(dates[k])
    requires i < |Params(dates)|
    ensures FromTables(dates, Params(dates)[i]) && WellFormed(Params(dates)[i])
  {
    var c := Params(dates)[i];
    ParamsMember(dates, c);
    TablesWellFormed(c.date, c.time, (c.spc, c.province), c.period, c.version);
  }

  /** Over distinct valid dates, no filename is generated twice. */
  lemma CandidatesDistinct(dates: seq<string>)
    requires Distinct(dates)
    requires forall i :: 0 <= i < |dates| ==> ValidDate(dates[i])
    ensures Distinct(Candidates(dates))
  {
    var ps := Params(dates);
    ParamsDistinct(dates);
    forall i, j | 0 <= i < j < |ps|
      ensures Candidates(dates)[i] != Candidates(dates)[j]
    {
      ParamsWellFormed(dates, i);
      ParamsWellFormed(dates, j);
      RenderInjective(ps[i], ps[j]);
    }
  }

  /** Every generated filename renders a combination drawn from the tables. */
  lemma CandidatesSound(dates: seq<string>, i: nat)
    requires i < |Candidates(dates)|
    ensures FromTables(dates, Params(dates)[i]) && Candidates(dates)[i] == Render(Params(dates)[i])
  {
    ParamsMember(dates, Params(dates)[i]);
  }

  /** Every combination drawn from the tables is rendered somewhere in the list. */
  lemma CandidatesComplete(dates: seq<string>, c: Candidate)
    requires FromTables(dates, c)
    ensures Render(c) in Candidates(dates)
  {
    ParamsMember(dates, c);
    MapMember(Params(dates), Render, c);
  }

  /** The generated filenames are exactly the renderings of the table combinations. */
  lemma CandidatesMember(dates: seq<string>, name: string)
    ensures name in Candidates(dates) <==> exists c :: FromTables(dates, c) && name == Render(c)
  {
    var names := Candidates(dates);
    if name in names {
      var i :| 0 <= i < |names| && names[i] == name;
      CandidatesSound(dates, i);
    }
    if c :| FromTables(dates, c) && name == Render(c) {
      CandidatesComplete(dates, c);
    }
  }

  /** The run's list: 480 names for the one current date, none repeated.
      That each of them decodes is `Fetcher.GeneratedDecodable`. */
  lemma ConstructPatternsShape(today: string)
    ensures |ConstructPatterns(today)| == PerDate
    ensures ValidDate(today) ==> Distinct(ConstructPatterns(today))
  {
    CandidatesLength(DatePatterns(today));
    if ValidDate(today) {
      CandidatesDistinct(DatePatterns(today));
    }
  }
}
