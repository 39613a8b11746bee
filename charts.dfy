/**
 * The data the three dashboard charts are drawn from: the per-feature means
 * of the radar chart, the top-five rows of the genre bar chart, and the
 * 24-bucket hour histogram with its 12-hour clock labels and axis ticks.
 * Figure construction and styling are not modelled.
 */
module Charts {
  import opened Wrappers
  import opened Counter
  import opened Stats
  import opened FeatureTable
  import opened Mood
  import opened Genres
  import opened Timestamps
  import opened Trends

  // ---------------------------------------------------------------- radar

  /** The radar chart's axes, in drawing order. */
  const RadarFeatures: seq<string> :=
    ["danceability", "energy", "speechiness", "acousticness", "instrumentalness", "liveness", "valence"]

  predicate HasRadarFeatures(t: Table)
  {
    forall i :: 0 <= i < |RadarFeatures| ==> RadarFeatures[i] in t.columns
  }

  /**
   * The mean of each radar feature, in axis order; None (the placeholder
   * figure) when one of the columns is missing.
   */
  function RadarValues(t: Table): (r: Option<seq<real>>)
    requires IsFeatureTable(t)
    ensures r.Some? <==> HasRadarFeatures(t)
    ensures r.Some? ==> |r.value| == |RadarFeatures|
    ensures r.Some? ==> forall i :: 0 <= i < |RadarFeatures| ==>
      Column(t, RadarFeatures[i]).Some? && r.value[i] == Mean(Column(t, RadarFeatures[i]).value)
  {
    if !HasRadarFeatures(t) then None
    else Some(seq(|RadarFeatures|, i requires 0 <= i < |RadarFeatures| => Mean(Column(t, RadarFeatures[i]).value)))
  }

  predicate InUnitRange(cell: Option<real>)
  {
    cell.None? || 0.0 <= cell.value <= 1.0
  }

  /** When every radar cell is in [0, 1] the chart stays within its radial range [0, 1]. */
  lemma RadarWithinAxis(t: Table)
    requires IsFeatureTable(t) && HasRadarFeatures(t)
    requires forall i, j :: 0 <= i < |RadarFeatures| && 0 <= j < |t.rows| ==>
      InUnitRange(t.rows[j][RadarFeatures[i]])
    ensures forall i :: 0 <= i < |RadarFeatures| ==> 0.0 <= RadarValues(t).value[i] <= 1.0
  {
    forall i | 0 <= i < |RadarFeatures| ensures 0.0 <= RadarValues(t).value[i] <= 1.0 {
      var col := Column(t, RadarFeatures[i]).value;
      assert forall j :: 0 <= j < |col| ==> t.rows[j][RadarFeatures[i]] == Some(col[j]);
      MeanWithin(col, 0.0, 1.0);
    }
  }

  /** The radar's danceability, energy and valence axes show the mood analysis's means. */
  lemma RadarAgreesWithMood(t: Table)
    requires IsFeatureTable(t) && HasRadarFeatures(t)
    ensures RadarValues(t).value[0] == AnalyzeMood(t).danceability
    ensures RadarValues(t).value[1] == AnalyzeMood(t).energy
    ensures RadarValues(t).value[6] == AnalyzeMood(t).valence
  {
    assert RadarFeatures[0] in t.columns && RadarFeatures[1] in t.columns && RadarFeatures[6] in t.columns;
  }

  // ---------------------------------------------------------------- genre bars

  predicate ByCount(s: seq<(string, nat)>)
  {
    forall i, j :: 0 <= i < j < |s| ==> s[i].1 >= s[j].1
  }

  /** Puts g after every entry of s whose count is at least g's. */
  function InsertByCount(s: seq<(string, nat)>, g: (string, nat)): (r: seq<(string, nat)>)
    requires ByCount(s)
    ensures |r| == |s| + 1 && ByCount(r)
    ensures multiset(r) == multiset(s) + multiset{g}
  {
    if s == [] then [g]
    else if s[0].1 >= g.1 then
      assert ByCount(s[1..]);
      var rest := InsertByCount(s[1..], g);
      LeadsByCount(s, g, rest);
      [s[0]] + rest
    else
      assert forall j :: 0 <= j < |s| ==> s[j].1 <= s[0].1;
      [g] + s
  }

  /** s[0] may come before the insertion of g into the rest of s. */
  lemma LeadsByCount(s: seq<(string, nat)>, g: (string, nat), rest: seq<(string, nat)>)
    requires s != [] && ByCount(s) && s[0].1 >= g.1
    requires ByCount(rest) && multiset(rest) == multiset(s[1..]) + multiset{g}
    ensures ByCount([s[0]] + rest)
    ensures multiset([s[0]] + rest) == multiset(s) + multiset{g}
  {
    assert s == [s[0]] + s[1..];
    forall j | 0 <= j < |rest| ensures rest[j].1 <= s[0].1 {
      assert rest[j] in multiset(rest);
      if rest[j] != g {
        assert rest[j] in s[1..];
      }
    }
  }

  /** The entries sorted by non-increasing count. */
  function SortByCount(s: seq<(string, nat)>): (r: seq<(string, nat)>)
    ensures |r| == |s| && ByCount(r)
    ensures multiset(r) == multiset(s)
  {
    if s == [] then []
    else
      assert s == s[..|s| - 1] + [s[|s| - 1]];
      InsertByCount(SortByCount(s[..|s| - 1]), s[|s| - 1])
  }

  /**
   * The rows of the genre bar chart: the placeholder genres when the list is
   * missing or empty, otherwise sorted by count, highest first, and cut to five.
   */
  function TopGenreRows(genres: Option<seq<(string, nat)>>): (r: seq<(string, nat)>)
    ensures 0 < |r| <= 5 && ByCount(r)
    ensures genres.Some? && genres.value != [] ==>
      |r| == (if |genres.value| < 5 then |genres.value| else 5) && multiset(r) <= multiset(genres.value)
  {
    TopFive(ChartGenres(genres))
  }

  /**
   * df.sort_values('count', ascending=False).head(5): min(5, |gs|) rows of gs
   * in non-increasing count.
   */
  function TopFive(gs: seq<(string, nat)>): (r: seq<(string, nat)>)
    ensures |r| == if |gs| < 5 then |gs| else 5
    ensures ByCount(r)
    ensures multiset(r) <= multiset(gs)
  {
    var sorted := SortByCount(gs);
    if |sorted| <= 5 then sorted
    else
      PrefixInOrder(sorted, 5);
      sorted[..5]
  }

  lemma NoGenresPlaceholder(genres: Option<seq<(string, nat)>>)
    requires genres.None? || genres.value == []
    ensures TopGenreRows(genres) == PlaceholderGenres
  {
    var p := PlaceholderGenres;
    assert forall i :: 0 <= i < |p| ==> p[i].1 == 5 - i;
    SortedIsOwnSort(p);
  }

  /** Sorting a list already in non-increasing count order leaves it as it is. */
  lemma {:induction false} SortedIsOwnSort(s: seq<(string, nat)>)
    requires ByCount(s)
    ensures SortByCount(s) == s
  {
    if s != [] {
      var init := s[..|s| - 1];
      assert ByCount(init);
      SortedIsOwnSort(init);
      AppendLeast(init, s[|s| - 1]);
      assert init + [s[|s| - 1]] == s;
    }
  }

  lemma {:induction false} AppendLeast(s: seq<(string, nat)>, g: (string, nat))
    requires ByCount(s) && forall i :: 0 <= i < |s| ==> s[i].1 >= g.1
    ensures InsertByCount(s, g) == s + [g]
  {
    if s != [] {
      assert ByCount(s[1..]);
      AppendLeast(s[1..], g);
      assert [s[0]] + (s[1..] + [g]) == s + [g];
    }
  }

  /** The entries a chart shows or passes over: the input, or the placeholder. */
  function ChartGenres(genres: Option<seq<(string, nat)>>): seq<(string, nat)>
  {
    if genres.None? || genres.value == [] then PlaceholderGenres else genres.value
  }

  /** A prefix of a list in non-increasing count order is in that order and drawn from it. */
  lemma PrefixInOrder(sorted: seq<(string, nat)>, n: nat)
    requires ByCount(sorted) && n <= |sorted|
    ensures ByCount(sorted[..n]) && multiset(sorted[..n]) <= multiset(sorted)
  {
    assert sorted == sorted[..n] + sorted[n..];
  }

  /** A prefix of a list in non-increasing count order is its top entries. */
  lemma PrefixIsTop(sorted: seq<(string, nat)>, n: nat)
    requires ByCount(sorted) && n <= |sorted|
    ensures forall g: (string, nat), j :: g in multiset(sorted) - multiset(sorted[..n]) && 0 <= j < n ==>
      g.1 <= sorted[j].1
  {
    var kept, dropped := sorted[..n], sorted[n..];
    assert sorted == kept + dropped;
    assert multiset(sorted) - multiset(kept) == multiset(dropped);
    forall g: (string, nat), j | g in multiset(dropped) && 0 <= j < n ensures g.1 <= sorted[j].1 {
      var k :| 0 <= k < |dropped| && dropped[k] == g;
      assert sorted[n + k] == g;
    }
  }

  /**
   * The five entries kept are those with the highest counts: no entry left
   * out has a higher count than an entry kept.
   */
  lemma TopFiveOf(gs: seq<(string, nat)>)
    ensures forall g: (string, nat), j ::
      (g in multiset(gs) - multiset(TopFive(gs)) && 0 <= j < |TopFive(gs)|) ==> g.1 <= TopFive(gs)[j].1
  {
    var sorted := SortByCount(gs);
    var n := if |sorted| <= 5 then |sorted| else 5;
    var top := sorted[..n];
    assert TopFive(gs) == top;
    PrefixIsTop(sorted, n);
    assert multiset(sorted) == multiset(gs);
  }

  // ---------------------------------------------------------------- listening schedule

  /** The decimal digits of n, without leading zeros. */
  function Decimal(n: nat): (s: string)
    ensures |s| > 0 && AllDigits(s)
    ensures NumberValue(s) == n
    ensures n > 0 ==> s[0] != '0'
  {
    if n < 10 then [DigitChar(n)]
    else
      var s := Decimal(n / 10) + [DigitChar(n % 10)];
      assert s[..|s| - 1] == Decimal(n / 10);
      s
  }

  /** The 12-hour clock label of an hour (0 is "12 AM", 13 is "1 PM"); it reads back as the hour. */
  function TimeLabel(h: int): (s: string)
    requires 0 <= h < 24
    ensures HourOfLabel(s) == Some(h)
    ensures s[0] != '0'
  {
    var n := if h % 12 == 0 then 12 else h % 12;
    assert n == if h == 0 || h == 12 then 12 else if h < 12 then h else h - 12;
    ReadLabel(n, h >= 12);
    LabelStartsWithDigit(n, h < 12);
    Decimal(n) + (if h < 12 then " AM" else " PM")
  }

  /** A label starts with the first digit of its number, which is not '0'. */
  lemma LabelStartsWithDigit(n: nat, am: bool)
    requires n > 0
    ensures (Decimal(n) + (if am then " AM" else " PM"))[0] != '0'
  {
    var d := Decimal(n);
    assert (d + (if am then " AM" else " PM"))[0] == d[0];
  }

  /** Reads a 12-hour clock label back to its hour. */
  function HourOfLabel(s: string): (r: Option<int>)
    ensures r.Some? ==> 0 <= r.value < 24
  {
    if |s| < 4 then None
    else
      var digits, suffix := s[..|s| - 3], s[|s| - 3..];
      if !AllDigits(digits) || (suffix != " AM" && suffix != " PM") then None
      else
        var n := NumberValue(digits);
        if n < 1 || n > 12 then None
        else
          var h := if n == 12 then 0 else n;
          Some(if suffix == " AM" then h else h + 12)
  }

  /** The clock label of n AM or PM reads back as its hour. */
  lemma ReadLabel(n: nat, pm: bool)
    requires 1 <= n <= 12
    ensures HourOfLabel(Decimal(n) + (if pm then " PM" else " AM"))
      == Some((if n == 12 then 0 else n) + (if pm then 12 else 0))
  {
    var d, suffix := Decimal(n), if pm then " PM" else " AM";
    var s := d + suffix;
    assert s[..|s| - 3] == d && s[|s| - 3..] == suffix;
  }

  /** Different hours carry different labels. */
  lemma TimeLabelsDistinct(h1: int, h2: int)
    requires 0 <= h1 < 24 && 0 <= h2 < 24 && h1 != h2
    ensures TimeLabel(h1) != TimeLabel(h2)
  {
  }

  lemma TimeLabelExamples()
    ensures TimeLabel(0) == "12 AM" && TimeLabel(1) == "1 AM" && TimeLabel(11) == "11 AM"
    ensures TimeLabel(12) == "12 PM" && TimeLabel(13) == "1 PM" && TimeLabel(23) == "11 PM"
  {
    DecimalExamples();
  }

  lemma DecimalExamples()
    ensures Decimal(1) == "1" && Decimal(11) == "11" && Decimal(12) == "12"
  {
    assert Decimal(1) == [DigitChar(1)];
    assert Decimal(11) == Decimal(1) + [DigitChar(1)];
    assert Decimal(12) == Decimal(1) + [DigitChar(2)];
  }

  /** The label of every hour, 0 to 23. */
  function TimeLabels(): (ls: seq<string>)
    ensures |ls| == 24 && forall h :: 0 <= h < 24 ==> ls[h] == TimeLabel(h)
  {
    seq(24, h requires 0 <= h < 24 => TimeLabel(h))
  }

  /** The x-axis ticks, every third hour: 0, 3, ..., 21. */
  function TickValues(): (ts: seq<int>)
    ensures |ts| == 8 && forall i :: 0 <= i < 8 ==> ts[i] == 3 * i
  {
    seq(8, i => 3 * i)
  }

  lemma TickValuesAreEveryThirdHour()
    ensures forall i, j :: 0 <= i < j < |TickValues()| ==> TickValues()[i] < TickValues()[j]
    ensures forall h :: h in TickValues() <==> 0 <= h < 24 && h % 3 == 0
  {
    forall h | 0 <= h < 24 && h % 3 == 0 ensures h in TickValues() {
      assert TickValues()[h / 3] == h;
    }
  }

  /** Each tick's text is the label of its hour. */
  function TickText(): (ts: seq<string>)
    ensures |ts| == |TickValues()|
    ensures forall i :: 0 <= i < |ts| ==> 0 <= TickValues()[i] < 24 && ts[i] == TimeLabel(TickValues()[i])
  {
    var labels, ticks := TimeLabels(), TickValues();
    var ts := seq(|ticks|, i requires 0 <= i < |ticks| => labels[ticks[i]]);
    assert forall i :: 0 <= i < |ts| ==> ts[i] == labels[ticks[i]] == TimeLabel(ticks[i]);
    ts
  }

  /** hour_counts: the number of plays at each hour of the day. */
  function HourHistogram(hours: seq<int>): (counts: map<int, nat>)
    ensures forall h :: h in counts <==> 0 <= h < 24
    ensures forall h :: h in counts ==> (counts[h] > 0 <==> h in hours)
  {
    assert forall h :: Count(hours, h) > 0 <==> h in hours by {
      forall h ensures Count(hours, h) > 0 <==> h in hours {
        CountPositive(hours, h);
      }
    }
    map h | 0 <= h < 24 :: Count(hours, h)
  }

  /** The loop that fills hour_counts for hours 0 to 23. */
  method HourCounts(hours: seq<int>) returns (counts: map<int, nat>)
    ensures counts == HourHistogram(hours)
  {
    counts := map[];
    for hour := 0 to 24
      invariant forall h :: h in counts <==> 0 <= h < hour
      invariant forall h :: h in counts ==> counts[h] == Count(hours, h)
    {
      counts := counts[hour := Count(hours, hour)];
    }
  }

  /** The histogram's counts for hours 0 .. n-1, added up. */
  function BucketTotal(counts: map<int, nat>, n: nat): nat
    requires forall h :: 0 <= h < n ==> h in counts
  {
    if n == 0 then 0 else BucketTotal(counts, n - 1) + counts[n - 1]
  }

  lemma {:induction false} BucketTotalCounts(hours: seq<int>, n: nat)
    requires n <= 24
    ensures BucketTotal(HourHistogram(hours), n) == SumCounts(hours, Range(n))
  {
    if n > 0 {
      BucketTotalCounts(hours, n - 1);
      assert Range(n)[..n - 1] == Range(n - 1);
    }
  }

  /**
   * Each of the histogram's 24 values is the number of plays at that hour,
   * and when every hour is a clock hour they add up to the number of plays.
   */
  lemma HistogramCountsEveryPlay(hours: seq<int>)
    requires forall i :: 0 <= i < |hours| ==> 0 <= hours[i] < 24
    ensures forall h :: 0 <= h < 24 ==> HourHistogram(hours)[h] == Count(hours, h)
    ensures BucketTotal(HourHistogram(hours), 24) == |hours|
  {
    BucketTotalCounts(hours, 24);
    SumCountsOverRange(hours, 24);
  }

  datatype ScheduleRow = ScheduleRow(hour: int, count: nat, timeLabel: string)

  /**
   * The listening-time chart's data: simulated counts when there is no
   * response, the placeholder figure when a play cannot be read, otherwise
   * one row per hour 0 to 23.
   */
  datatype ScheduleChart = SimulatedSchedule | ScheduleUnavailable | Schedule(rows: seq<ScheduleRow>)

  /** One row per hour 0 to 23, with the hour, its count and its label. */
  function ScheduleRows(counts: map<int, nat>): (rows: seq<ScheduleRow>)
    requires forall h :: 0 <= h < 24 ==> h in counts
    ensures |rows| == 24 && forall h :: 0 <= h < 24 ==> rows[h] == ScheduleRow(h, counts[h], TimeLabel(h))
  {
    seq(24, h requires 0 <= h < 24 => ScheduleRow(h, counts[h], TimeLabel(h)))
  }

  function ListeningSchedule(recent: Option<RecentPage>): (chart: ScheduleChart)
    ensures chart.SimulatedSchedule? <==> recent.None?
    ensures chart.Schedule? <==> recent.Some? && recent.value.items.Some? && ParseAll(recent.value.items.value).Some?
    ensures chart.Schedule? ==> |chart.rows| == 24
    ensures chart.Schedule? ==>
      forall h :: 0 <= h < |chart.rows| ==> chart.rows[h].hour == h && chart.rows[h].timeLabel == TimeLabel(h)
  {
    match recent
    case None => SimulatedSchedule
    case Some(page) =>
      match page.items
      case None => ScheduleUnavailable
      case Some(items) =>
        match ParseAll(items)
        case None => ScheduleUnavailable
        case Some(dts) => Schedule(ScheduleRows(HourHistogram(Hours(dts))))
  }

  /**
   * When every play can be read: row h is hour h with its label and the
   * number of plays at that hour, and the counts add up to the number of
   * plays (all zero when there are none).
   */
  lemma ScheduleOfPlays(items: seq<PlayItem>)
    requires ParseAll(items).Some?
    ensures ListeningSchedule(Some(RecentPage(Some(items)))).Schedule?
    ensures |ListeningSchedule(Some(RecentPage(Some(items)))).rows| == 24
    ensures forall h :: 0 <= h < 24 ==>
      ListeningSchedule(Some(RecentPage(Some(items)))).rows[h] == ScheduleRow(h, Count(Hours(ParseAll(items).value), h), TimeLabel(h))
    ensures BucketTotal(HourHistogram(Hours(ParseAll(items).value)), 24) == |items|
  {
    var hours := Hours(ParseAll(items).value);
    var rows := ListeningSchedule(Some(RecentPage(Some(items)))).rows;
    assert rows == ScheduleRows(HourHistogram(hours));
    forall h | 0 <= h < 24 ensures rows[h] == ScheduleRow(h, Count(hours, h), TimeLabel(h)) {
      assert HourHistogram(hours)[h] == Count(hours, h);
      assert TimeLabels()[h] == TimeLabel(h);
      assert rows[h] == ScheduleRow(h, HourHistogram(hours)[h], TimeLabels()[h]);
    }
    HistogramCountsEveryPlay(hours);
  }

  /** A response whose items are missing or unreadable yields the placeholder figure. */
  lemma UnreadableSchedule(page: RecentPage)
    requires page.items.None? || exists i :: 0 <= i < |page.items.value| && Unreadable(page.items.value[i])
    ensures ListeningSchedule(Some(page)) == ScheduleUnavailable
  {
  }
}
