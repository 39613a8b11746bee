/**
 * The mood analyzer (analyze_mood and get_mood_label): the mean valence,
 * energy and danceability of the feature table, a categorical mood read off
 * the mean valence and energy, and the spread of valence and energy.
 */
module Mood {
  import opened Wrappers
  import opened Stats
  import opened FeatureTable

  datatype MoodLabel = Euphoric | Peaceful | AngryTense | SadDepressive | Balanced

  /** The label as the analysis reports it. */
  function LabelName(m: MoodLabel): string
  {
    match m
    case Euphoric => "Euphoric"
    case Peaceful => "Peaceful"
    case AngryTense => "Angry/Tense"
    case SadDepressive => "Sad/Depressive"
    case Balanced => "Balanced"
  }

  /** Different labels are reported as different strings. */
  lemma LabelNamesDistinct(m1: MoodLabel, m2: MoodLabel)
    ensures LabelName(m1) == LabelName(m2) ==> m1 == m2
  {
  }

  /**
   * get_mood_label: strict thresholds tried in order, first match wins. The
   * four corner regions are open, so Balanced is exactly the union of the
   * closed bands 0.4 <= valence <= 0.6 and 0.4 <= energy <= 0.6: one of the
   * two means lies in its band.
   */
  function MoodOf(valence: real, energy: real): (m: MoodLabel)
    ensures m == Euphoric <==> valence > 0.6 && energy > 0.6
    ensures m == Peaceful <==> valence > 0.6 && energy < 0.4
    ensures m == AngryTense <==> valence < 0.4 && energy > 0.6
    ensures m == SadDepressive <==> valence < 0.4 && energy < 0.4
    ensures m == Balanced <==> (0.4 <= valence <= 0.6) || (0.4 <= energy <= 0.6)
  {
    if valence > 0.6 && energy > 0.6 then Euphoric
    else if valence > 0.6 && energy < 0.4 then Peaceful
    else if valence < 0.4 && energy > 0.6 then AngryTense
    else if valence < 0.4 && energy < 0.4 then SadDepressive
    else Balanced
  }

  /** A value exactly on a threshold, on either axis, is Balanced. */
  lemma ThresholdsAreBalanced(valence: real, energy: real)
    requires valence == 0.4 || valence == 0.6 || energy == 0.4 || energy == 0.6
    ensures MoodOf(valence, energy) == Balanced
  {
  }

  /**
   * The mood diversity score: a fixed score on the fallback path, otherwise
   * the sample variances of valence and energy from which the score
   * round((std(valence) + std(energy)) * 100, 2) is computed; a variance of
   * None (a single row) makes the score NaN.
   */
  datatype Diversity =
    | DiversityScore(score: real)
    | Dispersion(valenceVariance: Option<real>, energyVariance: Option<real>)

  datatype MoodAnalysis = MoodAnalysis(
    primaryMood: MoodLabel,
    valence: real,
    energy: real,
    danceability: real,
    diversity: Diversity)

  /** The result on the error path. */
  const DefaultMoodAnalysis := MoodAnalysis(Balanced, 0.5, 0.5, 0.5, DiversityScore(50.0))

  /**
   * analyze_mood. A missing valence, energy or danceability column is the
   * KeyError that leads to the fixed default.
   */
  function AnalyzeMood(t: Table): (a: MoodAnalysis)
    requires IsFeatureTable(t)
    ensures !("valence" in t.columns && "energy" in t.columns && "danceability" in t.columns) ==>
      a == DefaultMoodAnalysis
    ensures "valence" in t.columns && "energy" in t.columns && "danceability" in t.columns ==>
      && a.valence == Mean(Column(t, "valence").value)
      && a.energy == Mean(Column(t, "energy").value)
      && a.danceability == Mean(Column(t, "danceability").value)
      && a.primaryMood == MoodOf(a.valence, a.energy)
      && a.diversity == Dispersion(SampleVariance(Column(t, "valence").value), SampleVariance(Column(t, "energy").value))
      && (a.diversity.valenceVariance.None? <==> |t.rows| == 1)
  {
    match (Column(t, "valence"), Column(t, "energy"), Column(t, "danceability"))
    case (Some(v), Some(e), Some(d)) =>
      var valence, energy := Mean(v), Mean(e);
      MoodAnalysis(MoodOf(valence, energy), valence, energy, Mean(d),
                   Dispersion(SampleVariance(v), SampleVariance(e)))
    case _ => DefaultMoodAnalysis
  }

  /**
   * The mood of a table whose every track lies in one corner region is that
   * corner's mood.
   */
  lemma UniformTracksShareMood(t: Table)
    requires IsFeatureTable(t)
    requires "valence" in t.columns && "energy" in t.columns && "danceability" in t.columns
    ensures var v, e := Column(t, "valence").value, Column(t, "energy").value;
      && ((forall i :: 0 <= i < |v| ==> v[i] > 0.6 && e[i] > 0.6) ==> AnalyzeMood(t).primaryMood == Euphoric)
      && ((forall i :: 0 <= i < |v| ==> v[i] > 0.6 && e[i] < 0.4) ==> AnalyzeMood(t).primaryMood == Peaceful)
      && ((forall i :: 0 <= i < |v| ==> v[i] < 0.4 && e[i] > 0.6) ==> AnalyzeMood(t).primaryMood == AngryTense)
      && ((forall i :: 0 <= i < |v| ==> v[i] < 0.4 && e[i] < 0.4) ==> AnalyzeMood(t).primaryMood == SadDepressive)
  {
    var v, e := Column(t, "valence").value, Column(t, "energy").value;
    var a := AnalyzeMood(t);
    assert a.valence == Mean(v) && a.energy == Mean(e) && a.primaryMood == MoodOf(Mean(v), Mean(e));
    MeanOutsideBand(v);
    MeanOutsideBand(e);
  }

  /** Values all above the band have a mean above it, and likewise below. */
  lemma MeanOutsideBand(xs: seq<real>)
    requires |xs| > 0
    ensures (forall i :: 0 <= i < |xs| ==> xs[i] > 0.6) ==> Mean(xs) > 0.6
    ensures (forall i :: 0 <= i < |xs| ==> xs[i] < 0.4) ==> Mean(xs) < 0.4
  {
    if forall i :: 0 <= i < |xs| ==> xs[i] > 0.6 {
      MeanAbove(xs, 0.6);
    }
    if forall i :: 0 <= i < |xs| ==> xs[i] < 0.4 {
      MeanBelow(xs, 0.4);
    }
  }

  /** Emotional statistics of features in [0, 1] stay in [0, 1]. */
  lemma StatsInUnitRange(t: Table)
    requires IsFeatureTable(t)
    requires "valence" in t.columns && "energy" in t.columns && "danceability" in t.columns
    requires var v, e, d := Column(t, "valence").value, Column(t, "energy").value, Column(t, "danceability").value;
      forall i :: 0 <= i < |t.rows| ==> 0.0 <= v[i] <= 1.0 && 0.0 <= e[i] <= 1.0 && 0.0 <= d[i] <= 1.0
    ensures var a := AnalyzeMood(t);
      0.0 <= a.valence <= 1.0 && 0.0 <= a.energy <= 1.0 && 0.0 <= a.danceability <= 1.0
  {
    MeanWithin(Column(t, "valence").value, 0.0, 1.0);
    MeanWithin(Column(t, "energy").value, 0.0, 1.0);
    MeanWithin(Column(t, "danceability").value, 0.0, 1.0);
  }

  /**
   * No audio features at all: the one-row default table gives means of 0.5
   * and a Balanced mood, but one row has no sample deviation, so the
   * diversity score is NaN rather than the fallback's 50.
   */
  lemma NoDataMood()
    ensures AnalyzeMood(BuildFeatureTable(None)) == MoodAnalysis(Balanced, 0.5, 0.5, 0.5, Dispersion(None, None))
    ensures AnalyzeMood(BuildFeatureTable(Some([]))) == AnalyzeMood(BuildFeatureTable(None))
  {
    DefaultTableMood();
    assert BuildFeatureTable(None) == DefaultTable() && BuildFeatureTable(Some([])) == DefaultTable();
  }

  lemma DefaultTableMood()
    ensures AnalyzeMood(DefaultTable()) == MoodAnalysis(Balanced, 0.5, 0.5, 0.5, Dispersion(None, None))
  {
    DefaultColumn("valence");
    DefaultColumn("energy");
    DefaultColumn("danceability");
    assert Mean([0.5]) == 0.5 by {
      assert [0.5][..0] == [];
    }
  }

  /** A list of only None records reaches the fixed fallback. */
  lemma AllNoneMood(xs: seq<Option<Record>>)
    requires xs != [] && forall i :: 0 <= i < |xs| ==> xs[i].None?
    ensures AnalyzeMood(BuildFeatureTable(Some(xs))) == DefaultMoodAnalysis
  {
    AllNoneBuildsEmptyTable(xs);
  }
}
