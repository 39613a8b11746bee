/**
 * The pattern analyzer (analyze_music_patterns): tempo statistics, the
 * acoustic/electronic balance and a complexity score over the feature table.
 */
module Patterns {
  import opened Wrappers
  import opened Stats
  import opened FeatureTable

  /** A standard deviation: fixed on the fallback path, otherwise given by its sample variance. */
  datatype Deviation = FixedDeviation(std: real) | FromVariance(variance: Option<real>)

  /**
   * The complexity score: fixed on the fallback path, otherwise the parts of
   * round((mean(instrumentalness) + std(speechiness)) * 100, 2).
   */
  datatype Complexity =
    | FixedScore(score: real)
    | ComplexityParts(meanInstrumentalness: real, speechinessVariance: Option<real>)

  datatype TempoPatterns = TempoPatterns(avgTempo: real, tempoVariation: Deviation, tempoRange: real)

  datatype MusicPatterns = MusicPatterns(
    tempo: TempoPatterns,
    acousticElectronicRatio: real,
    complexity: Complexity)

  /** The result on the error path. */
  const DefaultPatterns := MusicPatterns(TempoPatterns(120.0, FixedDeviation(10.0), 40.0), 1.5, FixedScore(50.0))

  /** max - min of the tempo column: the largest difference between two tempos. */
  function Spread(xs: seq<real>): (r: real)
    requires |xs| > 0
    ensures r >= 0.0
    ensures forall i, j :: 0 <= i < |xs| && 0 <= j < |xs| ==> xs[i] - xs[j] <= r
    ensures exists i, j :: 0 <= i < |xs| && 0 <= j < |xs| && xs[i] - xs[j] == r
  {
    var hi, lo := Max(xs), Min(xs);
    var i :| 0 <= i < |xs| && xs[i] == hi;
    var j :| 0 <= j < |xs| && xs[j] == lo;
    assert xs[i] - xs[j] == hi - lo;
    hi - lo
  }

  /** max(0.01, 1 - mean instrumentalness): never below 0.01, so the ratio is always defined. */
  function RatioDenominator(meanInstrumentalness: real): (d: real)
    ensures d >= 0.01 && d >= 1.0 - meanInstrumentalness
    ensures d == 0.01 || d == 1.0 - meanInstrumentalness
  {
    if 0.01 >= 1.0 - meanInstrumentalness then 0.01 else 1.0 - meanInstrumentalness
  }

  predicate HasPatternColumns(t: Table)
  {
    "tempo" in t.columns && "acousticness" in t.columns
    && "instrumentalness" in t.columns && "speechiness" in t.columns
  }

  /**
   * mean(acousticness) / max(0.01, 1 - mean(instrumentalness)): the ratio
   * times its floored denominator gives back the mean acousticness, and
   * acousticness means in [0, 1] keep it in [0, 100].
   */
  function AcousticElectronicRatio(meanAcoustic: real, meanInstrumental: real): (r: real)
    ensures r * RatioDenominator(meanInstrumental) == meanAcoustic
    ensures 0.0 <= meanAcoustic <= 1.0 ==> 0.0 <= r <= 100.0
  {
    var d := RatioDenominator(meanInstrumental);
    var r := meanAcoustic / d;
    assert r * d == meanAcoustic;
    r
  }

  /** The patterns computed from the four columns once they all exist. */
  function PatternsOf(tempo: seq<real>, acoustic: seq<real>, instrumental: seq<real>, speech: seq<real>): (p: MusicPatterns)
    requires |tempo| > 0 && |acoustic| > 0 && |instrumental| > 0 && |speech| > 0
    ensures Min(tempo) <= p.tempo.avgTempo <= Max(tempo)
    ensures p.tempo.tempoRange == Max(tempo) - Min(tempo) >= 0.0
  {
    MeanBetweenMinAndMax(tempo);
    MusicPatterns(
      TempoPatterns(Mean(tempo), FromVariance(SampleVariance(tempo)), Spread(tempo)),
      AcousticElectronicRatio(Mean(acoustic), Mean(instrumental)),
      ComplexityParts(Mean(instrumental), SampleVariance(speech)))
  }

  /** analyze_music_patterns; a missing column is the KeyError that leads to the default. */
  function AnalyzePatterns(t: Table): (p: MusicPatterns)
    requires IsFeatureTable(t)
    ensures !HasPatternColumns(t) ==> p == DefaultPatterns
    ensures HasPatternColumns(t) ==>
      p == PatternsOf(Column(t, "tempo").value, Column(t, "acousticness").value,
                      Column(t, "instrumentalness").value, Column(t, "speechiness").value)
  {
    match (Column(t, "tempo"), Column(t, "acousticness"), Column(t, "instrumentalness"), Column(t, "speechiness"))
    case (Some(tempo), Some(acoustic), Some(instrumental), Some(speech)) =>
      PatternsOf(tempo, acoustic, instrumental, speech)
    case _ => DefaultPatterns
  }

  /** With every acousticness in [0, 1] the ratio lies in [0, 100]. */
  lemma RatioBounded(t: Table)
    requires IsFeatureTable(t) && HasPatternColumns(t)
    requires var a := Column(t, "acousticness").value;
      forall i :: 0 <= i < |a| ==> 0.0 <= a[i] <= 1.0
    ensures 0.0 <= AnalyzePatterns(t).acousticElectronicRatio <= 100.0
  {
    MeanWithin(Column(t, "acousticness").value, 0.0, 1.0);
  }

  /** A list of only None records reaches the fixed fallback. */
  lemma AllNonePatterns(xs: seq<Option<Record>>)
    requires xs != [] && forall i :: 0 <= i < |xs| ==> xs[i].None?
    ensures AnalyzePatterns(BuildFeatureTable(Some(xs))) == DefaultPatterns
  {
    AllNoneBuildsEmptyTable(xs);
  }
}
