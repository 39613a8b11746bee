/**
 * The post-processing of the track clusterer (cluster_tracks): after k-means
 * has assigned each row of the feature table to one of k = min(3, rows)
 * clusters, each centre is labelled with a mood and characteristic tags, the
 * members of each cluster are counted, and every non-empty cluster is
 * reported with its share of the rows.
 *
 * The k-means fit itself is an input: a label in [0, k) per row and k centres
 * over (danceability, energy, valence, acousticness, instrumentalness).
 */
module Clusters {
  import opened Wrappers
  import opened Counter
  import opened FeatureTable
  import opened Mood

  datatype Centre = Centre(
    danceability: real, energy: real, valence: real, acousticness: real, instrumentalness: real)

  /** What KMeans(...).fit_predict and cluster_centers_ return. */
  datatype KMeansFit = KMeansFit(labels: seq<int>, centres: seq<Centre>)

  datatype Characteristic = Danceable | Acoustic | Instrumental

  datatype ClusterProfile = ClusterProfile(mood: MoodLabel, characteristics: seq<Characteristic>)

  datatype ClusterSummary = ClusterSummary(
    clusterId: nat, count: nat, percentage: real,
    mood: MoodLabel, characteristics: seq<Characteristic>)

  /** The result on the error path: two fixed clusters. */
  const DefaultClusters := [
    ClusterSummary(0, 5, 50.0, Balanced, [Danceable]),
    ClusterSummary(1, 5, 50.0, Peaceful, [Acoustic])]

  /**
   * The tags of a centre: Danceable above 0.7 danceability; Acoustic above 0.6
   * acousticness, otherwise Instrumental above 0.6 instrumentalness.
   */
  function Characteristics(c: Centre): (tags: seq<Characteristic>)
    ensures Danceable in tags <==> c.danceability > 0.7
    ensures Acoustic in tags <==> c.acousticness > 0.6
    ensures Instrumental in tags <==> c.acousticness <= 0.6 && c.instrumentalness > 0.6
    ensures !(Acoustic in tags && Instrumental in tags)
    ensures |tags| <= 2 && NoDuplicates(tags)
    ensures Danceable in tags ==> tags[0] == Danceable
  {
    (if c.danceability > 0.7 then [Danceable] else [])
    + (if c.acousticness > 0.6 then [Acoustic] else if c.instrumentalness > 0.6 then [Instrumental] else [])
  }

  /** The mood and tags a centre is reported with. */
  function Profile(c: Centre): ClusterProfile
  {
    ClusterProfile(MoodOf(c.valence, c.energy), Characteristics(c))
  }

  function Profiles(centres: seq<Centre>): (ps: seq<ClusterProfile>)
    ensures |ps| == |centres|
    ensures forall i :: 0 <= i < |centres| ==> ps[i] == Profile(centres[i])
  {
    seq(|centres|, i requires 0 <= i < |centres| => Profile(centres[i]))
  }

  /** The tags of one centre, appended one by one as the loop body does. */
  method CentreTags(c: Centre) returns (tags: seq<Characteristic>)
    ensures tags == Characteristics(c)
  {
    tags := [];
    if c.danceability > 0.7 {
      tags := tags + [Danceable];
    }
    ghost var lead := tags;
    if c.acousticness > 0.6 {
      tags := tags + [Acoustic];
    } else if c.instrumentalness > 0.6 {
      tags := tags + [Instrumental];
    }
    assert tags == lead + if c.acousticness > 0.6 then [Acoustic] else if c.instrumentalness > 0.6 then [Instrumental] else [];
  }

  /** The loop that builds cluster_moods, one entry per centre in order. */
  method ProfileCentres(centres: seq<Centre>) returns (profiles: seq<ClusterProfile>)
    ensures profiles == Profiles(centres)
  {
    profiles := [];
    var i := 0;
    while i < |centres|
      invariant 0 <= i <= |centres|
      invariant |profiles| == i
      invariant forall j :: 0 <= j < i ==> profiles[j] == Profile(centres[j])
    {
      var c := centres[i];
      var mood := MoodOf(c.valence, c.energy);
      var tags := CentreTags(c);
      profiles := profiles + [ClusterProfile(mood, tags)];
      i := i + 1;
    }
  }

  /** The share of all rows that count rows make, in percent (before rounding). */
  function Share(count: nat, total: nat): real
    requires total > 0
  {
    count as real / total as real * 100.0
  }

  /** The entry for cluster i, if it has members. */
  function Entry(labels: seq<int>, i: nat, profiles: seq<ClusterProfile>): seq<ClusterSummary>
    requires i < |profiles| && |labels| > 0
  {
    var c := Count(labels, i);
    if c > 0 then [ClusterSummary(i, c, Share(c, |labels|), profiles[i].mood, profiles[i].characteristics)]
    else []
  }

  /** The entries for clusters 0 .. n-1 that have at least one member: at most one per cluster. */
  function Summaries(labels: seq<int>, n: nat, profiles: seq<ClusterProfile>): (rs: seq<ClusterSummary>)
    requires n <= |profiles| && |labels| > 0
    ensures |rs| <= n
  {
    if n == 0 then [] else Summaries(labels, n - 1, profiles) + Entry(labels, n - 1, profiles)
  }

  /** The loop over range(n_clusters) that appends one entry per non-empty cluster. */
  method SummarizeClusters(labels: seq<int>, k: nat, profiles: seq<ClusterProfile>) returns (result: seq<ClusterSummary>)
    requires k <= |profiles| && |labels| > 0
    ensures result == Summaries(labels, k, profiles)
  {
    result := [];
    var i := 0;
    while i < k
      invariant 0 <= i <= k
      invariant result == Summaries(labels, i, profiles)
    {
      var count := Count(labels, i);
      if count > 0 {
        result := result + [ClusterSummary(i, count, Share(count, |labels|),
                                           profiles[i].mood, profiles[i].characteristics)];
      }
      i := i + 1;
    }
  }

  /** The sum of the reported counts. */
  function TotalMembers(rs: seq<ClusterSummary>): nat
  {
    if rs == [] then 0 else TotalMembers(rs[..|rs| - 1]) + rs[|rs| - 1].count
  }

  /** The sum of the reported percentages. */
  function TotalPercentage(rs: seq<ClusterSummary>): real
  {
    if rs == [] then 0.0 else TotalPercentage(rs[..|rs| - 1]) + rs[|rs| - 1].percentage
  }

  /**
   * r reports cluster r.clusterId as it should: with its member count, which
   * is positive, that count's share of the rows, and its centre's profile.
   */
  predicate Describes(r: ClusterSummary, labels: seq<int>, profiles: seq<ClusterProfile>)
    requires |labels| > 0
  {
    && r.clusterId < |profiles|
    && r.count == Count(labels, r.clusterId) > 0
    && r.percentage == Share(r.count, |labels|)
    && r.mood == profiles[r.clusterId].mood
    && r.characteristics == profiles[r.clusterId].characteristics
  }

  /** Each entry describes a non-empty cluster below n. */
  lemma {:induction false} SummariesEntries(labels: seq<int>, n: nat, profiles: seq<ClusterProfile>)
    requires n <= |profiles| && |labels| > 0
    ensures forall j :: 0 <= j < |Summaries(labels, n, profiles)| ==>
      Summaries(labels, n, profiles)[j].clusterId < n && Describes(Summaries(labels, n, profiles)[j], labels, profiles)
  {
    if n > 0 {
      SummariesEntries(labels, n - 1, profiles);
      var prev, e := Summaries(labels, n - 1, profiles), Entry(labels, n - 1, profiles);
      var rs := prev + e;
      assert Summaries(labels, n, profiles) == rs;
      forall j | 0 <= j < |rs| ensures rs[j].clusterId < n && Describes(rs[j], labels, profiles) {
        if j < |prev| {
          assert rs[j] == prev[j];
        } else {
          assert rs[j] == e[0];
        }
      }
    }
  }

  /** The entries come in strictly increasing cluster id. */
  lemma {:induction false} SummariesIncreasing(labels: seq<int>, n: nat, profiles: seq<ClusterProfile>)
    requires n <= |profiles| && |labels| > 0
    ensures forall j1, j2 :: 0 <= j1 < j2 < |Summaries(labels, n, profiles)| ==>
      Summaries(labels, n, profiles)[j1].clusterId < Summaries(labels, n, profiles)[j2].clusterId
  {
    if n > 0 {
      SummariesIncreasing(labels, n - 1, profiles);
      SummariesEntries(labels, n - 1, profiles);
      var prev, e := Summaries(labels, n - 1, profiles), Entry(labels, n - 1, profiles);
      var rs := prev + e;
      assert Summaries(labels, n, profiles) == rs;
      forall j1, j2 | 0 <= j1 < j2 < |rs| ensures rs[j1].clusterId < rs[j2].clusterId {
        assert rs[j1] == prev[j1];
        assert prev[j1].clusterId < n - 1;
        if j2 < |prev| {
          assert rs[j2] == prev[j2];
        } else {
          assert rs[j2] == e[0];
        }
      }
    }
  }

  /** Every cluster below n that has a member is listed. */
  lemma {:induction false} SummariesComplete(labels: seq<int>, n: nat, profiles: seq<ClusterProfile>)
    requires n <= |profiles| && |labels| > 0
    ensures forall i :: 0 <= i < n && Count(labels, i) > 0 ==> Listed(Summaries(labels, n, profiles), i)
  {
    if n > 0 {
      SummariesComplete(labels, n - 1, profiles);
      var prev, e := Summaries(labels, n - 1, profiles), Entry(labels, n - 1, profiles);
      var rs := prev + e;
      assert Summaries(labels, n, profiles) == rs;
      forall i | 0 <= i < n && Count(labels, i) > 0 ensures Listed(rs, i) {
        if i < n - 1 {
          var j :| 0 <= j < |prev| && prev[j].clusterId == i;
          assert rs[j] == prev[j];
        } else {
          assert rs[|prev|] == e[0];
        }
      }
    }
  }

  /** Some entry of rs reports cluster i. */
  predicate Listed(rs: seq<ClusterSummary>, i: nat)
  {
    exists j :: 0 <= j < |rs| && rs[j].clusterId == i
  }

  /** The reported counts add up to the total count of the clusters below n. */
  lemma {:induction false} SummariesTotal(labels: seq<int>, n: nat, profiles: seq<ClusterProfile>)
    requires n <= |profiles| && |labels| > 0
    ensures TotalMembers(Summaries(labels, n, profiles)) == SumCounts(labels, Range(n))
  {
    if n > 0 {
      SummariesTotal(labels, n - 1, profiles);
      var prev, e := Summaries(labels, n - 1, profiles), Entry(labels, n - 1, profiles);
      assert Summaries(labels, n, profiles) == prev + e;
      MembersAppend(prev, e);
      EntryMembers(labels, n - 1, profiles);
      var r := Range(n);
      assert r == Range(n - 1) + [n - 1];
      assert r[..n - 1] == Range(n - 1) && r[n - 1] == n - 1;
      assert SumCounts(labels, r) == SumCounts(labels, Range(n - 1)) + Count(labels, n - 1);
    }
  }

  lemma EntryMembers(labels: seq<int>, i: nat, profiles: seq<ClusterProfile>)
    requires i < |profiles| && |labels| > 0
    ensures TotalMembers(Entry(labels, i, profiles)) == Count(labels, i)
  {
    var e := Entry(labels, i, profiles);
    if e != [] {
      assert e[..0] == [];
    }
  }

  lemma MembersAppend(rs: seq<ClusterSummary>, e: seq<ClusterSummary>)
    requires |e| <= 1
    ensures TotalMembers(rs + e) == TotalMembers(rs) + TotalMembers(e)
  {
    if |e| == 1 {
      assert (rs + e)[..|rs|] == rs;
    } else {
      assert rs + e == rs;
    }
  }

  lemma AddShares(a: nat, b: nat, n: nat)
    requires n > 0
    ensures Share(a, n) + Share(b, n) == Share(a + b, n)
  {
  }

  lemma ShareOfAll(n: nat)
    requires n > 0
    ensures Share(n, n) == 100.0
  {
  }

  /** Percentages that are each their count's share add up to the share of the total. */
  lemma {:induction false} SharesAddUp(rs: seq<ClusterSummary>, total: nat)
    requires total > 0
    requires forall j :: 0 <= j < |rs| ==> rs[j].percentage == Share(rs[j].count, total)
    ensures TotalPercentage(rs) == Share(TotalMembers(rs), total)
  {
    if rs != [] {
      var init := rs[..|rs| - 1];
      assert forall j :: 0 <= j < |init| ==> init[j] == rs[j];
      SharesAddUp(init, total);
      AddShares(TotalMembers(init), rs[|rs| - 1].count, total);
    }
  }

  /** The percentages add up to the counts' share of the rows. */
  lemma SummariesPercentage(labels: seq<int>, n: nat, profiles: seq<ClusterProfile>)
    requires n <= |profiles| && |labels| > 0
    ensures TotalPercentage(Summaries(labels, n, profiles)) == Share(TotalMembers(Summaries(labels, n, profiles)), |labels|)
  {
    SummariesEntries(labels, n, profiles);
    SharesAddUp(Summaries(labels, n, profiles), |labels|);
  }

  predicate HasClusterFeatures(t: Table)
  {
    "danceability" in t.columns && "energy" in t.columns && "valence" in t.columns
    && "acousticness" in t.columns && "instrumentalness" in t.columns
  }

  /** n_clusters = min(3, len(X)). */
  function ClusterCount(rows: nat): (k: nat)
    ensures k <= 3 && k <= rows && (k == 3 || k == rows)
  {
    if rows < 3 then rows else 3
  }

  /** What k-means guarantees: one label in [0, k) per row and k centres. */
  predicate FitsTable(fit: KMeansFit, rows: nat)
  {
    && |fit.labels| == rows
    && |fit.centres| == ClusterCount(rows)
    && forall i :: 0 <= i < |fit.labels| ==> 0 <= fit.labels[i] < ClusterCount(rows)
  }

  /**
   * cluster_tracks as a function of the table and the k-means fit: entries in
   * strictly increasing cluster id below 3, each with a positive count.
   */
  function ClusterOutcome(t: Table, fit: KMeansFit): (r: seq<ClusterSummary>)
    requires IsFeatureTable(t)
    requires HasClusterFeatures(t) ==> FitsTable(fit, |t.rows|)
    ensures forall j :: 0 <= j < |r| ==> r[j].clusterId < 3 && r[j].count > 0
    ensures forall j1, j2 :: 0 <= j1 < j2 < |r| ==> r[j1].clusterId < r[j2].clusterId
  {
    if !HasClusterFeatures(t) || |t.rows| == 0 then DefaultClusters
    else
      var k, profiles := ClusterCount(|t.rows|), Profiles(fit.centres);
      SummariesEntries(fit.labels, k, profiles);
      SummariesIncreasing(fit.labels, k, profiles);
      Summaries(fit.labels, k, profiles)
  }

  /** cluster_tracks, after the k-means fit. */
  method ClusterTracks(t: Table, fit: KMeansFit) returns (result: seq<ClusterSummary>)
    requires IsFeatureTable(t)
    requires HasClusterFeatures(t) ==> FitsTable(fit, |t.rows|)
    ensures result == ClusterOutcome(t, fit)
  {
    if !HasClusterFeatures(t) || |t.rows| == 0 {
      return DefaultClusters;
    }
    var k := ClusterCount(|t.rows|);
    var profiles := ProfileCentres(fit.centres);
    result := SummarizeClusters(fit.labels, k, profiles);
  }

  /**
   * When every label is below k, the counts of the clusters below k add up to
   * the number of labels and the unrounded percentages to exactly 100.
   */
  lemma SummariesCoverLabels(labels: seq<int>, k: nat, profiles: seq<ClusterProfile>)
    requires k <= |profiles| && |labels| > 0
    requires forall i :: 0 <= i < |labels| ==> 0 <= labels[i] < k
    ensures TotalMembers(Summaries(labels, k, profiles)) == |labels|
    ensures TotalPercentage(Summaries(labels, k, profiles)) == 100.0
  {
    SummariesTotal(labels, k, profiles);
    SummariesPercentage(labels, k, profiles);
    SumCountsOverRange(labels, k);
    ShareOfAll(|labels|);
  }

  /**
   * On a table with the five features the result is the one entry per
   * non-empty cluster described above, for the fitted labels and centres,
   * and its counts add up to the number of rows and its percentages to 100.
   */
  lemma ClusterResult(t: Table, fit: KMeansFit)
    requires IsFeatureTable(t) && HasClusterFeatures(t) && FitsTable(fit, |t.rows|)
    ensures ClusterOutcome(t, fit) == Summaries(fit.labels, ClusterCount(|t.rows|), Profiles(fit.centres))
    ensures TotalMembers(ClusterOutcome(t, fit)) == |t.rows|
    ensures TotalPercentage(ClusterOutcome(t, fit)) == 100.0
  {
    SummariesCoverLabels(fit.labels, ClusterCount(|t.rows|), Profiles(fit.centres));
  }

  /** A list of only None records reaches the fixed two-cluster fallback. */
  lemma AllNoneClusters(xs: seq<Option<Record>>, fit: KMeansFit)
    requires xs != [] && forall i :: 0 <= i < |xs| ==> xs[i].None?
    ensures BuildFeatureTable(Some(xs)) == Table({}, [])
    ensures ClusterOutcome(BuildFeatureTable(Some(xs)), fit) == DefaultClusters
  {
    AllNoneBuildsEmptyTable(xs);
  }
}
