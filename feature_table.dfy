/**
 * The feature table builder (process_audio_features): turns the audio-feature
 * records fetched for a listener's tracks into a table, one row per record,
 * filling missing cells of the eleven known columns with fixed defaults.
 *
 * A record is modelled as a map from feature name to value, where None is a
 * key present with the value None; a row maps every column of the table to a
 * cell, where None stands for pandas' NaN. The
 * columns of a table built from records are the names that occur in some
 * record, as pandas builds them.
 */
module FeatureTable {
  import opened Wrappers

  type Record = map<string, Option<real>>
  type Row = map<string, Option<real>>

  datatype Table = Table(columns: set<string>, rows: seq<Row>)

  /** The fill values: the same eleven defaults as the one-row table for no data. */
  const Defaults: map<string, real> := map[
    "danceability" := 0.5, "energy" := 0.5, "key" := 0.0, "loudness" := -10.0,
    "speechiness" := 0.1, "acousticness" := 0.5, "instrumentalness" := 0.1,
    "liveness" := 0.1, "valence" := 0.5, "tempo" := 120.0, "duration_ms" := 200000.0]

  /** The table returned when there is no data at all: one row of defaults. */
  function DefaultTable(): (t: Table)
    ensures t.columns == Defaults.Keys && |t.rows| == 1 && t.rows[0].Keys == Defaults.Keys
    ensures forall c :: c in Defaults ==> t.rows[0][c] == Some(Defaults[c])
    ensures IsFeatureTable(t)
  {
    Table(Defaults.Keys, [map c | c in Defaults :: Some(Defaults[c])])
  }

  /**
   * The shape every built table has: each row covers exactly the columns, no
   * known column holds NaN, and a table without rows has no columns.
   */
  predicate IsFeatureTable(t: Table)
  {
    && (forall i :: 0 <= i < |t.rows| ==> t.rows[i].Keys == t.columns)
    && (forall i, c :: 0 <= i < |t.rows| && c in t.rows[i] && c in Defaults ==> t.rows[i][c].Some?)
    && (t.rows == [] ==> t.columns == {})
  }

  /** The records of xs that are not None, in order: exactly the values of its Some entries. */
  function Present(xs: seq<Option<Record>>): (r: seq<Record>)
    ensures |r| <= |xs|
    ensures forall rec :: rec in r <==> Some(rec) in xs
  {
    if xs == [] then []
    else
      var init := Present(xs[..|xs| - 1]);
      assert xs == xs[..|xs| - 1] + [xs[|xs| - 1]];
      match xs[|xs| - 1]
      case None => init
      case Some(rec) => init + [rec]
  }

  lemma {:induction false} PresentAllSome(xs: seq<Option<Record>>)
    requires forall i :: 0 <= i < |xs| ==> xs[i].Some?
    ensures |Present(xs)| == |xs|
    ensures forall i :: 0 <= i < |xs| ==> Present(xs)[i] == xs[i].value
  {
    if xs != [] {
      PresentAllSome(xs[..|xs| - 1]);
    }
  }

  /**
   * The filter works entry by entry and keeps the order: the records of a + b
   * are those of a followed by those of b, so a Some entry gives its one
   * record and a None entry gives none.
   */
  lemma {:induction false} PresentAppend(a: seq<Option<Record>>, b: seq<Option<Record>>)
    ensures Present(a + b) == Present(a) + Present(b)
  {
    if b == [] {
      assert a + b == a;
    } else {
      var init := b[..|b| - 1];
      PresentAppend(a, init);
      assert (a + b)[..|a + b| - 1] == a + init;
      assert (a + b)[|a + b| - 1] == b[|b| - 1];
    }
  }

  lemma {:induction false} PresentAllNone(xs: seq<Option<Record>>)
    requires forall i :: 0 <= i < |xs| ==> xs[i].None?
    ensures Present(xs) == []
  {
    if xs != [] {
      PresentAllNone(xs[..|xs| - 1]);
    }
  }

  /** The column names of a table built from rs: every name used by some record. */
  function ColumnsOf(rs: seq<Record>): (cols: set<string>)
    ensures forall i, c :: 0 <= i < |rs| && c in rs[i] ==> c in cols
    ensures forall c :: c in cols ==> exists i :: 0 <= i < |rs| && c in rs[i]
  {
    if rs == [] then {} else ColumnsOf(rs[..|rs| - 1]) + rs[|rs| - 1].Keys
  }

  /** The cell of column c for record r after DataFrame construction and fillna. */
  function Cell(r: Record, c: string): Option<real>
  {
    if c in r && r[c].Some? then r[c]
    else if c in Defaults then Some(Defaults[c])
    else None
  }

  function MakeRow(r: Record, columns: set<string>): Row
  {
    map c | c in columns :: Cell(r, c)
  }

  /** The DataFrame of the present records, missing cells filled. */
  function TableOf(kept: seq<Record>): (t: Table)
    ensures IsFeatureTable(t)
    ensures |t.rows| == |kept| && t.columns == ColumnsOf(kept)
    ensures forall i, c :: 0 <= i < |kept| && c in kept[i] && kept[i][c].Some? ==> t.rows[i][c] == kept[i][c]
    ensures forall i, c :: 0 <= i < |kept| && c in t.columns && (c !in kept[i] || kept[i][c].None?) ==>
      t.rows[i][c] == if c in Defaults then Some(Defaults[c]) else None
  {
    var columns := ColumnsOf(kept);
    Table(columns, seq(|kept|, i requires 0 <= i < |kept| => MakeRow(kept[i], columns)))
  }

  /**
   * process_audio_features. An absent or empty input gives the one-row default
   * table; otherwise None entries are dropped (all-None input gives an empty
   * table with no columns) and missing or None cells of the known columns are
   * filled.
   */
  function BuildFeatureTable(input: Option<seq<Option<Record>>>): (t: Table)
    ensures IsFeatureTable(t)
    ensures input.None? || input.value == [] ==> t == DefaultTable()
    ensures input.Some? && input.value != [] ==>
      var kept := Present(input.value);
      && |t.rows| == |kept|
      && t.columns == ColumnsOf(kept)
      && (forall i, c :: 0 <= i < |kept| && c in kept[i] && kept[i][c].Some? ==> t.rows[i][c] == kept[i][c])
      && (forall i, c :: 0 <= i < |kept| && c in t.columns && (c !in kept[i] || kept[i][c].None?) ==>
            t.rows[i][c] == if c in Defaults then Some(Defaults[c]) else None)
  {
    if input.None? || input.value == [] then DefaultTable()
    else TableOf(Present(input.value))
  }

  /** A list holding only None values builds an empty table without columns. */
  lemma AllNoneBuildsEmptyTable(xs: seq<Option<Record>>)
    requires xs != [] && forall i :: 0 <= i < |xs| ==> xs[i].None?
    ensures BuildFeatureTable(Some(xs)) == Table({}, [])
  {
    PresentAllNone(xs);
  }

  /**
   * Records that hold every default feature keep their row count, each value
   * they record, and a value in every default column.
   */
  lemma CompleteRecordsUnchanged(xs: seq<Option<Record>>)
    requires xs != []
    requires forall i :: 0 <= i < |xs| ==> xs[i].Some? && Defaults.Keys <= xs[i].value.Keys
    ensures var t := BuildFeatureTable(Some(xs));
      && |t.rows| == |xs|
      && (forall i, c :: 0 <= i < |xs| && c in xs[i].value && xs[i].value[c].Some? ==>
            c in t.rows[i] && t.rows[i][c] == xs[i].value[c])
      && (forall i :: 0 <= i < |xs| ==> forall c :: c in Defaults ==> c in t.rows[i] && t.rows[i][c].Some?)
  {
    PresentAllSome(xs);
    var t := BuildFeatureTable(Some(xs));
    var kept := Present(xs);
    assert |t.rows| == |xs|;
    forall i, c | 0 <= i < |xs| && c in xs[i].value && xs[i].value[c].Some?
      ensures c in t.rows[i] && t.rows[i][c] == xs[i].value[c]
    {
      assert kept[i] == xs[i].value;
    }
    forall i | 0 <= i < |xs| ensures forall c :: c in Defaults ==> c in t.rows[i] && t.rows[i][c].Some? {
      assert kept[i] == xs[i].value;
      forall c | c in Defaults ensures c in t.rows[i] && t.rows[i][c].Some? {
        assert c in kept[i];
      }
    }
  }

  /**
   * A default feature present in the records but None in every one of them is
   * a column of the table that holds only its default.
   */
  lemma NullFeatureFilled(xs: seq<Option<Record>>, c: string)
    requires c in Defaults && xs != []
    requires (exists i :: 0 <= i < |xs| && xs[i].Some?)
    requires forall i :: 0 <= i < |xs| && xs[i].Some? ==> c in xs[i].value && xs[i].value[c].None?
    ensures c in BuildFeatureTable(Some(xs)).columns
    ensures forall v :: v in Column(BuildFeatureTable(Some(xs)), c).value ==> v == Defaults[c]
  {
    var kept := Present(xs);
    var i :| 0 <= i < |xs| && xs[i].Some?;
    assert xs[i].value in kept;
    var t := BuildFeatureTable(Some(xs));
    var col := Column(t, c).value;
    forall v | v in col ensures v == Defaults[c] {
      var j :| 0 <= j < |col| && col[j] == v;
      assert kept[j] in kept;
    }
  }

  /**
   * A column of a feature table: None when the table has no such column
   * (pandas raises KeyError), otherwise its values, one per row.
   */
  function Column(t: Table, c: string): (col: Option<seq<real>>)
    requires IsFeatureTable(t) && c in Defaults
    ensures col.Some? <==> c in t.columns
    ensures col.Some? ==> |col.value| == |t.rows| > 0
    ensures col.Some? ==> forall i :: 0 <= i < |t.rows| ==> t.rows[i][c] == Some(col.value[i])
  {
    if c !in t.columns then None
    else Some(seq(|t.rows|, i requires 0 <= i < |t.rows| => t.rows[i][c].value))
  }

  /** Every column of the default table holds just its default value. */
  lemma DefaultColumn(c: string)
    requires c in Defaults
    ensures Column(DefaultTable(), c) == Some([Defaults[c]])
  {
    var t := DefaultTable();
    var col := Column(t, c).value;
    assert |col| == 1 && col[0] == Defaults[c];
    assert col == [Defaults[c]];
  }
}
