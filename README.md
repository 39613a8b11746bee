# Listening analytics core, modelled in Dafny

This project models the analytics core of a Spotify listening dashboard, with
proofs about the model. The core is `analysis.py`, plus the data preparation
behind three charts in `visualizations.py`:

- **Feature table** (`process_audio_features`): builds a table from a list of
  audio-feature records. It drops `None` records and fills missing cells of
  the eleven named features with fixed defaults. A missing or empty list gives
  a one-row table of defaults.
- **Mood** (`get_mood_label`, `analyze_mood`): classifies mean valence and
  energy into one of five moods using strict thresholds at 0.4 and 0.6. It
  reports the column means and a diversity score made of two sample
  deviations.
- **Music patterns** (`analyze_music_patterns`): tempo mean, deviation and
  range, plus an acoustic-to-electronic ratio whose denominator is floored at
  0.01.
- **Genre ranking** (`get_genre_distribution`): flattens the artists' genre
  tags and counts them. The result is ordered like `Counter.most_common()`:
  count first, ties by first appearance.
- **Listening trends** (`calculate_listening_trends`): parses ISO 8601
  timestamps and takes the most frequent local hour and weekday. It reports
  the number of plays as the number of sessions.
- **Cluster summary** (`cluster_tracks`, after k-means): labels each centre
  with a mood and characteristic tags, counts the members of each cluster,
  and reports every non-empty cluster with its share of the rows.
- **Chart data**:
  - the radar chart's seven feature means;
  - the genre bar chart's top five rows;
  - the listening-time chart's 24-bucket hour histogram, 12-hour clock labels
    and axis ticks.

Every analyzer has the same fixed fallback result that the source returns on
its exception path. The model states exactly which inputs reach it.

Modules, one per file:

| Module | File | Contents |
|---|---|---|
| `Wrappers` | `wrappers.dfy` | `Option` |
| `Counter` | `counter.dfy` | `collections.Counter`: counts, key order, `most_common`, and the first of the most common |
| `Stats` | `stats.dfy` | the pandas column aggregates: sum, mean, sample variance (`None` where pandas gives NaN), max, min |
| `FeatureTable` | `feature_table.dfy` | records, the table, and `process_audio_features` |
| `Mood` | `mood.dfy` | `get_mood_label`, `analyze_mood` |
| `Patterns` | `patterns.dfy` | `analyze_music_patterns` |
| `Genres` | `genres.dfy` | `get_genre_distribution` |
| `Timestamps` | `timestamps.dfy` | `datetime.fromisoformat` on the grammar of section 5.6 of RFC 3339 (the offset may be left out, and its minutes may exceed 59 as Python allows), the `Z` rewrite, and weekday names |
| `Trends` | `trends.dfy` | `calculate_listening_trends` |
| `Clusters` | `clusters.dfy` | `cluster_tracks` after the k-means fit |
| `Charts` | `charts.dfy` | the data behind the radar, genre-bar and listening-time charts |

How Python values are represented:

- A record is a map from feature name to `Option<real>`. A key mapped to
  `None` is a key the JSON object holds with the value null, which pandas
  reads as NaN.
- A table is its set of column names plus one row per record. A row maps
  every column to `Some(value)`, or to `None` where pandas holds NaN.
- The JSON responses are datatypes in which every key the code looks up is
  an `Option`:
  - A whole response is `None` when it is falsy: `None` or `{}`. So
    `Some(RecentPage(None))` and `Some(ArtistPage(None))` stand only for a
    non-empty object without `items`.
  - `items` and `played_at` are `None` when the key is absent or holds null.
    The code treats both alike: an absent key raises `KeyError`, and null
    raises `TypeError`. Either way the code falls back to its default.
  - `genres` is `None` when the key is absent. A `genres` key holding null
    cannot be expressed; see "## Left out".

Three consequences of the code that the model keeps:

- An empty record list gives the one-row default table. The sample deviation
  of one row is NaN, so `analyze_mood` reports a NaN diversity score for it,
  not 50 (`Mood.NoDataMood`).
- The number of listening sessions is the number of plays. No plays are
  grouped into sessions (analysis.py:151).
- `get_genre_distribution` returns a plain list of `(genre, count)` pairs.
  An empty `items` list gives `[]`, not the placeholder list
  (analysis.py:102-111).

## Model

| member | source | states |
|---|---|---|
| Counter.MostCommonElements | analysis.py:107-111 | `most_common()` lists every element of the input exactly once, each with its number of occurrences, which is positive; the list is empty exactly when the input is |
| Counter.MostCommonOrder | analysis.py:107-111 | the counts in `most_common()` never increase, and elements with equal counts come in order of first appearance |
| Counter.MostCommonTotal | analysis.py:107-111 | the counts in `most_common()` add up to the length of the input |
| Counter.Mode | analysis.py:143-148 | `most_common(1)[0][0]` of a non-empty list occurs in it, no element occurs more often, and among the elements that occur as often it is the first to appear |
| Counter.SumCountsCover | analysis.py:143-148 | the counts of distinct keys that cover every element of a list add up to its length |
| Counter.MostCommon | analysis.py:108-111 | `most_common()` has one entry per distinct element; each entry is an element of the input with its number of occurrences; the list is empty exactly when the input is |
| Counter.Distinct | analysis.py:108 | the keys of a Counter have no duplicates and are exactly the elements of the list |
| Stats.Mean | analysis.py:48-50 | `Series.mean()` of a non-empty column: the value that, taken once per row, adds up to the column's sum (see also Stats.MeanBetweenMinAndMax) |
| Stats.SampleVariance | analysis.py:54-55 | the n-1 variance is undefined exactly when there are fewer than two values, and is never negative |
| Stats.MeanBetweenMinAndMax | analysis.py:171-173 | the mean of a non-empty column lies between its minimum and its maximum |
| Stats.ConstantVarianceZero | analysis.py:54-55 | a column of two or more values, all equal, has sample variance 0 |
| Stats.Max | analysis.py:173 | the maximum is one of the values and no value exceeds it |
| Stats.Min | analysis.py:173 | the minimum is one of the values and no value is below it |
| FeatureTable.DefaultTable | analysis.py:11-18 | the fallback table has exactly the eleven default columns and one row of their default values |
| FeatureTable.BuildFeatureTable | analysis.py:8-42 | a missing or empty list gives the default table. Otherwise: one row per non-`None` record, in order; the columns are the union of the records' keys; recorded values are kept; cells missing or `None` in a default column get its default; other missing or `None` cells are NaN |
| FeatureTable.TableOf | analysis.py:23-32 | the frame of the present records is a feature table with one row per record and the union of their keys as columns; recorded values are kept, and missing or `None` cells take the default of their column, or NaN |
| FeatureTable.DefaultColumn | analysis.py:11-18 | every column of the fallback table holds just its default value |
| FeatureTable.Present | analysis.py:21 | the records kept are exactly the values of the non-`None` entries, and there are no more of them than entries |
| FeatureTable.PresentAppend | analysis.py:21 | the filter keeps order and works entry by entry: the records of a + b are those of a followed by those of b |
| FeatureTable.NullFeatureFilled | analysis.py:20-32 | a default feature that some record holds and every record holds as `None` is a column with only its default value |
| FeatureTable.AllNoneBuildsEmptyTable | analysis.py:20-24 | a non-empty list of only `None` records gives a table with no columns and no rows |
| FeatureTable.CompleteRecordsUnchanged | analysis.py:20-32 | when every record is present and holds all eleven default keys: one row per record, every value a record holds in its cell, and a value in every default column of every row |
| FeatureTable.Column | analysis.py:48-50 | a default column exists exactly when it is in the table, has one value per row, and every table holding it has at least one row |
| Mood.MoodOf | analysis.py:80-91 | each of the four corner moods holds exactly when both strict threshold tests of its branch hold; Balanced holds exactly when valence or energy lies in [0.4, 0.6] |
| Mood.LabelNamesDistinct | analysis.py:80-91 | the five moods are reported as five different strings |
| Mood.ThresholdsAreBalanced | analysis.py:80-91 | a valence or energy of exactly 0.4 or 0.6 is always Balanced |
| Mood.AnalyzeMood | analysis.py:44-78 | without the valence, energy or danceability column: the fixed default. Otherwise the three column means, the mood of the unrounded valence and energy means, and the two sample deviations, which are undefined exactly for a one-row table |
| Mood.UniformTracksShareMood | analysis.py:48-60 | when every track lies in the same corner region, the table's primary mood is that corner's mood |
| Mood.StatsInUnitRange | analysis.py:48-50 | valence, energy and danceability cells in [0, 1] give means in [0, 1] |
| Mood.NoDataMood | analysis.py:11-18 | a missing or empty record list gives the mood Balanced, means of 0.5 and undefined deviations |
| Mood.AllNoneMood | analysis.py:20-24 | a list of only `None` records gives the fixed default mood analysis |
| Patterns.Spread | analysis.py:173 | the tempo range is never negative, bounds every difference of two tempos, and is reached by one such difference |
| Patterns.RatioDenominator | analysis.py:177-180 | the denominator is at least 0.01 and at least 1 - mean instrumentalness, and is one of the two |
| Patterns.AcousticElectronicRatio | analysis.py:177-180 | the ratio times its floored denominator gives back the mean acousticness; a mean acousticness in [0, 1] keeps the ratio in [0, 100] |
| Patterns.PatternsOf | analysis.py:170-174 | the average tempo lies between the slowest and the fastest tempo, and the tempo range is max - min >= 0 |
| Patterns.AnalyzePatterns | analysis.py:166-201 | without one of the tempo, acousticness, instrumentalness or speechiness columns: the fixed default {120, 10, 40; 1.5; 50}. Otherwise the patterns of those four columns |
| Patterns.RatioBounded | analysis.py:176-180 | acousticness cells in [0, 1] keep the ratio in [0, 100] |
| Patterns.AllNonePatterns | analysis.py:191-201 | a list of only `None` records gives the fixed default patterns |
| Genres.CollectGenres | analysis.py:101-105 | the loop collects the genre tags of every artist that has a `genres` key, in order |
| Genres.AllGenresLength | analysis.py:101-105 | the collected tags are as many as the tags of the artists that have `genres` |
| Genres.ComputeGenreDistribution | analysis.py:93-113 | the method returns the genre distribution: the placeholder list without a response or without `items`, otherwise `most_common()` of the collected tags |
| Genres.GenreDistribution | analysis.py:95-117 | the result, placeholder or not, lists distinct genres by non-increasing, positive count |
| Genres.NoArtistsPlaceholder | analysis.py:96-99 | a missing response, or one without `items`, gives Pop 5, Rock 4, Hip-Hop 3, Electronic 2, Jazz 1 |
| Genres.GenreRanking | analysis.py:101-113 | with `items`: the result is `most_common()` of the collected tags, its counts add up to the number of tags, and it is empty exactly when there are no tags |
| Genres.StableRankingExample | analysis.py:107-111 | the tags Pop, Rock, Pop rank as [(Pop, 2), (Rock, 1)] |
| Timestamps.ParseIsoFormat | analysis.py:134-136 | a parsed timestamp is a valid date and time, the string has the extended date-time shape, and the year, month, day, hour, minute and second are the numbers written at their fixed places |
| Timestamps.ParseOffset | analysis.py:134-136 | a parsed offset is valid (two-digit hours and minutes, with no range check of their own, together less than 24 hours, the bound of `datetime.timezone`), and no offset is read exactly from an empty suffix |
| Timestamps.LongMinutesOffset | analysis.py:134-136 | offset minutes of 60 or more are read as written while the total stays under 24 hours: "+00:75" and "-23:59" read, "+23:60" does not |
| Timestamps.ParseFormatRoundTrip | analysis.py:134-136 | parsing the extended format of any valid date-time gives it back |
| Timestamps.FractionRoundTrip | analysis.py:134-136 | a valid date-time written with a fraction of a second, then its offset, reads back as itself |
| Timestamps.FractionalZulu | analysis.py:134-136 | a naive time written with a fraction of a second and a trailing `Z` reads as that time at offset +00:00 |
| Timestamps.NormalizeZulu | analysis.py:134-135 | no `Z` is left after the rewrite, and a string without `Z` is kept as it is |
| Timestamps.ReplaceAllAbsent | analysis.py:134-135 | replacing `Z` in a string without `Z` leaves it unchanged, so both branches of the conditional behave alike |
| Timestamps.ParsePlayedAt | analysis.py:134-136 | a timestamp read after the `Z` rewrite is a valid date and time |
| Timestamps.ZuluTimestamp | analysis.py:134-135 | a timestamp ending in `Z` reads as the same date and time at offset +00:00 |
| Timestamps.Weekday | analysis.py:140 | the weekday number of a date lies in 0..6 |
| Timestamps.NextDayWeekday | analysis.py:140 | the day after a date falls on the next weekday, Sunday going round to Monday |
| Timestamps.DayName | analysis.py:140 | the weekday name is one of the seven day names; 1970-01-01 is named Thursday and 2000-01-01 Saturday |
| Timestamps.KnownWeekdays | analysis.py:140 | 1970-01-01 is a Thursday and 2000-01-01 is a Saturday |
| Trends.ParseAll | analysis.py:131-136 | the timestamps are read one per item, in order; reading fails exactly when some item has no `played_at` or one that does not parse |
| Trends.Hours | analysis.py:139 | every hour lies in 0..23 |
| Trends.Days | analysis.py:140 | every weekday is one of the seven English day names |
| Trends.CalculateListeningTrends | analysis.py:119-164 | the default {20, 15, Saturday} unless there is at least one play and every timestamp reads; then a clock hour, a day name and the number of plays |
| Trends.DefaultTrendsCases | analysis.py:119-164 | no response, no `items`, no plays, or an unreadable timestamp gives the fixed default {20, 15, Saturday} |
| Trends.TrendsOfPlays | analysis.py:139-151 | the peak hour is one of the hours with the highest count, the first seen among ties; the favourite day is chosen the same way among weekday names; the number of sessions is the number of plays |
| Trends.PeakHourExample | analysis.py:143-144 | plays at 20, 20, 21, 20 peak at hour 20 |
| Clusters.Characteristics | analysis.py:229-236 | Danceable exactly above 0.7 danceability; Acoustic exactly above 0.6 acousticness; Instrumental exactly when not Acoustic and above 0.6 instrumentalness; never both Acoustic and Instrumental; Danceable comes first; no tag twice |
| Clusters.CentreTags | analysis.py:229-236 | the tags appended one by one are exactly the centre's characteristics |
| Clusters.ProfileCentres | analysis.py:220-241 | the loop gives one profile per centre, in order: the mood of its valence and energy, and its tags |
| Clusters.SummarizeClusters | analysis.py:243-255 | the loop builds the summary list of clusters 0..k-1 |
| Clusters.Summaries | analysis.py:246-255 | the result list over clusters 0..n-1 has at most one entry per cluster (its entries are described by the three lemmas below) |
| Clusters.SummariesEntries | analysis.py:244-255 | every entry is a cluster below k with its member count, which is positive, the count's share of the rows in percent, and its centre's mood and tags |
| Clusters.SummariesIncreasing | analysis.py:244-255 | the entries come in strictly increasing cluster id |
| Clusters.SummariesComplete | analysis.py:244-255 | every cluster below k that has a member is listed |
| Clusters.SummariesCoverLabels | analysis.py:243-255 | when every label is below k, the counts add up to the number of labels and the unrounded percentages to 100 |
| Clusters.ClusterCount | analysis.py:211 | k = min(3, rows) |
| Clusters.ClusterTracks | analysis.py:203-275 | the method computes the cluster result: the fixed two-cluster default when a feature column is missing or there are no rows, otherwise the summaries of the fitted labels and centres |
| Clusters.ClusterOutcome | analysis.py:203-275 | the entries, fallback or not, come in strictly increasing cluster id below 3, each with a positive count |
| Clusters.ClusterResult | analysis.py:207-255 | on a table with the five features, the result is the summary of the fit, its counts add up to the number of rows and its percentages to 100 |
| Clusters.AllNoneClusters | analysis.py:258-275 | a list of only `None` records gives the fixed two-cluster default |
| Charts.RadarValues | visualizations.py:12-18 | the radar has values exactly when all seven features are columns; they are the column means of danceability, energy, speechiness, acousticness, instrumentalness, liveness and valence, in that order |
| Charts.RadarWithinAxis | visualizations.py:18-37 | feature cells in [0, 1] keep every radar value within the radial range [0, 1] |
| Charts.RadarAgreesWithMood | visualizations.py:18 | the radar's danceability, energy and valence values equal the mood analysis's means |
| Charts.SortByCount | visualizations.py:71 | the sort returns a permutation of its input in non-increasing count |
| Charts.NoGenresPlaceholder | visualizations.py:63-71 | a missing or empty genre list is drawn as the placeholder Pop 5, Rock 4, Hip-Hop 3, Electronic 2, Jazz 1 |
| Charts.TopGenreRows | visualizations.py:63-71 | the chart has one to five rows in non-increasing count; for a non-empty list they are min(5, n) of its entries |
| Charts.TopFive | visualizations.py:71 | `head(5)` of the sorted list has min(5, n) rows of the input in non-increasing count |
| Charts.TopFiveOf | visualizations.py:71 | no row left out of the top five has a higher count than a row kept |
| Charts.TimeLabel | visualizations.py:142 | reading an hour's label back gives the hour: the label is a number from 1 to 12 written without a leading zero, then " AM" for hours 0 to 11 and " PM" for 12 to 23 |
| Charts.LabelStartsWithDigit | visualizations.py:142 | a label of a positive number starts with that number's first digit, which is not '0' |
| Charts.TimeLabelsDistinct | visualizations.py:142 | different hours have different labels |
| Charts.TimeLabelExamples | visualizations.py:142 | 0 is "12 AM", 1 is "1 AM", 11 is "11 AM", 12 is "12 PM", 13 is "1 PM" and 23 is "11 PM" |
| Charts.HourOfLabel | visualizations.py:142 | a label reads back only as an hour in 0..23 |
| Charts.TimeLabels | visualizations.py:142 | `time_labels` has 24 entries, entry h being the label of hour h |
| Charts.TickValues | visualizations.py:169 | `list(range(0, 24, 3))`: eight ticks, tick i being hour 3i |
| Charts.TickValuesAreEveryThirdHour | visualizations.py:169 | the ticks increase strictly and are exactly the hours below 24 divisible by 3 |
| Charts.TickText | visualizations.py:169-170 | each tick's text is the label of its own hour |
| Charts.HourCounts | visualizations.py:130-133 | the loop builds the hour histogram |
| Charts.HourHistogram | visualizations.py:130-133 | the histogram has exactly the keys 0..23, and an hour's count is positive exactly when some play is at that hour |
| Charts.HistogramCountsEveryPlay | visualizations.py:127-133 | each of the 24 values is the number of plays at that hour, and for clock hours the values add up to the number of plays |
| Charts.ListeningSchedule | visualizations.py:111-143 | simulated exactly without a response; a chart of counts exactly when the response has `items` and every timestamp reads, and then 24 rows, row h holding hour h and its label |
| Charts.ScheduleRows | visualizations.py:136-143 | the frame has 24 rows, row h holding hour h, its count and its label |
| Charts.ScheduleOfPlays | visualizations.py:120-143 | when every timestamp reads, row h of the chart is hour h with the number of plays at h and its label, and the counts add up to the number of plays |
| Charts.UnreadableSchedule | visualizations.py:121-125 | a response without `items`, or with an unreadable timestamp, gives the placeholder figure |

## Left out

- The Streamlit user interface (main.py), the Spotify client and its OAuth
  and network calls (spotify_client.py), the demo-data generator
  (simulation.py) and the deployment scripts (render_startup.py, server.py)
  are not part of this model.
- The k-means fit (analysis.py:214-218) belongs to scikit-learn. Its labels
  and centres are inputs. `Clusters.FitsTable` states what k-means
  guarantees: one label per row, each in [0, k), and k centres.
- Clusters.ClusterOutcome: a fit that breaks `FitsTable` is excluded by the
  precondition; it is not sent down the exception path.
- The results are not rounded: `round(x, 2)` and `round(x, 1)`
  (analysis.py:53-64, 184-188, 252) are not modelled, because decimal rounding
  of binary floats has no exact counterpart over the reals.
- Reals are exact. Floating-point behaviour is not modelled.
- Stats.SampleVariance: gives the variance, not the standard deviation
  pandas reports. The square root is not modelled. The diversity and
  complexity scores therefore hold the two variances they are built from.
- Mood.AnalyzeMood, Patterns.AnalyzePatterns, Clusters.ClusterOutcome and
  Charts.RadarValues: require a table in the builder's output shape
  (`FeatureTable.IsFeatureTable`). Tables with NaN in a default column, which
  the builder never produces, are not modelled.
- Record values are numbers or `None`. The string fields of the audio-feature
  response (`id`, `uri`, `type`, ...) are not modelled, so pandas' behaviour
  on them is out of scope.
- `datetime.fromisoformat` accepts more spellings than the extended format
  modelled here: basic-format dates, week dates, a bare date, reduced
  precision times, any single character as the date-time separator (the
  model accepts only `T`, `t` and a space), and offsets with seconds or
  microseconds, `±HH:MM:SS[.ffffff]` (the model accepts only `±HH:MM`),
  offsets without a colon or without minutes (`±HHMM`, `±HH`), basic-format
  times (`HHMMSS`), and a `,` before the fraction of a second. Those
  strings read as unparseable in the model, so it gives the default trends
  where the code computes a peak hour and a favourite day. The model
  follows `fromisoformat` as of Python 3.11. Earlier versions accept only
  3- or 6-digit fractions and no `Z`. In the model a fraction has any
  number of digits, with no upper limit. The
  fraction of a second is checked but not kept, because only the hour and
  the weekday are used. For the same reason an offset is kept as written
  and not normalised: Python reads "+00:75" as UTC+01:15, the model as
  0 hours and 75 minutes. Leap seconds are rejected, as Python does.
- Genres.GenreDistribution: an artist whose `genres` key holds null is not
  modelled. In the code, `all_genres.extend(None)` (analysis.py:105) raises
  `TypeError`, and the result is the placeholder (analysis.py:114-117). An
  artist without `genres` (None in the model) is skipped instead.
- Charts.SortByCount: the source sorts with pandas' default algorithm,
  which is not stable. The model fixes one order, a stable insertion sort.
  The proved properties do not depend on how ties are ordered.
- Figure construction, colours and layout in visualizations.py are not
  modelled. The random placeholder histogram (visualizations.py:115-119)
  is `SimulatedSchedule`, with no counts.
- Charts.ListeningSchedule: the falsy response that leads to the random
  histogram (visualizations.py:115) is `None`, and `{}` is encoded as
  `None` too. `Some(RecentPage(None))` is a non-empty response without
  `items`, which gives the placeholder figure.
