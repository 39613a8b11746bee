/**
 * The listening trend analyzer (calculate_listening_trends): the most common
 * hour and weekday of the recently played tracks, and the number of plays
 * reported as listening sessions.
 */
module Trends {
  import opened Wrappers
  import opened Counter
  import opened Timestamps

  /** A play event; playedAt is None when the item has no 'played_at' key. */
  datatype PlayItem = PlayItem(playedAt: Option<string>)

  /** The recently-played response; items is None when it has no 'items' key. */
  datatype RecentPage = RecentPage(items: Option<seq<PlayItem>>)

  datatype ListeningTrends = ListeningTrends(peakHour: int, listeningSessions: nat, favoriteDay: string)

  /** The result for missing data and on the error path. */
  const DefaultTrends := ListeningTrends(20, 15, "Saturday")

  /** The date and time of a play, if it has a played_at that parses. */
  function ReadPlay(item: PlayItem): Option<DateTime>
  {
    if item.playedAt.None? then None else ParsePlayedAt(item.playedAt.value)
  }

  /** A play whose played_at is missing or cannot be read. */
  predicate Unreadable(item: PlayItem)
  {
    ReadPlay(item).None?
  }

  /** All the values, or None as soon as one is missing. */
  function AllPresent(results: seq<Option<DateTime>>): (r: Option<seq<DateTime>>)
    ensures r.Some? ==> |r.value| == |results| && forall i :: 0 <= i < |results| ==> results[i] == Some(r.value[i])
    ensures r.None? <==> exists i :: 0 <= i < |results| && results[i].None?
  {
    if results == [] then Some([])
    else
      var init, last := results[..|results| - 1], results[|results| - 1];
      assert forall i :: 0 <= i < |init| ==> init[i] == results[i];
      var rest := AllPresent(init);
      if rest.None? || last.None? then None else Some(rest.value + [last.value])
  }

  /** Reads every played_at; None as soon as one is missing or does not parse. */
  function ParseAll(items: seq<PlayItem>): (r: Option<seq<DateTime>>)
    ensures r.Some? ==> |r.value| == |items|
    ensures r.Some? ==> forall i :: 0 <= i < |items| ==>
      items[i].playedAt.Some? && ParsePlayedAt(items[i].playedAt.value) == Some(r.value[i])
    ensures r.None? <==> exists i :: 0 <= i < |items| && Unreadable(items[i])
  {
    var results := seq(|items|, i requires 0 <= i < |items| => ReadPlay(items[i]));
    assert forall i :: 0 <= i < |items| ==> results[i] == ReadPlay(items[i]);
    AllPresent(results)
  }

  predicate AllValid(dts: seq<DateTime>)
  {
    forall i :: 0 <= i < |dts| ==> ValidDateTime(dts[i])
  }

  function Hours(dts: seq<DateTime>): (hs: seq<int>)
    requires AllValid(dts)
    ensures |hs| == |dts| && forall i :: 0 <= i < |hs| ==> 0 <= hs[i] <= 23
    ensures forall h :: h in hs ==> 0 <= h <= 23
  {
    seq(|dts|, i requires 0 <= i < |dts| => dts[i].hour)
  }

  function Days(dts: seq<DateTime>): (ds: seq<string>)
    requires AllValid(dts)
    ensures |ds| == |dts| && forall i :: 0 <= i < |ds| ==> ds[i] in DayNames
    ensures forall d :: d in ds ==> d in DayNames
  {
    seq(|dts|, i requires 0 <= i < |dts| => DayName(dts[i]))
  }

  /** A response with at least one play, every one of which has a readable played_at. */
  predicate PlaysReadable(recent: Option<RecentPage>)
  {
    && recent.Some? && recent.value.items.Some? && recent.value.items.value != []
    && ParseAll(recent.value.items.value).Some?
  }

  /**
   * calculate_listening_trends: the default unless every play can be read,
   * otherwise a clock hour, a weekday name and the number of plays.
   */
  function CalculateListeningTrends(recent: Option<RecentPage>): (r: ListeningTrends)
    ensures !PlaysReadable(recent) ==> r == DefaultTrends
    ensures PlaysReadable(recent) ==>
      && 0 <= r.peakHour <= 23 && r.favoriteDay in DayNames
      && r.listeningSessions == |recent.value.items.value|
  {
    match recent
    case None => DefaultTrends
    case Some(page) =>
      match page.items
      case None => DefaultTrends
      case Some(items) =>
        match ParseAll(items)
        case None => DefaultTrends
        case Some(dts) =>
          if dts == [] then DefaultTrends
          else
            assert PlaysReadable(recent);
            var hours, days := Hours(dts), Days(dts);
            var peak, favourite := Mode(hours), Mode(days);
            assert 0 <= peak <= 23 && favourite in DayNames;
            ListeningTrends(peak, |items|, favourite)
  }

  /**
   * No response, no items, no plays, or one play whose timestamp is missing
   * or unreadable: the fixed default {20, 15, Saturday}.
   */
  lemma DefaultTrendsCases(recent: Option<RecentPage>)
    requires || recent.None?
             || recent.value.items.None?
             || recent.value.items.value == []
             || exists i :: 0 <= i < |recent.value.items.value| && Unreadable(recent.value.items.value[i])
    ensures CalculateListeningTrends(recent) == DefaultTrends
  {
  }

  /**
   * When every play parses: the peak hour is an hour of maximal count, the
   * first seen among ties; the favourite day likewise among weekday names;
   * the session count is the number of plays.
   */
  lemma TrendsOfPlays(items: seq<PlayItem>)
    requires items != [] && ParseAll(items).Some?
    ensures var r, dts := CalculateListeningTrends(Some(RecentPage(Some(items)))), ParseAll(items).value;
      var hours, days := Hours(dts), Days(dts);
      && r.listeningSessions == |items|
      && 0 <= r.peakHour <= 23 && r.peakHour in hours
      && (forall h :: h in hours ==> Count(hours, h) <= Count(hours, r.peakHour))
      && (forall h :: h in hours && Count(hours, h) == Count(hours, r.peakHour) ==>
            FirstIndex(hours, r.peakHour) <= FirstIndex(hours, h))
      && r.favoriteDay in DayNames && r.favoriteDay in days
      && (forall d :: d in days ==> Count(days, d) <= Count(days, r.favoriteDay))
      && (forall d :: d in days && Count(days, d) == Count(days, r.favoriteDay) ==>
            FirstIndex(days, r.favoriteDay) <= FirstIndex(days, d))
  {
  }

  /** Plays at hours 20, 20, 21, 20 peak at 20. */
  lemma PeakHourExample()
    ensures Mode([20, 20, 21, 20]) == 20
  {
    var hs := [20, 20, 21, 20];
    assert hs[..3][..2] == hs[..2] && hs[..2][..1] == hs[..1] && hs[..1][..0] == hs[..0];
    assert Count(hs[..0], 20) == 0 && Count(hs[..0], 21) == 0;
    assert Count(hs[..1], 20) == 1 && Count(hs[..1], 21) == 0;
    assert Count(hs[..2], 20) == 2 && Count(hs[..2], 21) == 0;
    assert Count(hs[..3], 20) == 2 && Count(hs[..3], 21) == 1;
    assert Count(hs, 20) == 3 && Count(hs, 21) == 1;
    assert forall h :: h in hs ==> h == 20 || h == 21;
  }
}
