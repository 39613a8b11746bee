/**
 * The genre distribution analyzer (get_genre_distribution): every genre tag
 * of the listener's top artists, counted and ranked by Counter.most_common().
 */
module Genres {
  import opened Wrappers
  import opened Counter

  /** An artist; genres is None when the record has no 'genres' key. */
  datatype Artist = Artist(name: string, genres: Option<seq<string>>)

  /** The top-artists response; items is None when it has no 'items' key. */
  datatype ArtistPage = ArtistPage(items: Option<seq<Artist>>)

  /** The ranking returned when there is no artist data. */
  const PlaceholderGenres: seq<(string, nat)> :=
    [("Pop", 5), ("Rock", 4), ("Hip-Hop", 3), ("Electronic", 2), ("Jazz", 1)]

  /** The genre tags of an artist; none when it has no genres key. */
  function TagsOf(a: Artist): seq<string>
  {
    match a.genres
    case None => []
    case Some(g) => g
  }

  /** All genre tags of the artists, artist by artist, in order. */
  function AllGenres(items: seq<Artist>): seq<string>
  {
    if items == [] then [] else AllGenres(items[..|items| - 1]) + TagsOf(items[|items| - 1])
  }

  /** The number of genre tags on artists that carry a genres list. */
  function TagCount(items: seq<Artist>): nat
  {
    if items == [] then 0
    else TagCount(items[..|items| - 1]) + (if items[|items| - 1].genres.Some? then |items[|items| - 1].genres.value| else 0)
  }

  lemma {:induction false} AllGenresLength(items: seq<Artist>)
    ensures |AllGenres(items)| == TagCount(items)
  {
    if items != [] {
      AllGenresLength(items[..|items| - 1]);
    }
  }

  /** The loop that extends all_genres artist by artist. */
  method CollectGenres(items: seq<Artist>) returns (all: seq<string>)
    ensures all == AllGenres(items)
  {
    all := [];
    var i := 0;
    while i < |items|
      invariant 0 <= i <= |items|
      invariant all == AllGenres(items[..i])
    {
      if items[i].genres.Some? {
        all := all + items[i].genres.value;
      }
      assert items[..i + 1][..i] == items[..i];
      i := i + 1;
    }
    assert items[..i] == items;
  }

  /**
   * get_genre_distribution as a function of its input: a ranking of distinct
   * genres by non-increasing, positive count.
   */
  function GenreDistribution(top: Option<ArtistPage>): (r: seq<(string, nat)>)
    ensures forall i :: 0 <= i < |r| ==> r[i].1 > 0
    ensures forall i, j :: 0 <= i < j < |r| ==> r[i].1 >= r[j].1
    ensures forall i, j :: 0 <= i < j < |r| ==> r[i].0 != r[j].0
  {
    match top
    case None => PlaceholderGenres
    case Some(page) =>
      match page.items
      case None => PlaceholderGenres
      case Some(items) =>
        MostCommonElements(AllGenres(items));
        MostCommonOrder(AllGenres(items));
        MostCommon(AllGenres(items))
  }

  /** get_genre_distribution. */
  method ComputeGenreDistribution(top: Option<ArtistPage>) returns (genres: seq<(string, nat)>)
    ensures genres == GenreDistribution(top)
  {
    if top.None? || top.value.items.None? {
      return PlaceholderGenres;
    }
    var all := CollectGenres(top.value.items.value);
    genres := MostCommon(all);
  }

  /** No response, or one without items, gives the fixed placeholder ranking. */
  lemma NoArtistsPlaceholder(top: Option<ArtistPage>)
    requires top.None? || top.value.items.None?
    ensures GenreDistribution(top) == PlaceholderGenres
  {
  }

  /**
   * With items present the result is most_common() of all the tags (see
   * Counter.MostCommonElements and Counter.MostCommonOrder for what that
   * promises); the counts add up to the number of tags, and items without
   * any tags (in particular no items) give the empty list, not the placeholder.
   */
  lemma GenreRanking(items: seq<Artist>)
    ensures var r := GenreDistribution(Some(ArtistPage(Some(items))));
      && r == MostCommon(AllGenres(items))
      && TotalCount(r) == TagCount(items)
      && (r == [] <==> TagCount(items) == 0)
  {
    var all := AllGenres(items);
    MostCommonElements(all);
    MostCommonTotal(all);
    AllGenresLength(items);
  }

  /** Three artists tagged Pop, Rock, Pop rank Pop (2) above Rock (1). */
  lemma StableRankingExample()
    ensures GenreDistribution(Some(ArtistPage(Some([
      Artist("a", Some(["Pop"])), Artist("b", Some(["Rock"])), Artist("c", Some(["Pop"]))]))))
      == [("Pop", 2), ("Rock", 1)]
  {
    ExampleTags();
    PopRockPopRanking();
  }

  lemma ExampleTags()
    ensures AllGenres([Artist("a", Some(["Pop"])), Artist("b", Some(["Rock"])), Artist("c", Some(["Pop"]))])
      == ["Pop", "Rock", "Pop"]
  {
    var items := [Artist("a", Some(["Pop"])), Artist("b", Some(["Rock"])), Artist("c", Some(["Pop"]))];
    assert AllGenres(items[..1]) == ["Pop"] by {
      assert items[..1][..0] == [];
    }
    assert AllGenres(items[..2]) == ["Pop", "Rock"] by {
      assert items[..2][..1] == items[..1];
    }
    assert items[..3] == items;
    assert items[..3][..2] == items[..2];
  }

  /** Pop is counted twice and Rock once, so Pop ranks first. */
  lemma PopRockPopRanking()
    ensures MostCommon(["Pop", "Rock", "Pop"]) == [("Pop", 2), ("Rock", 1)]
  {
    var all := ["Pop", "Rock", "Pop"];
    PopRockPopCounts();
    PopRockPopKeys();
    assert RanksBefore(all, "Pop", "Rock");
    assert Rank(all, ["Rock"]) == ["Rock"];
    assert Rank(all, ["Pop", "Rock"]) == ["Pop", "Rock"];
  }

  lemma PopRockPopCounts()
    ensures Count(["Pop", "Rock", "Pop"], "Pop") == 2 && Count(["Pop", "Rock", "Pop"], "Rock") == 1
  {
    var all := ["Pop", "Rock", "Pop"];
    assert all[..2] == ["Pop", "Rock"] && all[..1] == ["Pop"] && all[..0] == [];
    assert all[..2][..1] == all[..1] && all[..1][..0] == all[..0];
    assert Count(all[..1], "Pop") == 1 && Count(all[..1], "Rock") == 0;
    assert Count(all[..2], "Pop") == 1 && Count(all[..2], "Rock") == 1;
  }

  lemma PopRockPopKeys()
    ensures Distinct(["Pop", "Rock", "Pop"]) == ["Pop", "Rock"]
  {
    var all := ["Pop", "Rock", "Pop"];
    assert all[..2] == ["Pop", "Rock"] && all[..1] == ["Pop"] && all[..0] == [];
    assert all[..2][..1] == all[..1] && all[..1][..0] == all[..0];
    assert Distinct(all[..1]) == ["Pop"];
    assert Distinct(all[..2]) == ["Pop", "Rock"];
  }
}
