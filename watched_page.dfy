/** The watched page of src/pages/watched.tsx: the title search over the
    watched collection, the chosen order of the matches, and the texts that
    depend on how many movies there are. */
module WatchedPage {
  import opened Movies
  import opened Text
  import opened Sorting
  import opened ListOrder

  /** The filter's test: an empty query keeps everything, otherwise the
      lower-cased title must contain the lower-cased query. */
  predicate Matches(m: Movie, query: string) {
    query == "" || Includes(ToLower(m.title), ToLower(query))
  }

  /** A movie matches exactly when the lower-cased query occurs somewhere in
      its lower-cased title; the empty query occurs in every title. */
  lemma MatchesIffOccurs(m: Movie, query: string)
    ensures Matches(m, query) <==>
      exists i :: 0 <= i <= |m.title| && ToLower(query) <= ToLower(m.title)[i..]
  {
    IncludesIffOccurs(ToLower(m.title), ToLower(query));
    if query == "" {
      assert ToLower(query) <= ToLower(m.title)[0..];
    }
  }

  /** `stats.watched.filter(m => query === "" || ...)`. */
  function TitleFilter(watched: seq<Movie>, query: string): (r: seq<Movie>)
    ensures forall m :: m in r <==> m in watched && Matches(m, query)
    ensures Subsequence(r, watched)
    ensures |r| <= |watched|
    ensures query == "" ==> r == watched
    decreases |watched|
  {
    if watched == [] then []
    else
      var rest := TitleFilter(watched[1..], query);
      assert forall m :: m in watched <==> m == watched[0] || m in watched[1..] by {
        assert watched == [watched[0]] + watched[1..];
      }
      if Matches(watched[0], query) then
        var r := [watched[0]] + rest;
        assert r[1..] == rest;
        r
      else
        assert rest != [] ==> rest[0] in rest;
        rest
  }

  /** The search keeps each matching movie as often as it was watched, and
      drops every other movie. */
  lemma {:induction false} TitleFilterCounts(watched: seq<Movie>, query: string)
    ensures forall m :: multiset(TitleFilter(watched, query))[m] == if Matches(m, query) then multiset(watched)[m] else 0
    decreases |watched|
  {
    if watched != [] {
      TitleFilterCounts(watched[1..], query);
      assert watched == [watched[0]] + watched[1..];
      if Matches(watched[0], query) {
        assert TitleFilter(watched, query) == [watched[0]] + TitleFilter(watched[1..], query);
      }
    }
  }

  /** `filteredMovies`: the matches ordered by the chosen key, where the
      added-date order looks positions up in the whole watched list. */
  function Displayed(watched: seq<Movie>, query: string, sortBy: string,
                     collate: Comparator<string>, timeOf: string -> real): seq<Movie>
  {
    Sort(TitleFilter(watched, query), MovieComparator(ParseSortKey(sortBy), watched, collate, timeOf))
  }

  /** The displayed list holds exactly the matches, each as often as it is
      watched; the watched list itself is a value and stays as it was. */
  lemma DisplayedIsPermutationOfMatches(watched: seq<Movie>, query: string, sortBy: string,
                                        collate: Comparator<string>, timeOf: string -> real)
    ensures multiset(Displayed(watched, query, sortBy, collate, timeOf)) == multiset(TitleFilter(watched, query))
    ensures forall m :: m in Displayed(watched, query, sortBy, collate, timeOf) <==>
                        m in watched && Matches(m, query)
  {
    var filtered := TitleFilter(watched, query);
    SortIsPermutation(filtered, MovieComparator(ParseSortKey(sortBy), watched, collate, timeOf));
    assert forall m :: m in Displayed(watched, query, sortBy, collate, timeOf) <==> m in multiset(filtered);
  }

  /** Under "date_added", and for a watched list without repeated ids, the
      matches are shown latest added first. */
  lemma DateAddedShowsLatestFirst(watched: seq<Movie>, query: string,
                                  collate: Comparator<string>, timeOf: string -> real)
    requires IdsUnique(watched)
    ensures Displayed(watched, query, "date_added", collate, timeOf) == Reverse(TitleFilter(watched, query))
  {
    UniqueIdsAreDistinct(watched);
    DateAddedReverses(TitleFilter(watched, query), watched, collate, timeOf);
  }

  /** Any other order is, for an antisymmetric collation, in order. */
  lemma DisplayedOrdered(watched: seq<Movie>, query: string, sortBy: string,
                         collate: Comparator<string>, timeOf: string -> real)
    requires Antisymmetric(collate)
    ensures Ordered(Displayed(watched, query, sortBy, collate, timeOf),
                    MovieComparator(ParseSortKey(sortBy), watched, collate, timeOf))
  {
    var cmp := MovieComparator(ParseSortKey(sortBy), watched, collate, timeOf);
    MovieComparatorAntisymmetric(ParseSortKey(sortBy), watched, collate, timeOf);
    SortOrdered(TitleFilter(watched, query), cmp);
  }

  /** The heading of the empty state, shown only when nothing matches: one
      text for an empty collection, another for a search that found nothing. */
  function EmptyHeading(watched: seq<Movie>, query: string): (h: Option<string>)
    ensures h.None? <==> TitleFilter(watched, query) != []
    ensures watched == [] ==> h == Some("No movies watched yet")
    ensures watched != [] && TitleFilter(watched, query) == [] ==> h == Some("No movies found")
  {
    if TitleFilter(watched, query) != [] then None
    else if |watched| == 0 then Some("No movies watched yet")
    else Some("No movies found")
  }

  /** With an empty query, "No movies found" never appears. */
  lemma EmptyQueryFindsEverything(watched: seq<Movie>)
    ensures EmptyHeading(watched, "") != Some("No movies found")
  {
  }

  /** `{n} movie{n !== 1 ? "s" : ""} in your collection`, the plural
      written out for its two cases. */
  function CollectionCountText(n: nat): (t: string)
    ensures NatToString(n) <= t && DigitsValue(NatToString(n)) == n
    ensures n == 1 <==> t[|NatToString(n)|..] == " movie in your collection"
    ensures n != 1 ==> t[|NatToString(n)|..] == " movies in your collection"
  {
    NatToStringRoundTrip(n);
    var d := NatToString(n);
    var rest := if n == 1 then " movie in your collection" else " movies in your collection";
    CollectionSuffixesDiffer();
    assert (d + rest)[|d|..] == rest;
    d + rest
  }

  lemma CollectionSuffixesDiffer()
    ensures " movies in your collection" != " movie in your collection"
  {
    assert " movies in your collection"[6] != " movie in your collection"[6];
  }
}
