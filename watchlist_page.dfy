/** The watchlist page of src/pages/watchlist.tsx: a sorted copy of the
    watchlist, the label of the chosen order, the "New" badge and the header
    line. */
module WatchlistPage {
  import opened Movies
  import opened Text
  import opened Sorting
  import opened ListOrder

  /** `stats.watchlist.slice().sort(...)`. */
  function SortedMovies(watchlist: seq<Movie>, sortBy: string,
                        collate: Comparator<string>, timeOf: string -> real): seq<Movie>
  {
    Sort(watchlist, MovieComparator(ParseSortKey(sortBy), watchlist, collate, timeOf))
  }

  /** The sorted copy holds the watchlist's entries, each as often; the
      watchlist itself is a value and stays as it was. */
  lemma SortedIsPermutation(watchlist: seq<Movie>, sortBy: string,
                            collate: Comparator<string>, timeOf: string -> real)
    ensures multiset(SortedMovies(watchlist, sortBy, collate, timeOf)) == multiset(watchlist)
    ensures |SortedMovies(watchlist, sortBy, collate, timeOf)| == |watchlist|
  {
    SortIsPermutation(watchlist, MovieComparator(ParseSortKey(sortBy), watchlist, collate, timeOf));
  }

  /** Under "date_added", and for a watchlist without repeated ids, the copy
      is the watchlist in reverse insertion order. */
  lemma DateAddedIsReverse(watchlist: seq<Movie>, collate: Comparator<string>, timeOf: string -> real)
    requires IdsUnique(watchlist)
    ensures SortedMovies(watchlist, "date_added", collate, timeOf) == Reverse(watchlist)
  {
    UniqueIdsAreDistinct(watchlist);
    SubsequenceRefl(watchlist);
    DateAddedReverses(watchlist, watchlist, collate, timeOf);
  }

  /** `getSortLabel`: the four keys' labels, "Recently Added" otherwise. */
  function SortLabel(sort: string): (text: string)
    ensures sort == "title" ==> text == "Title A-Z"
    ensures sort == "rating" ==> text == "TMDb Rating"
    ensures sort == "release_date" ==> text == "Release Date"
    ensures sort !in {"title", "rating", "release_date"} ==> text == "Recently Added"
  {
    match sort
    case "date_added" => "Recently Added"
    case "title" => "Title A-Z"
    case "rating" => "TMDb Rating"
    case "release_date" => "Release Date"
    case _ => "Recently Added"
  }

  /** The label names the order the comparator applies: "Recently Added"
      exactly for the values that fall to its added-date branch. */
  lemma SortLabelMatchesOrder(sort: string)
    ensures SortLabel(sort) == "Recently Added" <==> ParseSortKey(sort) == DateAdded
  {
    assert "Title A-Z"[0] != 'R' && "TMDb Rating"[0] != 'R';
    assert "Release Date"[2] != "Recently Added"[2];
  }

  /** `sortBy === "date_added" && index < 3`. */
  predicate ShowsNewBadge(sortBy: string, index: nat) {
    sortBy == "date_added" && index < 3
  }

  /** Under "date_added", on a watchlist without repeated ids, the badge
      marks exactly the three most recently added movies (all of them when
      there are fewer). */
  lemma NewBadgeMarksLatestThree(watchlist: seq<Movie>, collate: Comparator<string>, timeOf: string -> real)
    requires IdsUnique(watchlist)
    ensures var shown := SortedMovies(watchlist, "date_added", collate, timeOf);
            forall i :: 0 <= i < |shown| ==>
              (ShowsNewBadge("date_added", i) <==> |watchlist| - 3 <= |watchlist| - 1 - i) &&
              shown[i] == watchlist[|watchlist| - 1 - i]
    ensures forall sortBy, i :: sortBy != "date_added" ==> !ShowsNewBadge(sortBy, i)
  {
    DateAddedIsReverse(watchlist, collate, timeOf);
  }

  /** The line under the page title; `movie{n !== 1 ? "s" : ""}` is written
      out for its two cases. */
  function HeaderText(n: nat): (t: string)
    ensures n == 0 ==> t == "Start building your perfect movie collection"
    ensures n > 0 ==> NatToString(n) <= t && DigitsValue(NatToString(n)) == n
    ensures n > 0 ==> (n == 1 <==> t[|NatToString(n)|..] == " movie waiting to be watched")
    ensures n > 1 ==> t[|NatToString(n)|..] == " movies waiting to be watched"
  {
    if n == 0 then "Start building your perfect movie collection"
    else
      NatToStringRoundTrip(n);
      var d := NatToString(n);
      var rest := if n == 1 then " movie waiting to be watched" else " movies waiting to be watched";
      WaitingSuffixesDiffer();
      assert (d + rest)[|d|..] == rest;
      d + rest
  }

  lemma WaitingSuffixesDiffer()
    ensures " movies waiting to be watched" != " movie waiting to be watched"
  {
    assert " movies waiting to be watched"[6] != " movie waiting to be watched"[6];
  }

  /** The header starts with a digit, the count's first, exactly when the
      watchlist is not empty. */
  lemma HeaderTextStartsWithCount(n: nat)
    ensures IsDigit(HeaderText(n)[0]) <==> n > 0
  {
    if n > 0 {
      assert HeaderText(n)[0] == NatToString(n)[0];
      assert IsDigit(NatToString(n)[0]);
    } else {
      var t := "Start building your perfect movie collection";
      assert HeaderText(n) == t;
      assert t[0] == 'S';
    }
  }
}
