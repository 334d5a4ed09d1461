/** The orderings the watched page (src/pages/watched.tsx) and the watchlist
    page (src/pages/watchlist.tsx) offer for a collection, written once: both
    pages switch on the same four keys with the same `default`. */
module ListOrder {
  import opened Movies
  import opened Sorting

  datatype SortKey = ByTitle | DateAdded | ByRating | ByReleaseDate

  /** The comparator's `switch (sortBy)`; any other value takes the
      `default` branch, shared with "date_added". */
  function ParseSortKey(s: string): (k: SortKey)
    ensures k == ByTitle <==> s == "title"
    ensures k == ByRating <==> s == "rating"
    ensures k == ByReleaseDate <==> s == "release_date"
    ensures s == "date_added" ==> k == DateAdded
  {
    if s == "title" then ByTitle
    else if s == "rating" then ByRating
    else if s == "release_date" then ByReleaseDate
    else DateAdded
  }

  /** `list.indexOf(m)`: the first position holding `m`, or -1. */
  function IndexOf(list: seq<Movie>, m: Movie): (i: int)
    ensures -1 <= i < |list|
    ensures i == -1 <==> m !in list
    ensures 0 <= i ==> list[i] == m && forall j :: 0 <= j < i ==> list[j] != m
    decreases |list|
  {
    if list == [] then -1
    else if list[0] == m then 0
    else
      var k := IndexOf(list[1..], m);
      assert forall j :: 0 < j < |list| ==> list[j] == list[1..][j - 1];
      if k == -1 then -1 else k + 1
  }

  /** The release time both pages sort by: an absent or empty date counts as
      time 0, as `new Date(0)` and the explicit `: 0` both give. */
  function ReleaseTime(m: Movie, timeOf: string -> real): real {
    match m.releaseDate
    case Some(d) => if d == "" then 0.0 else timeOf(d)
    case None => 0.0
  }

  /** `m.vote_average || 0`. */
  function VoteOrZero(m: Movie): real {
    m.voteAverage.GetOr(0.0)
  }

  /** The comparator of both pages: titles by `collate` (`localeCompare`),
      rating and release date highest first, and added-date by position in
      the page's whole collection `list`, latest first. */
  function MovieComparator(key: SortKey, list: seq<Movie>,
                           collate: Comparator<string>, timeOf: string -> real): Comparator<Movie>
  {
    (a: Movie, b: Movie) =>
      match key
      case ByTitle => collate(a.title, b.title)
      case ByRating => VoteOrZero(b) - VoteOrZero(a)
      case ByReleaseDate => ReleaseTime(b, timeOf) - ReleaseTime(a, timeOf)
      case DateAdded => (IndexOf(list, b) - IndexOf(list, a)) as real
  }

  /** In a list without repeats, a subsequence's entries sit at strictly
      increasing positions. */
  lemma {:induction false} IndexIncreasing(t: seq<Movie>, list: seq<Movie>)
    requires Distinct(list)
    requires Subsequence(t, list)
    ensures forall i, j :: 0 <= i < j < |t| ==> 0 <= IndexOf(list, t[i]) < IndexOf(list, t[j])
    decreases |list|
  {
    if t != [] {
      var rest := list[1..];
      IndexOfTail(list);
      if t[0] == list[0] {
        IndexIncreasing(t[1..], rest);
        SubsequenceMembers(t[1..], rest);
        forall i, j | 0 <= i < j < |t| ensures 0 <= IndexOf(list, t[i]) < IndexOf(list, t[j]) {
          assert t[j] == t[1..][j - 1] && t[j] in rest;
          if i > 0 {
            assert t[i] == t[1..][i - 1] && t[i] in rest;
          }
        }
      } else {
        IndexIncreasing(t, rest);
        SubsequenceMembers(t, rest);
        forall i | 0 <= i < |t| ensures IndexOf(list, t[i]) == IndexOf(rest, t[i]) + 1 {
          assert t[i] in rest;
        }
      }
    }
  }

  /** Past the head of a list without repeats, positions shift by one. */
  lemma IndexOfTail(list: seq<Movie>)
    requires list != [] && Distinct(list)
    ensures Distinct(list[1..])
    ensures forall x :: x in list[1..] ==> x != list[0] && IndexOf(list, x) == IndexOf(list[1..], x) + 1
  {
    var rest := list[1..];
    assert forall i :: 0 <= i < |rest| ==> rest[i] == list[i + 1];
    forall x | x in rest ensures x != list[0] {
      var k :| 0 <= k < |rest| && rest[k] == x;
      assert list[k + 1] == x;
    }
  }

  /** Sorting any subsequence of a collection without repeats by "date_added"
      lists it in reverse insertion order: latest added first. */
  lemma DateAddedReverses(t: seq<Movie>, list: seq<Movie>,
                          collate: Comparator<string>, timeOf: string -> real)
    requires Distinct(list)
    requires Subsequence(t, list)
    ensures Sort(t, MovieComparator(DateAdded, list, collate, timeOf)) == Reverse(t)
  {
    var cmp := MovieComparator(DateAdded, list, collate, timeOf);
    IndexIncreasing(t, list);
    assert forall i, j :: 0 <= i < j < |t| ==> cmp(t[i], t[j]) > 0.0;
    SortReversesDescending(t, cmp);
  }

  /** The rating and release-date orders are antisymmetric, and so is the
      title order when the collation is. */
  lemma MovieComparatorAntisymmetric(key: SortKey, list: seq<Movie>,
                                     collate: Comparator<string>, timeOf: string -> real)
    requires key == ByTitle ==> Antisymmetric(collate)
    ensures Antisymmetric(MovieComparator(key, list, collate, timeOf))
  {
    var cmp := MovieComparator(key, list, collate, timeOf);
    forall a: Movie, b: Movie ensures cmp(a, b) < 0.0 <==> cmp(b, a) > 0.0 {
      if key == ByTitle {
        assert collate(a.title, b.title) < 0.0 <==> collate(b.title, a.title) > 0.0;
      }
    }
  }
}
