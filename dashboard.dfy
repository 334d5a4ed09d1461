/** The "Recently Watched" table of src/pages/Dashboard.tsx: up to five
    now-playing results and the column sort that clicking a header applies. */
module Dashboard {
  import opened Movies
  import opened Sorting

  datatype Column = Title | ReleaseDate | Popularity
  datatype Direction = Asc | Desc

  /** A fetched result as the table reads it; any field may be missing. */
  datatype Row = Row(
    id: int,
    title: Option<string>,
    releaseDate: Option<string>,
    popularity: Option<real>)

  /** `(data.results || []).slice(0, 5)`. */
  function FirstFive(results: Option<seq<Row>>): (r: seq<Row>)
    ensures |r| <= 5
    ensures r <= results.GetOr([])
    ensures |results.GetOr([])| <= 5 ==> r == results.GetOr([])
    ensures |results.GetOr([])| > 5 ==> |r| == 5
  {
    var all := results.GetOr([]);
    if |all| <= 5 then all else all[..5]
  }

  /** The direction `sortBy` switches to: the opposite one on the active
      column; ascending for a newly chosen title column, descending for the
      other columns. */
  function NextDirection(active: Column, dir: Direction, key: Column): (d: Direction)
    ensures key == active ==> d != dir
    ensures key != active ==> (d == Asc <==> key == Title)
  {
    if key == active then (if dir == Asc then Desc else Asc)
    else if key == Title then Asc
    else Desc
  }

  /** The comparator `sortBy` hands to `sort`. A missing value reads as "";
      `collate` stands for `localeCompare` and `timeOf` for
      `new Date(s).getTime()`; an empty popularity takes part in the
      subtraction as 0. */
  function RowComparator(key: Column, dir: Direction,
                         collate: Comparator<string>, timeOf: string -> real): Comparator<Row>
  {
    (a: Row, b: Row) =>
      match key
      case Title =>
        var c := collate(a.title.GetOr(""), b.title.GetOr(""));
        if dir == Asc then c else -c
      case ReleaseDate =>
        var x := timeOf(a.releaseDate.GetOr(""));
        var y := timeOf(b.releaseDate.GetOr(""));
        if dir == Asc then x - y else y - x
      case Popularity =>
        var x := a.popularity.GetOr(0.0);
        var y := b.popularity.GetOr(0.0);
        if dir == Asc then x - y else y - x
  }

  /** Descending order compares every pair as the negation of ascending order. */
  lemma DescendingNegatesAscending(key: Column, collate: Comparator<string>,
                                   timeOf: string -> real, a: Row, b: Row)
    ensures RowComparator(key, Desc, collate, timeOf)(a, b)
         == -RowComparator(key, Asc, collate, timeOf)(a, b)
  {
  }

  /** A collation that is antisymmetric gives an antisymmetric comparator on
      every column and in both directions, so the re-sorted table is in order. */
  lemma RowComparatorAntisymmetric(key: Column, dir: Direction,
                                   collate: Comparator<string>, timeOf: string -> real)
    requires Antisymmetric(collate)
    ensures Antisymmetric(RowComparator(key, dir, collate, timeOf))
  {
    var cmp := RowComparator(key, dir, collate, timeOf);
    forall a: Row, b: Row ensures cmp(a, b) < 0.0 <==> cmp(b, a) > 0.0 {
      if key == Title {
        var ta, tb := a.title.GetOr(""), b.title.GetOr("");
        assert collate(ta, tb) < 0.0 <==> collate(tb, ta) > 0.0;
        assert collate(tb, ta) < 0.0 <==> collate(ta, tb) > 0.0;
      }
    }
  }

  /** Two clicks on the active column restore its direction. */
  lemma SameColumnTwice(active: Column, dir: Direction)
    ensures NextDirection(active, NextDirection(active, dir, active), active) == dir
  {
  }

  class RecentTable {
    var recent: seq<Row>
    var sortKey: Column
    var sortDirection: Direction

    /** The first render: no rows, sorted by release date, descending. */
    constructor ()
      ensures recent == [] && sortKey == ReleaseDate && sortDirection == Desc
    {
      recent := [];
      sortKey := ReleaseDate;
      sortDirection := Desc;
    }

    /** The fetch effect's `setRecent(trimmed)`. */
    method Receive(results: Option<seq<Row>>)
      modifies this
      ensures recent == FirstFive(results)
      ensures sortKey == old(sortKey) && sortDirection == old(sortDirection)
    {
      recent := FirstFive(results);
    }

    /** `sortBy(key)`: the new key and direction, and a sorted copy of the rows. */
    method SortBy(key: Column, collate: Comparator<string>, timeOf: string -> real)
      modifies this
      ensures sortKey == key
      ensures sortDirection == NextDirection(old(sortKey), old(sortDirection), key)
      ensures recent == Sort(old(recent), RowComparator(key, sortDirection, collate, timeOf))
      ensures multiset(recent) == multiset(old(recent))
      ensures |recent| <= 5 <== |old(recent)| <= 5
      ensures Antisymmetric(collate) ==> Ordered(recent, RowComparator(key, sortDirection, collate, timeOf))
    {
      var newDir := NextDirection(sortKey, sortDirection, key);
      sortKey := key;
      sortDirection := newDir;
      var cmp := RowComparator(key, newDir, collate, timeOf);
      SortIsPermutation(recent, cmp);
      if Antisymmetric(collate) {
        RowComparatorAntisymmetric(key, newDir, collate, timeOf);
        SortOrdered(recent, cmp);
      }
      recent := Sort(recent, cmp);
    }

    /** `getSortIcon(col)`: a neutral arrow on the inactive columns, the
        direction's arrow on the active one. */
    function SortIcon(col: Column): (icon: string)
      reads this
      ensures icon == "\U{2195}\U{FE0F}" <==> sortKey != col
      ensures icon == "\U{2191}" <==> sortKey == col && sortDirection == Asc
      ensures icon == "\U{2193}" <==> sortKey == col && sortDirection == Desc
    {
      if sortKey != col then "\U{2195}\U{FE0F}"
      else
        match sortDirection
        case Asc => "\U{2191}"
        case Desc => "\U{2193}"
    }
  }
}
