/** The list transformations inside the state updaters of `useUserStats`
    (src/hooks/userstats.ts): mark as watched, toggle liked / watchlisted,
    rate a liked movie. Each is a pure function of the previous list. */
module Collection {
  import opened Movies

  /** markWatched's updater: keep the list when the id is already there,
      otherwise append the snapshot. */
  function MarkWatched(prev: seq<Movie>, movie: Movie): (r: seq<Movie>)
    ensures HasId(r, movie.id)
    ensures prev <= r
    ensures |r| == |prev| <==> HasId(prev, movie.id)
    ensures HasId(prev, movie.id) ==> r == prev
    ensures |r| <= |prev| + 1
    ensures |r| > |prev| ==> r[|prev|] == movie
    ensures IdsUnique(prev) ==> IdsUnique(r)
  {
    if HasId(prev, movie.id) then prev
    else
      assert (prev + [movie])[|prev|] == movie;
      prev + [movie]
  }

  /** `prev.filter(m => m.id !== id)`. */
  function RemoveId(prev: seq<Movie>, id: int): (r: seq<Movie>)
    ensures !HasId(r, id)
    ensures forall m :: m in r <==> m in prev && m.id != id
    ensures Subsequence(r, prev)
    ensures |r| <= |prev| && (|r| < |prev| <==> HasId(prev, id))
    ensures IdsUnique(prev) ==> IdsUnique(r)
    decreases |prev|
  {
    if prev == [] then []
    else
      var rest := RemoveId(prev[1..], id);
      if prev[0].id == id then
        RemoveIdDrop(prev, id, rest);
        rest
      else
        RemoveIdKeep(prev, id, rest);
        [prev[0]] + rest
  }

  /** The filter's step when the head has the id: the head is dropped. */
  lemma RemoveIdDrop(prev: seq<Movie>, id: int, rest: seq<Movie>)
    requires prev != [] && prev[0].id == id
    requires !HasId(rest, id)
    requires forall m :: m in rest <==> m in prev[1..] && m.id != id
    requires Subsequence(rest, prev[1..])
    requires |rest| <= |prev| - 1
    requires IdsUnique(prev[1..]) ==> IdsUnique(rest)
    ensures forall m :: m in rest <==> m in prev && m.id != id
    ensures Subsequence(rest, prev)
    ensures |rest| < |prev| && HasId(prev, id)
    ensures IdsUnique(prev) ==> IdsUnique(rest)
  {
    HasIdCons(prev, id);
    assert rest != [] ==> rest[0] in rest;
    if IdsUnique(prev) {
      UniqueCons(prev);
    }
  }

  /** The filter's step when the head has another id: the head is kept. */
  lemma RemoveIdKeep(prev: seq<Movie>, id: int, rest: seq<Movie>)
    requires prev != [] && prev[0].id != id
    requires !HasId(rest, id)
    requires forall m :: m in rest <==> m in prev[1..] && m.id != id
    requires Subsequence(rest, prev[1..])
    requires |rest| <= |prev| - 1 && (|rest| < |prev| - 1 <==> HasId(prev[1..], id))
    requires IdsUnique(prev[1..]) ==> IdsUnique(rest)
    ensures var r := [prev[0]] + rest;
      !HasId(r, id) &&
      (forall m :: m in r <==> m in prev && m.id != id) &&
      Subsequence(r, prev) &&
      |r| <= |prev| && (|r| < |prev| <==> HasId(prev, id)) &&
      (IdsUnique(prev) ==> IdsUnique(r))
  {
    var r := [prev[0]] + rest;
    HasIdCons(prev, id);
    HasIdCons(r, id);
    assert r[1..] == rest;
    if IdsUnique(prev) {
      UniqueCons(prev);
      UniqueCons(r);
    }
  }

  /** The filter keeps every entry without the id exactly as often as the
      list holds it, and no entry with the id. */
  lemma {:induction false} RemoveIdCounts(prev: seq<Movie>, id: int)
    ensures forall m :: multiset(RemoveId(prev, id))[m] == if m.id != id then multiset(prev)[m] else 0
    decreases |prev|
  {
    if prev != [] {
      RemoveIdCounts(prev[1..], id);
      assert prev == [prev[0]] + prev[1..];
      if prev[0].id != id {
        assert RemoveId(prev, id) == [prev[0]] + RemoveId(prev[1..], id);
      }
    }
  }

  lemma HasIdCons(s: seq<Movie>, id: int)
    requires s != []
    ensures HasId(s, id) <==> s[0].id == id || HasId(s[1..], id)
    ensures forall m :: m in s <==> m == s[0] || m in s[1..]
  {
    if HasId(s, id) {
      var i :| 0 <= i < |s| && s[i].id == id;
      if i > 0 { assert s[1..][i - 1].id == id; }
    }
    if HasId(s[1..], id) {
      var i :| 0 <= i < |s[1..]| && s[1..][i].id == id;
      assert s[i + 1].id == id;
    }
  }

  lemma UniqueCons(s: seq<Movie>)
    requires s != []
    ensures IdsUnique(s) <==> IdsUnique(s[1..]) && forall m :: m in s[1..] ==> m.id != s[0].id
  {
    if IdsUnique(s[1..]) && forall m :: m in s[1..] ==> m.id != s[0].id {
      forall i, j | 0 <= i < j < |s| ensures s[i].id != s[j].id {
        if i == 0 {
          assert s[j] in s[1..];
        } else {
          assert s[i] == s[1..][i - 1] && s[j] == s[1..][j - 1];
        }
      }
    }
  }

  /** toggleLike's and toggleWatchlist's updater: remove every entry with the
      snapshot's id when one is there, otherwise append the snapshot. */
  function Toggle(prev: seq<Movie>, movie: Movie): (r: seq<Movie>)
    ensures HasId(r, movie.id) <==> !HasId(prev, movie.id)
    ensures forall m: Movie :: m.id != movie.id ==> (m in r <==> m in prev)
    ensures RemoveId(r, movie.id) == RemoveId(prev, movie.id)
    ensures HasId(r, movie.id) ==> |r| == |prev| + 1 && r[|prev|] == movie
    ensures IdsUnique(prev) ==> IdsUnique(r)
  {
    if HasId(prev, movie.id) then
      RemoveIdOfClean(RemoveId(prev, movie.id), movie.id);
      RemoveId(prev, movie.id)
    else
      var r := prev + [movie];
      assert r[|prev|] == movie;
      assert HasId(r, movie.id);
      assert forall m :: m in r <==> m in prev || m == movie;
      RemoveIdAppend(prev, [movie], movie.id);
      RemoveIdOfClean(prev, movie.id);
      assert RemoveId([movie], movie.id) == [];
      r
  }

  /** rateMovie's updater: `prev.map(m => m.id === id ? { ...m, rating } : m)`. */
  function RateMovie(prev: seq<Movie>, id: int, rating: real): (r: seq<Movie>)
    ensures |r| == |prev|
    ensures forall i :: 0 <= i < |r| ==>
      r[i].id == prev[i].id && r[i].(rating := prev[i].rating) == prev[i]
    ensures forall i :: 0 <= i < |r| && prev[i].id == id ==> r[i].rating == Some(rating)
    ensures forall i :: 0 <= i < |r| && prev[i].id != id ==> r[i] == prev[i]
    ensures !HasId(prev, id) ==> r == prev
    ensures IdsUnique(prev) ==> IdsUnique(r)
  {
    seq(|prev|, i requires 0 <= i < |prev| =>
      if prev[i].id == id then prev[i].(rating := Some(rating)) else prev[i])
  }

  lemma {:induction false} RemoveIdAppend(a: seq<Movie>, b: seq<Movie>, id: int)
    ensures RemoveId(a + b, id) == RemoveId(a, id) + RemoveId(b, id)
    decreases |a|
  {
    if a != [] {
      var ab := a + b;
      assert ab[0] == a[0] && ab[1..] == a[1..] + b;
      RemoveIdAppend(a[1..], b, id);
      var x, y := RemoveId(a[1..], id), RemoveId(b, id);
      if a[0].id == id {
        assert RemoveId(ab, id) == x + y;
        assert RemoveId(a, id) == x;
      } else {
        assert RemoveId(ab, id) == [a[0]] + (x + y);
        assert RemoveId(a, id) == [a[0]] + x;
        assert [a[0]] + (x + y) == ([a[0]] + x) + y;
      }
    } else {
      assert a + b == b;
    }
  }

  /** Filtering out an id that is not there changes nothing. */
  lemma {:induction false} RemoveIdOfClean(s: seq<Movie>, id: int)
    requires !HasId(s, id)
    ensures RemoveId(s, id) == s
    decreases |s|
  {
    if s != [] {
      assert s[0].id != id;
      forall i | 0 <= i < |s[1..]| ensures s[1..][i].id != id {
        assert s[1..][i] == s[i + 1];
      }
      RemoveIdOfClean(s[1..], id);
      assert RemoveId(s, id) == [s[0]] + s[1..];
      assert s == [s[0]] + s[1..];
    }
  }

  /** Marking a movie watched twice (with any snapshot of the same id) has
      the effect of marking it once. */
  lemma MarkWatchedIdempotent(prev: seq<Movie>, movie: Movie, again: Movie)
    requires again.id == movie.id
    ensures MarkWatched(MarkWatched(prev, movie), again) == MarkWatched(prev, movie)
  {
  }

  /** From an absent id, two toggles restore the list exactly. */
  lemma ToggleTwiceFromAbsent(prev: seq<Movie>, movie: Movie, again: Movie)
    requires again.id == movie.id
    requires !HasId(prev, movie.id)
    ensures Toggle(Toggle(prev, movie), again) == prev
  {
    RemoveIdAppend(prev, [movie], movie.id);
    RemoveIdOfClean(prev, movie.id);
    assert RemoveId([movie], movie.id) == [];
  }

  /** From a present id, two toggles give the same id membership and the
      other entries in the same order, but the entry comes back at the end of
      the list as the snapshot passed to the second toggle. */
  lemma ToggleTwiceFromPresent(prev: seq<Movie>, movie: Movie, again: Movie)
    requires again.id == movie.id
    requires HasId(prev, movie.id)
    ensures Toggle(Toggle(prev, movie), again) == RemoveId(prev, movie.id) + [again]
    ensures forall id :: HasId(Toggle(Toggle(prev, movie), again), id) <==> HasId(prev, id)
  {
    var once := Toggle(prev, movie);
    var r := Toggle(once, again);
    assert once == RemoveId(prev, movie.id);
    assert r == once + [again];
    forall id | id != movie.id ensures HasId(r, id) <==> HasId(prev, id) {
      HasIdIffMember(r, id);
      HasIdIffMember(prev, id);
    }
  }

  lemma HasIdIffMember(s: seq<Movie>, id: int)
    ensures HasId(s, id) <==> exists m :: m in s && m.id == id
  {
    if exists m :: m in s && m.id == id {
      var m :| m in s && m.id == id;
      var i :| 0 <= i < |s| && s[i] == m;
    }
  }

  /** A witness that two toggles need not restore the list: the toggled
      movie moves from the front to the back. */
  lemma ToggleTwiceReorders()
    ensures var a := Movie(1, "A", None, None, None, None, None, None);
            var b := Movie(2, "B", None, None, None, None, None, None);
            IdsUnique([a, b]) && Toggle(Toggle([a, b], a), a) == [b, a]
  {
    var a := Movie(1, "A", None, None, None, None, None, None);
    var b := Movie(2, "B", None, None, None, None, None, None);
    assert HasId([a, b], 1) by { assert [a, b][0].id == 1; }
    ToggleTwiceFromPresent([a, b], a, a);
    assert RemoveId([b], 1) == [b];
    assert RemoveId([a, b], 1) == [b] by {
      assert [a, b][1..] == [b];
    }
  }

  /** Rating leaves the set of ids, and so every membership test, unchanged. */
  lemma RateMovieKeepsIds(prev: seq<Movie>, id: int, rating: real, other: int)
    ensures HasId(RateMovie(prev, id, rating), other) <==> HasId(prev, other)
  {
    var r := RateMovie(prev, id, rating);
    if HasId(prev, other) {
      var i :| 0 <= i < |prev| && prev[i].id == other;
      assert r[i].id == other;
    }
    if HasId(r, other) {
      var i :| 0 <= i < |r| && r[i].id == other;
      assert prev[i].id == other;
    }
  }
}
