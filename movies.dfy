/** The movie snapshot that every collection stores, and the predicates
    about id-keyed lists shared by the collection engine and the pages. */
module Movies {

  datatype Option<T> = None | Some(value: T) {
    function GetOr(default: T): T {
      match this
      case Some(v) => v
      case None => default
    }
  }

  /** A snapshot of catalog data taken when the user acted on a movie.
      `genres` is optional in the stored record; an absent list behaves as
      an empty one everywhere it is read. */
  datatype Movie = Movie(
    id: int,
    title: string,
    runtime: Option<int>,
    rating: Option<real>,
    voteAverage: Option<real>,
    genres: Option<seq<string>>,
    releaseDate: Option<string>,
    posterPath: Option<string>)

  /** `list.find(m => m.id === id)` is truthy: the found value is an object. */
  predicate HasId(s: seq<Movie>, id: int) {
    exists i :: 0 <= i < |s| && s[i].id == id
  }

  /** The collection invariant: no two entries share an id. */
  predicate IdsUnique(s: seq<Movie>) {
    forall i, j :: 0 <= i < j < |s| ==> s[i].id != s[j].id
  }

  predicate Distinct<T(==)>(s: seq<T>) {
    forall i, j :: 0 <= i < j < |s| ==> s[i] != s[j]
  }

  /** `t` is obtained from `s` by deleting entries, keeping the rest in order. */
  predicate Subsequence<T(==)>(t: seq<T>, s: seq<T>)
    decreases |s|
  {
    if t == [] then true
    else if s == [] then false
    else if t[0] == s[0] then Subsequence(t[1..], s[1..])
    else Subsequence(t, s[1..])
  }

  lemma UniqueIdsAreDistinct(s: seq<Movie>)
    requires IdsUnique(s)
    ensures Distinct(s)
  {
  }

  lemma {:induction false} SubsequenceMembers<T>(t: seq<T>, s: seq<T>)
    requires Subsequence(t, s)
    ensures forall x :: x in t ==> x in s
    ensures |t| <= |s|
    decreases |s|
  {
    if t != [] {
      if t[0] == s[0] {
        SubsequenceMembers(t[1..], s[1..]);
        assert forall x :: x in t ==> x == t[0] || x in t[1..];
      } else {
        SubsequenceMembers(t, s[1..]);
      }
    }
  }

  lemma {:induction false} SubsequenceRefl<T>(s: seq<T>)
    ensures Subsequence(s, s)
    decreases |s|
  {
    if s != [] {
      SubsequenceRefl(s[1..]);
    }
  }
}
