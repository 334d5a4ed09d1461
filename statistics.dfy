/** `loadStats` of src/hooks/userstats.ts: the statistics derived from the three
    collections, recomputed from scratch after every change.

    A JavaScript `Record<string, number>` is modelled as an association list
    of its own properties in enumeration order (`Object.entries`), so that the
    order in which genres were first counted, and with it the tie-break of the
    top genre, can be stated. */
module Statistics {
  import opened Movies
  import opened Text
  import opened Sorting

  datatype Entry = Entry(key: string, value: int)
  type Record = seq<Entry>

  /** The `Stats` record the hook publishes. */
  datatype Stats = Stats(
    watched: seq<Movie>,
    liked: seq<Movie>,
    watchlist: seq<Movie>,
    avgRating: real,
    totalTime: string,
    topGenre: string,
    genreFreq: Record)

  /** The record the hook starts with, before any collection is loaded. */
  const InitialStats := Stats([], [], [], 0.0, "0h 0m", "", [])

  // ---------------------------------------------------------------- records

  function Keys(rec: Record): (ks: seq<string>)
    ensures |ks| == |rec|
  {
    seq(|rec|, i requires 0 <= i < |rec| => rec[i].key)
  }

  /** `rec[key] || 0` (the entries' values are never 0 where this is used). */
  function Lookup(rec: Record, key: string): int
    decreases |rec|
  {
    if rec == [] then 0
    else if rec[0].key == key then rec[0].value
    else Lookup(rec[1..], key)
  }

  function SumValues(rec: Record): int
    decreases |rec|
  {
    if rec == [] then 0 else rec[0].value + SumValues(rec[1..])
  }

  /** `rec[key] = value`: an existing property keeps its place, a new one is
      enumerated last. */
  function Put(rec: Record, key: string, value: int): (r: Record)
    ensures key in Keys(rec) ==> Keys(r) == Keys(rec)
    ensures key !in Keys(rec) ==> r == rec + [Entry(key, value)]
    ensures Lookup(r, key) == value
    ensures forall k :: k != key ==> Lookup(r, k) == Lookup(rec, k)
    ensures SumValues(r) == SumValues(rec) - Lookup(rec, key) + value
    ensures forall e :: e in r ==> e in rec || e == Entry(key, value)
    decreases |rec|
  {
    if rec == [] then [Entry(key, value)]
    else if rec[0].key == key then
      PutHere(rec, key, value);
      [Entry(key, value)] + rec[1..]
    else
      var tail := Put(rec[1..], key, value);
      PutFurther(rec, key, value, tail);
      [rec[0]] + tail
  }

  /** Assigning the first key replaces its value in place. */
  lemma PutHere(rec: Record, key: string, value: int)
    requires rec != [] && rec[0].key == key
    ensures var r := [Entry(key, value)] + rec[1..];
      && key in Keys(rec)
      && Keys(r) == Keys(rec)
      && Lookup(r, key) == value
      && (forall k :: k != key ==> Lookup(r, k) == Lookup(rec, k))
      && SumValues(r) == SumValues(rec) - Lookup(rec, key) + value
      && (forall e :: e in r ==> e in rec || e == Entry(key, value))
  {
    var r := [Entry(key, value)] + rec[1..];
    assert r[1..] == rec[1..];
    assert Keys(r) == Keys(rec);
    assert Keys(rec)[0] == key;
  }

  /** Assigning a later key leaves the first entry where it is. */
  lemma PutFurther(rec: Record, key: string, value: int, tail: Record)
    requires rec != [] && rec[0].key != key
    requires key in Keys(rec[1..]) ==> Keys(tail) == Keys(rec[1..])
    requires key !in Keys(rec[1..]) ==> tail == rec[1..] + [Entry(key, value)]
    requires Lookup(tail, key) == value
    requires forall k :: k != key ==> Lookup(tail, k) == Lookup(rec[1..], k)
    requires SumValues(tail) == SumValues(rec[1..]) - Lookup(rec[1..], key) + value
    requires forall e :: e in tail ==> e in rec[1..] || e == Entry(key, value)
    ensures var r := [rec[0]] + tail;
      && (key in Keys(rec) ==> Keys(r) == Keys(rec))
      && (key !in Keys(rec) ==> r == rec + [Entry(key, value)])
      && Lookup(r, key) == value
      && (forall k :: k != key ==> Lookup(r, k) == Lookup(rec, k))
      && SumValues(r) == SumValues(rec) - Lookup(rec, key) + value
      && (forall e :: e in r ==> e in rec || e == Entry(key, value))
  {
    PutFurtherKeys(rec, key, value, tail);
    var r := [rec[0]] + tail;
    assert r[1..] == tail;
    PutFurtherMembers(rec, key, value, tail);
  }

  lemma PutFurtherKeys(rec: Record, key: string, value: int, tail: Record)
    requires rec != [] && rec[0].key != key
    requires key in Keys(rec[1..]) ==> Keys(tail) == Keys(rec[1..])
    requires key !in Keys(rec[1..]) ==> tail == rec[1..] + [Entry(key, value)]
    ensures key in Keys(rec) ==> Keys([rec[0]] + tail) == Keys(rec)
    ensures key !in Keys(rec) ==> [rec[0]] + tail == rec + [Entry(key, value)]
  {
    var r := [rec[0]] + tail;
    assert Keys(rec) == [rec[0].key] + Keys(rec[1..]);
    assert Keys(r) == [rec[0].key] + Keys(tail);
    assert key in Keys(rec) <==> key in Keys(rec[1..]);
    if key !in Keys(rec) {
      assert rec == [rec[0]] + rec[1..];
    }
  }

  lemma PutFurtherMembers(rec: Record, key: string, value: int, tail: Record)
    requires rec != []
    requires forall e :: e in tail ==> e in rec[1..] || e == Entry(key, value)
    ensures forall e :: e in [rec[0]] + tail ==> e in rec || e == Entry(key, value)
  {
    assert forall e :: e in rec[1..] ==> e in rec;
  }

  /** `rec[g] = (rec[g] || 0) + 1`. */
  function Bump(rec: Record, g: string): Record {
    Put(rec, g, Lookup(rec, g) + 1)
  }

  // ---------------------------------------------------- total watch time

  /** `m.runtime || 0`. */
  function RuntimeOf(m: Movie): int {
    m.runtime.GetOr(0)
  }

  /** `watchedMovies.map(m => m.runtime || 0).reduce((a, b) => a + b, 0)`. */
  function TotalMinutes(w: seq<Movie>): int
    decreases |w|
  {
    if w == [] then 0 else TotalMinutes(w[..|w| - 1]) + RuntimeOf(w[|w| - 1])
  }

  /** JavaScript's `%`: the remainder takes the sign of the dividend. */
  function JsRem(a: int, b: int): (r: int)
    requires b > 0
    ensures -b < r < b
    ensures a >= 0 ==> r == a % b
    ensures a < 0 ==> r <= 0 && (a - r) % b == 0
  {
    if a >= 0 then a % b
    else
      var q := (-a) / b;
      var r := -((-a) % b);
      assert a - r == b * (-q);
      DivModUnique(a - r, b, -q, 0);
      r
  }

  /** `${Math.floor(total / 60)}h ${total % 60}m`. */
  function FormatTotalTime(total: int): string {
    IntToString(total / 60) + "h " + IntToString(JsRem(total, 60)) + "m"
  }

  // ------------------------------------------------------ average rating

  /** `m.rating || 0`. */
  function RatingOrZero(m: Movie): real {
    m.rating.GetOr(0.0)
  }

  /** `likedMovies.map(m => m.rating || 0)`. */
  function Ratings(liked: seq<Movie>): (rs: seq<real>)
    ensures |rs| == |liked|
    ensures forall i :: 0 <= i < |liked| ==> rs[i] == RatingOrZero(liked[i])
    decreases |liked|
  {
    if liked == [] then [] else Ratings(liked[..|liked| - 1]) + [RatingOrZero(liked[|liked| - 1])]
  }

  /** `likedMovies.map(m => m.rating || 0).filter(r => r > 0)`: every
      positive rating, as often as it occurs, and nothing else. */
  function PositiveRatings(liked: seq<Movie>): (rs: seq<real>)
    ensures |rs| <= |liked|
    ensures forall i :: 0 <= i < |rs| ==> rs[i] > 0.0
    ensures forall x :: x in rs <==> x > 0.0 && exists m :: m in liked && RatingOrZero(m) == x
    decreases |liked|
  {
    if liked == [] then []
    else
      var prefix := liked[..|liked| - 1];
      var last := liked[|liked| - 1];
      assert forall m :: m in liked <==> m in prefix || m == last by {
        assert liked == prefix + [last];
      }
      var r := RatingOrZero(last);
      PositiveRatings(prefix) + (if r > 0.0 then [r] else [])
  }

  function SumReals(s: seq<real>): real
    decreases |s|
  {
    if s == [] then 0.0 else SumReals(s[..|s| - 1]) + s[|s| - 1]
  }

  /** `parseFloat(x.toFixed(1))` on the exact value: the nearest tenth, the
      larger one on a tie. */
  function RoundToTenth(x: real): (r: real)
    ensures x - 0.05 < r <= x + 0.05
    ensures (10.0 * r).Floor as real == 10.0 * r
  {
    ((10.0 * x + 0.5).Floor as real) / 10.0
  }

  /** The sum of the positive ratings of the liked movies, taken directly. */
  function PositiveSum(liked: seq<Movie>): real
    decreases |liked|
  {
    if liked == [] then 0.0
    else
      var r := RatingOrZero(liked[|liked| - 1]);
      PositiveSum(liked[..|liked| - 1]) + (if r > 0.0 then r else 0.0)
  }

  /** The number of liked movies with a positive rating. */
  function PositiveCount(liked: seq<Movie>): nat
    decreases |liked|
  {
    if liked == [] then 0
    else PositiveCount(liked[..|liked| - 1]) + (if RatingOrZero(liked[|liked| - 1]) > 0.0 then 1 else 0)
  }

  function AvgRating(liked: seq<Movie>): real {
    var rs := PositiveRatings(liked);
    if |rs| > 0 then RoundToTenth(SumReals(rs) / (|rs| as real)) else 0.0
  }

  // ------------------------------------------------------ genre counting

  /** `movie.genres?.forEach(...)` visits nothing when the list is absent. */
  function GenresOf(m: Movie): seq<string> {
    m.genres.GetOr([])
  }

  /** Every genre tag of the watched movies, in the order the nested
      `forEach` loops visit them. */
  function Tags(w: seq<Movie>): seq<string>
    decreases |w|
  {
    if w == [] then [] else Tags(w[..|w| - 1]) + GenresOf(w[|w| - 1])
  }

  /** Each distinct tag once, in order of first occurrence. */
  function FirstOccurrences(tags: seq<string>): (r: seq<string>)
    decreases |tags|
  {
    if tags == [] then []
    else
      var prefix := FirstOccurrences(tags[..|tags| - 1]);
      if tags[|tags| - 1] in prefix then prefix else prefix + [tags[|tags| - 1]]
  }

  /** The `genreCount` record after counting `tags` one at a time. */
  function CountTags(tags: seq<string>): Record
    decreases |tags|
  {
    if tags == [] then [] else Bump(CountTags(tags[..|tags| - 1]), tags[|tags| - 1])
  }

  /** The counting pass keeps one entry per distinct tag, in order of first
      occurrence, holding the tag's number of occurrences. */
  lemma CountTagsFacts(tags: seq<string>)
    ensures var r := CountTags(tags);
      && Keys(r) == FirstOccurrences(tags)
      && Distinct(Keys(r))
      && (forall g :: Lookup(r, g) == multiset(tags)[g])
      && (forall g :: g in Keys(r) <==> g in tags)
      && (forall e :: e in r ==> e.value >= 1)
      && SumValues(r) == |tags|
  {
    CountTagsKeys(tags);
    CountTagsLookup(tags);
    CountTagsPositive(tags);
    CountTagsSum(tags);
  }

  lemma {:induction false} CountTagsKeys(tags: seq<string>)
    ensures Keys(CountTags(tags)) == FirstOccurrences(tags)
    ensures Distinct(Keys(CountTags(tags)))
    ensures forall g :: g in Keys(CountTags(tags)) <==> g in tags
    decreases |tags|
  {
    FirstOccurrencesFacts(tags);
    if tags != [] {
      var prefix := tags[..|tags| - 1];
      var g := tags[|tags| - 1];
      CountTagsKeys(prefix);
      var before := CountTags(prefix);
      if g !in Keys(before) {
        assert Keys(Bump(before, g)) == Keys(before) + [g];
      }
    }
  }

  /** Each tag occurs once among the first occurrences, and every tag does. */
  lemma {:induction false} FirstOccurrencesFacts(tags: seq<string>)
    ensures Distinct(FirstOccurrences(tags))
    ensures forall g :: g in FirstOccurrences(tags) <==> g in tags
    decreases |tags|
  {
    if tags != [] {
      var prefix := tags[..|tags| - 1];
      var g := tags[|tags| - 1];
      assert tags == prefix + [g];
      assert forall h :: h in tags <==> h in prefix || h == g;
      FirstOccurrencesFacts(prefix);
    }
  }

  lemma {:induction false} CountTagsLookup(tags: seq<string>)
    ensures forall g :: Lookup(CountTags(tags), g) == multiset(tags)[g]
    decreases |tags|
  {
    if tags != [] {
      var prefix := tags[..|tags| - 1];
      assert tags == prefix + [tags[|tags| - 1]];
      CountTagsLookup(prefix);
    }
  }

  lemma {:induction false} CountTagsPositive(tags: seq<string>)
    ensures forall e :: e in CountTags(tags) ==> e.value >= 1
    decreases |tags|
  {
    if tags != [] {
      var prefix := tags[..|tags| - 1];
      CountTagsPositive(prefix);
      LookupNonNeg(CountTags(prefix), tags[|tags| - 1]);
    }
  }

  lemma {:induction false} CountTagsSum(tags: seq<string>)
    ensures SumValues(CountTags(tags)) == |tags|
    decreases |tags|
  {
    if tags != [] {
      CountTagsSum(tags[..|tags| - 1]);
    }
  }

  /** `Math.round((count / total) * 100)` on exact values, and 0 when there
      are no tags. */
  function Percent(count: int, total: int): (p: int)
    ensures total > 0 ==> 2 * total * p <= 200 * count + total < 2 * total * (p + 1)
    ensures total <= 0 ==> p == 0
  {
    if total > 0 then (200 * count + total) / (2 * total) else 0
  }

  /** The `genreFreq` record: the same keys as `rec`, in the same order. */
  function Frequencies(rec: Record, total: int): (f: Record)
    ensures |f| == |rec|
    ensures Keys(f) == Keys(rec)
  {
    seq(|rec|, i requires 0 <= i < |rec| => Entry(rec[i].key, Percent(rec[i].value, total)))
  }

  /** Index of the first entry holding the largest value. */
  function FirstMaxIndex(rec: Record): (k: nat)
    requires rec != []
    ensures k < |rec|
    ensures forall j :: 0 <= j < |rec| ==> rec[j].value <= rec[k].value
    ensures forall j :: 0 <= j < k ==> rec[j].value < rec[k].value
    decreases |rec|
  {
    if |rec| == 1 then 0
    else
      var k := FirstMaxIndex(rec[..|rec| - 1]);
      assert forall j :: 0 <= j < |rec| - 1 ==> rec[j] == rec[..|rec| - 1][j];
      if rec[|rec| - 1].value > rec[k].value then |rec| - 1 else k
  }

  /** `(a, b) => b[1] - a[1]`: larger counts first. */
  function ByCountDescending(): Comparator<Entry> {
    (a: Entry, b: Entry) => (b.value - a.value) as real
  }

  /** `Object.entries(rec).sort((a, b) => b[1] - a[1])[0]?.[0] || ""`. */
  function TopGenre(rec: Record): string {
    var sorted := Sort(rec, ByCountDescending());
    if sorted == [] then "" else sorted[0].key
  }

  /** The sort is stable, so its head is the first entry with the largest value. */
  lemma {:induction false} SortedHeadIsFirstMax(rec: Record)
    requires rec != []
    ensures Sort(rec, ByCountDescending())[0] == rec[FirstMaxIndex(rec)]
    decreases |rec|
  {
    if |rec| > 1 {
      var prefix := rec[..|rec| - 1];
      SortedHeadIsFirstMax(prefix);
      assert forall j :: 0 <= j < |rec| - 1 ==> rec[j] == prefix[j];
    }
  }

  function GenreCount(w: seq<Movie>): Record {
    CountTags(Tags(w))
  }

  /** The statistics `loadStats` publishes for the three current lists. */
  function StatsOf(watched: seq<Movie>, liked: seq<Movie>, watchlist: seq<Movie>): Stats {
    var counts := GenreCount(watched);
    Stats(watched, liked, watchlist,
          AvgRating(liked),
          FormatTotalTime(TotalMinutes(watched)),
          TopGenre(counts),
          Frequencies(counts, SumValues(counts)))
  }

  // ------------------------------------------------------------ loadStats

  /** `loadStats`: each derived value computed in turn, as the hook does. */
  method ComputeStats(watched: seq<Movie>, liked: seq<Movie>, watchlist: seq<Movie>)
    returns (s: Stats)
    ensures s == StatsOf(watched, liked, watchlist)
  {
    var totalMinutes := SumRuntimes(watched);
    var totalTime := FormatTotalTime(totalMinutes);

    var ratings := CollectPositiveRatings(liked);
    var sum := SumRatings(ratings);
    var avgRating := if |ratings| > 0 then RoundToTenth(sum / (|ratings| as real)) else 0.0;

    var genreCount := CountGenres(watched);
    CountTagsFacts(Tags(watched));
    var totalGenres := SumCounts(genreCount);
    var genreFreq := ComputeFrequencies(genreCount, totalGenres);

    var topGenre := TopGenre(genreCount);
    s := Stats(watched, liked, watchlist, avgRating, totalTime, topGenre, genreFreq);
  }

  /** `watchedMovies.map(m => m.runtime || 0).reduce((a, b) => a + b, 0)`. */
  method SumRuntimes(watched: seq<Movie>) returns (total: int)
    ensures total == TotalMinutes(watched)
  {
    total := 0;
    var i := 0;
    while i < |watched|
      invariant 0 <= i <= |watched|
      invariant total == TotalMinutes(watched[..i])
    {
      assert watched[..i + 1][..i] == watched[..i];
      total := total + RuntimeOf(watched[i]);
      i := i + 1;
    }
    assert watched[..|watched|] == watched;
  }

  /** `likedMovies.map(m => m.rating || 0).filter(r => r > 0)`. */
  method CollectPositiveRatings(liked: seq<Movie>) returns (ratings: seq<real>)
    ensures ratings == PositiveRatings(liked)
  {
    ratings := [];
    var i := 0;
    while i < |liked|
      invariant 0 <= i <= |liked|
      invariant ratings == PositiveRatings(liked[..i])
    {
      assert liked[..i + 1][..i] == liked[..i];
      var r := RatingOrZero(liked[i]);
      if r > 0.0 {
        ratings := ratings + [r];
      }
      i := i + 1;
    }
    assert liked[..|liked|] == liked;
  }

  /** `ratings.reduce((a, b) => a + b, 0)`. */
  method SumRatings(ratings: seq<real>) returns (sum: real)
    ensures sum == SumReals(ratings)
  {
    sum := 0.0;
    var i := 0;
    while i < |ratings|
      invariant 0 <= i <= |ratings|
      invariant sum == SumReals(ratings[..i])
    {
      assert ratings[..i + 1][..i] == ratings[..i];
      sum := sum + ratings[i];
      i := i + 1;
    }
    assert ratings[..|ratings|] == ratings;
  }

  /** The nested `forEach` loops that fill `genreCount` in place. */
  method CountGenres(watched: seq<Movie>) returns (genreCount: Record)
    ensures genreCount == GenreCount(watched)
  {
    genreCount := [];
    ghost var seen: seq<string> := [];
    var i := 0;
    while i < |watched|
      invariant 0 <= i <= |watched|
      invariant seen == Tags(watched[..i])
      invariant genreCount == CountTags(seen)
    {
      genreCount := CountMovieGenres(genreCount, seen, GenresOf(watched[i]));
      TagsStep(watched, i);
      seen := seen + GenresOf(watched[i]);
      i := i + 1;
    }
    assert watched[..|watched|] == watched;
  }

  /** The inner `forEach` over one movie's genres: every tag adds one to its
      count. */
  method CountMovieGenres(counts: Record, ghost seen: seq<string>, genres: seq<string>)
    returns (genreCount: Record)
    requires counts == CountTags(seen)
    ensures genreCount == CountTags(seen + genres)
  {
    genreCount := counts;
    var j := 0;
    CountTagsEnds(seen, genres);
    while j < |genres|
      invariant 0 <= j <= |genres|
      invariant genreCount == CountTags(seen + genres[..j])
    {
      CountTagsStep(seen, genres, j);
      genreCount := Bump(genreCount, genres[j]);
      j := j + 1;
    }
  }

  /** `Object.values(genreCount).reduce((a, b) => a + b, 0)`. */
  method SumCounts(rec: Record) returns (total: int)
    ensures total == SumValues(rec)
  {
    total := 0;
    var k := 0;
    while k < |rec|
      invariant 0 <= k <= |rec|
      invariant total + SumValues(rec[k..]) == SumValues(rec)
    {
      assert rec[k..][1..] == rec[k + 1..];
      total := total + rec[k].value;
      k := k + 1;
    }
  }

  /** The `for` loop that fills `genreFreq`; the keys of a record are
      distinct, so every assignment adds a new key. */
  method ComputeFrequencies(rec: Record, total: int) returns (freq: Record)
    requires Distinct(Keys(rec))
    ensures freq == Frequencies(rec, total)
  {
    freq := [];
    var k := 0;
    while k < |rec|
      invariant 0 <= k <= |rec|
      invariant freq == Frequencies(rec[..k], total)
    {
      var key := rec[k].key;
      forall j | 0 <= j < k ensures Keys(rec[..k])[j] != key {
        assert Keys(rec)[j] != Keys(rec)[k];
      }
      freq := Put(freq, key, Percent(rec[k].value, total));
      assert Frequencies(rec[..k + 1], total) == Frequencies(rec[..k], total) + [Entry(key, Percent(rec[k].value, total))];
      k := k + 1;
    }
    assert rec[..|rec|] == rec;
  }

  // -------------------------------------------------------- record lemmas

  lemma CountTagsEnds(seen: seq<string>, genres: seq<string>)
    ensures CountTags(seen + genres[..0]) == CountTags(seen)
    ensures CountTags(seen + genres[..|genres|]) == CountTags(seen + genres)
  {
    assert seen + genres[..0] == seen;
    assert genres[..|genres|] == genres;
  }

  lemma CountTagsStep(seen: seq<string>, genres: seq<string>, j: nat)
    requires j < |genres|
    ensures CountTags(seen + genres[..j + 1]) == Bump(CountTags(seen + genres[..j]), genres[j])
  {
    var t := seen + genres[..j + 1];
    assert t[..|t| - 1] == seen + genres[..j];
  }

  lemma TagsStep(w: seq<Movie>, i: nat)
    requires i < |w|
    ensures Tags(w[..i + 1]) == Tags(w[..i]) + GenresOf(w[i])
  {
    assert w[..i + 1][..i] == w[..i];
  }

  lemma {:induction false} LookupNonNeg(rec: Record, key: string)
    requires forall e :: e in rec ==> e.value >= 1
    ensures Lookup(rec, key) >= 0
    decreases |rec|
  {
    if rec != [] && rec[0].key != key {
      assert forall e :: e in rec[1..] ==> e in rec;
      LookupNonNeg(rec[1..], key);
    }
  }

  /** No single count exceeds the total of all counts. */
  lemma {:induction false} ValueAtMostSum(rec: Record, i: nat)
    requires i < |rec|
    requires forall e :: e in rec ==> e.value >= 0
    ensures 0 <= rec[i].value <= SumValues(rec)
    decreases |rec|
  {
    SumNonNeg(rec[1..]);
    if i > 0 {
      assert rec[i] == rec[1..][i - 1];
      ValueAtMostSum(rec[1..], i - 1);
    }
  }

  lemma {:induction false} SumNonNeg(rec: Record)
    requires forall e :: e in rec ==> e.value >= 0
    ensures SumValues(rec) >= 0
    decreases |rec|
  {
    if rec != [] {
      assert forall e :: e in rec[1..] ==> e in rec;
      SumNonNeg(rec[1..]);
    }
  }

  // ------------------------------------------------- properties of loadStats

  /** The record the hook starts with is the one `loadStats` computes for
      three empty lists. */
  lemma InitialStatsAreStatsOfEmpty()
    ensures StatsOf([], [], []) == InitialStats
  {
    assert NatToString(0) == "0";
  }

  /** With nothing watched: "0h 0m", no top genre and no frequencies. */
  lemma EmptyWatchedDefaults(liked: seq<Movie>, watchlist: seq<Movie>)
    ensures StatsOf([], liked, watchlist).totalTime == "0h 0m"
    ensures StatsOf([], liked, watchlist).topGenre == ""
    ensures StatsOf([], liked, watchlist).genreFreq == []
  {
    assert NatToString(0) == "0";
  }

  /** Runtimes that are never negative give a total that is never negative. */
  lemma {:induction false} TotalMinutesNonNeg(w: seq<Movie>)
    requires forall m :: m in w ==> RuntimeOf(m) >= 0
    ensures TotalMinutes(w) >= 0
    decreases |w|
  {
    if w != [] {
      assert forall m :: m in w[..|w| - 1] ==> m in w;
      TotalMinutesNonNeg(w[..|w| - 1]);
    }
  }

  /** For a non-negative total, the display reads hours `h` and minutes `m`
      for the unique `h`, `m` with `60 * h + m == total` and `m < 60`. */
  lemma TotalTimeDisplay(total: int, h: nat, m: nat)
    requires total >= 0
    requires 60 * h + m == total && m < 60
    ensures FormatTotalTime(total) == NatToString(h) + "h " + NatToString(m) + "m"
  {
    assert total / 60 == h && total % 60 == m by {
      DivModUnique(total, 60, h, m);
    }
  }

  lemma DivModUnique(a: int, b: int, q: int, r: int)
    requires b > 0 && a == b * q + r && 0 <= r < b
    ensures a / b == q && a % b == r
  {
    var q', r' := a / b, a % b;
    assert a == b * q' + r';
    if q' > q {
      assert b * q' >= b * (q + 1) by { MulMono(b, q + 1, q'); }
    } else if q' < q {
      assert b * q >= b * (q' + 1) by { MulMono(b, q' + 1, q); }
    }
  }

  lemma MulMono(b: int, x: int, y: int)
    requires b > 0 && x <= y
    ensures b * x <= b * y
  {
    assert b * y - b * x == b * (y - x);
  }

  /** With the watched movies' runtimes given, the minutes part lies in 0..59
      and hours and minutes add back up to the total. */
  lemma TotalTimeSplit(w: seq<Movie>)
    requires forall m :: m in w ==> RuntimeOf(m) >= 0
    ensures var t := TotalMinutes(w);
            t >= 0 && 0 <= JsRem(t, 60) < 60 && 60 * (t / 60) + JsRem(t, 60) == t
  {
    TotalMinutesNonNeg(w);
  }

  /** Only positive ratings enter the average; with none the average is 0. */
  lemma {:induction false} AvgRatingWithoutPositive(liked: seq<Movie>)
    requires forall m :: m in liked ==> RatingOrZero(m) <= 0.0
    ensures PositiveRatings(liked) == []
    ensures AvgRating(liked) == 0.0
    decreases |liked|
  {
    if liked != [] {
      var prefix := liked[..|liked| - 1];
      assert forall m :: m in prefix ==> m in liked;
      AvgRatingWithoutPositive(prefix);
      assert liked[|liked| - 1] in liked;
    }
  }

  lemma {:induction false} SumRealsBounds(s: seq<real>, lo: real, hi: real)
    requires forall i :: 0 <= i < |s| ==> lo <= s[i] <= hi
    ensures lo * (|s| as real) <= SumReals(s) <= hi * (|s| as real)
    decreases |s|
  {
    if s != [] {
      SumRealsBounds(s[..|s| - 1], lo, hi);
    }
  }

  /** The filter keeps each positive rating as often as the mapped ratings
      hold it, and no other value. */
  lemma {:induction false} PositiveRatingsCounts(liked: seq<Movie>)
    ensures forall x :: multiset(PositiveRatings(liked))[x] == if x > 0.0 then multiset(Ratings(liked))[x] else 0
    decreases |liked|
  {
    if liked != [] {
      var prefix := liked[..|liked| - 1];
      PositiveRatingsCounts(prefix);
      var r := RatingOrZero(liked[|liked| - 1]);
      assert Ratings(liked) == Ratings(prefix) + [r];
      if r > 0.0 {
        assert PositiveRatings(liked) == PositiveRatings(prefix) + [r];
      } else {
        assert PositiveRatings(liked) == PositiveRatings(prefix) + [];
      }
    }
  }

  /** The filtered ratings add up to the positive ratings' sum, and there
      are as many as there are positively rated movies. */
  lemma {:induction false} PositiveRatingsSumCount(liked: seq<Movie>)
    ensures SumReals(PositiveRatings(liked)) == PositiveSum(liked)
    ensures |PositiveRatings(liked)| == PositiveCount(liked)
    decreases |liked|
  {
    if liked != [] {
      var prefix := liked[..|liked| - 1];
      PositiveRatingsSumCount(prefix);
      var rs := PositiveRatings(liked);
      var r := RatingOrZero(liked[|liked| - 1]);
      if r > 0.0 {
        assert rs == PositiveRatings(prefix) + [r];
        assert rs[..|rs| - 1] == PositiveRatings(prefix) && rs[|rs| - 1] == r;
      } else {
        assert rs == PositiveRatings(prefix) + [];
        assert rs == PositiveRatings(prefix);
        assert PositiveSum(liked) == PositiveSum(prefix) + 0.0;
      }
    }
  }

  /** With a positive rating, the average is the mean of the positive
      ratings rounded to a whole number of tenths: it is a multiple of 0.1
      within half a tenth of the mean (and so the nearest tenth, the larger
      on a tie). It lies in 0..5 when every rating is at most 5. */
  lemma AvgRatingBounds(liked: seq<Movie>)
    requires exists m :: m in liked && RatingOrZero(m) > 0.0
    ensures PositiveCount(liked) > 0
    ensures var mean := PositiveSum(liked) / (PositiveCount(liked) as real);
            mean - 0.05 < AvgRating(liked) <= mean + 0.05 &&
            (10.0 * AvgRating(liked)).Floor as real == 10.0 * AvgRating(liked)
    ensures (forall m :: m in liked ==> RatingOrZero(m) <= 5.0) ==> 0.0 <= AvgRating(liked) <= 5.0
  {
    var rs := PositiveRatings(liked);
    var m :| m in liked && RatingOrZero(m) > 0.0;
    assert RatingOrZero(m) in rs;
    PositiveRatingsSumCount(liked);
    if forall m :: m in liked ==> RatingOrZero(m) <= 5.0 {
      AvgRatingAtMostFive(liked);
    }
  }

  lemma AvgRatingAtMostFive(liked: seq<Movie>)
    requires PositiveRatings(liked) != []
    requires forall m :: m in liked ==> RatingOrZero(m) <= 5.0
    ensures 0.0 <= AvgRating(liked) <= 5.0
  {
    var rs := PositiveRatings(liked);
    forall i | 0 <= i < |rs| ensures 0.0 <= rs[i] <= 5.0 {
      assert rs[i] in rs;
    }
    SumRealsBounds(rs, 0.0, 5.0);
    MeanBounds(SumReals(rs), |rs| as real, 5.0);
    RoundToTenthRange(SumReals(rs) / (|rs| as real), 5.0);
  }

  lemma MeanBounds(sum: real, n: real, hi: real)
    requires n > 0.0 && 0.0 <= sum <= hi * n
    ensures 0.0 <= sum / n <= hi
  {
  }

  lemma RoundToTenthRange(x: real, hi: real)
    requires 0.0 <= x <= hi && (10.0 * hi).Floor as real == 10.0 * hi
    ensures 0.0 <= RoundToTenth(x) <= hi
  {
    var y := 10.0 * x + 0.5;
    assert y.Floor >= 0;
    assert y < 10.0 * hi + 1.0;
    assert y.Floor <= (10.0 * hi).Floor;
  }

  /** Each genre's count is its number of occurrences across the watched
      movies' genre lists, and the counts add up to the number of tags. */
  lemma GenreCountIsOccurrences(w: seq<Movie>, g: string)
    ensures Lookup(GenreCount(w), g) == multiset(Tags(w))[g]
    ensures g in Keys(GenreCount(w)) <==> g in Tags(w)
    ensures SumValues(GenreCount(w)) == |Tags(w)|
  {
    CountTagsFacts(Tags(w));
  }

  /** A count between 0 and the total gives a percentage between 0 and 100. */
  lemma PercentRange(c: int, t: int)
    requires 0 <= c <= t
    ensures 0 <= Percent(c, t) <= 100
  {
    if t > 0 {
      var p := Percent(c, t);
      assert 200 * c + t <= 201 * t;
      if p > 100 {
        MulMono(2 * t, 101, p);
      }
      if p < 0 {
        MulMono(2 * t, p + 1, 0);
      }
    }
  }

  /** Every percentage lies in 0..100 and is the rounded share of its
      genre's count in the total; `genreFreq` has exactly the keys of
      `genreCount`, in the same order, and is empty exactly when no genre
      tag was seen. */
  lemma FrequenciesBounds(w: seq<Movie>)
    ensures var counts := GenreCount(w);
            var total := SumValues(counts);
            var freq := Frequencies(counts, total);
            Keys(freq) == Keys(counts) &&
            (freq == [] <==> Tags(w) == []) &&
            forall i :: 0 <= i < |freq| ==>
              0 <= freq[i].value <= 100 &&
              2 * total * freq[i].value <= 200 * counts[i].value + total < 2 * total * (freq[i].value + 1)
  {
    CountsPositive(Tags(w));
    SharesInRange(GenreCount(w));
  }

  /** The counting pass yields positive counts, and no entry only for no tags. */
  lemma CountsPositive(tags: seq<string>)
    ensures forall e :: e in CountTags(tags) ==> e.value >= 1
    ensures CountTags(tags) == [] <==> tags == []
  {
    CountTagsFacts(tags);
    if tags != [] {
      assert tags[0] in tags;
      assert Keys(CountTags(tags)) != [];
    }
  }

  /** For positive counts, each share of the total lies in 0..100. */
  lemma SharesInRange(counts: Record)
    requires forall e :: e in counts ==> e.value >= 1
    ensures var total := SumValues(counts);
            var freq := Frequencies(counts, total);
            forall i :: 0 <= i < |freq| ==>
              0 <= freq[i].value <= 100 &&
              2 * total * freq[i].value <= 200 * counts[i].value + total < 2 * total * (freq[i].value + 1)
  {
    var total := SumValues(counts);
    var freq := Frequencies(counts, total);
    forall i | 0 <= i < |freq|
      ensures 0 <= freq[i].value <= 100
      ensures 2 * total * freq[i].value <= 200 * counts[i].value + total < 2 * total * (freq[i].value + 1)
    {
      assert counts[i] in counts;
      ValueAtMostSum(counts, i);
      PercentRange(counts[i].value, total);
    }
  }

  /** Rounding each share moves the sum of the percentages away from 100
      by at most half a point per genre: `100 - n/2 < sum <= 100 + n/2` for
      `n` distinct genres. */
  lemma FrequenciesSumNearHundred(w: seq<Movie>)
    requires Tags(w) != []
    ensures var counts := GenreCount(w);
            var n := |counts|;
            var sum := SumValues(Frequencies(counts, SumValues(counts)));
            200 - n < 2 * sum <= 200 + n
  {
    var counts := GenreCount(w);
    CountTagsFacts(Tags(w));
    var total := SumValues(counts);
    assert Tags(w)[0] in Tags(w);
    assert counts != [];
    RoundingError(counts, total);
    var sum := SumValues(Frequencies(counts, total));
    CancelFactor(total, sum, |counts|);
  }

  /** From `-n*t < d <= n*t` with `d == 2*t*sum - 200*t` conclude the bound. */
  lemma CancelFactor(t: int, sum: int, n: int)
    requires t > 0
    requires -(n * t) < 2 * t * sum - 200 * t <= n * t
    ensures 200 - n < 2 * sum <= 200 + n
  {
    assert 2 * t * sum - 200 * t == t * (2 * sum - 200);
    assert n * t == t * n;
    assert -(n * t) == t * (-n);
    MulCancel(t, 2 * sum - 200, n);
    MulCancelStrict(t, -n, 2 * sum - 200);
  }

  lemma MulCancel(t: int, a: int, b: int)
    requires t > 0 && t * a <= t * b
    ensures a <= b
  {
    if a > b {
      assert t * (b + 1) == t * b + t;
      MulMono(t, b + 1, a);
    }
  }

  lemma MulCancelStrict(t: int, a: int, b: int)
    requires t > 0 && t * a < t * b
    ensures a < b
  {
    if a >= b {
      MulMono(t, b, a);
    }
  }

  /** Summed over all entries, the rounding error of `2*t*percent` against
      `200*count` stays within `t` per entry. */
  lemma {:induction false} RoundingError(rec: Record, total: int)
    requires total > 0
    ensures var d := 2 * total * SumValues(Frequencies(rec, total)) - 200 * SumValues(rec);
            d <= |rec| * total && (rec != [] ==> -(|rec| * total) < d)
    decreases |rec|
  {
    if rec != [] {
      var f := Frequencies(rec, total);
      var tail := rec[1..];
      assert f[1..] == Frequencies(tail, total);
      RoundingError(tail, total);
      var p := Percent(rec[0].value, total);
      var st := SumValues(Frequencies(tail, total));
      assert SumValues(f) == p + st;
      ErrorStep(total, p, st, rec[0].value, SumValues(tail), |tail|);
    }
  }

  lemma ErrorStep(t: int, p: int, st: int, c: int, sc: int, n: nat)
    requires t > 0
    requires 2 * t * p <= 200 * c + t < 2 * t * (p + 1)
    requires 2 * t * st - 200 * sc <= n * t
    requires n > 0 ==> -(n * t) < 2 * t * st - 200 * sc
    requires n == 0 ==> st == 0 && sc == 0
    ensures 2 * t * (p + st) - 200 * (c + sc) <= (n + 1) * t
    ensures -((n + 1) * t) < 2 * t * (p + st) - 200 * (c + sc)
  {
    assert 2 * t * (p + st) == 2 * t * p + 2 * t * st;
    assert 2 * t * (p + 1) == 2 * t * p + 2 * t;
    assert (n + 1) * t == n * t + t;
    assert n == 0 ==> n * t == 0;
  }

  /** The top genre has a count at least every other genre's count; every
      genre first seen before it has a strictly smaller count, so among equal
      counts the genre seen first wins; with no tags it is "". */
  lemma TopGenreIsFirstMaximum(w: seq<Movie>)
    ensures Tags(w) == [] ==> TopGenre(GenreCount(w)) == ""
    ensures Tags(w) != [] ==>
      var tags := Tags(w);
      var top := TopGenre(GenreCount(w));
      var order := FirstOccurrences(tags);
      top in tags &&
      (forall g :: multiset(tags)[g] <= multiset(tags)[top]) &&
      (forall k :: 0 <= k < |order| && order[k] != top && top in order[k + 1..] ==>
         multiset(tags)[order[k]] < multiset(tags)[top])
  {
    if Tags(w) != [] {
      TopTagIsMaximum(Tags(w));
      TopTagIsFirst(Tags(w));
    }
  }

  /** The top genre is the key at the first largest count. */
  lemma TopGenreAt(rec: Record)
    requires rec != []
    ensures TopGenre(rec) == rec[FirstMaxIndex(rec)].key
  {
    SortedHeadIsFirstMax(rec);
  }

  lemma TopTagIsMaximum(tags: seq<string>)
    requires tags != []
    ensures var top := TopGenre(CountTags(tags));
      top in tags && forall g :: multiset(tags)[g] <= multiset(tags)[top]
  {
    var counts := CountTags(tags);
    CountTagsKeys(tags);
    CountTagsLookup(tags);
    assert tags[0] in Keys(counts);
    var t := FirstMaxIndex(counts);
    TopGenreAt(counts);
    var top := counts[t].key;
    assert Keys(counts)[t] == top;
    LookupAt(counts, t);
    assert multiset(tags)[top] == counts[t].value;
    forall g | g in tags ensures multiset(tags)[g] <= counts[t].value {
      var j :| 0 <= j < |counts| && Keys(counts)[j] == g;
      LookupAt(counts, j);
    }
    assert forall g :: g !in tags ==> multiset(tags)[g] == 0;
  }

  lemma TopTagIsFirst(tags: seq<string>)
    requires tags != []
    ensures var top := TopGenre(CountTags(tags));
      var order := FirstOccurrences(tags);
      forall k :: 0 <= k < |order| && order[k] != top && top in order[k + 1..] ==>
        multiset(tags)[order[k]] < multiset(tags)[top]
  {
    var counts := CountTags(tags);
    CountTagsKeys(tags);
    CountTagsLookup(tags);
    assert tags[0] in tags;
    var t := FirstMaxIndex(counts);
    TopGenreAt(counts);
    var top := counts[t].key;
    var order := FirstOccurrences(tags);
    LookupAt(counts, t);
    forall k | 0 <= k < |order| && order[k] != top && top in order[k + 1..]
      ensures multiset(tags)[order[k]] < multiset(tags)[top]
    {
      var j :| 0 <= j < |order[k + 1..]| && order[k + 1..][j] == top;
      assert order[k + 1 + j] == top;
      assert Keys(counts)[t] == top;
      assert k < t;
      LookupAt(counts, k);
    }
  }

  /** In a record with distinct keys, looking up the i-th key gives the i-th value. */
  lemma {:induction false} LookupAt(rec: Record, i: nat)
    requires i < |rec|
    requires Distinct(Keys(rec))
    ensures Lookup(rec, rec[i].key) == rec[i].value
    decreases |rec|
  {
    if i > 0 {
      assert Keys(rec)[0] != Keys(rec)[i];
      assert Keys(rec[1..]) == Keys(rec)[1..];
      LookupAt(rec[1..], i - 1);
    }
  }

  // ------------------------------------------------------- worked examples

  /** Two watched movies of 120 and 90 minutes, tagged Action/Drama and
      Drama: "3h 30m", Drama counted twice and Action once, shares 33 and 67,
      and Drama on top. */
  lemma WorkedExampleWatched()
    ensures var a := Movie(1, "A", Some(120), None, None, Some(["Action", "Drama"]), None, None);
            var b := Movie(2, "B", Some(90), None, None, Some(["Drama"]), None, None);
            var s := StatsOf([a, b], [], []);
            s.totalTime == "3h 30m" &&
            GenreCount([a, b]) == [Entry("Action", 1), Entry("Drama", 2)] &&
            s.genreFreq == [Entry("Action", 33), Entry("Drama", 67)] &&
            s.topGenre == "Drama"
  {
    var a := Movie(1, "A", Some(120), None, None, Some(["Action", "Drama"]), None, None);
    var b := Movie(2, "B", Some(90), None, None, Some(["Drama"]), None, None);
    ExampleTotalTime(a, b);
    ExampleCounts(a, b);
    ExampleShares();
  }

  lemma ExampleTotalTime(a: Movie, b: Movie)
    requires a.runtime == Some(120) && b.runtime == Some(90)
    ensures FormatTotalTime(TotalMinutes([a, b])) == "3h 30m"
  {
    assert [a, b][..1] == [a];
    assert [a][..0] == [];
    assert TotalMinutes([a]) == 120;
    assert TotalMinutes([a, b]) == 210;
    assert NatToString(3) == "3";
    assert NatToString(30) == "30" by {
      assert NatToString(3) == "3";
    }
  }

  lemma ExampleCounts(a: Movie, b: Movie)
    requires a.genres == Some(["Action", "Drama"]) && b.genres == Some(["Drama"])
    ensures GenreCount([a, b]) == [Entry("Action", 1), Entry("Drama", 2)]
  {
    assert [a, b][..1] == [a];
    assert [a][..0] == [];
    assert Tags([a]) == ["Action", "Drama"];
    assert Tags([a, b]) == ["Action", "Drama", "Drama"];
    var tags := ["Action", "Drama", "Drama"];
    assert tags[..2] == ["Action", "Drama"];
    assert tags[..2][..1] == ["Action"];
    assert CountTags(["Action"]) == [Entry("Action", 1)];
    assert CountTags(["Action", "Drama"]) == [Entry("Action", 1), Entry("Drama", 1)];
  }

  lemma ExampleShares()
    ensures var counts := [Entry("Action", 1), Entry("Drama", 2)];
            Frequencies(counts, SumValues(counts)) == [Entry("Action", 33), Entry("Drama", 67)] &&
            TopGenre(counts) == "Drama"
  {
    var counts := [Entry("Action", 1), Entry("Drama", 2)];
    assert SumValues(counts) == 3;
    assert Percent(1, 3) == 33;
    assert Percent(2, 3) == 67;
    assert counts[..1] == [Entry("Action", 1)];
    assert FirstMaxIndex(counts) == 1;
    SortedHeadIsFirstMax(counts);
  }

  /** Liked ratings 4, none and 5: the unrated movie is skipped and the
      average is 4.5. */
  lemma WorkedExampleLiked()
    ensures var a := Movie(1, "A", None, Some(4.0), None, None, None, None);
            var b := Movie(2, "B", None, None, None, None, None, None);
            var c := Movie(3, "C", None, Some(5.0), None, None, None, None);
            PositiveRatings([a, b, c]) == [4.0, 5.0] &&
            AvgRating([a, b, c]) == 4.5
  {
    var a := Movie(1, "A", None, Some(4.0), None, None, None, None);
    var b := Movie(2, "B", None, None, None, None, None, None);
    var c := Movie(3, "C", None, Some(5.0), None, None, None, None);
    assert [a, b, c][..2] == [a, b];
    assert [a, b][..1] == [a];
    assert [a][..0] == [];
    assert PositiveRatings([a]) == [4.0];
    assert PositiveRatings([a, b]) == [4.0];
    assert PositiveRatings([a, b, c]) == [4.0, 5.0];
    assert [4.0, 5.0][..1] == [4.0];
    assert SumReals([4.0, 5.0]) == 9.0;
    assert (10.0 * 4.5 + 0.5).Floor == 45;
  }
}
