# Movie collection engine: a Dafny model

This project models the personal collection engine of a movie-tracking web
application, together with the views that read from it.

The engine is the `useUserStats` hook. It keeps three insertion-ordered lists of
movie snapshots: watched, liked and watchlist. Each list is keyed by the movie's
integer id. Four handlers change the lists:
- mark as watched;
- toggle liked;
- toggle watchlisted;
- rate a liked movie.

After every change the hook recomputes its statistics from scratch:
- the total watch time as "`h`h `m`m";
- the rounded mean of the positive ratings;
- the genre counts and their percentages;
- the top genre.

The model also covers four smaller pieces:
- an older id-only watchlist hook;
- the Dashboard's column-sort state machine over the first five now-playing results, in the order the catalog returns them;
- the watched page's title search and ordering;
- the watchlist page's ordering, labels, "New" badge and header line.

Layout:
- `movies.dfy` (module `Movies`): the movie snapshot and the id predicates.
- `text.dfy` (module `Text`): decimal rendering, ASCII lower-casing and substring search.
- `collection.dfy` (module `Collection`): the handlers' list updaters as pure functions.
- `statistics.dfy` (module `Statistics`): `loadStats`. Specification functions, the imperative method with its loops, and the lemmas.
- `user_stats.dfy` (module `UserStatsHook`): the hook as a class over an injected storage object.
- `id_watchlist.dfy` (module `IdWatchlist`): the id-only watchlist hook.
- `sorting.dfy` (module `Sorting`): a stable sort standing in for `Array.prototype.sort`.
- `dashboard.dfy` (module `Dashboard`): the "Recently Watched" table.
- `list_order.dfy` (module `ListOrder`): the four orderings both collection pages offer.
- `watched_page.dfy` and `watchlist_page.dfy`: the two collection pages.

Genre records (`Record<string, number>`) are association lists in property
enumeration order. This is what lets the model state the top genre's
tie-break.

In four places the code does not do what a reader of the engine might expect; the model follows the code:
- Two toggles of a movie that is already present need not give back the original list. The movie returns at the end of the list, as the snapshot passed to the second toggle, and the other entries keep their order (`Collection.ToggleTwiceFromPresent`, `Collection.ToggleTwiceReorders`). The original comes back only when the movie's one entry was last and the same snapshot is toggled back.
- Stored lists are read with an unguarded `JSON.parse`. Malformed storage therefore raises an error; it does not read as an empty list. The model receives already-decoded lists (see "Left out").
- Each handler writes storage inside its list updater, before the statistics are recomputed.
- The `localStorage.setItem` calls of src/hooks/userstats.ts:116, 132, 148 and 163 are not guarded. A write larger than the quota left after the availability probe (the probe itself still fits) throws out of the updater, so such a write failure is not swallowed. The model treats every write as succeeding whenever storage is available.

## Model

| member | source | states |
|---|---|---|
| Text.NatToString | src/hooks/userstats.ts:72 | the decimal rendering of a count: non-empty, all digits, one digit below 10 and at least two from 10 on, and no leading zero (the first digit is '0' exactly for zero, which renders as "0") |
| Text.NatToStringInjective | src/hooks/userstats.ts:72 | two counts with the same rendering are equal |
| Text.NatToStringRoundTrip | src/hooks/userstats.ts:72 | reading the rendered digits back gives the count, so the display is faithful |
| Text.IntToString | src/hooks/userstats.ts:72 | interpolating an integer: a leading '-' exactly for negative values, followed by the digits of the magnitude without a leading zero, which read back as the magnitude; zero renders as "0" |
| Text.ToLower | src/pages/watched.tsx:11 | `toLowerCase` keeps the length and maps every character by the ASCII case mapping |
| Text.IncludesIffOccurs | src/pages/watched.tsx:11 | `includes` holds exactly when the query occurs at some position of the title |
| Text.Includes | src/pages/watched.tsx:11 | specified through `Text.IncludesIffOccurs`: holds exactly when the query occurs at some position |
| Collection.MarkWatched | src/hooks/userstats.ts:106-119 | the id is present afterwards; the old list is a prefix of the new one; the list grows by at most one, exactly when the id was absent, and then ends with the snapshot; a known id leaves the list as it is; unique ids are preserved |
| Collection.RemoveId | src/hooks/userstats.ts:127 | the filter drops every entry with the id and keeps the others as members; the result is a subsequence, shorter exactly when the id was present; unique ids are preserved |
| Collection.RemoveIdCounts | src/hooks/userstats.ts:127 | every entry without the id is kept as often as it occurred, and entries with the id occur no more |
| Collection.Toggle | src/hooks/userstats.ts:125-128 | the id's membership flips; no other movie's membership changes; without the id, the list equals the old one without it; on an add, the snapshot is appended last; unique ids are preserved |
| Collection.RateMovie | src/hooks/userstats.ts:157-159 | length, order, ids and every other field are kept; matching entries get the new rating; other entries are unchanged; no match means no change; unique ids are preserved |
| Collection.MarkWatchedIdempotent | src/hooks/userstats.ts:106-110 | marking a movie twice, with any snapshot of the same id, has the effect of marking it once |
| Collection.ToggleTwiceFromAbsent | src/hooks/userstats.ts:125-128 | starting from an absent id, two toggles restore the list exactly |
| Collection.ToggleTwiceFromPresent | src/hooks/userstats.ts:125-128 | starting from a present id, two toggles give the other entries in their old order, followed by the second snapshot; id membership is unchanged |
| Collection.ToggleTwiceReorders | src/hooks/userstats.ts:125-128 | a witness: toggling the first of two movies twice puts it last |
| Collection.RateMovieKeepsIds | src/hooks/userstats.ts:155-159 | rating leaves every id's membership in the liked list unchanged |
| Statistics.Put | src/hooks/userstats.ts:82 | assigning a record property: an existing key keeps its place and a new key goes last; only that key's value changes; the sum of values changes by the difference |
| Statistics.CountTagsFacts | src/hooks/userstats.ts:79-86 | counting yields one entry per distinct tag, in first-seen order, holding its number of occurrences; every count is at least 1 and the counts add up to the number of tags |
| Statistics.JsRem | src/hooks/userstats.ts:72 | JavaScript's `%`: the remainder is strictly between -60 and 60, takes the dividend's sign and differs from it by a multiple of 60, so it is the truncated remainder; for a non-negative total it is the mathematical one |
| Statistics.RoundToTenth | src/hooks/userstats.ts:76 | `toFixed(1)` on the exact mean is a whole number of tenths within half a tenth of it: the nearest tenth, the larger one on a tie |
| Statistics.Ratings | src/hooks/userstats.ts:74 | `map(m => m.rating \|\| 0)`: one rating per liked movie, position by position, a missing rating read as 0 |
| Statistics.PositiveRatings | src/hooks/userstats.ts:74 | `map(... \|\| 0).filter(r => r > 0)`: at most one rating per liked movie; a value is kept exactly when it is positive and some liked movie has it as its rating |
| Statistics.PositiveRatingsCounts | src/hooks/userstats.ts:74 | the filter keeps each positive value as often as it occurs among the mapped ratings, and no other value |
| Statistics.PositiveRatingsSumCount | src/hooks/userstats.ts:74-77 | the filtered ratings add up to the sum of the positive ratings taken directly over the liked movies, and there are as many as liked movies with a positive rating |
| Statistics.Percent | src/hooks/userstats.ts:89 | `Math.round(count / total * 100)` is the integer nearest 100·count/total, rounding halves up; it is 0 when there are no tags |
| Statistics.Frequencies | src/hooks/userstats.ts:87-90 | `genreFreq` has the keys of `genreCount`, in the same order |
| Statistics.FirstMaxIndex | src/hooks/userstats.ts:92 | the position of the first largest count: no count is larger, and every earlier count is strictly smaller |
| Statistics.SortedHeadIsFirstMax | src/hooks/userstats.ts:92 | the head of the stable sort by descending count is the first entry with the largest count |
| Statistics.ComputeStats | src/hooks/userstats.ts:69-103 | `loadStats` publishes exactly the statistics of the three current lists |
| Statistics.SumRuntimes | src/hooks/userstats.ts:70-71 | the runtime loop sums every runtime, with a missing runtime counted as 0 |
| Statistics.CollectPositiveRatings | src/hooks/userstats.ts:74 | the rating loop keeps exactly the positive ratings, in order |
| Statistics.SumRatings | src/hooks/userstats.ts:76 | the reduce loop sums the ratings |
| Statistics.CountGenres | src/hooks/userstats.ts:79-84 | the nested loops fill `genreCount` with the counts of every watched movie's genre tags |
| Statistics.SumCounts | src/hooks/userstats.ts:86 | `totalGenres` is the sum of all counts |
| Statistics.ComputeFrequencies | src/hooks/userstats.ts:87-90 | the `for` loop assigns every genre's rounded share, in enumeration order |
| Statistics.InitialStatsAreStatsOfEmpty | src/hooks/userstats.ts:25-33 | the initial record equals the statistics of three empty lists |
| Statistics.EmptyWatchedDefaults | src/hooks/userstats.ts:70-92 | with nothing watched: "0h 0m", no top genre and no frequencies |
| Statistics.TotalMinutesNonNeg | src/hooks/userstats.ts:70-71 | with non-negative runtimes the total is non-negative |
| Statistics.TotalMinutes | src/hooks/userstats.ts:70-71 | specified through `Statistics.SumRuntimes` (the loop computes it) and `Statistics.TotalMinutesNonNeg` (non-negative runtimes give a non-negative total) |
| Statistics.FormatTotalTime | src/hooks/userstats.ts:72 | specified through `Statistics.TotalTimeDisplay` and `Statistics.TotalTimeSplit`: the whole hours and the remaining 0..59 minutes of a non-negative total |
| Statistics.AvgRating | src/hooks/userstats.ts:74-77 | specified through `Statistics.AvgRatingBounds` (the rounded mean of the positive ratings) and `Statistics.AvgRatingWithoutPositive` (0 without one) |
| Statistics.Bump | src/hooks/userstats.ts:82 | `genreCount[g] = (genreCount[g] \|\| 0) + 1`; its effect on the record is stated through `Statistics.Put` and `Statistics.CountTagsFacts` |
| Statistics.CountTags | src/hooks/userstats.ts:79-84 | specified through `Statistics.CountTagsFacts`: one entry per distinct tag in first-seen order, holding its occurrence count |
| Statistics.GenreCount | src/hooks/userstats.ts:79-84 | specified through `Statistics.GenreCountIsOccurrences`; computed by `Statistics.CountGenres` |
| Statistics.CountMovieGenres | src/hooks/userstats.ts:81-83 | the inner loop over one movie's genres extends the tally of the tags seen so far by exactly that movie's genres |
| Statistics.TopGenre | src/hooks/userstats.ts:92 | specified through `Statistics.SortedHeadIsFirstMax` and `Statistics.TopGenreIsFirstMaximum`: the first genre with the largest count, "" without genres |
| Statistics.StatsOf | src/hooks/userstats.ts:94-102 | the record `setStats` publishes; `Statistics.ComputeStats` computes it and the lemmas above state each field |
| Statistics.TotalTimeDisplay | src/hooks/userstats.ts:72 | a non-negative total reads as "`h`h `m`m" for the unique h and m with 60h + m = total and 0 ≤ m < 60 |
| Statistics.TotalTimeSplit | src/hooks/userstats.ts:70-72 | the minutes part is in 0..59, and hours and minutes add back up to the total |
| Statistics.AvgRatingWithoutPositive | src/hooks/userstats.ts:74-77 | with no positive rating, no rating enters the mean and the average is 0 |
| Statistics.AvgRatingBounds | src/hooks/userstats.ts:74-77 | with a positive rating, the average is a whole number of tenths within half a tenth of the mean of the positive ratings, that mean taken directly over the liked movies; it lies in 0..5 when every rating is at most 5 |
| Statistics.GenreCountIsOccurrences | src/hooks/userstats.ts:79-86 | each genre's count is its number of occurrences among the watched movies' tags; a genre has an entry exactly when it occurs; `totalGenres` is the number of tags |
| Statistics.PercentRange | src/hooks/userstats.ts:89 | a count between 0 and the total gives a percentage in 0..100 |
| Statistics.FrequenciesBounds | src/hooks/userstats.ts:86-90 | every percentage is in 0..100 and is its count's rounded share; the keys are those of `genreCount`; the record is empty exactly when there are no tags |
| Statistics.FrequenciesSumNearHundred | src/hooks/userstats.ts:86-90 | for n distinct genres, the percentages add up to within n/2 of 100 |
| Statistics.TopGenreIsFirstMaximum | src/hooks/userstats.ts:92 | the top genre occurs at least as often as every genre; every genre seen first has strictly fewer occurrences, so ties go to the earliest; it is "" without tags |
| Statistics.WorkedExampleWatched | src/hooks/userstats.ts:69-92 | 120 + 90 minutes tagged Action/Drama and Drama: "3h 30m", counts 1 and 2, shares 33 and 67, top genre Drama |
| Statistics.WorkedExampleLiked | src/hooks/userstats.ts:74-77 | ratings 4, none and 5: the unrated movie is skipped and the average is 4.5 |
| UserStatsHook.LocalStorage.GetList | src/hooks/userstats.ts:55-57 | a missing key reads as the empty list; a present key as its stored list |
| UserStatsHook.LocalStorage.SetList | src/hooks/userstats.ts:116 | a write replaces that key's list and nothing else |
| UserStatsHook.UserStats.constructor | src/hooks/userstats.ts:25-38 | three empty lists and the initial statistics, which are those of empty lists |
| UserStatsHook.UserStats.Load | src/hooks/userstats.ts:52-67 | with storage available, the three stored lists (empty when missing) become the state, otherwise the state stays; reloading what was persisted changes nothing; the statistics then match the lists |
| UserStatsHook.UserStats.MarkWatched | src/hooks/userstats.ts:105-121 | watched becomes the updater's result; the other lists are untouched; storage is written only for a new id and only when available; statistics, persistence and unique ids are kept |
| UserStatsHook.UserStats.ToggleLike | src/hooks/userstats.ts:123-137 | liked is toggled; the other lists are untouched; storage is written whenever available; statistics, persistence and unique ids are kept |
| UserStatsHook.UserStats.ToggleWatchlist | src/hooks/userstats.ts:139-153 | the watchlist is toggled; watched and liked are untouched; storage is written whenever available; statistics, persistence and unique ids are kept |
| UserStatsHook.UserStats.RateMovie | src/hooks/userstats.ts:155-168 | liked is re-rated; watched and watchlist are untouched; storage is written whenever available, even without a match; statistics, persistence and unique ids are kept |
| IdWatchlist.RemoveAll | src/hooks/watchlist.ts:20 | the filter removes every copy of the id and keeps exactly the other ids as members, in order; no duplicates are introduced |
| IdWatchlist.RemoveAllCounts | src/hooks/watchlist.ts:20 | every other id is kept as often as it occurred |
| IdWatchlist.ToggleId | src/hooks/watchlist.ts:19-20 | the id's membership flips; no other id's membership changes; without the id, the list is the old one without it; an absent id is appended; no duplicates are introduced |
| IdWatchlist.ToggleIdTwiceFromAbsent | src/hooks/watchlist.ts:18-22 | starting from an absent id, two toggles restore the list exactly |
| IdWatchlist.ToggleIdTwiceFromPresent | src/hooks/watchlist.ts:18-22 | starting from a present id, two toggles keep the same ids and move that id to the end |
| IdWatchlist.ToggleIdTwiceReorders | src/hooks/watchlist.ts:18-22 | a witness: two toggles of 1 turn [1, 2] into [2, 1] |
| IdWatchlist.IdWatchlist.constructor | src/hooks/watchlist.ts:6 | the state starts empty |
| IdWatchlist.IdWatchlist.Load | src/hooks/watchlist.ts:8-11 | a stored list replaces the state; no stored value leaves it |
| IdWatchlist.IdWatchlist.Save | src/hooks/watchlist.ts:13-16 | the state, and the saved value, become exactly the argument |
| IdWatchlist.IdWatchlist.Toggle | src/hooks/watchlist.ts:18-22 | the state becomes the toggled list and is saved; `isSaved` flips for the id and for no other id; no duplicates are introduced |
| IdWatchlist.IdWatchlist.IsSaved | src/hooks/watchlist.ts:24 | true exactly when some position holds the id |
| IdWatchlist.IdWatchlist.GetAll | src/hooks/watchlist.ts:26 | returns the current state itself |
| Sorting.Reverse | src/pages/watchlist.tsx:25-27 | the reversed list: position i holds the element at length - 1 - i |
| Sorting.Insert | src/pages/watchlist.tsx:11 | one insertion step adds exactly one element |
| Sorting.Sort | src/pages/watchlist.tsx:9-11 | the stable insertion sort standing in for `sort`; specified through `Sorting.SortIsPermutation`, `Sorting.SortOrdered` and `Sorting.SortReversesDescending` |
| Sorting.SortIsPermutation | src/pages/watchlist.tsx:9-11 | sorting yields a permutation of its input |
| Sorting.SortOrdered | src/pages/Dashboard.tsx:31-46 | with an antisymmetric comparator, every neighbour pair of the sorted list is in order |
| Sorting.SortReversesDescending | src/pages/watched.tsx:20-22 | when every element compares after each later one, the sort reverses the list |
| Dashboard.FirstFive | src/pages/Dashboard.tsx:16 | a prefix of the results (none when there are none): all of them when there are at most five, otherwise exactly the first five |
| Dashboard.NextDirection | src/pages/Dashboard.tsx:23-25 | the active column flips direction; a new column gets ascending order for the title and descending order otherwise |
| Dashboard.RowComparator | src/pages/Dashboard.tsx:31-46 | the comparator `sortBy` hands to `sort`; specified through `Dashboard.DescendingNegatesAscending` and `Dashboard.RowComparatorAntisymmetric` |
| Dashboard.DescendingNegatesAscending | src/pages/Dashboard.tsx:36-45 | on every column, the descending comparison is the negation of the ascending one |
| Dashboard.RowComparatorAntisymmetric | src/pages/Dashboard.tsx:31-46 | with an antisymmetric collation, every column's comparator is antisymmetric in both directions |
| Dashboard.SameColumnTwice | src/pages/Dashboard.tsx:23-24 | two clicks on the active column restore its direction |
| Dashboard.RecentTable.constructor | src/pages/Dashboard.tsx:6-8 | no rows, sorted by release date, descending |
| Dashboard.RecentTable.Receive | src/pages/Dashboard.tsx:16-17 | the rows become the first five results; the sort state is kept |
| Dashboard.RecentTable.SortBy | src/pages/Dashboard.tsx:22-48 | the key becomes the clicked column and the direction follows the state machine; the rows are a sorted permutation of the old rows, still at most five |
| Dashboard.RecentTable.SortIcon | src/pages/Dashboard.tsx:50-51 | the neutral arrow exactly on inactive columns; the up arrow exactly on the active ascending column; the down arrow exactly on the active descending column |
| ListOrder.ParseSortKey | src/pages/watchlist.tsx:12-27 | "title", "rating" and "release_date" select their orders; every other value falls to the added-date order |
| ListOrder.VoteOrZero | src/pages/watchlist.tsx:17-18 | `vote_average \|\| 0`; used by the rating order of `ListOrder.MovieComparator` |
| ListOrder.ReleaseTime | src/pages/watchlist.tsx:22-23 | a missing or empty date as 0, otherwise its time; used by the release-date order of `ListOrder.MovieComparator` |
| ListOrder.MovieComparator | src/pages/watchlist.tsx:11-28 | the comparator of both pages; specified through `ListOrder.MovieComparatorAntisymmetric` and `ListOrder.DateAddedReverses` |
| ListOrder.IndexOf | src/pages/watchlist.tsx:27 | `indexOf` is -1 exactly when the movie is absent, and otherwise the first position holding it |
| ListOrder.IndexIncreasing | src/pages/watched.tsx:10-22 | in a list without repeats, a subsequence's entries sit at strictly increasing positions |
| ListOrder.DateAddedReverses | src/pages/watched.tsx:20-22 | sorting a subsequence of a list without repeats by added date gives that subsequence reversed |
| ListOrder.MovieComparatorAntisymmetric | src/pages/watchlist.tsx:11-28 | the rating, release-date and added-date orders are antisymmetric, and so is the title order for an antisymmetric collation |
| WatchedPage.MatchesIffOccurs | src/pages/watched.tsx:11 | a movie passes the search exactly when the lower-cased query occurs in its lower-cased title |
| WatchedPage.Matches | src/pages/watched.tsx:11 | specified through `WatchedPage.MatchesIffOccurs`: the lower-cased query occurs in the lower-cased title |
| WatchedPage.TitleFilter | src/pages/watched.tsx:10-11 | a movie is kept exactly when it is watched and matches, and the result is a subsequence; an empty query keeps the list as it is |
| WatchedPage.TitleFilterCounts | src/pages/watched.tsx:10-11 | each matching movie is kept as often as it occurs among the watched movies, and every other movie is dropped |
| WatchedPage.Displayed | src/pages/watched.tsx:10-24 | specified through `WatchedPage.DisplayedIsPermutationOfMatches`, `WatchedPage.DateAddedShowsLatestFirst` and `WatchedPage.DisplayedOrdered` |
| WatchedPage.DisplayedIsPermutationOfMatches | src/pages/watched.tsx:10-24 | the displayed list is a permutation of the matches; it holds exactly the matching watched movies |
| WatchedPage.DateAddedShowsLatestFirst | src/pages/watched.tsx:20-22 | under "date_added", with unique ids, the matches show in reverse insertion order |
| WatchedPage.DisplayedOrdered | src/pages/watched.tsx:12-24 | with an antisymmetric collation, every neighbour pair of the displayed list is in the chosen order |
| WatchedPage.EmptyHeading | src/pages/watched.tsx:67-71 | the empty state appears exactly when nothing matches: "No movies watched yet" for an empty collection, otherwise "No movies found" |
| WatchedPage.EmptyQueryFindsEverything | src/pages/watched.tsx:11 | with an empty query, "No movies found" never appears |
| WatchedPage.CollectionCountText | src/pages/watched.tsx:41 | the line starts with the count in decimal, which reads back as the count; "movie" is singular exactly for one movie |
| WatchlistPage.SortedIsPermutation | src/pages/watchlist.tsx:9-11 | the sorted copy is a permutation of the watchlist |
| WatchlistPage.SortedMovies | src/pages/watchlist.tsx:9-29 | specified through `WatchlistPage.SortedIsPermutation` and `WatchlistPage.DateAddedIsReverse` |
| WatchlistPage.DateAddedIsReverse | src/pages/watchlist.tsx:25-27 | under "date_added", with unique ids, the copy is the watchlist in reverse insertion order |
| WatchlistPage.SortLabel | src/pages/watchlist.tsx:31-44 | the labels of "title", "rating" and "release_date", and "Recently Added" for every other value |
| WatchlistPage.SortLabelMatchesOrder | src/pages/watchlist.tsx:12-44 | the label reads "Recently Added" exactly for the values the comparator sorts by added date |
| WatchlistPage.ShowsNewBadge | src/pages/watchlist.tsx:162 | specified through `WatchlistPage.NewBadgeMarksLatestThree` |
| WatchlistPage.NewBadgeMarksLatestThree | src/pages/watchlist.tsx:162 | under "date_added", with unique ids, the badge marks exactly the three most recently added movies; under any other order it marks none |
| WatchlistPage.HeaderText | src/pages/watchlist.tsx:58-61 | the invitation for an empty list; otherwise the count in decimal, reading back as the count, with "movie" singular exactly for one movie |
| WatchlistPage.HeaderTextStartsWithCount | src/pages/watchlist.tsx:58-61 | the header starts with a digit exactly when the watchlist is not empty |

## Left out

- JSON encoding and decoding, and the storage probe of src/hooks/userstats.ts:41-50, are left out. Storage is a map from keys to already-decoded lists, plus a flag saying whether it can be written. The code's unguarded `JSON.parse` of malformed storage raises an error; the model has no counterpart for this.
- IdWatchlist.IdWatchlist.Save: the write to storage is a ghost field holding the last saved list. `Load` takes the stored value already decoded, with `None` for a missing or empty string.
- The id-only hook and `useUserStats` share the "watchlist" storage key, one holding ids and the other movies. The model gives them separate storage. The id-only hook is not used by any page.
- React scheduling is left out. Each handler runs as one step immediately followed by `loadStats`; updaters run once, not twice as under StrictMode. Each component's hook instance reads storage on its own and is not told about the others' writes.
- Dashboard.RecentTable.SortBy: `sortBy` reads the key and direction of the render that created it. Two clicks before a re-render are not modelled.
- Floating point is left out. Ratings and votes are exact reals, and percentages are exact integer rounding of count/total. Binary rounding in `toFixed`, `Math.round` and the float product can differ from exact rounding near a half. NaN is also left out.
- Comparators whose semantics live outside the code are parameters: `collate` for `localeCompare`, and `timeOf` for `new Date(s).getTime()`. Invalid dates (NaN) are not modelled. For a comparator that is not consistent, `Array.prototype.sort` leaves the order to the implementation; the model always applies its own stable insertion sort.
- Sorting.SortOrdered: states that neighbouring elements are in order, not every pair. Every pair would need a transitive comparator, and the collation is only assumed antisymmetric.
- Collection.ToggleTwiceFromAbsent: states that two toggles restore the list for an id that starts absent. From a present id the result is the list without the id followed by the new snapshot (`Collection.ToggleTwiceFromPresent`); it equals the original only when the id's one entry was last and the same snapshot is toggled back.
- IdWatchlist.ToggleIdTwiceFromAbsent: the same holds for the id-only hook: from a present id the result is the list without it followed by the id (`IdWatchlist.ToggleIdTwiceFromPresent`), which is the original only when the id occurred once, at the end (`IdWatchlist.ToggleIdTwiceReorders` shows a list that is reordered).
- UserStatsHook.UserStats: a write that fails although storage is available (a quota error thrown by `setItem`) is left out, because the model's storage has no capacity. Each write succeeds whenever the availability flag is set.
- Genre counting treats every genre name as a fresh key. In JavaScript, a genre named like an inherited property ("constructor", "toString") reads a function from `genreCount[genre] || 0`, and `+ 1` then concatenates strings. These names are left out.
- Runtimes are integers in the model. A fractional runtime is left out, since the hours and minutes of the display then depend on floating point.
- `toLowerCase` is modelled on ASCII letters only. Unicode case mapping is left out.
- JavaScript enumerates integer-like property names (a genre named "2024") before the others, and treats "__proto__" specially. The model enumerates every genre in insertion order.
- `indexOf` compares object references, while the model compares values. The added-date lemmas therefore require unique ids, which makes equal values the same entry. Because the model works on values, it cannot express aliasing. That the filtered copy and the `.slice()` copy leave the collections unchanged is true in the model by construction.
- Network I/O is left out: the now-playing fetch of src/pages/Dashboard.tsx:10-20, src/utils/api.ts, src/pages/Movies.tsx and src/pages/Landing.tsx.
- Presentation is left out: the statistic blocks and genre bars; the watchlist count bubble; the high-rating badge (`vote_average >= 8.0`); and the footer counts of highly rated movies (`>= 7.0`) and recent releases (release year `>= 2020`). The last three depend on floats and date parsing.
- The components, routing and sign-in wrappers (MovieCard, Navbar, App, Layout, ProtectedRoute, SignUpPage) are not part of this model.
