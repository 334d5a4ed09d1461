/** The `useUserStats` hook of src/hooks/userstats.ts as an object: the
    three collections are its state, every handler replaces one of them
    through its updater, writes it to storage when storage can be written,
    and the effect that follows recomputes the published statistics. */
module UserStatsHook {
  import opened Movies
  import Collection
  import opened Statistics

  /** The browser's localStorage as the hook sees it: the decoded list stored
      under each key, and whether a write probe succeeds
      (`isLocalStorageAvailable`). */
  class LocalStorage {
    var entries: map<string, seq<Movie>>
    var available: bool

    constructor (entries0: map<string, seq<Movie>>, available0: bool)
      ensures entries == entries0 && available == available0
    {
      entries := entries0;
      available := available0;
    }

    /** `JSON.parse(localStorage.getItem(key) || "[]")`: a missing key reads
        as the empty list. */
    function GetList(key: string): (l: seq<Movie>)
      reads this
      ensures key !in entries ==> l == []
      ensures key in entries ==> l == entries[key]
    {
      if key in entries then entries[key] else []
    }

    /** `localStorage.setItem(key, JSON.stringify(value))`. */
    method SetList(key: string, value: seq<Movie>)
      modifies this
      ensures entries == old(entries)[key := value]
      ensures available == old(available)
      ensures GetList(key) == value
    {
      entries := entries[key := value];
    }
  }

  class UserStats {
    var watched: seq<Movie>
    var liked: seq<Movie>
    var watchlist: seq<Movie>
    var stats: Stats
    const store: LocalStorage

    /** The published statistics are those of the current collections: the
        state right after the effect that calls `loadStats` has run. */
    ghost predicate Valid()
      reads this
    {
      stats == StatsOf(watched, liked, watchlist)
    }

    /** When storage can be written, it holds each collection under its key. */
    ghost predicate Persisted()
      reads this, store
    {
      store.available ==>
        store.GetList("watched") == watched &&
        store.GetList("liked") == liked &&
        store.GetList("watchlist") == watchlist
    }

    /** The three storage keys are different, so a write under one leaves
        the others' lists in place. */
    static lemma StorageKeysDiffer()
      ensures "watched" != "liked" && "watched" != "watchlist" && "liked" != "watchlist"
    {
      assert "watched"[0] != "liked"[0] && "liked"[0] != "watchlist"[0];
      assert "watched"[5] != "watchlist"[5];
    }

    /** No collection holds two entries with the same id. */
    ghost predicate Unique()
      reads this
    {
      IdsUnique(watched) && IdsUnique(liked) && IdsUnique(watchlist)
    }

    /** The first render: three empty lists and the initial record. */
    constructor (store: LocalStorage)
      ensures this.store == store
      ensures watched == [] && liked == [] && watchlist == []
      ensures stats == InitialStats
      ensures Valid() && Unique()
    {
      this.store := store;
      watched := [];
      liked := [];
      watchlist := [];
      stats := InitialStats;
      new;
      InitialStatsAreStatsOfEmpty();
    }

    /** The mount effect: read the three lists when storage is available,
        then recompute the statistics. Reloading what the handlers persisted
        gives back the same lists, in the same order. */
    method Load()
      modifies this
      ensures store.available ==>
        watched == store.GetList("watched") &&
        liked == store.GetList("liked") &&
        watchlist == store.GetList("watchlist")
      ensures !store.available ==>
        watched == old(watched) && liked == old(liked) && watchlist == old(watchlist)
      ensures old(Persisted()) ==>
        watched == old(watched) && liked == old(liked) && watchlist == old(watchlist)
      ensures Valid() && Persisted()
    {
      if store.available {
        watched := store.GetList("watched");
        liked := store.GetList("liked");
        watchlist := store.GetList("watchlist");
      }
      stats := ComputeStats(watched, liked, watchlist);
    }

    /** `markWatched`: storage is written only when the movie is new. */
    method MarkWatched(movie: Movie)
      modifies this, store
      ensures watched == Collection.MarkWatched(old(watched), movie)
      ensures liked == old(liked) && watchlist == old(watchlist)
      ensures store.available == old(store.available)
      ensures store.entries ==
        if old(store.available) && !HasId(old(watched), movie.id)
        then old(store.entries)["watched" := watched]
        else old(store.entries)
      ensures Valid()
      ensures old(Persisted()) ==> Persisted()
      ensures old(Unique()) ==> Unique()
    {
      StorageKeysDiffer();
      var prev := watched;
      var next := Collection.MarkWatched(prev, movie);
      if !HasId(prev, movie.id) && store.available {
        store.SetList("watched", next);
        assert store.GetList("liked") == old(store.GetList("liked"));
        assert store.GetList("watchlist") == old(store.GetList("watchlist"));
      }
      watched := next;
      stats := ComputeStats(watched, liked, watchlist);
    }

    /** `toggleLike`: storage is written on every toggle. */
    method ToggleLike(movie: Movie)
      modifies this, store
      ensures liked == Collection.Toggle(old(liked), movie)
      ensures watched == old(watched) && watchlist == old(watchlist)
      ensures store.available == old(store.available)
      ensures store.entries ==
        if old(store.available) then old(store.entries)["liked" := liked] else old(store.entries)
      ensures Valid()
      ensures old(Persisted()) ==> Persisted()
      ensures old(Unique()) ==> Unique()
    {
      StorageKeysDiffer();
      liked := Collection.Toggle(liked, movie);
      if store.available {
        store.SetList("liked", liked);
      }
      stats := ComputeStats(watched, liked, watchlist);
    }

    /** `toggleWatchlist`: storage is written on every toggle. */
    method ToggleWatchlist(movie: Movie)
      modifies this, store
      ensures watchlist == Collection.Toggle(old(watchlist), movie)
      ensures watched == old(watched) && liked == old(liked)
      ensures store.available == old(store.available)
      ensures store.entries ==
        if old(store.available) then old(store.entries)["watchlist" := watchlist] else old(store.entries)
      ensures Valid()
      ensures old(Persisted()) ==> Persisted()
      ensures old(Unique()) ==> Unique()
    {
      StorageKeysDiffer();
      watchlist := Collection.Toggle(watchlist, movie);
      if store.available {
        store.SetList("watchlist", watchlist);
      }
      stats := ComputeStats(watched, liked, watchlist);
    }

    /** `rateMovie`: sets the rating of the liked entries with the id, and
        writes the liked list even when no entry matched. */
    method RateMovie(id: int, rating: real)
      modifies this, store
      ensures liked == Collection.RateMovie(old(liked), id, rating)
      ensures watched == old(watched) && watchlist == old(watchlist)
      ensures store.available == old(store.available)
      ensures store.entries ==
        if old(store.available) then old(store.entries)["liked" := liked] else old(store.entries)
      ensures Valid()
      ensures old(Persisted()) ==> Persisted()
      ensures old(Unique()) ==> Unique()
    {
      StorageKeysDiffer();
      liked := Collection.RateMovie(liked, id, rating);
      if store.available {
        store.SetList("liked", liked);
      }
      stats := ComputeStats(watched, liked, watchlist);
    }
  }
}
