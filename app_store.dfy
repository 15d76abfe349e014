/**
 * The watchlist state store held by the root component: the saved list, the
 * watched flags, the dark-mode preference, the busy flag, the store-level
 * error and the single notification. Events are handled one at a time, so
 * every `set...` call takes effect before the next handler runs.
 */
module App {
  import opened Types
  import opened Watchlist
  import opened BrowserStorage

  class Store {
    var darkMode: bool
    var streamList: seq<Movie>
    var watchedMovies: WatchedMovies
    var isLoading: bool
    var error: Option<string>
    var notification: Option<Notification>

    /** The initial state, before anything is read back from storage. */
    constructor ()
      ensures !darkMode && streamList == [] && watchedMovies == map[]
      ensures !isLoading && error == None && notification == None
    {
      darkMode := false;
      streamList := [];
      watchedMovies := map[];
      isLoading := false;
      error := None;
      notification := None;
    }

    /**
     * The mount-time load. `storedList` and `storedWatched` stand for the
     * already-parsed JSON under the `streamList` and `watchedMovies` keys;
     * the dark-mode flag is decoded from its stored string.
     */
    method Hydrate(storage: LocalStorage, storedList: seq<Movie>, storedWatched: WatchedMovies)
      modifies this
      ensures streamList == storedList && watchedMovies == storedWatched
      ensures darkMode == DecodeDarkMode(storage.GetItem(DarkModeKey))
      ensures isLoading == old(isLoading) && error == old(error) && notification == old(notification)
    {
      streamList := storedList;
      watchedMovies := storedWatched;
      darkMode := DecodeDarkMode(storage.GetItem(DarkModeKey));
    }

    /** The save effect, for the one key whose encoding is modelled. */
    method PersistDarkMode(storage: LocalStorage)
      modifies storage
      ensures storage.items == old(storage.items)[DarkModeKey := EncodeDarkMode(darkMode)]
      ensures DecodeDarkMode(storage.GetItem(DarkModeKey)) == darkMode
    {
      storage.SetItem(DarkModeKey, EncodeDarkMode(darkMode));
    }

    method ToggleDarkMode()
      modifies this
      ensures darkMode == !old(darkMode)
      ensures streamList == old(streamList) && watchedMovies == old(watchedMovies)
      ensures isLoading == old(isLoading) && error == old(error) && notification == old(notification)
    {
      darkMode := !darkMode;
    }

    /** Append `movie` unless an entry with its id is present; report which happened. */
    method AddToStreamList(movie: Movie) returns (result: AddOutcome)
      modifies this
      ensures streamList == Added(old(streamList), movie)
      ensures result == AddResult(old(streamList), movie)
      ensures result.success <==> !HasId(old(streamList), movie.id)
      ensures !result.success ==> streamList == old(streamList)
      ensures result.success ==> streamList == old(streamList) + [movie]
      ensures DistinctIds(old(streamList)) ==> DistinctIds(streamList)
      ensures !isLoading
      ensures darkMode == old(darkMode) && watchedMovies == old(watchedMovies)
      ensures error == old(error) && notification == old(notification)
    {
      isLoading := true;
      var isAlreadyAdded := HasId(streamList, movie.id);
      if !isAlreadyAdded {
        if DistinctIds(streamList) {
          AddedPreservesDistinct(streamList, movie);
        }
        streamList := streamList + [movie];
        isLoading := false;
        result := AddOutcome(true, AddedMessage(movie.title));
      } else {
        isLoading := false;
        result := AddOutcome(false, AlreadyAddedMessage(movie.title));
      }
    }

    /**
     * Drop every entry with `id`; announce the removal only when an entry was
     * found. The watched flags are never pruned.
     */
    method RemoveFromStreamList(id: int) returns (success: bool)
      modifies this
      ensures success
      ensures streamList == Removed(old(streamList), id)
      ensures notification ==
        match FindById(old(streamList), id)
        case Some(m) => Some(Notification(RemovedMessage(m.title), SuccessType))
        case None => old(notification)
      ensures !isLoading
      ensures darkMode == old(darkMode) && watchedMovies == old(watchedMovies) && error == old(error)
    {
      isLoading := true;
      var movieToRemove := FindById(streamList, id);
      streamList := Removed(streamList, id);
      isLoading := false;
      if movieToRemove.Some? {
        notification := Some(Notification(RemovedMessage(movieToRemove.value.title), SuccessType));
      }
      success := true;
    }

    /**
     * Flip the watched flag of `id`, whether or not the movie is in the list;
     * announce the new state only when it is.
     */
    method ToggleWatched(id: int) returns (success: bool)
      modifies this
      ensures success
      ensures watchedMovies == Toggled(old(watchedMovies), id)
      ensures notification ==
        match FindById(old(streamList), id)
        case Some(m) => Some(Notification(WatchedMessage(m.title, !IsWatched(old(watchedMovies), id)), SuccessType))
        case None => old(notification)
      ensures !isLoading
      ensures darkMode == old(darkMode) && streamList == old(streamList) && error == old(error)
    {
      isLoading := true;
      var movie := FindById(streamList, id);
      var newWatchedStatus := !IsWatched(watchedMovies, id);
      watchedMovies := watchedMovies[id := newWatchedStatus];
      isLoading := false;
      if movie.Some? {
        notification := Some(Notification(WatchedMessage(movie.value.title, newWatchedStatus), SuccessType));
      }
      success := true;
    }

    method ClearError()
      modifies this
      ensures error == None
      ensures darkMode == old(darkMode) && streamList == old(streamList) && watchedMovies == old(watchedMovies)
      ensures isLoading == old(isLoading) && notification == old(notification)
    {
      error := None;
    }

    method ClearNotification()
      modifies this
      ensures notification == None
      ensures darkMode == old(darkMode) && streamList == old(streamList) && watchedMovies == old(watchedMovies)
      ensures isLoading == old(isLoading) && error == old(error)
    {
      notification := None;
    }
  }

  /** Adding to an empty list, then adding the same movie again. */
  method AddScenario()
  {
    var store := new Store();
    var x := Movie(1, "X", None, "", "");
    var r := store.AddToStreamList(x);
    assert [] + [x] == [x];
    assert store.streamList == [x];
    assert r == AddOutcome(true, AddedMessage("X"));
    r := store.AddToStreamList(x);
    assert HasId([x], 1);
    assert store.streamList == [x];
    assert r == AddOutcome(false, AlreadyAddedMessage("X"));
  }

  /** Toggling a missing flag twice: `{}`, then `{1: true}`, then `{1: false}`. */
  method ToggleScenario()
  {
    var store := new Store();
    var ok := store.ToggleWatched(1);
    assert store.watchedMovies == map[1 := true];
    assert store.notification == None;
    ok := store.ToggleWatched(1);
    assert store.watchedMovies == map[1 := false];
  }

  /** Removing a listed movie announces it and keeps its flag; removing it again changes nothing. */
  method RemoveScenario(x: Movie)
  {
    var store := new Store();
    var r := store.AddToStreamList(x);
    var ok := store.ToggleWatched(x.id);
    assert store.watchedMovies == map[x.id := true];
    ok := store.RemoveFromStreamList(x.id);
    assert store.streamList == [];
    assert store.notification == Some(Notification(RemovedMessage(x.title), SuccessType));
    assert store.watchedMovies == map[x.id := true];
    store.ClearNotification();
    ok := store.RemoveFromStreamList(x.id);
    assert ok && store.streamList == [] && store.notification == None;
  }
}
