/**
 * The search page's state: the query text, the last results, the busy flag,
 * the inline error and the page's own notification. The catalog request is
 * not modelled; its outcome is a parameter.
 */
module MoviesPage {
  import opened Types
  import opened Watchlist
  import opened QueryText
  import opened BrowserStorage
  import App

  /** How the catalog request ended: the `results` array, or any network or HTTP failure. */
  datatype FetchOutcome = Fetched(results: seq<Movie>) | FetchFailed

  const SearchQueryKey := "movieSearchQuery"
  const FetchErrorMessage := "Failed to fetch movies. Please try again."

  /** `searchQuery || query`: an absent or empty argument falls back to the current query. */
  function QueryToUse(searchQuery: Option<string>, query: string): (r: string)
    ensures searchQuery.Some? && searchQuery.value != "" ==> r == searchQuery.value
    ensures searchQuery.None? || searchQuery.value == "" ==> r == query
  {
    if searchQuery.Some? && searchQuery.value != "" then searchQuery.value else query
  }

  /** The notification shown after an add: the store's message, typed by its success flag. */
  function NotificationFor(result: AddOutcome): (n: Notification)
    ensures n.message == result.message
    ensures n.kind == SuccessType <==> result.success
  {
    Notification(result.message, if result.success then SuccessType else ErrorType)
  }

  class Page {
    var query: string
    var movies: seq<Movie>
    var isLoading: bool
    var error: Option<string>
    var notification: Option<Notification>

    constructor ()
      ensures query == "" && movies == [] && !isLoading && error == None && notification == None
    {
      query := "";
      movies := [];
      isLoading := false;
      error := None;
      notification := None;
    }

    /** The persistence effect: only a query that is not blank is written. */
    method PersistQuery(storage: LocalStorage)
      modifies storage
      ensures storage.items == if IsBlank(query) then old(storage.items) else old(storage.items)[SearchQueryKey := query]
      ensures IsBlank(query) ==> storage.GetItem(SearchQueryKey) == old(storage.GetItem(SearchQueryKey))
    {
      if !IsBlank(query) {
        storage.SetItem(SearchQueryKey, query);
      }
    }

    /** Typing in the search box, followed by the persistence effect. */
    method SetQuery(text: string, storage: LocalStorage)
      modifies this, storage
      ensures query == text
      ensures storage.items == if IsBlank(text) then old(storage.items) else old(storage.items)[SearchQueryKey := text]
      ensures movies == old(movies) && isLoading == old(isLoading)
      ensures error == old(error) && notification == old(notification)
    {
      query := text;
      PersistQuery(storage);
    }

    /**
     * The synchronous part of `handleSearch`: choose the query and, unless it
     * is blank, mark the page busy, clear the error and issue the request.
     * `request` is the query sent, `None` when the search short-circuits.
     */
    method BeginSearch(searchQuery: Option<string>) returns (request: Option<string>)
      modifies this
      ensures request == if IsBlank(QueryToUse(searchQuery, old(query))) then None
                         else Some(QueryToUse(searchQuery, old(query)))
      ensures request.None? ==>
        isLoading == old(isLoading) && error == old(error)
      ensures request.Some? ==> isLoading && error == None
      ensures query == old(query) && movies == old(movies) && notification == old(notification)
    {
      var queryToUse := QueryToUse(searchQuery, query);
      if IsBlank(queryToUse) {
        return None;
      }
      isLoading := true;
      error := None;
      request := Some(queryToUse);
    }

    /** The part of `handleSearch` after the request settles, including its `finally`. */
    method CompleteSearch(outcome: FetchOutcome)
      modifies this
      ensures movies == if outcome.Fetched? then outcome.results else old(movies)
      ensures error == if outcome.FetchFailed? then Some(FetchErrorMessage) else old(error)
      ensures !isLoading
      ensures query == old(query) && notification == old(notification)
    {
      match outcome {
        case Fetched(results) =>
          movies := results;
        case FetchFailed =>
          error := Some(FetchErrorMessage);
      }
      isLoading := false;
    }

    /** `handleSearch` with one request settling as `outcome`; a blank query changes nothing. */
    method HandleSearch(searchQuery: Option<string>, outcome: FetchOutcome) returns (request: Option<string>)
      modifies this
      ensures request == if IsBlank(QueryToUse(searchQuery, old(query))) then None
                         else Some(QueryToUse(searchQuery, old(query)))
      ensures request.None? ==>
        movies == old(movies) && isLoading == old(isLoading) && error == old(error)
      ensures request.Some? ==>
        && !isLoading
        && movies == (if outcome.Fetched? then outcome.results else old(movies))
        && error == (if outcome.FetchFailed? then Some(FetchErrorMessage) else None)
      ensures query == old(query) && notification == old(notification)
    {
      request := BeginSearch(searchQuery);
      if request.Some? {
        CompleteSearch(outcome);
      }
    }

    /**
     * The mount effects: a stored, non-empty query becomes the current query
     * and is searched for (`outcome` is how that search settles); then the
     * persistence effect writes it back. The stored value is never changed.
     */
    method Mount(storage: LocalStorage, outcome: FetchOutcome) returns (request: Option<string>)
      modifies this, storage
      ensures storage.items == old(storage.items)
      ensures match old(storage.GetItem(SearchQueryKey))
        case Some(stored) =>
          if stored == "" then request == None && query == old(query)
          else query == stored && request == (if IsBlank(stored) then None else Some(stored))
        case None => request == None && query == old(query)
      ensures request.None? ==>
        movies == old(movies) && isLoading == old(isLoading) && error == old(error)
      ensures request.Some? ==>
        && !isLoading
        && movies == (if outcome.Fetched? then outcome.results else old(movies))
        && error == (if outcome.FetchFailed? then Some(FetchErrorMessage) else None)
      ensures notification == old(notification)
    {
      var storedQuery := storage.GetItem(SearchQueryKey);
      request := None;
      if storedQuery.Some? && storedQuery.value != "" {
        query := storedQuery.value;
        request := HandleSearch(storedQuery, outcome);
        PersistQuery(storage);
        assert old(storage.items)[SearchQueryKey := storedQuery.value] == old(storage.items);
      }
    }

    /** Add a result to the stream list and show the outcome as this page's notification. */
    method HandleAddToStreamList(movie: Movie, store: App.Store)
      modifies this, store
      ensures store.streamList == Added(old(store.streamList), movie)
      ensures notification == Some(NotificationFor(AddResult(old(store.streamList), movie)))
      ensures !store.isLoading
      ensures store.darkMode == old(store.darkMode) && store.watchedMovies == old(store.watchedMovies)
      ensures store.error == old(store.error) && store.notification == old(store.notification)
      ensures query == old(query) && movies == old(movies)
      ensures isLoading == old(isLoading) && error == old(error)
    {
      var result := store.AddToStreamList(movie);
      notification := Some(NotificationFor(result));
    }

    method ClearNotification()
      modifies this
      ensures notification == None
      ensures query == old(query) && movies == old(movies)
      ensures isLoading == old(isLoading) && error == old(error)
    {
      notification := None;
    }
  }

  /** A failed search keeps the previous results; a later successful one clears the error and replaces them. */
  method SearchScenario(q: string, first: seq<Movie>, second: seq<Movie>)
    requires !IsBlank(q)
  {
    var page := new Page();
    var storage := new LocalStorage();
    page.SetQuery(q, storage);
    var req := page.HandleSearch(None, Fetched(first));
    assert req == Some(q) && page.movies == first && page.error == None;
    req := page.HandleSearch(None, FetchFailed);
    assert page.movies == first && page.error == Some(FetchErrorMessage) && !page.isLoading;
    req := page.HandleSearch(None, Fetched(second));
    assert page.movies == second && page.error == None;
  }

  /** A whitespace-only query neither overwrites the stored query nor searches. */
  method BlankQueryScenario(q: string, outcome: FetchOutcome)
    requires !IsBlank(q)
  {
    var page := new Page();
    var storage := new LocalStorage();
    page.SetQuery(q, storage);
    assert storage.GetItem(SearchQueryKey) == Some(q);
    page.SetQuery("  ", storage);
    assert storage.GetItem(SearchQueryKey) == Some(q);
    var req := page.HandleSearch(None, outcome);
    assert req == None && page.movies == [] && page.error == None && !page.isLoading;
  }
}
