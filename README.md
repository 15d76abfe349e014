# Stream list watchlist: a Dafny model

This project models the client-side state of a movie-watchlist web app. The app has two stateful parts.

- **The watchlist store** lives in the root component, `src/App.tsx`. It holds the ordered stream list of movies, the map from movie id to watched flag, the dark-mode flag, a busy flag, a store-level error and one notification. It offers add, remove, toggle-watched, toggle-dark-mode and the two clear operations.
- **The search page** is `src/components/Pages/Movies/Movies.tsx`. It holds the query text, the last search results, its own busy flag, error and notification. It runs catalog searches, stores the last query that is not blank, and restores that query on mount.

Each stateful part is a Dafny class whose fields are the component's state variables, one method per handler or effect:

- `App.Store` for the store;
- `MoviesPage.Page` for the search page;
- `BrowserStorage.LocalStorage` for local storage, seen as a key→string map.

The values the handlers compute are pure functions in module `Watchlist`: `some`/`find` lookup, append-if-absent, `filter` removal, the flag toggle, the messages and the dark-mode string codec. JavaScript's `trim` and the blank-query test are in module `QueryText`. The methods are specified through these functions, and the lemmas prove the listed properties about the functions:

- append-if-absent and its idempotence;
- removal as an order-preserving filter, and its idempotence;
- removal undoing an add;
- both operations preserving distinct ids;
- `find` returning the first match;
- the toggle being an involution on the flag, and on the map when the id already has an entry;
- the dark-mode round trip.

The catalog request is not modelled. Its result is a `FetchOutcome` parameter, either `Fetched(results)` or `FetchFailed`. `handleSearch` is split at its `await`:

- `BeginSearch` decides the query, short-circuits on a blank one, sets the busy flag and clears the error.
- `CompleteSearch` applies the outcome and clears the busy flag, as the `finally` block does.
- `HandleSearch` runs the two in sequence.

The Enter key and the Search button both call `HandleSearch(None, …)`.

In the app, the save effect (`src/App.tsx:54-58`) runs after every change to the list, the flags or the dark-mode flag. In the model it is a separate step, `PersistDarkMode`, which the caller invokes after `ToggleDarkMode` or `Hydrate`. The search page's persistence effect is different: `SetQuery` runs it itself, through `PersistQuery`.

Event handling is sequential. Every `set…` call made by a handler has taken effect before the next handler runs. So the duplicate check on the rendered `streamList` and the append to the updater's `prevList` (`src/App.tsx:75-78`) both read the one `streamList` field.

The methods `AddScenario`, `ToggleScenario`, `RemoveScenario`, `SearchScenario` and `BlankQueryScenario` are client code. From the contracts alone they prove these scenarios:

- adding to an empty list gives `[X]` and `"X added to your Stream List!"`; adding again fails with the "already in" message;
- toggling a missing flag gives `{1: true}`, then `{1: false}`;
- a failed search keeps the previous results, and a later success clears the error;
- a blank query never overwrites the stored one.

Three behaviours of the code worth noting:

- The search query is written to storage whenever the `query` state changes and is not blank (`src/components/Pages/Movies/Movies.tsx:28-32`), so typing writes it. Running a search does not.
- `toggleWatched` announces the new state only when the movie is in the list (`src/App.tsx:123`). The flag is flipped either way.
- On mount, a stored whitespace-only query still becomes the current query, but no search runs.

## Model

| member | source | states |
|---|---|---|
| `Watchlist.HasId` | src/App.tsx:75 | true exactly when some entry of the list carries the id |
| `Watchlist.FindById` | src/App.tsx:95 | `None` exactly when no entry carries the id; otherwise a list entry with that id |
| `Watchlist.FindFirst` | src/App.tsx:117 | `find` returns the first entry with the id, even when later entries share it |
| `Watchlist.FindDistinct` | src/App.tsx:117 | with distinct ids, looking up an entry's id returns that entry |
| `Watchlist.Added` | src/App.tsx:75-78 | the old list is kept as a prefix in order; the id is present afterwards; the list grows by exactly one, with the movie last, iff the id was absent |
| `Watchlist.AddedMessage` | src/App.tsx:80 | the success message begins with the movie's title |
| `Watchlist.AlreadyAddedMessage` | src/App.tsx:83 | the duplicate message begins with the movie's title |
| `Watchlist.RemovedMessage` | src/App.tsx:101 | the removal message begins with the removed movie's title |
| `Watchlist.WatchedMessage` | src/App.tsx:125-127 | the watched-state message begins with the movie's title |
| `Watchlist.MessagesDistinguishOutcomes` | src/App.tsx:80-83 | the added and already-added messages differ, and so do the watched and unwatched ones |
| `Watchlist.AddResult` | src/App.tsx:77-84 | success iff the id was absent; message `"<title> added to your Stream List!"` on success, `"<title> is already in your Stream List."` otherwise |
| `Watchlist.AddedIdempotent` | src/App.tsx:75-78 | adding the same movie a second time changes nothing |
| `Watchlist.AddedPreservesDistinct` | src/App.tsx:75-78 | pairwise-distinct ids stay distinct after an add |
| `Watchlist.Removed` | src/App.tsx:96 | no entry with the id remains; a movie is kept iff it was in the list with another id; the list never grows |
| `Watchlist.RemovedAppend` | src/App.tsx:96 | removal distributes over concatenation, so the kept entries keep their original order |
| `Watchlist.RemovedAbsent` | src/App.tsx:96 | removing an id no entry carries leaves the list unchanged |
| `Watchlist.RemovedIdempotent` | src/App.tsx:96 | removing twice gives the same list as removing once |
| `Watchlist.RemovedShrinks` | src/App.tsx:95-96 | the list gets shorter iff some entry carried the id |
| `Watchlist.RemovedPreservesDistinct` | src/App.tsx:96 | pairwise-distinct ids stay distinct after a removal |
| `Watchlist.RemoveUndoesAdd` | src/App.tsx:78-96 | removing the id of a movie just appended restores the earlier list |
| `Watchlist.IsWatched` | src/App.tsx:118 | `watchedMovies[id]` read as a boolean: a missing entry counts as false, a present one is its stored value |
| `Watchlist.Toggled` | src/App.tsx:118-120 | the flag for the id becomes the negation of the old one (missing counts as false); the id gains an entry; no other key changes |
| `Watchlist.ToggledTwice` | src/App.tsx:118-120 | toggling twice restores the flag, and the whole map when the id had an entry |
| `Watchlist.DecodeDarkMode` | src/App.tsx:42 | an absent key reads as off; a stored string reads as on exactly when it is `"true"` |
| `Watchlist.EncodeDarkMode` | src/App.tsx:57 | `String(b)` is `"true"` or `"false"`, and reading it back with `=== 'true'` (line 42) yields `b` |
| `BrowserStorage.LocalStorage.GetItem` | src/components/Pages/Movies/Movies.tsx:21 | `getItem` returns the stored string when the key is present and `null` (here `None`) when it is absent |
| `BrowserStorage.LocalStorage.SetItem` | src/components/Pages/Movies/Movies.tsx:30 | `setItem` overwrites the one key and leaves every other key untouched |
| `App.Store.constructor` | src/App.tsx:30-35 | initial state: dark mode off, empty list and flags, not busy, no error, no notification |
| `App.Store.Hydrate` | src/App.tsx:38-46 | the parsed list and flags are installed; dark mode is on iff the stored string is exactly `"true"` (absent means off) |
| `App.Store.PersistDarkMode` | src/App.tsx:57 | only the `darkMode` key is written, with the encoded flag, which decodes back to the current flag |
| `App.Store.ToggleDarkMode` | src/App.tsx:70 | dark mode is negated; nothing else changes |
| `App.Store.AddToStreamList` | src/App.tsx:72-90 | the list becomes `Added`, appended iff the id was absent and unchanged otherwise; result as `AddResult`; distinct ids are preserved; not busy afterwards; flags, error and notification unchanged |
| `App.Store.RemoveFromStreamList` | src/App.tsx:92-112 | always succeeds; the list becomes `Removed`; the removal notification names the first matching movie and is set only when one was found, otherwise the notification is untouched; the flags are never pruned; not busy afterwards |
| `App.Store.ToggleWatched` | src/App.tsx:114-138 | always succeeds; the flags become `Toggled` even for an id not in the list; the "marked as watched/unwatched" notification, with the new value, is set only when the movie is listed; not busy afterwards; the list is unchanged |
| `App.Store.ClearError` | src/App.tsx:140 | the error is cleared; nothing else changes |
| `App.Store.ClearNotification` | src/App.tsx:141 | the notification is cleared; nothing else changes |
| `QueryText.TrimStart` | src/components/Pages/Movies/Movies.tsx:36 | the result is a suffix of the input; everything dropped is whitespace; it does not start with whitespace |
| `QueryText.TrimEnd` | src/components/Pages/Movies/Movies.tsx:36 | the result is a prefix of the input; everything dropped is whitespace; it does not end with whitespace |
| `QueryText.TrimIsSlice` | src/components/Pages/Movies/Movies.tsx:29 | `trim()` yields a contiguous slice of the query |
| `QueryText.IsJsWhitespace` | src/components/Pages/Movies/Movies.tsx:29 | the code points `trim()` removes; space, tab, line feed and carriage return are among them, and no visible ASCII character is |
| `QueryText.Trim` | src/components/Pages/Movies/Movies.tsx:29 | `trim()` is never longer than the query, and a non-empty result neither starts nor ends with whitespace |
| `QueryText.TrimIdempotent` | src/components/Pages/Movies/Movies.tsx:29 | trimming an already trimmed query changes nothing |
| `QueryText.IsBlank` | src/components/Pages/Movies/Movies.tsx:36 | `!q.trim()` holds exactly when every character of `q` is whitespace |
| `MoviesPage.QueryToUse` | src/components/Pages/Movies/Movies.tsx:35 | a present, non-empty argument is used; an absent or empty one falls back to the current query |
| `MoviesPage.NotificationFor` | src/components/Pages/Movies/Movies.tsx:68-71 | the store's message is passed through unchanged; the type is success exactly when the result succeeded |
| `MoviesPage.Page.constructor` | src/components/Pages/Movies/Movies.tsx:14-18 | initial state: empty query and results, not busy, no error, no notification |
| `MoviesPage.Page.PersistQuery` | src/components/Pages/Movies/Movies.tsx:28-32 | the query is written under `movieSearchQuery` only when it is not blank; a blank query leaves storage untouched |
| `MoviesPage.Page.SetQuery` | src/components/Pages/Movies/Movies.tsx:110 | the query becomes the typed text, which the persistence effect then writes only if it is not blank |
| `MoviesPage.Page.BeginSearch` | src/components/Pages/Movies/Movies.tsx:34-39 | a blank chosen query changes no state and sends nothing; otherwise that query is sent, the page is busy and the error is cleared |
| `MoviesPage.Page.CompleteSearch` | src/components/Pages/Movies/Movies.tsx:41-55 | success replaces the results wholesale; failure keeps them and sets `"Failed to fetch movies. Please try again."`; not busy afterwards in both cases |
| `MoviesPage.Page.HandleSearch` | src/components/Pages/Movies/Movies.tsx:34-56 | a blank query changes nothing; otherwise the error is cleared, then success replaces the results or failure sets the error message, and the page is not busy afterwards |
| `MoviesPage.Page.Mount` | src/components/Pages/Movies/Movies.tsx:20-26 | a stored non-empty query becomes the current query and is searched for unless it is blank; an empty or absent one does neither; the stored value is never changed |
| `MoviesPage.Page.HandleAddToStreamList` | src/components/Pages/Movies/Movies.tsx:64-79 | the store's list becomes `Added`; the page notification carries the store's message, typed success exactly when the add succeeded |
| `MoviesPage.Page.ClearNotification` | src/components/Pages/Movies/Movies.tsx:81-83 | the page notification is cleared; nothing else changes |

## Left out

- JSON encoding of `streamList` and `watchedMovies`: JSON is handled by a library and is not modelled. `Hydrate` takes the parsed values as parameters, and only the `darkMode` key's string encoding is written to the modelled storage (`src/App.tsx:55-56`).
- The load-failure path (`src/App.tsx:47-50`) and its error message: it is reached only when JSON parsing throws, which is not modelled.
- The `try/catch` failure branches of `addToStreamList`, `removeFromStreamList` and `toggleWatched` (`src/App.tsx:85-89`, `107-111`, `133-137`): they cannot be reached while the state is well typed, and the model assumes it is, since `Hydrate` takes a `seq<Movie>` and a `map<int, bool>`. The stored values are not checked after parsing (`src/App.tsx:40-45`). So stored data that still parses but has the wrong shape, such as `"null"` or `"[null]"`, makes `some`, `find` or `watchedMovies[id]` throw. That reaches those branches: they set the store error, and `addToStreamList` returns `{ success: false, message: "An error occurred. Please try again." }`. The model does not capture this.
- The busy flag set to true during a store mutation: the mutations are synchronous, so the model shows only the final value, false. The search page's busy state between `BeginSearch` and `CompleteSearch` is modelled.
- The 3-second notification timers (`src/App.tsx:61-68`, `src/components/Pages/Movies/Movies.tsx:76-78`): there is no clock in the model. The notifications are cleared only by the clear operations.
- Overlapping searches: the model keeps no record that ties a completion to its request, so it does not capture which of two overlapping searches lands last. Calling `BeginSearch` twice before `CompleteSearch` is allowed, as in the app.
- The HTTP request to the catalog, its URL and API key: the outcome is a parameter.
- Movie ids are modelled as unbounded integers, not JavaScript numbers. Watched-map keys are integers, not the strings that JavaScript object keys become.
- Rendering, routing, the dark-mode `classList` effect, `console` logging and the service worker: they hold presentation or library configuration, not state logic.
