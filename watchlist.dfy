/**
 * The values the watchlist store computes: lookup by id, append-if-absent,
 * removal by id, the watched-flag toggle, the user-facing messages and the
 * dark-mode string codec. The store's methods (module App) are specified
 * by these functions.
 */
module Watchlist {
  import opened Types

  type WatchedMovies = map<int, bool>

  /** No two entries of the list share an id. */
  ghost predicate DistinctIds(list: seq<Movie>)
  {
    forall i, j :: 0 <= i < j < |list| ==> list[i].id != list[j].id
  }

  /** `list.some(m => m.id === id)`. */
  function HasId(list: seq<Movie>, id: int): (r: bool)
    ensures r <==> exists i :: 0 <= i < |list| && list[i].id == id
  {
    if list == [] then false
    else list[0].id == id || HasId(list[1..], id)
  }

  /** `list.find(m => m.id === id)`: the first entry with that id, if any. */
  function FindById(list: seq<Movie>, id: int): (r: Option<Movie>)
    ensures r.None? <==> !HasId(list, id)
    ensures r.Some? ==> r.value in list && r.value.id == id
  {
    if list == [] then None
    else if list[0].id == id then Some(list[0])
    else FindById(list[1..], id)
  }

  /** The list after adding `movie`: `[...list, movie]` unless its id is already present. */
  function Added(list: seq<Movie>, movie: Movie): (r: seq<Movie>)
    ensures HasId(r, movie.id)
    ensures |list| <= |r| <= |list| + 1 && r[..|list|] == list
    ensures |r| == |list| + 1 <==> !HasId(list, movie.id)
    ensures |r| == |list| + 1 ==> r[|list|] == movie
  {
    if HasId(list, movie.id) then list
    else
      assert (list + [movie])[|list|].id == movie.id;
      list + [movie]
  }

  /** `list.filter(m => m.id !== id)`. */
  function Removed(list: seq<Movie>, id: int): (r: seq<Movie>)
    ensures !HasId(r, id)
    ensures forall m :: m in r <==> m in list && m.id != id
    ensures |r| <= |list|
  {
    if list == [] then []
    else if list[0].id == id then Removed(list[1..], id)
    else [list[0]] + Removed(list[1..], id)
  }

  /** `watchedMovies[id]` read as a boolean: a missing entry is `undefined`, which counts as false. */
  function IsWatched(w: WatchedMovies, id: int): (r: bool)
    ensures id !in w ==> !r
    ensures id in w ==> r == w[id]
  {
    id in w && w[id]
  }

  /** `{ ...w, [id]: !w[id] }`. */
  function Toggled(w: WatchedMovies, id: int): (r: WatchedMovies)
    ensures r.Keys == w.Keys + {id}
    ensures IsWatched(r, id) == !IsWatched(w, id)
    ensures forall k :: k in w && k != id ==> r[k] == w[k]
  {
    w[id := !IsWatched(w, id)]
  }

  // ---------------------------------------------------------------------------
  // Messages

  /** Names the movie first: the message begins with the title. */
  function AddedMessage(title: string): (r: string)
    ensures |r| > |title| && r[..|title|] == title
  {
    title + " added to your Stream List!"
  }

  /** Names the movie first: the message begins with the title. */
  function AlreadyAddedMessage(title: string): (r: string)
    ensures |r| > |title| && r[..|title|] == title
  {
    title + " is already in your Stream List."
  }

  /** Names the movie first: the message begins with the title. */
  function RemovedMessage(title: string): (r: string)
    ensures |r| > |title| && r[..|title|] == title
  {
    title + " removed from your Stream List."
  }

  /** Names the movie first: the message begins with the title. */
  function WatchedMessage(title: string, watched: bool): (r: string)
    ensures |r| > |title| && r[..|title|] == title
  {
    if watched then title + " marked as watched." else title + " marked as unwatched."
  }

  /** The messages tell the two outcomes of an add, and the two new watched states, apart. */
  lemma MessagesDistinguishOutcomes(title: string)
    ensures AddedMessage(title) != AlreadyAddedMessage(title)
    ensures WatchedMessage(title, true) != WatchedMessage(title, false)
  {
  }

  /** What `addToStreamList(movie)` returns for a given list. */
  function AddResult(list: seq<Movie>, movie: Movie): (r: AddOutcome)
    ensures r.success <==> !HasId(list, movie.id)
    ensures r.message == if r.success then AddedMessage(movie.title) else AlreadyAddedMessage(movie.title)
  {
    if HasId(list, movie.id) then AddOutcome(false, AlreadyAddedMessage(movie.title))
    else AddOutcome(true, AddedMessage(movie.title))
  }

  // ---------------------------------------------------------------------------
  // The dark-mode codec: written as `String(b)`, read back as `s === 'true'`.

  const DarkModeKey := "darkMode"

  /** `getItem('darkMode') === 'true'`: an absent key, or any other string, reads as false. */
  function DecodeDarkMode(stored: Option<string>): (r: bool)
    ensures stored.None? ==> !r
    ensures stored.Some? ==> (r <==> stored.value == "true")
  {
    stored == Some("true")
  }

  function EncodeDarkMode(b: bool): (s: string)
    ensures s == "true" || s == "false"
    ensures DecodeDarkMode(Some(s)) == b
  {
    if b then "true" else "false"
  }

  // ---------------------------------------------------------------------------
  // Lemmas about lookup

  /** `find` returns the FIRST entry carrying the id. */
  lemma {:induction false} FindFirst(prefix: seq<Movie>, m: Movie, rest: seq<Movie>)
    requires !HasId(prefix, m.id)
    ensures FindById(prefix + [m] + rest, m.id) == Some(m)
  {
    if prefix != [] {
      assert (prefix + [m] + rest)[1..] == prefix[1..] + [m] + rest;
      assert prefix[0].id != m.id;
      FindFirst(prefix[1..], m, rest);
    }
  }

  /** With distinct ids, looking up the id of an entry returns that very entry. */
  lemma FindDistinct(list: seq<Movie>, i: int)
    requires DistinctIds(list) && 0 <= i < |list|
    ensures FindById(list, list[i].id) == Some(list[i])
  {
  }

  // ---------------------------------------------------------------------------
  // Lemmas about adding

  /** Adding the same movie twice has the effect of adding it once. */
  lemma AddedIdempotent(list: seq<Movie>, movie: Movie)
    ensures Added(Added(list, movie), movie) == Added(list, movie)
  {
  }

  /** Adding never breaks pairwise-distinct ids. */
  lemma AddedPreservesDistinct(list: seq<Movie>, movie: Movie)
    requires DistinctIds(list)
    ensures DistinctIds(Added(list, movie))
  {
  }

  // ---------------------------------------------------------------------------
  // Lemmas about removing

  /** Removal is a filter: it distributes over concatenation, so the kept entries keep their order. */
  lemma {:induction false} RemovedAppend(a: seq<Movie>, b: seq<Movie>, id: int)
    ensures Removed(a + b, id) == Removed(a, id) + Removed(b, id)
  {
    if a == [] {
      assert a + b == b;
    } else {
      assert (a + b)[0] == a[0];
      assert (a + b)[1..] == a[1..] + b;
      RemovedAppend(a[1..], b, id);
    }
  }

  /** Removing an id that no entry carries leaves the list unchanged. */
  lemma {:induction false} RemovedAbsent(list: seq<Movie>, id: int)
    requires !HasId(list, id)
    ensures Removed(list, id) == list
  {
    if list != [] {
      assert list[0].id != id;
      RemovedAbsent(list[1..], id);
      assert list == [list[0]] + list[1..];
    }
  }

  /** Removing twice gives the same list as removing once. */
  lemma RemovedIdempotent(list: seq<Movie>, id: int)
    ensures Removed(Removed(list, id), id) == Removed(list, id)
  {
  }

  /** Removal shrinks the list exactly when some entry carries the id. */
  lemma {:induction false} RemovedShrinks(list: seq<Movie>, id: int)
    ensures |Removed(list, id)| < |list| <==> HasId(list, id)
  {
    if list != [] {
      RemovedShrinks(list[1..], id);
    }
  }

  /** Removal keeps pairwise-distinct ids. */
  lemma {:induction false} RemovedPreservesDistinct(list: seq<Movie>, id: int)
    requires DistinctIds(list)
    ensures DistinctIds(Removed(list, id))
  {
    if list != [] {
      var tail := list[1..];
      assert DistinctIds(tail) by {
        forall i, j | 0 <= i < j < |tail| ensures tail[i].id != tail[j].id {
          assert tail[i] == list[i + 1] && tail[j] == list[j + 1];
        }
      }
      RemovedPreservesDistinct(tail, id);
      if list[0].id != id {
        var r := Removed(list, id);
        var rt := Removed(tail, id);
        assert r == [list[0]] + rt;
        forall i, j | 0 <= i < j < |r| ensures r[i].id != r[j].id {
          if i == 0 {
            assert r[j] == rt[j - 1] && rt[j - 1] in tail;
            var k :| 0 <= k < |tail| && tail[k] == rt[j - 1];
            assert tail[k] == list[k + 1];
          } else {
            assert r[i] == rt[i - 1] && r[j] == rt[j - 1];
          }
        }
      }
    }
  }

  /** Removing the id of a movie just appended (it was absent) restores the list. */
  lemma RemoveUndoesAdd(list: seq<Movie>, movie: Movie)
    requires !HasId(list, movie.id)
    ensures Removed(Added(list, movie), movie.id) == list
  {
    RemovedAppend(list, [movie], movie.id);
    RemovedAbsent(list, movie.id);
    assert Removed([movie], movie.id) == [];
  }

  // ---------------------------------------------------------------------------
  // Lemmas about the watched flags

  /** Toggling twice restores the flag; when the entry existed, it restores the whole map. */
  lemma ToggledTwice(w: WatchedMovies, id: int)
    ensures IsWatched(Toggled(Toggled(w, id), id), id) == IsWatched(w, id)
    ensures id in w ==> Toggled(Toggled(w, id), id) == w
  {
  }
}
