/**
 * The watchlist provider: the `favorites` state shared by every page, its
 * start-up read of browser storage and the write that follows every change.
 * Browser storage is the map `storage`; each `setFavorites` is one step
 * followed by the persist effect it triggers.
 */
module WatchlistContext {
  import opened Wrappers
  import opened Media
  import opened Favorites
  import Json

  /** The one storage key the watchlist uses. */
  const StorageKey := "movie-favorites"

  /** What the start-up read of storage found. */
  datatype Hydration =
    | NothingStored             // no value, or the empty string: the list stays as it was
    | Loaded(items: seq<Item>)  // the decoded list replaces the initial one
    | Malformed                 // `Json.Decode` fails: every text JSON.parse rejects, and non-canonical texts it reads

  /** The hydrate effect's reading of storage as the browser holds it at start-up. */
  function ReadBack(storage: map<string, string>): (h: Hydration)
    ensures h.NothingStored? <==> StorageKey !in storage || storage[StorageKey] == ""
    ensures h.Loaded? ==> StorageKey in storage && Json.Decode(storage[StorageKey]) == Some(h.items)
    ensures h.Malformed? ==> StorageKey in storage && Json.Decode(storage[StorageKey]).None?
  {
    if StorageKey !in storage || storage[StorageKey] == "" then NothingStored
    else
      match Json.Decode(storage[StorageKey])
      case None => Malformed
      case Some(items) => Loaded(items)
  }

  /** Storage that holds the encoding of a list is read back at the next start-up as exactly that list. */
  lemma ReloadFidelity(storage: map<string, string>, favs: seq<Item>)
    requires StorageKey in storage && storage[StorageKey] == Json.Encode(favs)
    ensures ReadBack(storage) == Loaded(favs)
  {
  }

  /** A stored value that is not JSON makes the start-up read fail rather than fall back to an empty list. */
  lemma NotJsonIsMalformed()
    ensures ReadBack(map[StorageKey := "not-json"]) == Malformed
  {
  }

  class WatchlistProvider {
    var favorites: seq<Item>
    var storage: map<string, string>

    /** The durable copy is the encoding of the whole current list. */
    ghost predicate Persisted()
      reads this
    {
      StorageKey in storage && storage[StorageKey] == Json.Encode(favorites)
    }

    /** The first render: `useState([])`, over whatever the browser has stored. */
    constructor (browserStorage: map<string, string>)
      ensures favorites == [] && storage == browserStorage
    {
      favorites := [];
      storage := browserStorage;
    }

    /** The persist effect: overwrite the key with the encoding of the whole current list. */
    method Persist()
      modifies this
      ensures favorites == old(favorites)
      ensures storage == old(storage)[StorageKey := Json.Encode(favorites)]
      ensures Persisted()
    {
      storage := storage[StorageKey := Json.Encode(favorites)];
    }

    /**
     * The effects of the first commit, in order: the hydrate effect reads the
     * key, then the persist effect writes the list the first render had; when
     * a list was read, `setFavorites` replaces the state and the persist effect
     * runs again with it. A stored text that `Json.Decode` rejects is taken
     * as the hydrate effect throwing; React then skips the component's
     * remaining effects for that commit, so the persist effect does not run
     * and nothing is written. That is the one consequence of the thrown error
     * this model states. It matches the source for text JSON.parse rejects;
     * text JSON.parse reads but that is not in the writer's canonical form
     * (whitespace, other keys or key order, `null`) the source loads, where
     * this model calls it `Malformed`.
     */
    method Hydrate() returns (h: Hydration)
      modifies this
      ensures h == ReadBack(old(storage))
      ensures h.Malformed? ==> favorites == old(favorites) && storage == old(storage)
      ensures h.NothingStored? ==>
        favorites == old(favorites) && storage == old(storage)[StorageKey := Json.Encode(old(favorites))]
      ensures h.Loaded? ==> favorites == h.items && storage == old(storage)[StorageKey := Json.Encode(h.items)]
      ensures !h.Malformed? ==> Persisted()
    {
      var stored := if StorageKey in storage then Some(storage[StorageKey]) else None;
      if stored.None? || stored.value == "" {
        h := NothingStored;
        Persist();
        return;
      }
      var parsed := Json.Decode(stored.value);
      if parsed.None? {
        h := Malformed;
        return;
      }
      h := Loaded(parsed.value);
      Persist();
      favorites := parsed.value;
      Persist();
    }

    /**
     * `addToFavorites`: append the item unless an entry already has its id.
     * Only a change of the list triggers the persist effect.
     */
    method Add(item: Item)
      modifies this
      ensures favorites == AddFavorite(old(favorites), item)
      ensures storage == if HasId(old(favorites), item.id) then old(storage)
                         else old(storage)[StorageKey := Json.Encode(favorites)]
      ensures old(Persisted()) ==> Persisted()
      ensures old(UniqueIds(favorites)) ==> UniqueIds(favorites)
    {
      if UniqueIds(favorites) {
        AddPreservesUnique(favorites, item);
      }
      if FindById(favorites, item.id).None? {
        favorites := favorites + [item];
        Persist();
      }
    }

    /**
     * `removeFromFavorites`: keep the entries with a different id. `filter`
     * always yields a new array, so the persist effect always runs.
     */
    method Remove(id: int)
      modifies this
      ensures favorites == RemoveFavorite(old(favorites), id)
      ensures storage == old(storage)[StorageKey := Json.Encode(favorites)]
      ensures Persisted()
      ensures !HasId(favorites, id)
      ensures old(UniqueIds(favorites)) ==> UniqueIds(favorites)
    {
      RemoveMakesAbsent(favorites, id);
      if UniqueIds(favorites) {
        RemovePreservesUnique(favorites, id);
      }
      favorites := RemoveFavorite(favorites, id);
      Persist();
    }
  }
}
