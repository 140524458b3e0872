# Movie watchlist: a Dafny model

This project models the logic of a browser-based movie and TV discovery
application written in Next.js/React. It covers two things:

- **The watchlist store** (`context/WatchlistContext.js`). This is an ordered
  list of favourite media items that behaves as a set keyed by `id`. Every
  change is written in full to the browser-storage key `movie-favorites`, and
  that key is read back once at start-up.
- **The decision logic of the discover page** (`pages/index.js`). A card works
  out its media type, link, title and date, and whether it is shown as a
  favourite. A search submit moves `error` and `results` from one state to the
  next. The top-rated lists keep their first five entries.

Modules, one file each:

| file | module | models |
|---|---|---|
| `wrappers.dfy` | `Wrappers` | `Option`, for fields and keys that may be absent |
| `media.dfy` | `Media` | the `Item` record and JavaScript truthiness of a string field |
| `json.dfy` | `Json` | a canonical writer of the favourites array over six fields in a fixed key order (what `JSON.stringify` writes for an item that holds exactly those fields, in that order, but not for a raw catalog object) and a strict reader standing for `JSON.parse`, with the round trip proved |
| `favorites.dfy` | `Favorites` | the pure list values: `find` by id, append-if-absent, `filter` by id |
| `watchlist.dfy` | `WatchlistContext` | the provider as a class: `favorites`, browser `storage`, hydration, persisting, add, remove |
| `discover.dfy` | `Discover` | card derivations, the card button, top five, and the page as a class with `searchMovies` and `fetchRecommendations` |

Browser storage is a field of type `map<string, string>`. A network request is
a parameter of type `Fetched`, which holds what the request would produce. The
API key is a parameter too. Every `setFavorites` is one step, and the persist
effect it triggers runs right after it.

The model follows the code, including where it is fragile:
- A stored value that JSON.parse rejects makes the hydrate effect throw
  (context/WatchlistContext.js:12). The store does not fall back to an empty
  list. `Hydrate` returns `Malformed` for every text `Json.Decode` rejects,
  writes nothing and makes no further claim. That covers every text
  JSON.parse rejects, and also some texts it reads (see "Left out").
- Only the empty query is guarded. A query of blanks is sent
  (pages/index.js:68).
- `searchMovies` issues its request without checking the API key. Only
  `fetchRecommendations` checks the key (pages/index.js:49, 81).
- A failing storage write is not caught anywhere.

## Model

| member | source | states |
|---|---|---|
| `Favorites.FindById` | context/WatchlistContext.js:21 | the lookup finds an entry exactly when some entry has the id, and then returns the first entry with that id |
| `Favorites.AddFavorite` | context/WatchlistContext.js:20-24 | when the id is absent the result is the old list with the item appended at the end; when present, the list is unchanged |
| `Favorites.AddMakesPresent` | context/WatchlistContext.js:21-22 | after an add, some entry carries the item's id |
| `Favorites.AddIdempotent` | context/WatchlistContext.js:21-22 | adding the same item twice gives the same list as adding it once |
| `Favorites.AddPreservesUnique` | context/WatchlistContext.js:20-24 | if no two entries share an id before an add, none do after it |
| `Favorites.AddCommutesAsSet` | context/WatchlistContext.js:20-24 | adding two items with different ids in either order yields the same entries |
| `Favorites.RemoveFavorite` | context/WatchlistContext.js:26-28 | the result holds exactly the entries whose id differs and is no longer than the input |
| `Favorites.RemoveConcat` | context/WatchlistContext.js:27 | removing distributes over concatenation, so survivors keep their relative order |
| `Favorites.RemoveCounts` | context/WatchlistContext.js:27 | each entry with the removed id occurs zero times afterwards; every other entry occurs as often as before |
| `Favorites.RemoveAbsentIsNoOp` | context/WatchlistContext.js:27 | removing an id no entry has leaves the list exactly unchanged |
| `Favorites.RemoveMakesAbsent` | context/WatchlistContext.js:27 | after a remove no entry has the id |
| `Favorites.RemoveIdempotent` | context/WatchlistContext.js:27 | removing the same id twice is the same as removing it once |
| `Favorites.RemovePreservesUnique` | context/WatchlistContext.js:26-28 | if no two entries share an id before a remove, none do after it |
| `Favorites.AddThenRemove` | context/WatchlistContext.js:22-27 | adding an item whose id is new and then removing that id restores the original list |
| `Json.ParseIntText` | context/WatchlistContext.js:17 | an item id written as JSON reads back as the same integer, and the text after it is untouched |
| `Json.QuoteRoundTrip` | context/WatchlistContext.js:17 | a string written as a JSON literal, escapes included, reads back as the same string |
| `Json.ItemRoundTrip` | context/WatchlistContext.js:17 | a stored item reads back as the same item, with every optional field present or absent as before |
| `Json.Encode` | context/WatchlistContext.js:17 | reading the stored text of a list back gives exactly that list |
| `Json.Decode` | context/WatchlistContext.js:12 | a text that reads back starts with `[`, and the empty list is read from `[]` and from no other text |
| `Json.EncodeInjective` | context/WatchlistContext.js:17 | different lists are stored as different texts |
| `WatchlistContext.ReadBack` | context/WatchlistContext.js:10-12 | nothing is loaded exactly when the key is absent or holds the empty string (both falsy); a load gives the decoded list; otherwise the stored text does not parse |
| `WatchlistContext.ReloadFidelity` | context/WatchlistContext.js:9-17 | storage holding the encoding of a list is read back at start-up as exactly that list |
| `WatchlistContext.NotJsonIsMalformed` | context/WatchlistContext.js:11-12 | the stored text `not-json` makes hydration fail; it does not give an empty list |
| `WatchlistContext.WatchlistProvider.constructor` | context/WatchlistContext.js:7 | the first render starts with an empty list over the browser's storage |
| `WatchlistContext.WatchlistProvider.Persist` | context/WatchlistContext.js:16-18 | the key is overwritten with the encoding of the whole current list, and nothing else changes |
| `WatchlistContext.WatchlistProvider.Hydrate` | context/WatchlistContext.js:9-18 | the key is read before any write. Absent or empty: the list stays and is written. Decodable: the list becomes the decoded value, and storage ends with its encoding. Otherwise nothing changes |
| `WatchlistContext.WatchlistProvider.Add` | context/WatchlistContext.js:20-24 | the list becomes the append-if-absent value. Storage is rewritten only when the list changed. Persisted agreement and unique ids are kept |
| `WatchlistContext.WatchlistProvider.Remove` | context/WatchlistContext.js:26-28 | the list becomes the filtered value and storage is always rewritten with it. Afterwards no entry has the id, and unique ids are kept |
| `Discover.MediaTypeOf` | pages/index.js:8 | a card is a movie exactly when its title is truthy, otherwise a TV show |
| `Discover.DetailHref` | pages/index.js:12 | a card's link `/{mediaType}/{id}` reads back as the card's media type and its id |
| `Discover.DisplayTitle` | pages/index.js:19 | the shown title is the title for a movie and the name otherwise; it is truthy exactly when one of them is |
| `Discover.DisplayDate` | pages/index.js:21 | the shown date is the release date when truthy, otherwise the first-air date; it is truthy exactly when one of them is |
| `Discover.DateIndependentOfMediaType` | pages/index.js:8-21 | every item with a truthy release date and no truthy title is linked as a TV show, shows its name, and still shows its release date |
| `Discover.IsFavorite` | pages/index.js:133 | a card is shown as a favourite exactly when some favourites entry has its id |
| `Discover.CardToggle` | pages/index.js:23-31 | pressing a card's button flips whether it is shown as a favourite, and unique ids stay unique |
| `Discover.CardToggleTwice` | pages/index.js:23-31 | pressing the button of a non-favourite card twice restores the favourites list |
| `Discover.TopFive` | pages/index.js:53-57 | the kept list has the first min(5, n) entries, in their original order |
| `Discover.IsErrorQuery` | pages/index.js:70 | the shortcut query is exactly the five letters of "error", each in either case |
| `Discover.StatusMessage` | pages/index.js:84 | the message is "API request failed with status " followed by a number that reads back as the status |
| `Discover.StatusMessageNamesStatus` | pages/index.js:84 | the message "API request failed with status N" determines N |
| `Discover.TopRatedResults` | pages/index.js:51-57 | a top-rated response yields its list exactly when it has a JSON body with `results`; otherwise the step throws |
| `Discover.TopRatedIgnoresStatus` | pages/index.js:51-57 | the top-rated steps never look at `res.ok` or the status, only at the body |
| `Discover.DiscoverPage.constructor` | pages/index.js:38-42 | the page starts with an empty query, no results, no error and empty top lists |
| `Discover.DiscoverPage.SearchMovies` | pages/index.js:65-92 | empty query: `error` cleared, `results` kept, no request. Shortcut query: "Simulated API Error" with `[]`, no request. Otherwise a request. Rejected or unparseable: its message with `[]`. Not OK with status N: "API request failed with status N" with `[]`. OK: the body's `results` or `[]`, with no error |
| `Discover.DiscoverPage.FetchRecommendations` | pages/index.js:47-63 | no request without an API key. Otherwise the movies are fetched first and the shows second, each list set to its first five results. A step that throws ends the sequence |

## Left out

- Network I/O. `fetch`, the request URLs and the unencoded query in the search URL are not modelled. Each request is represented only by the outcome it would have.
- `Json.Decode`: it is not the whole of JSON.parse. Besides the writer's own output it accepts `\/`, `\u` followed by any four hexadecimal digits in either case that do not name a surrogate, and `-0`. It rejects whitespace, other keys, another key order, `null` values, fractional or exponent numbers, and `\u` escapes of surrogates, where JSON.parse might accept them.
- Raw catalog fields other than `id`, `title`, `name`, `release_date`, `first_air_date` and `poster_path` are not kept. JavaScript keeps the whole object. A field that is `null` is treated like an absent one.
- JavaScript numbers are not modelled. Ids and statuses are unbounded integers, so precision loss above 2^53 does not happen in the model.
- `WatchlistContext.ReadBack` and `WatchlistProvider.Hydrate`: some texts that JSON.parse reads are `Malformed` in the model. These are texts with whitespace, other keys or another key order, `null` or non-string field values, items without an `id`, and any top-level value that is not an array. This includes what the program itself stores for full catalog objects, whose own keys come in their own order and do not start with `id`. For such a text the source sets the list to the parsed value and the persist effect rewrites the key. The model instead leaves the list and storage unchanged.
- Strings are sequences of Unicode scalar values, whereas JavaScript strings are UTF-16 code units. So a title holding a lone surrogate, which JSON.stringify writes as a `\udXXX` escape, cannot be represented.
- `Lower` lower-cases only the letters A to Z, whereas `toLowerCase` covers all of Unicode.
- React's scheduling and re-rendering are not modelled. Of what React does with the error that JSON.parse throws during hydration, only one consequence is modelled: the persist effect of that commit does not run. Interleaving of other events with an awaiting `searchMovies` is left out too.
- `WatchlistProvider.Hydrate`: its contract gives storage only at the end. The intermediate write of the initial list appears only in its body.
- Writes to browser storage that fail, and `console.error` logging, are not modelled.
- `triggerFrontendError` and the image `onError` placeholder are UI glue and are not modelled.
- The JSX markup and styles, `pages/watchlist.js`, `components/Layout.js`, `pages/_app.js` and `pages/movie/[id].js` are presentation and are not part of this model. The card rules in `pages/watchlist.js` repeat those of `pages/index.js`.
