# pokedex-go in Dafny

This project models the core of a command-line Pokédex client. The client
queries the PokéAPI and keeps raw response bodies in an expiring in-memory
cache. It also tracks pagination cursors for the location listing and keeps
a map of caught Pokémon.

The model has two layers.

- `pokecache.dfy` (module `PokeCache`): the expiring cache. `Cache` is a
  class whose `entries` map is updated in place by `Add` and by the reaper.
  `Get` is a plain lookup that never looks at an entry's age. `Reap` is one
  pass of the reaper loop, called with the current time. Beside the class
  are pure functions on the map (`Added`, `Reaped`, `Find`) and lemmas for
  the cache's guarantees: hit after add, wholesale overwrite, frame, exact
  reap set, idempotent reap.
- `rules.dfy` (module `Rules`) and `session.dfy` (module `Session`):
  the request layer. `Rules` gives each handler's rule as a function on a
  `SessionState` snapshot, and proves the pagination, guard, URL, catch and
  dispatch properties as lemmas. `Session.Config` is `RequestConfig` with a
  `Pokedex` field. Its methods update the cursors, the cache and the Pokedex
  in place, and each is proved equal to its rule. `Step` handles one input
  line: the line is split on spaces, the command table is searched, and the
  named command runs.
- `gostrings.dfy` (module `GoStrings`) models `strings.Split` on a one-character
  separator and `strings.Join`. It proves both round trips, which gives the
  exact parse of a command line.
- `wrappers.dfy` holds the `Option` type. It stands in for Go's nil pointers.

The model takes several things as parameters instead of modelling them:

- Time is an integer count of nanoseconds (the unit of Go's `time.Duration`),
  passed as `now`.
- The network is `net: string -> Bytes`, the body the server would send for
  each URL.
- JSON decoding is the `Decoders` record of functions.
- The catch roll (`rand.Intn(10)`) is the `roll` parameter.

`main.go` and `commands.go` have the same map, mapb and explore handlers
(`commandMap` and `CommandMap`, and so on). Each is modelled once, and the
rules are cited against both files below. The Dafny files are therefore split
by layer, not by source file: `rules.dfy` holds the rules and `session.dfy`
the handlers, each for both Go files.

Points of the code that the model keeps:

- The reaper compares the absolute value of `time.Until(createdAt)` with
  the interval, so an entry stamped more than one interval in the future is
  also deleted (`PokeCache.Age`).
- `time.NewTicker` panics for a non-positive period, so the cache
  constructor requires `interval > 0`.
- The command table in `main.go` registers only help, exit, map, mapb and
  explore. `Step` therefore never runs catch, inspect or pokedex. Those
  handlers are modelled as methods of their own.

## Model

| member | source | states |
|---|---|---|
| PokeCache.Cache.constructor | pokecache/pokecache.go:62-66 | a new cache has no entries and keeps the given (positive) interval |
| PokeCache.Cache.Add | pokecache/pokecache.go:21-31 | the map afterwards is the old map with `key` bound to a fresh entry of `val` stamped `now`; nothing else changes |
| PokeCache.Cache.Get | pokecache/pokecache.go:34-41 | hit exactly when the key is present, whatever its age, returning the stored bytes; miss returns the nil (empty) slice; the cache is not modified |
| PokeCache.Cache.Reap | pokecache/pokecache.go:43-59 | after one pass the map is exactly the old map restricted to entries whose age is at most the interval |
| PokeCache.AddThenFind | pokecache/pokecache.go:21-41 | a lookup right after `Add(k, v)` returns `(v, true)` |
| PokeCache.AddOverwrites | pokecache/pokecache.go:27-30 | a second `Add` under the same key replaces the entry wholesale, value and timestamp from the second call |
| PokeCache.AddFrame | pokecache/pokecache.go:27 | `Add(k, _)` leaves every other key's presence, entry and lookup result unchanged |
| PokeCache.FindMissing | pokecache/pokecache.go:37-39 | a key not in the map gives `(nil, false)` |
| PokeCache.FindIgnoresAge | pokecache/pokecache.go:34-41 | a present entry older than the interval is still a hit until a reap removes it |
| PokeCache.ReapedExactly | pokecache/pokecache.go:47-58 | an entry survives a reap iff its age is at most the interval; survivors keep value and timestamp; no key is added |
| PokeCache.ReapKeepsBoundary | pokecache/pokecache.go:52-53 | an entry whose age equals the interval, in either direction, survives the reap |
| PokeCache.ReapExpires | pokecache/pokecache.go:47-58 | an entry added at `t` misses after a reap at a time more than one interval later |
| PokeCache.ReapIdempotent | pokecache/pokecache.go:47-58 | reaping twice at the same time equals reaping once |
| PokeCache.AddGetScenario | main_test.go:11-20 | storing "hi" under "foo" and reading it back gives "hi" and a hit; after a reap past the five-second interval the key misses |
| GoStrings.Split | main.go:140 | splitting always yields at least one piece and no piece contains the separator |
| GoStrings.JoinSplit | main.go:140 | joining the pieces of a split with the separator restores the line |
| GoStrings.SplitJoin | main.go:140 | splitting the join of separator-free words restores the words |
| Rules.CacheOrFetchRule | main.go:183-191 | on a hit the cached bytes are used and the cache is unchanged; on a miss the fetched bytes are used and stored so a following lookup hits; other keys are untouched |
| Rules.MapRequests | main.go:174-180 | map requests the first-page URL when Next is nil and Next's URL otherwise |
| Rules.MapCursors | main.go:199-208 | after map, Next is the decoded next even when empty, Prev is nil iff the decoded previous is empty and equals it otherwise, the Pokedex is untouched |
| Rules.MapbWithoutPrev | main.go:222-223 | mapb with no previous page changes neither cursor nor cache nor Pokedex |
| Rules.MapbCursors | main.go:225-253 | mapb requests exactly Prev through cache-or-fetch, then sets Next to the decoded next and Prev by the empty-previous rule |
| Rules.PagedCachesUrl | commands.go:97-100 | after a page is shown its URL is in the cache and no earlier key was lost |
| Rules.MapThenMapb | commands.go:65-117 | when map shows a page with a previous link, Prev holds that link and mapb then requests it, with the map URL cached |
| Rules.ArgUrls | main.go:265-269 | explore and catch URLs are the base followed by the argument words joined with no separator; a single word stands as it is |
| Rules.ExploreOnlyCaches | commands.go:128-146 | explore changes only the cache, by cache-or-fetch of its URL |
| Rules.CatchEscape | commands.go:182-183 | a roll above 5 leaves the Pokedex unchanged |
| Rules.CatchSuccess | commands.go:180-186 | a roll of at most 5 stores the decoded Pokémon under the joined name, overwriting an earlier catch, and leaves other names and the cursors unchanged |
| Rules.LookupByName | main.go:94-122 | a command is found exactly for the names in the table, and only under its own name |
| Rules.ParseCommandLine | main.go:139-142 | a line of a command word and argument words separated by single spaces parses to exactly that word and those words |
| Rules.UnknownCommandIsNoop | main.go:139-144 | a line whose first word names no command changes nothing |
| Session.FindCommand | main.go:139-143 | the loop over the command table finds exactly the command named by the word, or none |
| Session.Config.constructor | main.go:124-133 | a session starts with a fresh cache reaped every 20 seconds, nil cursors and an empty Pokedex |
| Session.Config.Fetch | commands.go:48-57 | the bytes used and the new cache are those of the cache-or-fetch rule |
| Session.Config.Map | main.go:169-215 | the session afterwards follows the map rule and the listed names are the decoded page's results |
| Session.Config.Mapb | main.go:219-261 | the session afterwards follows the mapb rule; nothing is listed on the first page |
| Session.Config.Explore | main.go:263-292 | only the cache changes, by the explore rule; the names returned are the decoded area's encounters |
| Session.Config.Catch | commands.go:158-191 | caught iff the roll is at most 5; the session afterwards follows the catch rule |
| Session.Config.Inspect | commands.go:193-212 | returns the caught Pokémon of the joined name, or nothing when it was not caught; changes nothing |
| Session.Config.ListPokedex | commands.go:214-221 | lists each caught entry's name exactly once, paired with a visiting order over the distinct Pokedex keys, so a name appears as many times as entries carry it; changes nothing |
| Session.Config.Step | main.go:135-145 | runs the command named by the first word of the line with the remaining words, returns which command ran, and the session afterwards follows the step rule |
| Session.BrowseScenario | main.go:167-208 | from a fresh start, the first map lists the first page and the second lists the page its next link points to |

## Left out

- Concurrency: the `sync.Mutex` and the ticker goroutine that calls the reaper are not modelled (pokecache/pokecache.go:12, 22-23, 44-45, 68-77). The model is sequential, and the caller invokes `Reap` with the time. `Get` takes no lock, so it races with the reaper in the source. That is a concurrency defect with no counterpart in a sequential model.
- Clocks: `time.Now` and `time.Until` are replaced by the `now` parameter. The `ParseDuration`/`String` round trip is assumed exact, so its `log.Fatalln` branch is unreachable. The float `.Seconds()` comparison is taken as exact integer comparison, which ignores the float64 rounding that merges neighbouring nanosecond counts beyond 2^23 seconds (about 97 days). The int64 width of `time.Duration` and the saturation of `Abs` are not modelled.
- Strings: Go strings are byte strings, while the model's strings are sequences of Unicode characters. An input line that is not valid UTF-8 has no counterpart in the model. For valid UTF-8, splitting on an ASCII space and comparing keys behave the same.
- Printing: progress messages, the printed location and Pokémon lists, and the ticker's prompt are not modelled. Where a command lists something, its method returns the list instead.
- `help` only prints the table, so `Step` leaves the state unchanged for it.
- `exit` calls `os.Exit`. In the model, `Step` returns `Exit` to the caller instead.
- The stdin read loop of `main` is not modelled; `Step` handles one line.
- HTTP: `getBodyFromUrl` and `pokehelp.GetBodyFromUrl` are replaced by the total function `net`. Their fatal exits on network errors and on status codes above 299 are not modelled.
- JSON: `json.Unmarshal` is replaced by the total functions in `Decoders`. Two failure paths are not modelled: the `log.Fatalln` on a decode failure in map and mapb, and the nil dereference after an ignored decode error in explore and catch. Response fields the handlers do not use (counts, URLs, stats, version details) are left out.
- Randomness: `rand.Intn(10)` is the `roll` parameter.
- The `error` values every handler returns carry no information and are not modelled.
- The Go distinction between a nil and an empty byte slice is not modelled; the miss result of `Get` is the empty sequence.
- Session.Config.ListPokedex: the order of the listed names is not fixed, because Go's map iteration order is unspecified; the ghost `keys` only records the order that was taken.
- The second half of `main_test.go` (lines 22-26) sleeps and asserts nothing, so it adds no property. `AddGetScenario` uses the expiry property instead.
