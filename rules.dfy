/** The rules that the command handlers of `main.go` and `commands.go` follow,
    as functions on a snapshot of the session. Network access is a function
    `net` from URL to the body the server would send; JSON decoding is the
    `Decoders` record. */
module Rules {
  import opened Wrappers
  import opened GoStrings
  import opened PokeCache

  const FirstPageUrl: string := "https://pokeapi.co/api/v2/location-area/?offset=0&limit=20"
  const LocationAreaBase: string := "https://pokeapi.co/api/v2/location-area/"
  const PokemonBase: string := "https://pokeapi.co/api/v2/pokemon/"

  /** A decoded page of location areas: the `next` and `previous` links (the
      empty string where the API sends null) and the names listed. */
  datatype LocationPage = LocationPage(next: string, previous: string, results: seq<string>)

  /** A decoded location area: the names of the Pokémon that can be met there. */
  datatype AreaPage = AreaPage(encounters: seq<string>)

  /** The fields of a decoded Pokémon that `inspect` shows. */
  datatype Pokemon = Pokemon(name: string, height: int, weight: int, types: seq<string>)

  /** `json.Unmarshal` into each of the three response shapes. */
  datatype Decoders = Decoders(
    locations: Bytes -> LocationPage,
    area: Bytes -> AreaPage,
    pokemon: Bytes -> Pokemon)

  /** What a command handler can change: the two cursors, the cache's map and
      the caught Pokémon. */
  datatype SessionState = SessionState(
    next: Option<string>,
    prev: Option<string>,
    entries: map<string, CacheEntry>,
    pokedex: map<string, Pokemon>)

  datatype Command = Help | Exit | Map | Mapb | Explore

  /** Cache-or-fetch: the bytes a handler works with and the cache afterwards. */
  function CacheOrFetch(entries: map<string, CacheEntry>, url: string, now: int, net: string -> Bytes)
    : (Bytes, map<string, CacheEntry>)
  {
    if url in entries then (entries[url].val, entries)
    else (net(url), Added(entries, url, net(url), now))
  }

  /** The URL `map` requests. */
  function MapUrl(next: Option<string>): string
  {
    match next
    case None => FirstPageUrl
    case Some(u) => u
  }

  /** The `Prev` cursor a page leaves behind: nil for an empty `previous`. */
  function PrevCursor(previous: string): Option<string>
  {
    if |previous| == 0 then None else Some(previous)
  }

  /** The page decoded from the bytes cache-or-fetch gives for `url`. */
  function PageAt(s: SessionState, url: string, now: int, net: string -> Bytes, dec: Decoders): LocationPage
  {
    dec.locations(CacheOrFetch(s.entries, url, now, net).0)
  }

  /** Showing the location page at `url`, shared by `map` and `mapb`. */
  function Paged(s: SessionState, url: string, now: int, net: string -> Bytes, dec: Decoders): SessionState
  {
    var page := PageAt(s, url, now, net, dec);
    SessionState(Some(page.next), PrevCursor(page.previous), CacheOrFetch(s.entries, url, now, net).1, s.pokedex)
  }

  function MapStep(s: SessionState, now: int, net: string -> Bytes, dec: Decoders): SessionState
  {
    Paged(s, MapUrl(s.next), now, net, dec)
  }

  function MapbStep(s: SessionState, now: int, net: string -> Bytes, dec: Decoders): SessionState
  {
    match s.prev
    case None => s
    case Some(u) => Paged(s, u, now, net, dec)
  }

  /** The argument words run together, as `strings.Join(args[0], "")`. */
  function ArgName(args: seq<string>): string
  {
    Join(args, "")
  }

  function ExploreUrl(args: seq<string>): string
  {
    LocationAreaBase + ArgName(args)
  }

  function CatchUrl(args: seq<string>): string
  {
    PokemonBase + ArgName(args)
  }

  function ExploreStep(s: SessionState, args: seq<string>, now: int, net: string -> Bytes): SessionState
  {
    s.(entries := CacheOrFetch(s.entries, ExploreUrl(args), now, net).1)
  }

  /** A roll above 5 lets the Pokémon escape. */
  predicate Escapes(roll: int)
  {
    roll > 5
  }

  function CatchStep(s: SessionState, args: seq<string>, roll: int, now: int,
                     net: string -> Bytes, dec: Decoders): SessionState
  {
    var fetched := CacheOrFetch(s.entries, CatchUrl(args), now, net);
    s.(entries := fetched.1,
       pokedex := if Escapes(roll) then s.pokedex
                  else s.pokedex[ArgName(args) := dec.pokemon(fetched.0)])
  }

  /** The command table of `getCommands`. */
  const CommandTable: seq<(string, Command)> :=
    [("help", Help), ("exit", Exit), ("map", Map), ("mapb", Mapb), ("explore", Explore)]

  /** The command registered under `word`, by name. */
  function LookupCommand(word: string): Option<Command>
  {
    if word == "help" then Some(Help)
    else if word == "exit" then Some(Exit)
    else if word == "map" then Some(Map)
    else if word == "mapb" then Some(Mapb)
    else if word == "explore" then Some(Explore)
    else None
  }

  /** A line split on spaces: the command word and the remaining words. */
  function ParseLine(line: string): (string, seq<string>)
  {
    var parts := Split(line, ' ');
    (parts[0], parts[1..])
  }

  /** The effect of one input line. Help prints and exit ends the process; the
      session state is left as it is by both. */
  function StepSpec(s: SessionState, line: string, now: int, net: string -> Bytes, dec: Decoders): SessionState
  {
    match LookupCommand(ParseLine(line).0)
    case None => s
    case Some(c) =>
      match c
      case Help => s
      case Exit => s
      case Map => MapStep(s, now, net, dec)
      case Mapb => MapbStep(s, now, net, dec)
      case Explore => ExploreStep(s, ParseLine(line).1, now, net)
  }

  // ---------------------------------------------------------------------
  // Properties of the rules

  /** On a hit the cached bytes are used and the cache is unchanged; on a miss
      the fetched bytes are used and stored, so a following lookup hits. */
  lemma CacheOrFetchRule(entries: map<string, CacheEntry>, url: string, now: int, net: string -> Bytes)
    ensures url in entries ==> CacheOrFetch(entries, url, now, net) == (entries[url].val, entries)
    ensures url !in entries ==>
              CacheOrFetch(entries, url, now, net).0 == net(url) &&
              Find(CacheOrFetch(entries, url, now, net).1, url) == (net(url), true)
    ensures forall k :: k != url ==>
              Find(CacheOrFetch(entries, url, now, net).1, k) == Find(entries, k)
  {
    forall k | k != url
      ensures Find(CacheOrFetch(entries, url, now, net).1, k) == Find(entries, k)
    {
      if url !in entries {
        AddFrame(entries, url, net(url), now, k);
      }
    }
  }

  /** `map` asks for the first page when there is no `Next`, and for `Next` otherwise. */
  lemma MapRequests(next: Option<string>)
    ensures next == None ==> MapUrl(next) == FirstPageUrl
    ensures next.Some? ==> MapUrl(next) == next.value
  {
  }

  /** After `map`, `Next` is the decoded `next` (set even when empty) and
      `Prev` is nil exactly when the decoded `previous` is empty; the Pokedex
      is untouched. */
  lemma MapCursors(s: SessionState, now: int, net: string -> Bytes, dec: Decoders)
    ensures var page := PageAt(s, MapUrl(s.next), now, net, dec);
            var t := MapStep(s, now, net, dec);
            && t.next == Some(page.next)
            && (t.prev == None <==> page.previous == "")
            && (t.prev.Some? ==> t.prev.value == page.previous)
            && t.pokedex == s.pokedex
  {
  }

  /** `mapb` without a previous page changes nothing: no cursor, no cache entry. */
  lemma MapbWithoutPrev(s: SessionState, now: int, net: string -> Bytes, dec: Decoders)
    requires s.prev == None
    ensures MapbStep(s, now, net, dec) == s
  {
  }

  /** `mapb` with a previous page requests exactly that URL and then follows
      the same cursor rule as `map`. */
  lemma MapbCursors(s: SessionState, now: int, net: string -> Bytes, dec: Decoders)
    requires s.prev.Some?
    ensures var page := PageAt(s, s.prev.value, now, net, dec);
            var t := MapbStep(s, now, net, dec);
            && t.entries == CacheOrFetch(s.entries, s.prev.value, now, net).1
            && t.next == Some(page.next)
            && (t.prev == None <==> page.previous == "")
            && (t.prev.Some? ==> t.prev.value == page.previous)
            && t.pokedex == s.pokedex
  {
  }

  /** Whatever page was shown, its URL is now cached, so going back to it with
      `mapb` before the next reap uses the cache. */
  lemma PagedCachesUrl(s: SessionState, url: string, now: int, net: string -> Bytes, dec: Decoders)
    ensures url in Paged(s, url, now, net, dec).entries
    ensures s.entries.Keys <= Paged(s, url, now, net, dec).entries.Keys
  {
  }

  /** Going forward and then back: when the page `map` shows has a previous
      link, `mapb` requests that link and nothing is lost from the cache. */
  lemma MapThenMapb(s: SessionState, now: int, net: string -> Bytes, dec: Decoders)
    requires PageAt(s, MapUrl(s.next), now, net, dec).previous != ""
    ensures var t := MapStep(s, now, net, dec);
            && t.prev == Some(PageAt(s, MapUrl(s.next), now, net, dec).previous)
            && MapbStep(t, now, net, dec) == Paged(t, t.prev.value, now, net, dec)
            && MapUrl(s.next) in t.entries
  {
  }

  /** `explore` and `catch` ask for the base URL followed by the argument
      words with no separator; a single word is used as it stands. */
  lemma {:induction false} ArgUrls(args: seq<string>, w: string)
    ensures ExploreUrl([]) == LocationAreaBase && CatchUrl([]) == PokemonBase
    ensures ExploreUrl([w]) == LocationAreaBase + w && CatchUrl([w]) == PokemonBase + w
    ensures |args| >= 1 ==> ArgName(args) == args[0] + ArgName(args[1..])
  {
    if |args| == 1 {
      assert args[1..] == [];
    }
  }

  /** `explore` only fills the cache. */
  lemma ExploreOnlyCaches(s: SessionState, args: seq<string>, now: int, net: string -> Bytes)
    ensures var t := ExploreStep(s, args, now, net);
            && t.next == s.next && t.prev == s.prev && t.pokedex == s.pokedex
            && t.entries == CacheOrFetch(s.entries, ExploreUrl(args), now, net).1
  {
  }

  /** A roll above 5 leaves the Pokedex as it was. */
  lemma CatchEscape(s: SessionState, args: seq<string>, roll: int, now: int, net: string -> Bytes, dec: Decoders)
    requires 5 < roll < 10
    ensures CatchStep(s, args, roll, now, net, dec).pokedex == s.pokedex
  {
  }

  /** A roll of at most 5 stores the decoded Pokémon under the argument name,
      replacing any earlier catch, and leaves every other name unchanged. */
  lemma CatchSuccess(s: SessionState, args: seq<string>, roll: int, now: int, net: string -> Bytes,
                     dec: Decoders, other: string)
    requires 0 <= roll <= 5
    requires other != ArgName(args)
    ensures var t := CatchStep(s, args, roll, now, net, dec);
            && ArgName(args) in t.pokedex
            && t.pokedex[ArgName(args)] == dec.pokemon(CacheOrFetch(s.entries, CatchUrl(args), now, net).0)
            && (other in t.pokedex <==> other in s.pokedex)
            && (other in s.pokedex ==> t.pokedex[other] == s.pokedex[other])
            && t.next == s.next && t.prev == s.prev
  {
  }

  /** Lookup finds a command only under its own name. */
  lemma LookupByName(word: string)
    ensures LookupCommand(word).Some? <==> exists i :: 0 <= i < |CommandTable| && CommandTable[i].0 == word
    ensures forall i :: 0 <= i < |CommandTable| && CommandTable[i].0 == word ==>
              LookupCommand(word) == Some(CommandTable[i].1)
  {
    if LookupCommand(word).Some? {
      var i := if word == "help" then 0 else if word == "exit" then 1 else if word == "map" then 2
               else if word == "mapb" then 3 else 4;
      assert CommandTable[i].0 == word;
    }
  }

  /** A line made of a command word and argument words, separated by single
      spaces, is parsed back into exactly that word and those arguments. */
  lemma ParseCommandLine(word: string, args: seq<string>)
    requires ' ' !in word
    requires forall i :: 0 <= i < |args| ==> ' ' !in args[i]
    ensures ParseLine(Join([word] + args, " ")) == (word, args)
  {
    var words := [word] + args;
    forall i | 0 <= i < |words| ensures ' ' !in words[i] {
      if i > 0 { assert words[i] == args[i - 1]; }
    }
    SplitJoin(words, ' ');
    assert words[1..] == args;
  }

  /** A line whose first word names no command leaves the session as it was. */
  lemma UnknownCommandIsNoop(s: SessionState, line: string, now: int, net: string -> Bytes, dec: Decoders)
    requires LookupCommand(ParseLine(line).0) == None
    ensures StepSpec(s, line, now, net, dec) == s
  {
  }
}
