/** `RequestConfig` and the command handlers of `main.go` and `commands.go`
    as a class whose methods update the cursors, the cache and the Pokedex in
    place, each proved against the rule of the same name in `Rules`. */
module Session {
  import opened Wrappers
  import opened GoStrings
  import opened PokeCache
  import opened Rules

  /** `CACHE_REFRESH_IN_SECONDS` in `main`. */
  const RefreshInterval: int := 20 * Second

  /** The command-table loop of `main`: the command whose name is `word`. */
  method FindCommand(word: string) returns (c: Option<Command>)
    ensures c == LookupCommand(word)
  {
    c := None;
    for i := 0 to |CommandTable|
      invariant forall j :: 0 <= j < i && CommandTable[j].0 == word ==> c == Some(CommandTable[j].1)
      invariant c.Some? ==> exists j :: 0 <= j < i && CommandTable[j] == (word, c.value)
    {
      if CommandTable[i].0 == word {
        c := Some(CommandTable[i].1);
      }
    }
    LookupByName(word);
  }

  class Config {
    var next: Option<string>
    var prev: Option<string>
    const cache: Cache
    var pokedex: map<string, Pokemon>

    ghost function Current(): SessionState
      reads this, cache
    {
      SessionState(next, prev, cache.entries, pokedex)
    }

    /** The set-up in `main`: a cache reaped every 20 seconds, no cursors and
        an empty Pokedex. */
    constructor ()
      ensures fresh(cache)
      ensures cache.entries == map[] && cache.interval == RefreshInterval
      ensures next == None && prev == None && pokedex == map[]
    {
      cache := new Cache(RefreshInterval);
      next, prev, pokedex := None, None, map[];
    }

    /** Look the URL up in the cache; on a miss fetch it and store the body. */
    method Fetch(url: string, now: int, net: string -> Bytes) returns (data: Bytes)
      modifies cache
      ensures (data, cache.entries) == CacheOrFetch(old(cache.entries), url, now, net)
    {
      var v, ok := cache.Get(url);
      if !ok {
        data := net(url);
        cache.Add(url, data, now);
      } else {
        data := v;
      }
    }

    /** `commandMap`: returns the location names it lists. */
    method Map(now: int, net: string -> Bytes, dec: Decoders) returns (shown: seq<string>)
      modifies this, cache
      ensures Current() == MapStep(old(Current()), now, net, dec)
      ensures shown == PageAt(old(Current()), MapUrl(old(next)), now, net, dec).results
    {
      var url := if next == None then FirstPageUrl else next.value;
      var data := Fetch(url, now, net);
      var page := dec.locations(data);
      next := Some(page.next);
      if |page.previous| == 0 {
        prev := None;
      } else {
        prev := Some(page.previous);
      }
      shown := page.results;
    }

    /** `commandMapb`: nothing happens on the first page. */
    method Mapb(now: int, net: string -> Bytes, dec: Decoders) returns (shown: seq<string>)
      modifies this, cache
      ensures Current() == MapbStep(old(Current()), now, net, dec)
      ensures old(prev) == None ==> shown == []
      ensures old(prev).Some? ==> shown == PageAt(old(Current()), old(prev).value, now, net, dec).results
    {
      if prev == None {
        shown := [];
      } else {
        var url := prev.value;
        var data := Fetch(url, now, net);
        var page := dec.locations(data);
        next := Some(page.next);
        if |page.previous| == 0 {
          prev := None;
        } else {
          prev := Some(page.previous);
        }
        shown := page.results;
      }
    }

    /** `commandExplore`: returns the names of the Pokémon found in the area. */
    method Explore(args: seq<string>, now: int, net: string -> Bytes, dec: Decoders) returns (found: seq<string>)
      modifies cache
      ensures Current() == ExploreStep(old(Current()), args, now, net)
      ensures found == dec.area(CacheOrFetch(old(cache.entries), ExploreUrl(args), now, net).0).encounters
    {
      var url := LocationAreaBase + Join(args, "");
      var data := Fetch(url, now, net);
      found := dec.area(data).encounters;
    }

    /** `CommandCatch`, with `rand.Intn(10)` passed in as `roll`. */
    method Catch(args: seq<string>, roll: int, now: int, net: string -> Bytes, dec: Decoders) returns (caught: bool)
      requires 0 <= roll < 10
      modifies this, cache
      ensures caught <==> !Escapes(roll)
      ensures Current() == CatchStep(old(Current()), args, roll, now, net, dec)
    {
      var name := Join(args, "");
      var url := PokemonBase + name;
      var data := Fetch(url, now, net);
      var res := dec.pokemon(data);
      if roll > 5 {
        caught := false;
      } else {
        caught := true;
        pokedex := pokedex[name := res];
      }
    }

    /** `CommandInspect`: the caught Pokémon of that name, if any; read-only. */
    method Inspect(args: seq<string>) returns (shown: Option<Pokemon>)
      ensures ArgName(args) in pokedex ==> shown == Some(pokedex[ArgName(args)])
      ensures ArgName(args) !in pokedex ==> shown == None
    {
      var name := Join(args, "");
      if name !in pokedex {
        return None;
      }
      shown := Some(pokedex[name]);
    }

    /** `CommandPokedex`: the name of every caught Pokémon, once per entry;
        read-only. The ghost `keys` records the order in which the entries
        were visited: `shown[i]` is the name stored under `keys[i]`. */
    method ListPokedex() returns (shown: seq<string>, ghost keys: seq<string>)
      ensures |keys| == |shown| == |pokedex|
      ensures forall i, j :: 0 <= i < j < |keys| ==> keys[i] != keys[j]
      ensures forall k :: k in pokedex <==> k in keys
      ensures forall i :: 0 <= i < |keys| ==> keys[i] in pokedex && shown[i] == pokedex[keys[i]].name
      ensures forall n :: n in shown <==> exists k :: k in pokedex && pokedex[k].name == n
    {
      var pending := pokedex.Keys;
      shown, keys := [], [];
      while pending != {}
        invariant pending <= pokedex.Keys
        invariant |keys| == |shown|
        invariant |keys| + |pending| == |pokedex|
        invariant forall i, j :: 0 <= i < j < |keys| ==> keys[i] != keys[j]
        invariant forall k :: k in keys <==> k in pokedex && k !in pending
        invariant forall i :: 0 <= i < |keys| ==> keys[i] in pokedex && shown[i] == pokedex[keys[i]].name
        decreases pending
      {
        var k :| k in pending;
        shown := shown + [pokedex[k].name];
        keys := keys + [k];
        pending := pending - {k};
      }
      forall n | n in shown ensures exists k :: k in pokedex && pokedex[k].name == n {
        var i :| 0 <= i < |shown| && shown[i] == n;
        assert keys[i] in pokedex && pokedex[keys[i]].name == n;
      }
      forall k | k in pokedex ensures pokedex[k].name in shown {
        var i :| 0 <= i < |keys| && keys[i] == k;
        assert shown[i] == pokedex[k].name;
      }
    }

    /** One line of input: split it on spaces and run the command named by its
        first word with the remaining words. The command run is returned, so
        that `Exit` is a signal to the caller. */
    method Step(line: string, now: int, net: string -> Bytes, dec: Decoders) returns (invoked: Option<Command>)
      modifies this, cache
      ensures invoked == LookupCommand(ParseLine(line).0)
      ensures Current() == StepSpec(old(Current()), line, now, net, dec)
    {
      var parts := Split(line, ' ');
      invoked := FindCommand(parts[0]);
      match invoked
      case None =>
      case Some(c) =>
        match c
        case Help =>
        case Exit =>
        case Map =>
          var _ := Map(now, net, dec);
        case Mapb =>
          var _ := Mapb(now, net, dec);
        case Explore =>
          var _ := Explore(parts[1..], now, net, dec);
    }
  }

  /** Two `map` commands from a fresh start: the first lists the first page,
      the second the page its `next` link points to. */
  method BrowseScenario(net: string -> Bytes, dec: Decoders) returns (first: seq<string>, second: seq<string>)
    ensures first == dec.locations(net(FirstPageUrl)).results
    ensures second == dec.locations(net(dec.locations(net(FirstPageUrl)).next)).results
  {
    var config := new Config();
    first := config.Map(0, net, dec);
    second := config.Map(Second, net, dec);
  }
}
