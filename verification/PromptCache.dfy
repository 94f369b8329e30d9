/**
 * The prompt cache of the API client: a completion cache with a time to live,
 * and counters of prompt cache breaks (rust/crates/api/src/prompt_cache.rs).
 */
module PromptCache {
  import opened Wrappers
  import opened Numbers

  const CURRENT_VERSION: nat := 1

  datatype Usage = Usage(created: nat, read: nat)

  datatype Response = Response(content: string, usage: Usage)

  datatype Request = Request(model: string, system: string, tools: string, messages: string, settings: string)

  datatype Config = Config(completionTtl: nat, promptTtl: nat, minDrop: nat)

  /** The configuration, and the hash functions as the cache calls them. */
  datatype World = World(config: Config, key: Request -> string, hash: string -> nat)

  datatype Entry = Entry(cachedAt: nat, version: nat, response: Response)

  datatype Tracked = Tracked(observedAt: nat, version: nat, model: nat, system: nat, tools: nat, messages: nat, read: nat)

  datatype Part = ModelPart | SystemPart | ToolsPart | MessagesPart

  datatype Reason =
    | VersionChanged(before: nat, after: nat)
    | PromptChanged(parts: seq<Part>)
    | PossibleExpiry(elapsed: nat)
    | Unexplained

  datatype Break = Break(unexpected: bool, reason: Reason, previousRead: nat, currentRead: nat, drop: nat)

  datatype Source = FromCache | FromApi

  datatype Stats = Stats(
    tracked: nat, hits: nat, misses: nat, writes: nat, expected: nat, unexpected: nat,
    totalCreated: nat, totalRead: nat,
    lastUsage: Option<Usage>, lastRequest: Option<string>, lastKey: Option<string>,
    lastReason: Option<Reason>, lastSource: Option<Source>)

  const NO_STATS := Stats(0, 0, 0, 0, 0, 0, 0, 0, None, None, None, None, None)

  datatype State = State(entries: map<string, Entry>, stats: Stats, previous: Option<Tracked>)

  function Observe(w: World, request: Request, usage: Usage, now: nat): (t: Tracked) {
    Tracked(now, CURRENT_VERSION, w.hash(request.model), w.hash(request.system), w.hash(request.tools), w.hash(request.messages), usage.read)
  }

  function ChangedParts(a: Tracked, b: Tracked): (parts: seq<Part>) {
    (if a.model != b.model then [ModelPart] else [])
    + (if a.system != b.system then [SystemPart] else [])
    + (if a.tools != b.tools then [ToolsPart] else [])
    + (if a.messages != b.messages then [MessagesPart] else [])
  }

  function DetectBreak(config: Config, previous: Option<Tracked>, current: Tracked): (event: Option<Break>) {
    if previous.None? then None
    else
      var p := previous.value;
      var drop := Less(p.read, current.read);
      if p.version != current.version then
        Some(Break(false, VersionChanged(p.version, current.version), p.read, current.read, drop))
      else if drop < config.minDrop then None
      else
        var parts := ChangedParts(p, current);
        var elapsed := Less(current.observedAt, p.observedAt);
        if |parts| > 0 then Some(Break(false, PromptChanged(parts), p.read, current.read, drop))
        else if elapsed > config.promptTtl then Some(Break(false, PossibleExpiry(elapsed), p.read, current.read, drop))
        else Some(Break(true, Unexplained, p.read, current.read, drop))
  }

  function WithUsage(stats: Stats, usage: Usage, key: string, source: Source): (r: Stats) {
    stats.(totalCreated := stats.totalCreated + usage.created, totalRead := stats.totalRead + usage.read,
           lastUsage := Some(usage), lastRequest := Some(key), lastSource := Some(source))
  }

  function WithBreak(stats: Stats, event: Option<Break>): (r: Stats) {
    if event.None? then stats
    else if event.value.unexpected then
      stats.(unexpected := stats.unexpected + 1, lastReason := Some(event.value.reason))
    else
      stats.(expected := stats.expected + 1, lastReason := Some(event.value.reason))
  }

  function Missed(stats: Stats, key: string): (r: Stats) {
    stats.(misses := stats.misses + 1, lastKey := Some(key))
  }

  function Lookup(w: World, s: State, request: Request, now: nat): (r: (State, Option<Response>)) {
    var key := w.key(request);
    if key !in s.entries then (s.(stats := Missed(s.stats, key)), None)
    else
      var entry := s.entries[key];
      if entry.version != CURRENT_VERSION || Less(now, entry.cachedAt) >= w.config.completionTtl then
        (State(s.entries - {key}, Missed(s.stats, key), s.previous), None)
      else
        var usage := entry.response.usage;
        var stats := WithUsage(s.stats.(lastKey := Some(key), hits := s.stats.hits + 1), usage, key, FromCache);
        (State(s.entries, stats, Some(Observe(w, request, usage, now))), Some(entry.response))
  }

  /** A recorded usage, with the response when there is one to keep. */
  function Record(w: World, s: State, request: Request, usage: Usage, response: Option<Response>, now: nat): (r: (State, Option<Break>)) {
    var key := w.key(request);
    var current := Observe(w, request, usage, now);
    var event := DetectBreak(w.config, s.previous, current);
    var tracked := WithUsage(s.stats.(tracked := s.stats.tracked + 1), usage, key, FromApi);
    var stats := WithBreak(tracked, event);
    if response.None? then (State(s.entries, stats, Some(current)), event)
    else
      (State(s.entries[key := Entry(now, CURRENT_VERSION, response.value)], stats.(writes := stats.writes + 1), Some(current)), event)
  }

  // ------------------------------------------------------------ the cache

  /** The files of one session's cache. */
  class Store {
    var entries: map<string, Entry>
    var stats: Option<Stats>
    var previous: Option<Tracked>

    constructor ()
      ensures entries == map[] && stats.None? && previous.None?
    {
      entries, stats, previous := map[], None, None;
    }
  }

  class Cache {
    const w: World
    const store: Store
    var stats: Stats
    var previous: Option<Tracked>

    /** What a cache opened now would start from. */
    ghost predicate Saved()
      reads this, store
    {
      previous == store.previous && stats == if store.stats.Some? then store.stats.value else NO_STATS
    }

    ghost function View(): (s: State)
      reads this, store
    {
      State(store.entries, stats, previous)
    }

    constructor (w: World, store: Store)
      ensures this.w == w && this.store == store && Saved()
    {
      this.w := w;
      this.store := store;
      stats := if store.stats.Some? then store.stats.value else NO_STATS;
      previous := store.previous;
    }

    method Persist()
      requires previous.None? ==> store.previous.None?
      modifies store`stats, store`previous
      ensures Saved()
    {
      store.stats := Some(stats);
      if previous.Some? {
        store.previous := previous;
      }
    }

    method LookupCompletion(request: Request, now: nat) returns (found: Option<Response>)
      requires Saved()
      modifies this, store
      ensures Saved() && (View(), found) == Lookup(w, old(View()), request, now)
    {
      var key := w.key(request);
      if key !in store.entries {
        stats := stats.(misses := stats.misses + 1, lastKey := Some(key));
        Persist();
        return None;
      }
      var entry := store.entries[key];
      if entry.version != CURRENT_VERSION {
        stats := stats.(misses := stats.misses + 1, lastKey := Some(key));
        store.entries := store.entries - {key};
        Persist();
        return None;
      }
      var expired := Less(now, entry.cachedAt) >= w.config.completionTtl;
      stats := stats.(lastKey := Some(key));
      if expired {
        stats := stats.(misses := stats.misses + 1);
        store.entries := store.entries - {key};
        Persist();
        return None;
      }
      stats := stats.(hits := stats.hits + 1);
      stats := WithUsage(stats, entry.response.usage, key, FromCache);
      previous := Some(Observe(w, request, entry.response.usage, now));
      Persist();
      return Some(entry.response);
    }

    method RecordUsage(request: Request, usage: Usage, now: nat) returns (event: Option<Break>)
      requires Saved()
      modifies this, store
      ensures Saved() && (View(), event) == Record(w, old(View()), request, usage, None, now)
    {
      event := RecordInternal(request, usage, None, now);
    }

    method RecordResponse(request: Request, response: Response, now: nat) returns (event: Option<Break>)
      requires Saved()
      modifies this, store
      ensures Saved() && (View(), event) == Record(w, old(View()), request, response.usage, Some(response), now)
    {
      event := RecordInternal(request, response.usage, Some(response), now);
    }

    method RecordInternal(request: Request, usage: Usage, response: Option<Response>, now: nat) returns (event: Option<Break>)
      requires Saved()
      modifies this, store
      ensures Saved() && (View(), event) == Record(w, old(View()), request, usage, response, now)
    {
      var key := w.key(request);
      var current := Observe(w, request, usage, now);
      event := DetectBreak(w.config, previous, current);
      stats := stats.(tracked := stats.tracked + 1);
      stats := WithUsage(stats, usage, key, FromApi);
      if event.Some? {
        if event.value.unexpected {
          stats := stats.(unexpected := stats.unexpected + 1);
        } else {
          stats := stats.(expected := stats.expected + 1);
        }
        stats := stats.(lastReason := Some(event.value.reason));
      }
      previous := Some(current);
      if response.Some? {
        store.entries := store.entries[key := Entry(now, CURRENT_VERSION, response.value)];
        stats := stats.(writes := stats.writes + 1);
      }
      Persist();
    }
  }

  /** Closing a cache and opening its files again changes nothing. */
  method Reopen(cache: Cache) returns (again: Cache)
    requires cache.Saved()
    ensures again.Saved() && again.w == cache.w && again.store == cache.store && again.View() == cache.View()
  {
    again := new Cache(cache.w, cache.store);
  }
}
