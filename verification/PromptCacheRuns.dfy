/** Whole runs of the prompt cache against a plain map from keys to the latest recorded response. */
module PromptCacheRuns {
  import opened Wrappers
  import opened PromptCache

  datatype Event =
    | Looked(request: Request, now: nat)
    | Recorded(request: Request, response: Response, now: nat)
    | Counted(request: Request, usage: Usage, now: nat)

  function Step(w: World, s: State, e: Event): (r: State) {
    match e
    case Looked(request, now) => Lookup(w, s, request, now).0
    case Recorded(request, response, now) => Record(w, s, request, response.usage, Some(response), now).0
    case Counted(request, usage, now) => Record(w, s, request, usage, None, now).0
  }

  /** The state after the first `n` events. */
  function After(w: World, s: State, events: seq<Event>, n: nat): (r: State)
    requires n <= |events|
  {
    if n == 0 then s else Step(w, After(w, s, events, n - 1), events[n - 1])
  }

  // ------------------------------------------------------- the simple map

  /** The latest entry written under the key. */
  function Latest(w: World, s: State, events: seq<Event>, n: nat, key: string): (e: Option<Entry>)
    requires n <= |events|
  {
    if n == 0 then if key in s.entries then Some(s.entries[key]) else None
    else
      var e := events[n - 1];
      if e.Recorded? && w.key(e.request) == key then Some(Entry(e.now, CURRENT_VERSION, e.response))
      else Latest(w, s, events, n - 1, key)
  }

  predicate IsFresh(w: World, e: Option<Entry>, now: nat) {
    && e.Some? && e.value.version == CURRENT_VERSION
    && 0 < w.config.completionTtl && now < e.value.cachedAt + w.config.completionTtl
  }

  /** Every lookup of the key since it was last written found it fresh, so that none has dropped it. */
  predicate Undropped(w: World, s: State, events: seq<Event>, n: nat, key: string)
    requires n <= |events|
  {
    if n == 0 then true
    else
      var e := events[n - 1];
      if w.key(e.request) != key || e.Counted? then Undropped(w, s, events, n - 1, key)
      else if e.Recorded? then true
      else Undropped(w, s, events, n - 1, key) && IsFresh(w, Latest(w, s, events, n - 1, key), e.now)
  }

  /** What is stored under a key is the latest written, unless a lookup has dropped it. */
  lemma {:induction false} StoredIsLatest(w: World, s: State, events: seq<Event>, n: nat, key: string)
    requires n <= |events|
    ensures var stored, latest := After(w, s, events, n).entries, Latest(w, s, events, n, key);
            && (key in stored <==> latest.Some? && Undropped(w, s, events, n, key))
            && (key in stored ==> latest == Some(stored[key]))
  {
    if n > 0 {
      StoredIsLatest(w, s, events, n - 1, key);
    }
  }

  /** The plain map's answer: the latest response written under the key while it is younger than the time to live. */
  function MapAnswer(w: World, s: State, events: seq<Event>, n: nat, key: string, now: nat): (answer: Option<Response>)
    requires n <= |events|
  {
    var latest := Latest(w, s, events, n, key);
    if IsFresh(w, latest, now) then Some(latest.value.response) else None
  }

  /**
   * A lookup answers as the plain map does if and only if what the map would
   * answer with was not dropped by a lookup before it, whatever the clock did.
   */
  lemma LookupAgreesExactly(w: World, s: State, events: seq<Event>, n: nat, request: Request, now: nat)
    requires n <= |events|
    ensures var key := w.key(request);
            Lookup(w, After(w, s, events, n), request, now).1 == MapAnswer(w, s, events, n, key, now)
            <==> !IsFresh(w, Latest(w, s, events, n, key), now) || Undropped(w, s, events, n, key)
  {
    StoredIsLatest(w, s, events, n, w.key(request));
  }

  /** The clock up to `now` never went back. */
  ghost predicate InOrder(events: seq<Event>, n: nat, now: nat)
    requires n <= |events|
  {
    && (forall i, j :: 0 <= i <= j < n ==> events[i].now <= events[j].now)
    && (forall i :: 0 <= i < n ==> events[i].now <= now)
  }

  /** What is fresh at the end of a clock that never went back was fresh whenever it was looked up. */
  lemma {:induction false} FreshIsUndropped(w: World, s: State, events: seq<Event>, n: nat, key: string, now: nat)
    requires n <= |events| && InOrder(events, n, now) && IsFresh(w, Latest(w, s, events, n, key), now)
    ensures Undropped(w, s, events, n, key)
  {
    if n > 0 {
      var e := events[n - 1];
      if !(e.Recorded? && w.key(e.request) == key) {
        FreshIsUndropped(w, s, events, n - 1, key, e.now);
      }
    }
  }

  /** So with such a clock every lookup answers as the plain map does. */
  lemma {:induction false} LookupAgrees(w: World, s: State, events: seq<Event>, n: nat, request: Request, now: nat)
    requires n <= |events| && InOrder(events, n, now)
    ensures Lookup(w, After(w, s, events, n), request, now).1 == MapAnswer(w, s, events, n, w.key(request), now)
  {
    var key := w.key(request);
    if IsFresh(w, Latest(w, s, events, n, key), now) {
      FreshIsUndropped(w, s, events, n, key, now);
    }
    LookupAgreesExactly(w, s, events, n, request, now);
  }

  /** With a clock that goes back a dropped response stays gone, though the map has it. */
  lemma {:induction false} ClockMustNotGoBack(w: World, request: Request, response: Response)
    requires w.config.completionTtl == 30
    ensures var s := State(map[], NO_STATS, None);
            var events := [Recorded(request, response, 0), Looked(request, 30)];
            && !Undropped(w, s, events, 2, w.key(request))
            && MapAnswer(w, s, events, 2, w.key(request), 10) == Some(response)
            && Lookup(w, After(w, s, events, 2), request, 10).1.None?
  {
    var s := State(map[], NO_STATS, None);
    var events := [Recorded(request, response, 0), Looked(request, 30)];
    assert Latest(w, s, events, 1, w.key(request)) == Some(Entry(0, CURRENT_VERSION, response));
    assert Latest(w, s, events, 2, w.key(request)) == Latest(w, s, events, 1, w.key(request));
    StoredIsLatest(w, s, events, 2, w.key(request));
  }

  // ---------------------------------------------------------- the counters

  /** The usage event `i` is charged for: what was recorded, or what the lookup was answered with. */
  function Charged(w: World, s: State, events: seq<Event>, i: nat): (usage: Option<Usage>)
    requires i < |events|
  {
    match events[i]
    case Recorded(_, response, _) => Some(response.usage)
    case Counted(_, usage, _) => Some(usage)
    case Looked(request, now) =>
      var answer := MapAnswer(w, s, events, i, w.key(request), now);
      if answer.Some? && Undropped(w, s, events, i, w.key(request)) then Some(answer.value.usage) else None
  }

  /** What a run should have counted. */
  datatype Tally = Tally(lookups: nat, answered: nat, records: nat, responses: nat, created: nat, read: nat, last: Option<Tracked>)

  function Tallied(w: World, s: State, events: seq<Event>, n: nat): (t: Tally)
    requires n <= |events|
    ensures t.answered <= t.lookups
  {
    if n == 0 then Tally(0, 0, 0, 0, 0, 0, s.previous)
    else
      var t := Tallied(w, s, events, n - 1);
      var e := events[n - 1];
      var usage := Charged(w, s, events, n - 1);
      Tally(
        t.lookups + (if e.Looked? then 1 else 0),
        t.answered + (if e.Looked? && usage.Some? then 1 else 0),
        t.records + (if e.Looked? then 0 else 1),
        t.responses + (if e.Recorded? then 1 else 0),
        t.created + (if usage.Some? then usage.value.created else 0),
        t.read + (if usage.Some? then usage.value.read else 0),
        if usage.Some? then Some(Observe(w, e.request, usage.value, e.now)) else t.last)
  }

  /** One more event adds to the statistics what it adds to the tally. */
  lemma StepCounts(w: World, s: State, events: seq<Event>, n: nat)
    requires n < |events|
    ensures var before, after := After(w, s, events, n), After(w, s, events, n + 1);
            var e, usage := events[n], Charged(w, s, events, n);
            && after.stats.hits == before.stats.hits + (if e.Looked? && usage.Some? then 1 else 0)
            && after.stats.misses == before.stats.misses + (if e.Looked? && usage.None? then 1 else 0)
            && after.stats.writes == before.stats.writes + (if e.Recorded? then 1 else 0)
            && after.stats.tracked == before.stats.tracked + (if e.Looked? then 0 else 1)
            && after.stats.totalCreated == before.stats.totalCreated + (if usage.Some? then usage.value.created else 0)
            && after.stats.totalRead == before.stats.totalRead + (if usage.Some? then usage.value.read else 0)
            && after.previous == if usage.Some? then Some(Observe(w, e.request, usage.value, e.now)) else before.previous
  {
    StoredIsLatest(w, s, events, n, w.key(events[n].request));
  }

  /** What the statistics were before a run and what the run should have counted. */
  predicate Adds(was: Stats, t: Tally, now: Stats) {
    && now.hits == was.hits + t.answered
    && now.misses + t.answered == was.misses + t.lookups
    && now.writes == was.writes + t.responses
    && now.tracked == was.tracked + t.records
    && now.totalCreated == was.totalCreated + t.created
    && now.totalRead == was.totalRead + t.read
  }

  /**
   * The statistics of every run are exact: hits are the lookups the plain map
   * answers with what no lookup has dropped, misses the others, and the token
   * totals the sums over records and hits. The tracked prompt is that of the
   * last event charged.
   */
  lemma {:induction false} CountersAreExact(w: World, s: State, events: seq<Event>, n: nat)
    requires n <= |events|
    ensures Adds(s.stats, Tallied(w, s, events, n), After(w, s, events, n).stats)
    ensures After(w, s, events, n).previous == Tallied(w, s, events, n).last
  {
    if n > 0 {
      CountersAreExact(w, s, events, n - 1);
      StepCounts(w, s, events, n - 1);
    }
  }

  /** With a clock that never goes back, what is charged for a lookup is what the plain map answers with. */
  lemma {:induction false} ChargedAsMapAnswers(w: World, s: State, events: seq<Event>, i: nat)
    requires i < |events| && events[i].Looked? && InOrder(events, i, events[i].now)
    ensures var answer := MapAnswer(w, s, events, i, w.key(events[i].request), events[i].now);
            Charged(w, s, events, i) == if answer.Some? then Some(answer.value.usage) else None
  {
    var key := w.key(events[i].request);
    if IsFresh(w, Latest(w, s, events, i, key), events[i].now) {
      FreshIsUndropped(w, s, events, i, key, events[i].now);
    }
  }

  function Breaks(s: State): (count: nat) {
    s.stats.expected + s.stats.unexpected
  }

  /** At most one break is counted for each recorded request. */
  lemma {:induction false} BreaksAreTracked(w: World, s: State, events: seq<Event>, n: nat)
    requires n <= |events|
    ensures var after := After(w, s, events, n);
            Breaks(after) - Breaks(s) <= after.stats.tracked - s.stats.tracked
  {
    if n > 0 {
      BreaksAreTracked(w, s, events, n - 1);
    }
  }

  function LastRead(previous: Option<Tracked>): (read: nat) {
    if previous.Some? then previous.value.read else 0
  }

  ghost predicate IsCurrent(previous: Option<Tracked>) {
    previous.Some? ==> previous.value.version == CURRENT_VERSION
  }

  /**
   * Every counted break is paid for: the smallest drop that counts, once for
   * each break, never exceeds the cached tokens read over the run and before it.
   */
  lemma {:induction false} BreaksArePaidFor(w: World, s: State, events: seq<Event>, n: nat)
    requires n <= |events| && IsCurrent(s.previous)
    ensures var after := After(w, s, events, n);
            && IsCurrent(after.previous)
            && Breaks(after) >= Breaks(s)
            && (Breaks(after) - Breaks(s)) * w.config.minDrop + LastRead(after.previous)
               <= LastRead(s.previous) + (after.stats.totalRead - s.stats.totalRead)
  {
    if n > 0 {
      BreaksArePaidFor(w, s, events, n - 1);
      var before, after := After(w, s, events, n - 1), After(w, s, events, n);
      StepPaysForItsBreak(w, before, events[n - 1]);
      OneMore(Breaks(before) - Breaks(s), Breaks(after) - Breaks(s), w.config.minDrop);
    }
  }

  lemma OneMore(k: int, next: int, m: nat)
    requires next == k || next == k + 1
    ensures next * m == k * m + (if next == k then 0 else m)
  {}

  lemma StepPaysForItsBreak(w: World, before: State, e: Event)
    requires IsCurrent(before.previous)
    ensures var after := Step(w, before, e);
            && IsCurrent(after.previous)
            && Breaks(before) <= Breaks(after) <= Breaks(before) + 1
            && after.stats.totalRead >= before.stats.totalRead
            && LastRead(after.previous) <= LastRead(before.previous) + (after.stats.totalRead - before.stats.totalRead)
            && (Breaks(after) > Breaks(before) ==>
                  w.config.minDrop + LastRead(after.previous) <= LastRead(before.previous) + (after.stats.totalRead - before.stats.totalRead))
  {}

  /** The event has the prompt that was tracked, within the prompt's time to live. */
  ghost predicate IsSamePrompt(w: World, tracked: Tracked, e: Event) {
    && w.hash(e.request.model) == tracked.model && w.hash(e.request.system) == tracked.system
    && w.hash(e.request.tools) == tracked.tools && w.hash(e.request.messages) == tracked.messages
    && e.now <= tracked.observedAt + w.config.promptTtl
  }

  /** The two requests have one prompt. */
  ghost predicate SamePrompt(w: World, a: Request, b: Request) {
    w.hash(a.model) == w.hash(b.model) && w.hash(a.system) == w.hash(b.system)
    && w.hash(a.tools) == w.hash(b.tools) && w.hash(a.messages) == w.hash(b.messages)
  }

  /** The prompt tracked, if any, is this request's. */
  ghost predicate IsPromptOf(w: World, previous: Option<Tracked>, request: Request) {
    previous.Some? ==>
      IsCurrent(previous) && exists usage, now :: previous == Some(Observe(w, request, usage, now))
  }

  /** Event `i` comes within the prompt's time to live of the last event charged before it. */
  ghost predicate IsWarmAt(w: World, s: State, events: seq<Event>, i: nat)
    requires i < |events|
  {
    var last := Tallied(w, s, events, i).last;
    last.Some? ==> events[i].now <= last.value.observedAt + w.config.promptTtl
  }

  /** While one prompt is repeated and stays warm, however long that is, no break is explained away. */
  lemma {:induction false} StablePromptBreaksAreUnexpected(w: World, s: State, request: Request, events: seq<Event>, n: nat)
    requires n <= |events| && IsPromptOf(w, s.previous, request)
    requires forall i :: 0 <= i < |events| ==> SamePrompt(w, request, events[i].request)
    requires forall i :: 0 <= i < |events| ==> IsWarmAt(w, s, events, i)
    ensures After(w, s, events, n).stats.expected == s.stats.expected
    ensures IsPromptOf(w, After(w, s, events, n).previous, request)
  {
    if n > 0 {
      StablePromptBreaksAreUnexpected(w, s, request, events, n - 1);
      CountersAreExact(w, s, events, n - 1);
      assert IsWarmAt(w, s, events, n - 1) && SamePrompt(w, request, events[n - 1].request);
      StepKeepsPrompt(w, After(w, s, events, n - 1), request, events[n - 1]);
    }
  }

  lemma StepKeepsPrompt(w: World, before: State, request: Request, e: Event)
    requires IsPromptOf(w, before.previous, request) && SamePrompt(w, request, e.request)
    requires before.previous.Some? ==> e.now <= before.previous.value.observedAt + w.config.promptTtl
    ensures Step(w, before, e).stats.expected == before.stats.expected
    ensures IsPromptOf(w, Step(w, before, e).previous, request)
  {
    StepObserves(w, before, e);
    var after := Step(w, before, e);
    if after.previous != before.previous {
      var usage :| after.previous == Some(Observe(w, e.request, usage, e.now));
      assert after.previous == Some(Observe(w, request, usage, e.now));
    }
  }

  lemma StepObserves(w: World, before: State, e: Event)
    ensures var after := Step(w, before, e);
            || after.previous == before.previous
            || exists usage :: after.previous == Some(Observe(w, e.request, usage, e.now))
    ensures before.previous.Some? && IsCurrent(before.previous) && IsSamePrompt(w, before.previous.value, e)
            ==> Step(w, before, e).stats.expected == before.stats.expected
    ensures before.previous.None? ==> Step(w, before, e).stats.expected == before.stats.expected
  {
    if !e.Looked? {
      var usage := if e.Recorded? then e.response.usage else e.usage;
      assert Step(w, before, e).previous == Some(Observe(w, e.request, usage, e.now));
    } else if Step(w, before, e).previous != before.previous {
      var entry := before.entries[w.key(e.request)];
      assert Step(w, before, e).previous == Some(Observe(w, e.request, entry.response.usage, e.now));
    }
  }
}
