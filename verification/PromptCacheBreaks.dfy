/** When the prompt cache reports a break, and what a run has counted and remembered of them. */
module PromptCacheBreaks {
  import opened Wrappers
  import opened PromptCache
  import opened PromptCacheRuns

  // ------------------------------------------------------- one recorded use

  /**
   * A break against the prompt tracked before: it has another version, or the tokens read
   * from the cache fell by the smallest drop that counts, which nothing escapes when it is 0.
   */
  predicate IsBreak(w: World, tracked: Option<Tracked>, usage: Usage) {
    && tracked.Some?
    && (tracked.value.version != 1 || w.config.minDrop == 0 || usage.read + w.config.minDrop <= tracked.value.read)
  }

  predicate HasPart(w: World, p: Tracked, request: Request, part: Part) {
    match part
    case ModelPart => p.model == w.hash(request.model)
    case SystemPart => p.system == w.hash(request.system)
    case ToolsPart => p.tools == w.hash(request.tools)
    case MessagesPart => p.messages == w.hash(request.messages)
  }

  /** The same prompt, and still within its time to live. */
  predicate IsStable(w: World, p: Tracked, request: Request, now: nat) {
    && p.version == 1 && now <= p.observedAt + w.config.promptTtl
    && HasPart(w, p, request, ModelPart) && HasPart(w, p, request, SystemPart)
    && HasPart(w, p, request, ToolsPart) && HasPart(w, p, request, MessagesPart)
  }

  function Rank(part: Part): (rank: nat) {
    match part case ModelPart => 0 case SystemPart => 1 case ToolsPart => 2 case MessagesPart => 3
  }

  /** The reason names what there is: the versions, or the parts that changed, in order, or the time that passed. */
  ghost predicate Explains(w: World, p: Tracked, request: Request, now: nat, reason: Reason) {
    && (reason.VersionChanged? <==> p.version != 1)
    && (reason.VersionChanged? ==> reason.before == p.version && reason.after == 1)
    && (reason.Unexplained? <==> IsStable(w, p, request, now))
    && (reason.PromptChanged? ==>
          && p.version == 1 && reason.parts != []
          && (forall part :: part in reason.parts <==> !HasPart(w, p, request, part))
          && (forall i, j :: 0 <= i < j < |reason.parts| ==> Rank(reason.parts[i]) < Rank(reason.parts[j])))
    && (reason.PossibleExpiry? ==>
          && p.version == 1 && (forall part :: HasPart(w, p, request, part))
          && now == p.observedAt + reason.elapsed && reason.elapsed > w.config.promptTtl)
  }

  /** A break is reported if and only if there is one, unexpected if and only if nothing explains it. */
  lemma BreaksAreReported(w: World, s: State, request: Request, usage: Usage, response: Option<Response>, now: nat)
    ensures var event := Record(w, s, request, usage, response, now).1;
            && (event.Some? <==> IsBreak(w, s.previous, usage))
            && (event.Some? ==>
                  var b, p := event.value, s.previous.value;
                  && (b.unexpected <==> IsStable(w, p, request, now))
                  && Explains(w, p, request, now, b.reason)
                  && b.previousRead == p.read && b.currentRead == usage.read
                  && b.drop == if p.read >= usage.read then p.read - usage.read else 0)
  {
    if s.previous.Some? {
      PartsThatChanged(w, s.previous.value, request, usage, now);
    }
  }

  lemma PartsThatChanged(w: World, p: Tracked, request: Request, usage: Usage, now: nat)
    ensures var parts := ChangedParts(p, Observe(w, request, usage, now));
            && (forall part :: part in parts <==> !HasPart(w, p, request, part))
            && (forall i, j :: 0 <= i < j < |parts| ==> Rank(parts[i]) < Rank(parts[j]))
            && (parts == [] <==> forall part :: HasPart(w, p, request, part))
  {
    var parts := ChangedParts(p, Observe(w, request, usage, now));
    assert parts != [] ==> parts[0] in parts;
  }

  // ------------------------------------------------------------ whole runs

  /** The tracked prompt is that of this use. */
  predicate IsOf(w: World, p: Tracked, request: Request, usage: Usage, now: nat) {
    p.version == 1 && p.observedAt == now && p.read == usage.read
    && HasPart(w, p, request, ModelPart) && HasPart(w, p, request, SystemPart)
    && HasPart(w, p, request, ToolsPart) && HasPart(w, p, request, MessagesPart)
  }

  /** What is tracked after a run is the prompt of the last event charged, or what was tracked before it. */
  lemma {:induction false} TrackedIsLastCharged(w: World, s: State, events: seq<Event>, n: nat)
    requires n <= |events|
    ensures var tracked := After(w, s, events, n).previous;
            || (tracked == s.previous && forall i :: 0 <= i < n ==> Charged(w, s, events, i).None?)
            || HasLastCharged(w, s, events, n, tracked)
  {
    if n > 0 {
      TrackedIsLastCharged(w, s, events, n - 1);
      StepCounts(w, s, events, n - 1);
      var before, tracked := After(w, s, events, n - 1).previous, After(w, s, events, n).previous;
      if Charged(w, s, events, n - 1).Some? {
        assert IsLastCharged(w, s, events, n - 1, n, tracked);
      } else if HasLastCharged(w, s, events, n - 1, before) {
        var i: nat :| i < n - 1 && IsLastCharged(w, s, events, i, n - 1, before);
        assert IsLastCharged(w, s, events, i, n, tracked);
      }
    }
  }

  /** Event `i` is the last one charged of the first `n`, and the tracked prompt is its. */
  ghost predicate IsLastCharged(w: World, s: State, events: seq<Event>, i: nat, n: nat, tracked: Option<Tracked>)
    requires i < n <= |events|
  {
    && Charged(w, s, events, i).Some? && tracked.Some?
    && IsOf(w, tracked.value, events[i].request, Charged(w, s, events, i).value, events[i].now)
    && forall k :: i < k < n ==> Charged(w, s, events, k).None?
  }

  ghost predicate HasLastCharged(w: World, s: State, events: seq<Event>, n: nat, tracked: Option<Tracked>)
    requires n <= |events|
  {
    exists i: nat :: i < n && IsLastCharged(w, s, events, i, n, tracked)
  }

  /** Event `i` records a use that breaks with the prompt tracked before it. */
  predicate BreaksAt(w: World, s: State, events: seq<Event>, i: nat)
    requires i < |events|
  {
    match events[i]
    case Looked(_, _) => false
    case Recorded(_, response, _) => IsBreak(w, After(w, s, events, i).previous, response.usage)
    case Counted(_, usage, _) => IsBreak(w, After(w, s, events, i).previous, usage)
  }

  predicate StableAt(w: World, s: State, events: seq<Event>, i: nat)
    requires i < |events|
  {
    var tracked := After(w, s, events, i).previous;
    tracked.Some? && IsStable(w, tracked.value, events[i].request, events[i].now)
  }

  /** How many of the first `n` events break, with nothing to explain it or with something. */
  function BreakCount(w: World, s: State, events: seq<Event>, n: nat, stable: bool): (count: nat)
    requires n <= |events|
  {
    if n == 0 then 0
    else BreakCount(w, s, events, n - 1, stable)
         + if BreaksAt(w, s, events, n - 1) && StableAt(w, s, events, n - 1) == stable then 1 else 0
  }

  lemma StepCountsItsBreak(w: World, s: State, events: seq<Event>, n: nat)
    requires n < |events|
    ensures var before, after := After(w, s, events, n).stats, After(w, s, events, n + 1).stats;
            && after.unexpected == before.unexpected + (if BreaksAt(w, s, events, n) && StableAt(w, s, events, n) then 1 else 0)
            && after.expected == before.expected + (if BreaksAt(w, s, events, n) && !StableAt(w, s, events, n) then 1 else 0)
            && (!BreaksAt(w, s, events, n) ==> after.lastReason == before.lastReason)
            && (BreaksAt(w, s, events, n) ==>
                  && after.lastReason.Some?
                  && Explains(w, After(w, s, events, n).previous.value, events[n].request, events[n].now, after.lastReason.value))
  {
    var before, e := After(w, s, events, n), events[n];
    if e.Recorded? {
      BreaksAreReported(w, before, e.request, e.response.usage, Some(e.response), e.now);
    } else if e.Counted? {
      BreaksAreReported(w, before, e.request, e.usage, None, e.now);
    }
  }

  /** Over every run the two counters are the numbers of breaks nothing explains and of those something does. */
  lemma {:induction false} BreakCountersAreExact(w: World, s: State, events: seq<Event>, n: nat)
    requires n <= |events|
    ensures var stats := After(w, s, events, n).stats;
            && stats.unexpected == s.stats.unexpected + BreakCount(w, s, events, n, true)
            && stats.expected == s.stats.expected + BreakCount(w, s, events, n, false)
  {
    if n > 0 {
      BreakCountersAreExact(w, s, events, n - 1);
      StepCountsItsBreak(w, s, events, n - 1);
    }
  }

  // ------------------------------------------------------ what is remembered

  /** What the statistics remember of the last event: of a charged one its use, of a lookup its key. */
  lemma StepIsRemembered(w: World, s: State, events: seq<Event>, n: nat)
    requires n < |events|
    ensures var before, after := After(w, s, events, n).stats, After(w, s, events, n + 1).stats;
            var e, usage := events[n], Charged(w, s, events, n);
            && after.lastKey == (if e.Looked? then Some(w.key(e.request)) else before.lastKey)
            && (usage.Some? ==>
                  && after.lastUsage == usage && after.lastRequest == Some(w.key(e.request))
                  && after.lastSource == Some(if e.Looked? then FromCache else FromApi))
            && (usage.None? ==>
                  (after.lastUsage, after.lastRequest, after.lastSource) == (before.lastUsage, before.lastRequest, before.lastSource))
  {
    StoredIsLatest(w, s, events, n, w.key(events[n].request));
  }
}
