/**
 * Shutdown with cleanup handlers, priorities and deadlines (exit_manager.py).
 * Times are milliseconds of the monotonic clock.
 */
module ExitManagement {
  import opened Wrappers
  import opened Numbers
  import opened StableSort

  const SUCCESS: int := 0
  const FAILURE: int := 1
  const SOFTWARE: int := 70
  const DEFAULT_TIMEOUT: int := 30_000

  datatype Callback = Callback(func: nat, name: string, priority: int, timeout: int)

  /** The code as the operating system sees it; one that is no number stands for failure. */
  function SanitizeExitCode(code: Option<int>): (n: int)
    ensures 0 <= n < 256 && (code.Some? ==> (n - code.value) % 256 == 0) && (code.None? ==> n == 1)
  {
    var n := if code.Some? then code.value else FAILURE;
    (if n < 0 then 256 + n % 256 else n) % 256
  }

  // ------------------------------------------------------------ registration

  predicate RunsBefore(x: Callback, y: Callback) {
    x.priority <= y.priority
  }

  function OfPriority(priority: int): (wanted: Callback -> bool) {
    (c: Callback) => c.priority == priority
  }

  /** The same handlers, each priority's in the same order. */
  ghost predicate SameOrder(a: seq<Callback>, b: seq<Callback>) {
    forall p :: Filter(a, OfPriority(p)) == Filter(b, OfPriority(p))
  }

  /** Sorting the list with a new handler at its end keeps it in order. */
  lemma {:induction false} AddingKeepsOrder(handlers: seq<Callback>, registered: seq<Callback>, c: Callback)
    requires SameOrder(handlers, registered)
    ensures IsSorted(Sort(handlers + [c], RunsBefore), RunsBefore)
    ensures SameOrder(Sort(handlers + [c], RunsBefore), registered + [c])
  {
    forall p
      ensures Filter(Sort(handlers + [c], RunsBefore), OfPriority(p)) == Filter(registered + [c], OfPriority(p))
    {
      SortIsStable(handlers + [c], RunsBefore, OfPriority(p));
      FilterAppend(handlers, c, OfPriority(p));
      FilterAppend(registered, c, OfPriority(p));
    }
    SortSorts(handlers + [c], RunsBefore);
  }

  /** What is meant by a handler to remove: its name or its function. */
  datatype Selector = ByName(name: string) | ByFunc(func: nat)

  predicate Matches(h: Callback, which: Selector) {
    if which.ByName? then h.name == which.name else h.func == which.func
  }

  function Spared(which: Selector): (wanted: Callback -> bool) {
    (h: Callback) => !Matches(h, which)
  }

  function Without(s: seq<Callback>, which: Selector): (r: seq<Callback>) {
    Filter(s, Spared(which))
  }

  lemma {:induction false} FiltersSwap(s: seq<Callback>, f: Callback -> bool, g: Callback -> bool)
    ensures Filter(Filter(s, f), g) == Filter(Filter(s, g), f)
  {
    if s != [] {
      var front, last := s[..|s| - 1], s[|s| - 1];
      FiltersSwap(front, f, g);
      FiltersSwapNext(front, last, f, g);
      assert s == front + [last];
    }
  }

  lemma FiltersSwapNext(front: seq<Callback>, last: Callback, f: Callback -> bool, g: Callback -> bool)
    requires Filter(Filter(front, f), g) == Filter(Filter(front, g), f)
    ensures Filter(Filter(front + [last], f), g) == Filter(Filter(front + [last], g), f)
  {
    FilterThen(front, last, f, g);
    FilterThen(front, last, g, f);
  }

  lemma FilterThen(front: seq<Callback>, last: Callback, f: Callback -> bool, g: Callback -> bool)
    ensures Filter(Filter(front + [last], f), g) == Filter(Filter(front, f), g) + (if f(last) && g(last) then [last] else [])
  {
    FilterAppend(front, last, f);
    if f(last) {
      FilterAppend(Filter(front, f), last, g);
    } else {
      assert Filter(front, f) + [] == Filter(front, f);
    }
  }

  lemma {:induction false} FilterStaysSorted(s: seq<Callback>, f: Callback -> bool, bound: Callback)
    requires IsSorted(s, RunsBefore) && AllAtMost(s, bound, RunsBefore)
    ensures IsSorted(Filter(s, f), RunsBefore) && AllAtMost(Filter(s, f), bound, RunsBefore)
  {
    if s != [] {
      FilterStaysSorted(s[..|s| - 1], f, s[|s| - 1]);
    }
  }

  lemma {:induction false} FilterLength(s: seq<Callback>, f: Callback -> bool)
    ensures |Filter(s, f)| <= |s|
    ensures |Filter(s, f)| == |s| <==> forall i :: 0 <= i < |s| ==> f(s[i])
  {
    if s != [] {
      FilterLength(s[..|s| - 1], f);
    }
  }

  lemma RemovingKeepsOrder(handlers: seq<Callback>, registered: seq<Callback>, which: Selector)
    requires IsSorted(handlers, RunsBefore) && SameOrder(handlers, registered)
    ensures IsSorted(Without(handlers, which), RunsBefore) && SameOrder(Without(handlers, which), Without(registered, which))
  {
    if handlers != [] {
      FilterStaysSorted(handlers, Spared(which), handlers[|handlers| - 1]);
    }
    forall p
      ensures Filter(Without(handlers, which), OfPriority(p)) == Filter(Without(registered, which), OfPriority(p))
    {
      FiltersSwap(handlers, Spared(which), OfPriority(p));
      FiltersSwap(registered, Spared(which), OfPriority(p));
    }
  }

  // ------------------------------------------------------------ the cleanup

  /** What the world does about one handler: the time that passes before its turn, the time its join takes, and how it ended. */
  datatype Visit = Visit(lag: nat, took: nat, ok: bool)

  /** What became of a handler. */
  datatype Fate = Ran(granted: int, ok: bool) | Skipped | NotReached

  function FateOf(h: Callback, deadline: int, now: int, ok: bool): (f: Fate) {
    var remaining := deadline - now;
    if remaining <= 0 then NotReached
    else
      var granted := Min(h.timeout, remaining);
      if granted <= 0 then Skipped else Ran(granted, ok)
  }

  /** A pass over the first handlers: what became of each, and the clock after them. */
  datatype Pass = Pass(fates: seq<Fate>, clock: int)

  /** The pass over the first `n` handlers from `start`; after one that was not reached none is. */
  function PassTo(handlers: seq<Callback>, deadline: int, start: int, world: nat -> Visit, n: nat): (p: Pass)
    requires n <= |handlers|
    ensures |p.fates| == n
  {
    if n == 0 then Pass([], start)
    else
      var before := PassTo(handlers, deadline, start, world, n - 1);
      if n > 1 && before.fates[n - 2] == NotReached then Pass(before.fates + [NotReached], before.clock)
      else
        var v := world(n - 1);
        var now := before.clock + v.lag;
        var fate := FateOf(handlers[n - 1], deadline, now, v.ok);
        Pass(before.fates + [fate], if fate.Ran? then now + v.took else now)
  }

  predicate IsFailure(f: Fate) {
    !(f.Ran? && f.ok)
  }

  ghost predicate AnyFailed(fates: seq<Fate>) {
    exists i :: 0 <= i < |fates| && IsFailure(fates[i])
  }

  lemma FailedNext(fates: seq<Fate>, more: seq<Fate>)
    requires |more| == |fates| + 1 && more[..|fates|] == fates
    ensures AnyFailed(more) <==> AnyFailed(fates) || IsFailure(more[|fates|])
  {
    assert forall i :: 0 <= i < |fates| ==> more[i] == fates[i];
  }

  /** Once a handler is not reached, neither are the rest, and the clock stands still. */
  lemma {:induction false} PassEndsThere(handlers: seq<Callback>, deadline: int, start: int, world: nat -> Visit, n: nat, m: nat)
    requires 0 < n <= m <= |handlers| && PassTo(handlers, deadline, start, world, n).fates[n - 1] == NotReached
    ensures var whole, part := PassTo(handlers, deadline, start, world, m), PassTo(handlers, deadline, start, world, n);
            && whole.fates == part.fates + seq(m - n, _ => NotReached)
            && whole.clock == part.clock
    decreases m - n
  {
    if n < m {
      PassEndsThere(handlers, deadline, start, world, n, m - 1);
      var before := PassTo(handlers, deadline, start, world, m - 1);
      assert before.fates[m - 2] == NotReached;
      assert seq(m - n, _ => NotReached) == seq(m - 1 - n, _ => NotReached) + [NotReached];
    }
  }

  lemma {:induction false} PassIsPrefix(handlers: seq<Callback>, deadline: int, start: int, world: nat -> Visit, n: nat, m: nat)
    requires n <= m <= |handlers|
    ensures PassTo(handlers, deadline, start, world, m).fates[..n] == PassTo(handlers, deadline, start, world, n).fates
    decreases m - n
  {
    var part := PassTo(handlers, deadline, start, world, n);
    if n == m {
      assert part.fates[..n] == part.fates;
    } else {
      PassIsPrefix(handlers, deadline, start, world, n, m - 1);
      var before, after := PassTo(handlers, deadline, start, world, m - 1), PassTo(handlers, deadline, start, world, m);
      assert after.fates[..m - 1] == before.fates;
      assert after.fates[..n] == before.fates[..n];
    }
  }

  /**
   * Handler `i` has its turn unless the one before it had none or the deadline has come; it is
   * skipped when its own timeout is no time at all, and else runs for as long as both allow.
   */
  lemma TurnOfHandler(handlers: seq<Callback>, deadline: int, start: int, world: nat -> Visit, i: nat)
    requires i < |handlers|
    ensures var fates := PassTo(handlers, deadline, start, world, |handlers|).fates;
            var before, after := PassTo(handlers, deadline, start, world, i).clock, PassTo(handlers, deadline, start, world, i + 1).clock;
            var ended, turn, timeout := i > 0 && fates[i - 1] == NotReached, before + world(i).lag, handlers[i].timeout;
            && (fates[i].NotReached? <==> ended || deadline <= turn)
            && (fates[i].Skipped? <==> !ended && turn < deadline && timeout <= 0)
            && (fates[i].Ran? ==>
                  && 0 < fates[i].granted <= timeout && turn + fates[i].granted <= deadline
                  && (fates[i].granted == timeout || turn + fates[i].granted == deadline)
                  && fates[i].ok == world(i).ok && after == turn + world(i).took)
            && (!fates[i].Ran? ==> after == if ended then before else turn)
            && PassTo(handlers, deadline, start, world, 0).clock == start
  {
    PassIsPrefix(handlers, deadline, start, world, i + 1, |handlers|);
    PassIsPrefix(handlers, deadline, start, world, i, |handlers|);
    var whole, upTo := PassTo(handlers, deadline, start, world, |handlers|), PassTo(handlers, deadline, start, world, i + 1);
    assert whole.fates[i] == whole.fates[..i + 1][i] == upTo.fates[i];
    if i > 0 {
      assert whole.fates[i - 1] == whole.fates[..i][i - 1];
    }
  }

  /** One more handler, when the last was reached. */
  lemma NextInPass(handlers: seq<Callback>, deadline: int, start: int, world: nat -> Visit, n: nat)
    requires n < |handlers| && (n > 0 ==> PassTo(handlers, deadline, start, world, n).fates[n - 1] != NotReached)
    ensures var before, after := PassTo(handlers, deadline, start, world, n), PassTo(handlers, deadline, start, world, n + 1);
            var v := world(n);
            var fate := FateOf(handlers[n], deadline, before.clock + v.lag, v.ok);
            && after.fates[n] == fate
            && after.clock == before.clock + v.lag + (if fate.Ran? then v.took else 0)
            && (AnyFailed(after.fates) <==> AnyFailed(before.fates) || IsFailure(fate))
  {
    FailedNext(PassTo(handlers, deadline, start, world, n).fates, PassTo(handlers, deadline, start, world, n + 1).fates);
  }

  lemma UnreachedIsFailure(handlers: seq<Callback>, deadline: int, start: int, world: nat -> Visit, n: nat)
    requires n < |handlers| && PassTo(handlers, deadline, start, world, n + 1).fates[n] == NotReached
    ensures AnyFailed(PassTo(handlers, deadline, start, world, |handlers|).fates)
  {
    PassEndsThere(handlers, deadline, start, world, n + 1, |handlers|);
    assert IsFailure(PassTo(handlers, deadline, start, world, |handlers|).fates[n]);
  }

  /** When the shutdown must be over; a start at zero reads as no start at all. */
  function Deadline(startedAt: Option<int>, now: int, timeout: int): (d: int) {
    (if startedAt.Some? && startedAt.value != 0 then startedAt.value else now) + timeout
  }

  // ------------------------------------------------------------- the manager

  class ExitManager {
    var handlers: seq<Callback>
    var shuttingDown: bool
    var startedAt: Option<int>
    var exitCode: int
    var signalCount: nat
    const shutdownTimeout: int
    /** The handlers registered and not removed, in order of registration. */
    ghost var registered: seq<Callback>
    /** How often the cleanup pass has started. */
    ghost var passes: nat

    /** The pass ends within the shutdown timeout, when the joins return in time and little passes between them. */
    ghost predicate EndsInTime(pass: Pass, handlers: seq<Callback>, start: int, world: nat -> Visit) {
      forall most: nat ::
        shutdownTimeout >= 0 && JoinsInTime(handlers, start + shutdownTimeout, start, world) && LagsAtMost(handlers, world, most)
        ==> pass.clock <= start + shutdownTimeout + most
    }

    ghost predicate Valid()
      reads this
    {
      && IsSorted(handlers, RunsBefore) && SameOrder(handlers, registered)
      && passes == (if shuttingDown then 1 else 0)
      && 0 <= exitCode < 256
      && (startedAt.Some? ==> shuttingDown)
    }

    constructor (shutdownTimeout: int)
      ensures Valid() && this.shutdownTimeout == shutdownTimeout
      ensures registered == [] && !shuttingDown && exitCode == SUCCESS && signalCount == 0
    {
      handlers, registered := [], [];
      shuttingDown, startedAt := false, None;
      exitCode, signalCount := SUCCESS, 0;
      passes := 0;
      this.shutdownTimeout := shutdownTimeout;
    }

    method AddCleanup(func: nat, name: string, priority: int, timeout: Option<int>)
      requires Valid()
      modifies this`handlers, this`registered
      ensures Valid()
      ensures registered == old(registered) + [Callback(func, name, Max(Min(priority, 1_000_000), -1_000_000), if timeout.Some? then timeout.value else DEFAULT_TIMEOUT)]
    {
      var clamped := Max(Min(priority, 1_000_000), -1_000_000);
      var c := Callback(func, name, clamped, if timeout.Some? then timeout.value else DEFAULT_TIMEOUT);
      AddingKeepsOrder(handlers, registered, c);
      handlers := Sort(handlers + [c], RunsBefore);
      registered := registered + [c];
    }

    method RemoveCleanup(which: Selector) returns (removed: bool)
      requires Valid()
      modifies this`handlers, this`registered
      ensures Valid() && registered == Without(old(registered), which)
      ensures removed <==> exists i :: 0 <= i < |old(handlers)| && Matches(old(handlers)[i], which)
    {
      var before := |handlers|;
      RemovingKeepsOrder(handlers, registered, which);
      FilterLength(handlers, Spared(which));
      handlers := Without(handlers, which);
      registered := Without(registered, which);
      removed := |handlers| < before;
    }

    /** The pass over the handlers, in order, against the deadline. */
    method ExecuteCleanup(now: int, world: nat -> Visit) returns (ghost pass: Pass)
      modifies this`exitCode, this`passes
      ensures pass == PassTo(handlers, Deadline(startedAt, now, shutdownTimeout), now, world, |handlers|)
      ensures startedAt == Some(now) ==> pass == PassTo(handlers, now + shutdownTimeout, now, world, |handlers|)
      ensures startedAt == Some(now) ==> EndsInTime(pass, handlers, now, world)
      ensures exitCode == (if AnyFailed(pass.fates) && old(exitCode) == 0 then 70 else old(exitCode)) && passes == old(passes) + 1
    {
      CleanupEndsInTime(handlers, now + shutdownTimeout, now, world);
      passes := passes + 1;
      pass := Pass([], now);
      if handlers == [] {
        return;
      }
      var anyFailed;
      anyFailed, pass := RunHandlers(Deadline(startedAt, now, shutdownTimeout), now, world);
      if anyFailed && exitCode == SUCCESS {
        exitCode := SOFTWARE;
      }
    }

    method RunHandlers(deadline: int, now: int, world: nat -> Visit) returns (anyFailed: bool, ghost pass: Pass)
      ensures pass == PassTo(handlers, deadline, now, world, |handlers|)
      ensures anyFailed == AnyFailed(PassTo(handlers, deadline, now, world, |handlers|).fates)
    {
      anyFailed, pass := false, Pass([], now);
      var clock := now;
      for i := 0 to |handlers|
        invariant pass == PassTo(handlers, deadline, now, world, i) && pass.clock == clock
        invariant i > 0 ==> pass.fates[i - 1] != NotReached
        invariant anyFailed == AnyFailed(pass.fates)
      {
        NextInPass(handlers, deadline, now, world, i);
        pass := PassTo(handlers, deadline, now, world, i + 1);
        clock := clock + world(i).lag;
        var remaining := deadline - clock;
        if remaining <= 0 {
          UnreachedIsFailure(handlers, deadline, now, world, i);
          return true, PassTo(handlers, deadline, now, world, |handlers|);
        }
        var granted := Min(handlers[i].timeout, remaining);
        if granted <= 0 {
          anyFailed := true;
          continue;
        }
        clock := clock + world(i).took;
        if !world(i).ok {
          anyFailed := true;
        }
      }
    }

    /** The code of the exit that is raised, if one is, and the pass, if it ran. */
    method Exit(code: Option<int>, immediate: bool, now: int, world: nat -> Visit) returns (raised: Option<int>, ghost pass: Option<Pass>)
      requires Valid()
      modifies this`shuttingDown, this`startedAt, this`exitCode, this`passes
      ensures Valid() && (old(shuttingDown) ==> shuttingDown)
      ensures old(shuttingDown) && !immediate ==> raised.None? && pass.None? && exitCode == old(exitCode) && startedAt == old(startedAt)
      ensures immediate ==> raised == Some(exitCode) && pass.None? && exitCode == SanitizeExitCode(code) && shuttingDown == old(shuttingDown)
      ensures !old(shuttingDown) && !immediate ==>
                && shuttingDown && startedAt == Some(now)
                && pass == Some(PassTo(handlers, now + shutdownTimeout, now, world, |handlers|)) && EndsInTime(pass.value, handlers, now, world)
                && exitCode == (if AnyFailed(pass.value.fates) && SanitizeExitCode(code) == 0 then 70 else SanitizeExitCode(code))
                && raised == Some(exitCode)
    {
      if shuttingDown && !immediate {
        return None, None;
      }
      exitCode := SanitizeExitCode(code);
      if immediate {
        return Some(exitCode), None;
      }
      shuttingDown := true;
      startedAt := Some(now);
      ghost var p := ExecuteCleanup(now, world);
      return Some(exitCode), Some(p);
    }

    /** A signal: the first begins a graceful shutdown, any other ends the process at once. */
    method Signal(now: int, world: nat -> Visit) returns (raised: Option<int>, killed: bool, ghost pass: Option<Pass>)
      requires Valid()
      modifies this`shuttingDown, this`startedAt, this`exitCode, this`passes, this`signalCount
      ensures Valid() && signalCount == old(signalCount) + 1
      ensures killed == (old(signalCount) > 0)
      ensures killed || old(shuttingDown) ==> raised.None? && pass.None? && exitCode == old(exitCode) && shuttingDown == old(shuttingDown)
      ensures !killed ==> shuttingDown
      ensures !killed && !old(shuttingDown) ==>
                && pass == Some(PassTo(handlers, now + shutdownTimeout, now, world, |handlers|)) && EndsInTime(pass.value, handlers, now, world)
                && exitCode == (if AnyFailed(pass.value.fates) && old(exitCode) == 0 then 70 else old(exitCode)) && raised == Some(exitCode)
    {
      signalCount := signalCount + 1;
      raised, killed, pass := None, false, None;
      if signalCount == 1 {
        if !shuttingDown {
          raised, pass := Exit(Some(exitCode), false, now, world);
        }
      } else {
        killed := true;
      }
    }

    /** The hook at the interpreter's end. */
    method AtExit(now: int, world: nat -> Visit) returns (ghost pass: Option<Pass>)
      requires Valid()
      modifies this`shuttingDown, this`startedAt, this`exitCode, this`passes
      ensures Valid() && shuttingDown
      ensures pass.Some? <==> !old(shuttingDown)
      ensures pass.Some? ==>
                && pass.value == PassTo(handlers, now + shutdownTimeout, now, world, |handlers|)
                && EndsInTime(pass.value, handlers, now, world)
      ensures pass.Some? ==> exitCode == (if AnyFailed(pass.value.fates) && old(exitCode) == 0 then 70 else old(exitCode))
      ensures pass.None? ==> exitCode == old(exitCode)
    {
      if shuttingDown {
        return None;
      }
      shuttingDown := true;
      startedAt := Some(now);
      ghost var p := ExecuteCleanup(now, world);
      return Some(p);
    }
  }

  // --------------------------------------------------------------- whole runs

  datatype Call =
    | Add(func: nat, name: string, priority: int, timeout: Option<int>)
    | Remove(which: Selector)
    | CallExit(code: Option<int>, immediate: bool)
    | CallSignal
    | CallAtExit

  /** Any calls in any order: the pass starts at most once, and has started once the interpreter ended. */
  method AnyCalls(m: ExitManager, calls: seq<Call>, clock: nat -> int, world: nat -> Visit) returns (killed: bool)
    requires m.Valid()
    modifies m
    ensures m.Valid() && m.passes <= 1
    ensures !killed && CallAtExit in calls ==> m.passes == 1
  {
    killed := false;
    var i := 0;
    while i < |calls| && !killed
      invariant 0 <= i <= |calls|
      invariant m.Valid()
      invariant !killed && CallAtExit in calls[..i] ==> m.shuttingDown
    {
      var c := calls[i];
      var raised;
      ghost var pass;
      if c.Add? {
        m.AddCleanup(c.func, c.name, c.priority, c.timeout);
      } else if c.Remove? {
        var removed := m.RemoveCleanup(c.which);
      } else if c.CallExit? {
        raised, pass := m.Exit(c.code, c.immediate, clock(i), world);
      } else if c.CallSignal? {
        raised, killed, pass := m.Signal(clock(i), world);
      } else {
        pass := m.AtExit(clock(i), world);
      }
      i := i + 1;
    }
    assert calls[..|calls|] == calls;
  }

  // ------------------------------------------------------------- the deadline

  /** Every join returns within the time it was granted. */
  ghost predicate JoinsInTime(handlers: seq<Callback>, deadline: int, start: int, world: nat -> Visit) {
    forall i :: 0 <= i < |handlers| ==> JoinInTime(handlers, deadline, start, world, i)
  }

  ghost predicate JoinInTime(handlers: seq<Callback>, deadline: int, start: int, world: nat -> Visit, i: nat)
    requires i < |handlers|
  {
    var fate := PassTo(handlers, deadline, start, world, i + 1).fates[i];
    fate.Ran? ==> world(i).took <= fate.granted
  }

  /** No more than `most` passes between one handler and the next. */
  ghost predicate LagsAtMost(handlers: seq<Callback>, world: nat -> Visit, most: nat) {
    forall i :: 0 <= i < |handlers| ==> world(i).lag <= most
  }

  lemma {:induction false} ClockStaysInTime(handlers: seq<Callback>, deadline: int, start: int, world: nat -> Visit, most: nat, n: nat)
    requires n <= |handlers| && start <= deadline
    requires JoinsInTime(handlers, deadline, start, world) && LagsAtMost(handlers, world, most)
    ensures var p := PassTo(handlers, deadline, start, world, n);
            p.clock <= deadline + (if n > 0 && p.fates[n - 1] == NotReached then most else 0)
  {
    if n > 0 {
      ClockStaysInTime(handlers, deadline, start, world, most, n - 1);
      assert JoinInTime(handlers, deadline, start, world, n - 1);
      assert world(n - 1).lag <= most;
    }
  }

  /**
   * The pass ends by the deadline when every join returns within the time it
   * was granted, but for the time that passes between one handler and the next.
   */
  lemma CleanupEndsInTime(handlers: seq<Callback>, deadline: int, start: int, world: nat -> Visit)
    ensures forall most: nat ::
              start <= deadline && JoinsInTime(handlers, deadline, start, world) && LagsAtMost(handlers, world, most)
              ==> PassTo(handlers, deadline, start, world, |handlers|).clock <= deadline + most
  {
    forall most: nat | start <= deadline && JoinsInTime(handlers, deadline, start, world) && LagsAtMost(handlers, world, most)
      ensures PassTo(handlers, deadline, start, world, |handlers|).clock <= deadline + most
    {
      ClockStaysInTime(handlers, deadline, start, world, most, |handlers|);
    }
  }

  /** The time the first `n` handlers may take with the time that passes before each. */
  function TotalTime(handlers: seq<Callback>, world: nat -> Visit, n: nat): (total: int)
    requires n <= |handlers|
  {
    if n == 0 then 0 else TotalTime(handlers, world, n - 1) + world(n - 1).lag + handlers[n - 1].timeout
  }

  /** Every handler has a timeout, and ends within it. */
  ghost predicate EachInTime(handlers: seq<Callback>, world: nat -> Visit) {
    forall i :: 0 <= i < |handlers| ==> 0 < handlers[i].timeout && world(i).took <= handlers[i].timeout
  }

  /** When all this fits the shutdown timeout, every handler runs with its own timeout in full. */
  lemma {:induction false} EnoughTimeForAll(handlers: seq<Callback>, deadline: int, start: int, world: nat -> Visit, n: nat)
    requires n <= |handlers| && EachInTime(handlers, world)
    requires start + TotalTime(handlers, world, |handlers|) <= deadline
    ensures var p := PassTo(handlers, deadline, start, world, n);
            && p.clock <= start + TotalTime(handlers, world, n)
            && forall i :: 0 <= i < n ==> p.fates[i] == Ran(handlers[i].timeout, world(i).ok)
  {
    if n > 0 {
      EnoughTimeForAll(handlers, deadline, start, world, n - 1);
      TotalGrows(handlers, world, n, |handlers|);
      var before, v, h := PassTo(handlers, deadline, start, world, n - 1), world(n - 1), handlers[n - 1];
      assert 0 < h.timeout && v.took <= h.timeout;
      assert FateOf(h, deadline, before.clock + v.lag, v.ok) == Ran(h.timeout, v.ok);
    }
  }

  lemma {:induction false} TotalGrows(handlers: seq<Callback>, world: nat -> Visit, n: nat, m: nat)
    requires n <= m <= |handlers| && EachInTime(handlers, world)
    ensures TotalTime(handlers, world, n) <= TotalTime(handlers, world, m)
    decreases m - n
  {
    if n < m {
      TotalGrows(handlers, world, n, m - 1);
      assert 0 < handlers[m - 1].timeout;
    }
  }
}
