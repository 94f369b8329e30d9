/**
 * Retries of one model call: the sleep budget and the progress shared by its
 * requests (rust/crates/api/src/retry.rs), and the loop that spends them
 * (rust/crates/api/src/providers/openai_compat.rs). Times are nanoseconds.
 */
module Retry {
  import opened Wrappers
  import opened Numbers

  const SECOND: nat := 1_000_000_000
  const MAX_TOTAL_BACKOFF: nat := 60 * SECOND
  const CAPACITY_MAX_WAIT: nat := 90 * SECOND
  const CAPACITY_TOTAL_BACKOFF: nat := 180 * SECOND
  const U32_MAX: nat := 0xFFFF_FFFF

  // --------------------------------------------------------------- budgets

  datatype Budget = Budget(total: nat, maxWait: Option<nat>)

  function Standard(total: nat): (b: Budget) {
    Budget(total, None)
  }

  const CAPACITY_BUDGET := Budget(CAPACITY_TOTAL_BACKOFF, Some(CAPACITY_MAX_WAIT))

  function PlanRetryDelay(retryAfter: Option<nat>, backoff: nat, spent: nat, total: nat): (delay: Option<nat>) {
    var remaining := Less(total, spent);
    if retryAfter.Some? then if retryAfter.value <= remaining then retryAfter else None
    else if remaining == 0 then None
    else Some(Min(backoff, remaining))
  }

  function Plan(b: Budget, retryAfter: Option<nat>, backoff: nat, spent: nat): (delay: Option<nat>) {
    var delay := PlanRetryDelay(retryAfter, backoff, spent, b.total);
    if delay.Some? && b.maxWait.Some? && delay.value > b.maxWait.value then None else delay
  }

  /** The delay that may be slept next. */
  ghost predicate Fits(b: Budget, retryAfter: Option<nat>, backoff: nat, spent: nat, delay: nat) {
    && spent + delay <= Max(spent, b.total)
    && (b.maxWait.Some? ==> delay <= b.maxWait.value)
    && (retryAfter.Some? ==> delay == retryAfter.value)
    && (retryAfter.None? ==> spent < b.total && delay <= backoff && (delay == backoff || spent + delay == b.total))
  }

  /** The plan is the delay that fits, and there is none exactly when no delay fits. */
  lemma PlanIsWhatFits(b: Budget, retryAfter: Option<nat>, backoff: nat, spent: nat, delay: nat)
    ensures Plan(b, retryAfter, backoff, spent) == Some(delay) <==> Fits(b, retryAfter, backoff, spent, delay)
  {
    assert Less(b.total, spent) == (if b.total >= spent then b.total - spent else 0);
  }

  // -------------------------------------------------------------- progress

  datatype Progress = Progress(attempts: nat, maxRetries: Option<nat>, slept: nat, waited: nat, waitingSince: Option<nat>)

  const NO_PROGRESS := Progress(0, None, 0, 0, None)

  predicate CanResend(p: Progress) {
    p.maxRetries.None? || p.attempts <= p.maxRetries.value
  }

  function Started(p: Progress, maxRetries: nat): (r: Progress) {
    p.(attempts := Min(p.attempts + 1, U32_MAX), maxRetries := Some(maxRetries))
  }

  /** A wait of `delay` from `start` that ended, or was cut short, at `end`. */
  function Waited(p: Progress, delay: nat, start: nat, end: nat, completed: bool): (r: Progress) {
    var elapsed := Less(end, start);
    p.(waited := p.waited + elapsed,
       slept := p.slept + (if completed then delay else Min(elapsed, delay)),
       waitingSince := None)
  }

  function Waiting(p: Progress, start: nat): (r: Progress) {
    p.(waitingSince := Some(start))
  }

  /** Wall time waited at `now`: the finished waits, and the part of one that is going on. */
  function TimeWaited(p: Progress, now: nat): (time: nat) {
    p.waited + (if p.waitingSince.Some? then Less(now, p.waitingSince.value) else 0)
  }

  /**
   * The time shown during a wait runs with the clock, neither jumps when the
   * wait begins nor when it ends, and stands still until the next one; and a
   * wait that is cut short never spends more of the budget than it shows.
   */
  lemma TimeWaitedRunsOn(p: Progress, delay: nat, start: nat, now: nat, end: nat, completed: bool, later: nat)
    requires p.waitingSince.None? && start <= now <= end <= later
    ensures var after := Waited(Waiting(p, start), delay, start, end, completed);
            && TimeWaited(Waiting(p, start), start) == TimeWaited(p, start)
            && TimeWaited(Waiting(p, start), now) - TimeWaited(p, start) == now - start
            && TimeWaited(after, end) == TimeWaited(Waiting(p, start), end)
            && TimeWaited(after, later) == TimeWaited(after, end)
            && (!completed ==> after.slept - p.slept <= TimeWaited(after, end) - TimeWaited(p, start))
  {}

  class RetryProgress {
    var state: Progress

    constructor ()
      ensures state == NO_PROGRESS
    {
      state := NO_PROGRESS;
    }

    method StartAttempt(maxRetries: nat) returns (number: nat)
      modifies this
      ensures state == Started(old(state), maxRetries) && number == state.attempts
    {
      state := state.(attempts := Min(state.attempts + 1, U32_MAX), maxRetries := Some(maxRetries));
      number := state.attempts;
    }

    /** The time waited as of `now`. */
    method WaitedAt(now: nat) returns (time: nat)
      ensures time == TimeWaited(state, now)
    {
      time := state.waited;
      if state.waitingSince.Some? {
        time := time + Less(now, state.waitingSince.value);
      }
    }

    method BeginWait(now: nat)
      modifies this
      ensures state == Waiting(old(state), now)
    {
      state := state.(waitingSince := Some(now));
    }

    /** The guard of a wait going out of scope. */
    method DropWait(delay: nat, now: nat, completed: bool)
      modifies this
      ensures state == if old(state).waitingSince.Some?
                       then Waited(old(state), delay, old(state).waitingSince.value, now, completed)
                       else old(state)
    {
      if state.waitingSince.Some? {
        var elapsed := Less(now, state.waitingSince.value);
        state := state.(waited := state.waited + elapsed,
                        slept := state.slept + (if completed then delay else Min(elapsed, delay)),
                        waitingSince := None);
      }
    }
  }

  // ------------------------------------------------------------- countdown

  /** The countdown of one wait: what is slept, step by step, and what is reported after each step. */
  method Countdown(delay: nat) returns (sleeps: seq<nat>, reports: seq<nat>)
    ensures Sum(sleeps) == delay && forall i :: 0 <= i < |sleeps| ==> 0 < sleeps[i] <= SECOND
    ensures |reports| == Max(1, (delay + SECOND - 1) / SECOND)
    ensures forall i :: 0 <= i < |reports| ==> reports[i] == Less(delay, (i + 1) * SECOND)
    ensures reports[|reports| - 1] == 0
  {
    sleeps, reports := [], [];
    var remaining := delay;
    while remaining != 0
      invariant Sum(sleeps) + remaining == delay
      invariant |reports| == |sleeps| && remaining == Less(delay, |reports| * SECOND)
      invariant |reports| > 0 ==> (|reports| - 1) * SECOND < delay
      invariant forall i :: 0 <= i < |sleeps| ==> 0 < sleeps[i] <= SECOND
      invariant forall i :: 0 <= i < |reports| ==> reports[i] == Less(delay, (i + 1) * SECOND)
      decreases remaining
    {
      var step := Min(remaining, SECOND);
      SumAppend(sleeps, step);
      sleeps := sleeps + [step];
      remaining := remaining - step;
      reports := reports + [remaining];
    }
    if delay == 0 {
      reports := reports + [0];
    }
  }

  function Sum(s: seq<nat>): (total: nat) {
    if s == [] then 0 else Sum(s[..|s| - 1]) + s[|s| - 1]
  }

  lemma SumAppend(s: seq<nat>, x: nat)
    ensures Sum(s + [x]) == Sum(s) + x
  {
    assert (s + [x])[..|s|] == s;
  }

  // ------------------------------------------------------ sending with retries

  datatype Reply =
    | Success
    | Failure(retryable: bool, capacity: bool, retryAfter: Option<nat>)

  /** What the world does about one request: its reply, and the wait after it. */
  datatype Exchange = Exchange(reply: Reply, jitter: nat, start: nat, end: nat, completed: bool)

  datatype Client = Client(zeroX: bool, maxRetries: nat, initialBackoff: nat, maxBackoff: nat, maxTotal: nat, capacity: Budget)

  /** The notice given before each wait. */
  datatype Notice = Notice(retry: nat, delay: nat, retryAfter: Option<nat>, budget: Budget)

  datatype Ending = Sent | Rejected | Exhausted | Overflow | Dropped

  datatype SendResult = SendResult(progress: Progress, ending: Ending, notices: seq<Notice>)

  function BudgetFor(c: Client, failure: Reply): (b: Budget)
    requires failure.Failure?
  {
    if c.zeroX && failure.capacity then c.capacity else Standard(c.maxTotal)
  }

  function Pow2(n: nat): (r: nat) {
    if n == 0 then 1 else 2 * Pow2(n - 1)
  }

  /** The multiplier is a shift of a 32-bit one, which ends after 32 attempts. */
  function BackoffForAttempt(c: Client, attempt: nat): (delay: Option<nat>) {
    if Less(attempt, 1) >= 32 then None else Some(Min(c.initialBackoff * Pow2(Less(attempt, 1)), c.maxBackoff))
  }

  /** What follows a reply: the end of the call, or a wait. */
  datatype Decision = Stop(ending: Ending) | Wait(notice: Notice)

  function Decide(c: Client, started: Progress, x: Exchange): (d: Decision) {
    if x.reply.Success? then Stop(Sent)
    else if !x.reply.retryable then Stop(Rejected)
    else if started.attempts > c.maxRetries then Stop(Exhausted)
    else
      var backoff := BackoffForAttempt(c, started.attempts);
      if backoff.None? then Stop(Overflow)
      else
        var budget := BudgetFor(c, x.reply);
        var delay := Plan(budget, x.reply.retryAfter, backoff.value + x.jitter, started.slept);
        if delay.None? then Stop(Exhausted)
        else Wait(Notice(started.attempts, delay.value, x.reply.retryAfter, budget))
  }

  /** The requests sent from `k` on, one call of the client. */
  function Send(c: Client, world: nat -> Exchange, k: nat, p: Progress): (r: SendResult)
    decreases Less(33, p.attempts)
  {
    var started := Started(p, c.maxRetries);
    var x := world(k);
    var d := Decide(c, started, x);
    if d.Stop? then SendResult(started, d.ending, [])
    else
      var after := Waited(started, d.notice.delay, x.start, x.end, x.completed);
      if !x.completed then SendResult(after, Dropped, [d.notice])
      else
        var rest := Send(c, world, k + 1, after);
        SendResult(rest.progress, rest.ending, [d.notice] + rest.notices)
  }

  method SendWithRetry(c: Client, world: nat -> Exchange, first: nat, progress: RetryProgress)
    returns (ending: Ending, notices: seq<Notice>)
    modifies progress
    ensures SendResult(progress.state, ending, notices) == Send(c, world, first, old(progress.state))
  {
    var k := first;
    notices := [];
    while true
      invariant k >= first
      invariant Continues(Send(c, world, first, old(progress.state)), notices, Send(c, world, k, progress.state))
      decreases Less(33, progress.state.attempts)
    {
      ghost var before := progress.state;
      var attempts := progress.StartAttempt(c.maxRetries);
      var x := world(k);
      if x.reply.Success? {
        return Sent, notices;
      }
      if !x.reply.retryable {
        return Rejected, notices;
      }
      if attempts > c.maxRetries {
        return Exhausted, notices;
      }
      var backoff := BackoffForAttempt(c, attempts);
      if backoff.None? {
        return Overflow, notices;
      }
      var budget := BudgetFor(c, x.reply);
      var delay := Plan(budget, x.reply.retryAfter, backoff.value + x.jitter, progress.state.slept);
      if delay.None? {
        return Exhausted, notices;
      }
      var notice := Notice(attempts, delay.value, x.reply.retryAfter, budget);
      assert Decide(c, progress.state, x) == Wait(notice);
      progress.BeginWait(x.start);
      progress.DropWait(delay.value, x.end, x.completed);
      assert progress.state == Waited(Started(before, c.maxRetries), delay.value, x.start, x.end, x.completed);
      if !x.completed {
        return Dropped, notices + [notice];
      }
      ContinuesOn(Send(c, world, first, old(progress.state)), notices, notice, Send(c, world, k + 1, progress.state));
      notices := notices + [notice];
      k := k + 1;
    }
  }

  /** The whole call is what was announced so far and the rest of it. */
  ghost predicate Continues(all: SendResult, notices: seq<Notice>, rest: SendResult) {
    all == SendResult(rest.progress, rest.ending, notices + rest.notices)
  }

  lemma ContinuesOn(all: SendResult, notices: seq<Notice>, notice: Notice, rest: SendResult)
    requires Continues(all, notices, SendResult(rest.progress, rest.ending, [notice] + rest.notices))
    ensures Continues(all, notices + [notice], rest)
  {
    assert notices + ([notice] + rest.notices) == notices + [notice] + rest.notices;
  }

  // ---------------------------------------------------------- whole calls

  /** The most one request may sleep between its retries. */
  function LargestTotal(c: Client): (total: nat) {
    if c.zeroX then Max(c.maxTotal, c.capacity.total) else c.maxTotal
  }

  /** One call of the client makes at most one request more than the limit allows it. */
  lemma {:induction false} AttemptsOfOneSend(c: Client, world: nat -> Exchange, k: nat, p: Progress)
    ensures var r := Send(c, world, k, p).progress;
            && r.maxRetries == Some(c.maxRetries)
            && r.attempts <= Max(p.attempts + 1, Min(c.maxRetries + 1, 33))
            && (p.attempts < U32_MAX ==> r.attempts > p.attempts)
    decreases Less(33, p.attempts)
  {
    var started, x := Started(p, c.maxRetries), world(k);
    var d := Decide(c, started, x);
    if d.Wait? && x.completed {
      AttemptsOfOneSend(c, world, k + 1, Waited(started, d.notice.delay, x.start, x.end, true));
    }
  }

  /** A decision to wait fits its budget, and keeps to what the server asked for. */
  lemma WaitFits(c: Client, started: Progress, x: Exchange)
    requires Decide(c, started, x).Wait?
    ensures var n := Decide(c, started, x).notice;
            && IsHonest(c, n) && n.retry == started.attempts <= Min(c.maxRetries, 32)
            && started.slept + n.delay <= Max(started.slept, LargestTotal(c))
  {
    var n := Decide(c, started, x).notice;
    PlanIsWhatFits(n.budget, n.retryAfter, BackoffForAttempt(c, started.attempts).value + x.jitter, started.slept, n.delay);
  }

  /** The recorded sleep is what the waits announced, less what the last one was cut short by, within the largest budget. */
  lemma {:induction false} SleepOfOneSend(c: Client, world: nat -> Exchange, k: nat, p: Progress)
    ensures var r := Send(c, world, k, p);
            && p.slept <= r.progress.slept <= Max(p.slept, LargestTotal(c))
            && r.progress.slept <= p.slept + Announced(r.notices)
            && (r.ending != Dropped ==> r.progress.slept == p.slept + Announced(r.notices))
    decreases Less(33, p.attempts)
  {
    var started, x := Started(p, c.maxRetries), world(k);
    var d := Decide(c, started, x);
    if d.Wait? {
      WaitFits(c, started, x);
      var after := Waited(started, d.notice.delay, x.start, x.end, x.completed);
      if x.completed {
        SleepOfOneSend(c, world, k + 1, after);
        AnnouncedFirst(d.notice, Send(c, world, k + 1, after).notices);
      } else {
        AnnouncedFirst(d.notice, []);
      }
    }
  }

  function Announced(notices: seq<Notice>): (total: nat) {
    if notices == [] then 0 else notices[0].delay + Announced(notices[1..])
  }

  lemma AnnouncedFirst(n: Notice, rest: seq<Notice>)
    ensures Announced([n] + rest) == n.delay + Announced(rest) && [n] + [] == [n]
  {
    assert ([n] + rest)[1..] == rest;
  }

  /** No wait is longer than its budget's cap, and a server's own delay is waited in full. */
  ghost predicate IsHonest(c: Client, n: Notice) {
    && (n.budget == Standard(c.maxTotal) || (c.zeroX && n.budget == c.capacity))
    && (n.budget.maxWait.Some? ==> n.delay <= n.budget.maxWait.value)
    && (n.retryAfter.Some? ==> n.delay == n.retryAfter.value)
  }

  /** Honest waits before the retries numbered `first`, `first` + 1 and so on, up to the limit. */
  ghost predicate AreHonest(c: Client, notices: seq<Notice>, first: nat) {
    forall i :: 0 <= i < |notices| ==> IsHonest(c, notices[i]) && notices[i].retry == first + i <= c.maxRetries
  }

  lemma OneMoreHonest(c: Client, n: Notice, rest: seq<Notice>)
    requires IsHonest(c, n) && n.retry <= c.maxRetries && AreHonest(c, rest, n.retry + 1)
    ensures AreHonest(c, [n] + rest, n.retry)
  {}

  /** Every wait is honest, and the retries are numbered one after the other up to the limit. */
  lemma {:induction false} NoticesAreHonest(c: Client, world: nat -> Exchange, k: nat, p: Progress)
    ensures AreHonest(c, Send(c, world, k, p).notices, p.attempts + 1)
    decreases Less(33, p.attempts)
  {
    var started, x := Started(p, c.maxRetries), world(k);
    var d := Decide(c, started, x);
    if d.Wait? {
      WaitFits(c, started, x);
      if x.completed {
        var after := Waited(started, d.notice.delay, x.start, x.end, true);
        NoticesAreHonest(c, world, k + 1, after);
        OneMoreHonest(c, d.notice, Send(c, world, k + 1, after).notices);
      }
    }
  }

  /** A model call: its sends, each one made only while a resend is allowed. */
  function Call(c: Client, worlds: nat -> nat -> Exchange, sends: nat, p: Progress): (r: Progress) {
    if sends == 0 || !CanResend(p) then p
    else Call(c, worlds, sends - 1, Send(c, worlds(sends), 0, p).progress)
  }

  /** The progress is new, or belongs to this client and within its limits. */
  ghost predicate IsWithin(c: Client, p: Progress) {
    && p.slept <= LargestTotal(c)
    && (p == NO_PROGRESS || (p.maxRetries == Some(c.maxRetries) && p.attempts <= c.maxRetries + 1))
  }

  /** However often the call is sent again, its requests and its sleep stay within the limits. */
  lemma {:induction false} CallStaysWithinLimits(c: Client, worlds: nat -> nat -> Exchange, sends: nat, p: Progress)
    requires IsWithin(c, p)
    ensures IsWithin(c, Call(c, worlds, sends, p))
    decreases sends
  {
    if sends > 0 && CanResend(p) {
      AttemptsOfOneSend(c, worlds(sends), 0, p);
      SleepOfOneSend(c, worlds(sends), 0, p);
      CallStaysWithinLimits(c, worlds, sends - 1, Send(c, worlds(sends), 0, p).progress);
    }
  }

  /**
   * A model call in which one send is made without asking for leave, among
   * others before and after it that are: one request more, and no more sleep.
   */
  lemma {:induction false} OneSendWithoutLeave(
    c: Client, before: nat -> nat -> Exchange, sends: nat, world: nat -> Exchange, after: nat -> nat -> Exchange, more: nat, p: Progress
  )
    requires IsWithin(c, p)
    ensures var end := Call(c, after, more, Send(c, world, 0, Call(c, before, sends, p)).progress);
            end.attempts <= c.maxRetries + 2 && end.slept <= LargestTotal(c)
  {
    CallStaysWithinLimits(c, before, sends, p);
    var asked := Call(c, before, sends, p);
    AttemptsOfOneSend(c, world, 0, asked);
    SleepOfOneSend(c, world, 0, asked);
    var sent := Send(c, world, 0, asked).progress;
    if CanResend(sent) {
      CallStaysWithinLimits(c, after, more, sent);
    }
  }

  /** A send overruns the retry limit exactly when it was made without leave to resend. */
  lemma OverrunsExactlyWithoutLeave(c: Client, world: nat -> Exchange, k: nat, p: Progress)
    requires c.maxRetries < U32_MAX - 1 && p.attempts < U32_MAX
    requires p.maxRetries == Some(c.maxRetries) || p == NO_PROGRESS
    ensures Send(c, world, k, p).progress.attempts <= c.maxRetries + 1 <==> CanResend(p)
  {
    AttemptsOfOneSend(c, world, k, p);
  }

  /** A client without retries: its one request uses up the limit, and sending again makes a second. */
  lemma ExhaustedProgressOverruns(c: Client, world: nat -> Exchange)
    requires c.maxRetries == 0 && world(0).reply.Failure? && world(0).reply.retryable
    ensures var first := Send(c, world, 0, NO_PROGRESS);
            && first.ending == Exhausted && !CanResend(first.progress)
            && Send(c, world, 0, first.progress).progress.attempts == 2
  {}

  /** With the default budgets mixed, one call sleeps three minutes at most. */
  lemma DefaultBudgetsSleepThreeMinutes(c: Client, worlds: nat -> nat -> Exchange, sends: nat)
    requires c.maxTotal == MAX_TOTAL_BACKOFF && c.capacity == CAPACITY_BUDGET
    ensures Call(c, worlds, sends, NO_PROGRESS).slept <= (if c.zeroX then 180 else 60) * SECOND
  {
    CallStaysWithinLimits(c, worlds, sends, NO_PROGRESS);
  }

  /** Along the run, every completed wait is at least as long as it was announced. */
  ghost predicate KeepsTime(c: Client, world: nat -> Exchange, k: nat, p: Progress)
    decreases Less(33, p.attempts)
  {
    var started, x := Started(p, c.maxRetries), world(k);
    var d := Decide(c, started, x);
    d.Wait? && x.completed ==>
      && x.end >= x.start + d.notice.delay
      && KeepsTime(c, world, k + 1, Waited(started, d.notice.delay, x.start, x.end, true))
  }

  /** When no timer fires early, the budget spent is never more than the time that really passed. */
  lemma {:induction false} SleptIsAtMostWaited(c: Client, world: nat -> Exchange, k: nat, p: Progress)
    requires KeepsTime(c, world, k, p) && p.slept <= p.waited
    ensures Send(c, world, k, p).progress.slept <= Send(c, world, k, p).progress.waited
    decreases Less(33, p.attempts)
  {
    var started, x := Started(p, c.maxRetries), world(k);
    var d := Decide(c, started, x);
    if d.Wait? && x.completed {
      SleptIsAtMostWaited(c, world, k + 1, Waited(started, d.notice.delay, x.start, x.end, true));
    }
  }
}
