/**
 * How one send ends, told from the replies alone: which failures are retried,
 * how long is waited before each retry, and what ends the send.
 */
module RetryOutcomes {
  import opened Wrappers
  import opened Numbers
  import opened Retry

  // ---------------------------------------------------------- one request

  /** The backoff after the first attempt, and twice the one before after each other, up to the largest. */
  function Doubled(c: Client, attempt: nat): (backoff: nat) {
    if attempt <= 1 then Min(c.initialBackoff, c.maxBackoff) else Min(2 * Doubled(c, attempt - 1), c.maxBackoff)
  }

  /** The backoff doubles with each attempt up to the 32nd, and is an error from then on. */
  lemma {:induction false} BackoffDoubles(c: Client, attempt: nat)
    ensures BackoffForAttempt(c, attempt) == if attempt <= 32 then Some(Doubled(c, attempt)) else None
  {
    if 1 < attempt <= 32 {
      BackoffDoubles(c, attempt - 1);
      var before := c.initialBackoff * Pow2(attempt - 2);
      assert Pow2(attempt - 1) == 2 * Pow2(attempt - 2);
      TwiceAsMuch(c.initialBackoff, Pow2(attempt - 2));
      assert Min(2 * Min(before, c.maxBackoff), c.maxBackoff) == Min(2 * before, c.maxBackoff);
    }
  }

  lemma TwiceAsMuch(x: nat, y: nat)
    ensures x * (2 * y) == 2 * (x * y)
  {}

  predicate IsRetryable(x: Exchange) {
    x.reply.Failure? && x.reply.retryable
  }

  /** The delay may be waited after this failure: the gateway's capacity failures have a budget of their own. */
  ghost predicate Affords(c: Client, x: Exchange, attempt: nat, slept: nat, delay: nat) {
    IsRetryable(x) &&
    Fits(if c.zeroX && x.reply.capacity then c.capacity else Budget(c.maxTotal, None),
         x.reply.retryAfter, Doubled(c, attempt) + x.jitter, slept, delay)
  }

  /** The request numbered `attempt` may be followed by another one after this delay. */
  ghost predicate MayRetry(c: Client, x: Exchange, attempt: nat, slept: nat, delay: nat) {
    attempt <= c.maxRetries && attempt <= 32 && Affords(c, x, attempt, slept, delay)
  }

  /** The request ends the send in this way, without a wait after it. */
  ghost predicate EndsHere(c: Client, x: Exchange, attempt: nat, slept: nat, ending: Ending) {
    match ending
    case Sent => x.reply.Success?
    case Rejected => x.reply.Failure? && !x.reply.retryable
    case Exhausted =>
      && IsRetryable(x)
      && (attempt > c.maxRetries || (attempt <= 32 && forall delay :: !Affords(c, x, attempt, slept, delay)))
    case Overflow => IsRetryable(x) && 32 < attempt <= c.maxRetries
    case Dropped => false
  }

  /** A wait follows exactly when the request may be retried, and ends are as they should be. */
  lemma DecisionIsJustified(c: Client, started: Progress, x: Exchange)
    ensures var d := Decide(c, started, x);
            && (d.Wait? ==> MayRetry(c, x, started.attempts, started.slept, d.notice.delay))
            && (forall delay :: MayRetry(c, x, started.attempts, started.slept, delay) ==> d.Wait? && d.notice.delay == delay)
            && (d.Stop? ==> forall ending :: d.ending == ending <==> EndsHere(c, x, started.attempts, started.slept, ending))
            && (d.Wait? ==> forall ending :: !EndsHere(c, x, started.attempts, started.slept, ending))
  {
    BackoffDoubles(c, started.attempts);
    if IsRetryable(x) && started.attempts <= c.maxRetries && started.attempts <= 32 {
      PlanIsAfforded(c, started, x);
    }
  }

  lemma PlanIsAfforded(c: Client, started: Progress, x: Exchange)
    requires IsRetryable(x) && started.attempts <= 32
    ensures var plan := Plan(BudgetFor(c, x.reply), x.reply.retryAfter, Doubled(c, started.attempts) + x.jitter, started.slept);
            forall delay: nat :: plan == Some(delay) <==> Affords(c, x, started.attempts, started.slept, delay)
  {
    var budget, backoff := BudgetFor(c, x.reply), Doubled(c, started.attempts) + x.jitter;
    forall delay: nat
      ensures Plan(budget, x.reply.retryAfter, backoff, started.slept) == Some(delay) <==> Affords(c, x, started.attempts, started.slept, delay)
    {
      PlanIsWhatFits(budget, x.reply.retryAfter, backoff, started.slept, delay);
    }
  }

  // ------------------------------------------------------------- one send

  function DelaysOf(notices: seq<Notice>): (delays: seq<nat>)
    ensures |delays| == |notices|
  {
    if notices == [] then [] else [notices[0].delay] + DelaysOf(notices[1..])
  }

  function NextAttempt(attempts: nat): (attempt: nat) {
    if attempts < U32_MAX then attempts + 1 else U32_MAX
  }

  /** The replies from `k` on lead to these waits and this ending. */
  ghost predicate Ends(c: Client, world: nat -> Exchange, k: nat, attempts: nat, slept: nat, delays: seq<nat>, ending: Ending)
    decreases |delays|
  {
    var x, attempt := world(k), NextAttempt(attempts);
    if delays == [] then EndsHere(c, x, attempt, slept, ending)
    else
      && MayRetry(c, x, attempt, slept, delays[0])
      && if x.completed then Ends(c, world, k + 1, attempt, slept + delays[0], delays[1..], ending)
         else |delays| == 1 && ending == Dropped
  }

  /**
   * A send makes these waits and ends so if and only if the replies lead to it: every wait follows a
   * retryable failure within the limit and is the delay that fits its budget, the send goes on while
   * there is one, and it ends with a success, a failure not to be retried, the limit, or no delay that fits.
   */
  lemma {:induction false} SendEndsAsItShould(c: Client, world: nat -> Exchange, k: nat, p: Progress, delays: seq<nat>, ending: Ending)
    ensures var r := Send(c, world, k, p);
            r.ending == ending && DelaysOf(r.notices) == delays <==> Ends(c, world, k, p.attempts, p.slept, delays, ending)
    decreases |delays|
  {
    var started, x := Started(p, c.maxRetries), world(k);
    DecisionIsJustified(c, started, x);
    var d := Decide(c, started, x);
    if d.Wait? {
      var after := Waited(started, d.notice.delay, x.start, x.end, x.completed);
      if x.completed {
        var rest := Send(c, world, k + 1, after);
        DelaysOfFirst(d.notice, rest.notices);
        if delays != [] {
          SendEndsAsItShould(c, world, k + 1, after, delays[1..], ending);
          FirstAndRest(d.notice.delay, DelaysOf(rest.notices), delays);
        }
      } else {
        DelaysOfFirst(d.notice, []);
      }
    }
  }

  lemma FirstAndRest(first: nat, rest: seq<nat>, all: seq<nat>)
    requires all != []
    ensures [first] + rest == all <==> first == all[0] && rest == all[1..]
  {
    assert ([first] + rest)[1..] == rest;
  }

  lemma DelaysOfFirst(n: Notice, rest: seq<Notice>)
    ensures DelaysOf([n] + rest) == [n.delay] + DelaysOf(rest) && DelaysOf([n]) == [n.delay]
  {
    assert ([n] + rest)[1..] == rest && [n][1..] == [];
  }

  function Total(delays: seq<nat>, n: nat): (total: nat)
    requires n <= |delays|
  {
    if n == 0 then 0 else Total(delays, n - 1) + delays[n - 1]
  }

  /** The `j`th reply is a failure that may be retried after the `j`th delay, and that wait runs to its end. */
  ghost predicate IsRetriedAt(c: Client, world: nat -> Exchange, k: nat, attempts: nat, slept: nat, delays: seq<nat>, j: nat)
    requires j < |delays|
  {
    world(k + j).completed && MayRetry(c, world(k + j), attempts + j + 1, slept + Total(delays, j), delays[j])
  }

  ghost predicate AllRetried(c: Client, world: nat -> Exchange, k: nat, attempts: nat, slept: nat, delays: seq<nat>) {
    forall j :: 0 <= j < |delays| ==> IsRetriedAt(c, world, k, attempts, slept, delays, j)
  }

  lemma {:induction false} RepliesLeadToSuccess(c: Client, world: nat -> Exchange, k: nat, attempts: nat, slept: nat, delays: seq<nat>, i: nat)
    requires i <= |delays| && attempts + |delays| < U32_MAX && world(k + |delays|).reply.Success?
    requires AllRetried(c, world, k, attempts, slept, delays)
    ensures Ends(c, world, k + i, attempts + i, slept + Total(delays, i), delays[i..], Sent)
    decreases |delays| - i
  {
    if i < |delays| {
      RepliesLeadToSuccess(c, world, k, attempts, slept, delays, i + 1);
      assert delays[i..][0] == delays[i] && delays[i..][1..] == delays[i + 1..];
      assert IsRetriedAt(c, world, k, attempts, slept, delays, i);
    }
  }

  /** Failures for which a delay fits are retried, whatever their number, until the success that follows them. */
  lemma RetriesUntilSuccess(c: Client, world: nat -> Exchange, k: nat, p: Progress, delays: seq<nat>)
    requires p.attempts + |delays| < U32_MAX && world(k + |delays|).reply.Success?
    requires AllRetried(c, world, k, p.attempts, p.slept, delays)
    ensures var r := Send(c, world, k, p);
            && r.ending == Sent && DelaysOf(r.notices) == delays
            && r.progress.attempts == p.attempts + |delays| + 1 && r.progress.slept == p.slept + Total(delays, |delays|)
  {
    AllRepliesLeadToSuccess(c, world, k, p.attempts, p.slept, delays);
    SendEndsAsItShould(c, world, k, p, delays, Sent);
    SuccessIsRecorded(c, world, k, p, delays);
  }

  lemma AllRepliesLeadToSuccess(c: Client, world: nat -> Exchange, k: nat, attempts: nat, slept: nat, delays: seq<nat>)
    requires attempts + |delays| < U32_MAX && world(k + |delays|).reply.Success?
    requires AllRetried(c, world, k, attempts, slept, delays)
    ensures Ends(c, world, k, attempts, slept, delays, Sent)
  {
    RepliesLeadToSuccess(c, world, k, attempts, slept, delays, 0);
    assert delays[0..] == delays;
  }

  lemma SuccessIsRecorded(c: Client, world: nat -> Exchange, k: nat, p: Progress, delays: seq<nat>)
    requires Send(c, world, k, p).ending == Sent && DelaysOf(Send(c, world, k, p).notices) == delays && p.attempts + |delays| < U32_MAX
    ensures var r := Send(c, world, k, p).progress;
            r.attempts == p.attempts + |delays| + 1 && r.slept == p.slept + Total(delays, |delays|)
  {
    SendRecordsItsRequests(c, world, k, p);
    SleptIsTotal(c, world, k, p);
  }

  lemma SleptIsTotal(c: Client, world: nat -> Exchange, k: nat, p: Progress)
    ensures var r := Send(c, world, k, p);
            r.ending != Dropped ==> r.progress.slept == p.slept + Total(DelaysOf(r.notices), |r.notices|)
  {
    SleepOfOneSend(c, world, k, p);
    AllAnnounced(Send(c, world, k, p).notices);
  }

  lemma AllAnnounced(notices: seq<Notice>)
    ensures Announced(notices) == Total(DelaysOf(notices), |notices|)
  {
    AnnouncedIsTotal(notices, |notices|);
    assert notices[|notices|..] == [];
  }

  lemma {:induction false} AnnouncedIsTotal(notices: seq<Notice>, n: nat)
    requires n <= |notices|
    ensures Announced(notices) == Total(DelaysOf(notices), n) + Announced(notices[n..])
  {
    if n == 0 {
      assert notices[0..] == notices;
    } else {
      AnnouncedIsTotal(notices, n - 1);
      assert notices[n - 1..][1..] == notices[n..];
      DelayAt(notices, n - 1);
    }
    if n == |notices| {
      assert notices[n..] == [];
    }
  }

  lemma {:induction false} DelayAt(notices: seq<Notice>, i: nat)
    requires i < |notices|
    ensures DelaysOf(notices)[i] == notices[i].delay
  {
    if i > 0 {
      DelayAt(notices[1..], i - 1);
    }
  }

  /** The clock time of the waits after the first `n` requests. */
  function TimeBetween(world: nat -> Exchange, k: nat, n: nat): (time: nat)
    decreases n
  {
    if n == 0 then 0 else TimeBetween(world, k + 1, n - 1) + (if world(k).end >= world(k).start then world(k).end - world(k).start else 0)
  }

  /** The progress counts every request, and the clock time of every wait, and leaves none open that it began. */
  lemma {:induction false} SendRecordsItsRequests(c: Client, world: nat -> Exchange, k: nat, p: Progress)
    ensures var r := Send(c, world, k, p);
            var requests := |r.notices| + (if r.ending == Dropped then 0 else 1);
            && r.progress.attempts == Min(p.attempts + requests, U32_MAX)
            && r.progress.waited == p.waited + TimeBetween(world, k, |r.notices|)
            && (r.notices != [] ==> r.progress.waitingSince.None?)
            && (p.waitingSince.None? ==> r.progress.waitingSince.None?)
    decreases Less(33, p.attempts)
  {
    var started, x := Started(p, c.maxRetries), world(k);
    var d := Decide(c, started, x);
    if d.Wait? && x.completed {
      SendRecordsItsRequests(c, world, k + 1, Waited(started, d.notice.delay, x.start, x.end, true));
    }
  }

  /** The notice before a wait says what the failure before it asked for, and whose budget it spends. */
  ghost predicate NamesItsReply(c: Client, n: Notice, x: Exchange) {
    && IsRetryable(x) && n.retryAfter == x.reply.retryAfter
    && n.budget == if c.zeroX && x.reply.capacity then c.capacity else Budget(c.maxTotal, None)
  }

  ghost predicate NameTheirReplies(c: Client, notices: seq<Notice>, world: nat -> Exchange, k: nat) {
    forall i :: 0 <= i < |notices| ==> NamesItsReply(c, notices[i], world(k + i))
  }

  lemma OneMoreNamed(c: Client, n: Notice, rest: seq<Notice>, world: nat -> Exchange, k: nat)
    requires NamesItsReply(c, n, world(k)) && NameTheirReplies(c, rest, world, k + 1)
    ensures NameTheirReplies(c, [n] + rest, world, k)
  {
    forall i | 0 < i < |rest| + 1
      ensures NamesItsReply(c, ([n] + rest)[i], world(k + i))
    {
      assert NamesItsReply(c, rest[i - 1], world(k + 1 + (i - 1)));
    }
  }

  lemma {:induction false} NoticesNameTheirReplies(c: Client, world: nat -> Exchange, k: nat, p: Progress)
    ensures NameTheirReplies(c, Send(c, world, k, p).notices, world, k)
    decreases Less(33, p.attempts)
  {
    var started, x := Started(p, c.maxRetries), world(k);
    var d := Decide(c, started, x);
    if d.Wait? && x.completed {
      var after := Waited(started, d.notice.delay, x.start, x.end, true);
      NoticesNameTheirReplies(c, world, k + 1, after);
      OneMoreNamed(c, d.notice, Send(c, world, k + 1, after).notices, world, k);
    }
  }
}
