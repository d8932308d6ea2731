/** The HTTP client's sliding-window limiter and its retry loop (src/hubspot_agent/client.py),
    and the loop's retry wrapper for read steps (src/hubspot_agent/orchestrator.py). */
module Client {
  import opened Wrappers

  const RATE_LIMIT := 100
  const WINDOW_SECONDS := 10.0
  const MAX_RETRY_AFTER_SECONDS := 60
  const READ_RETRY_BUDGET := 3

  /** A monotone clock; sleeping takes at least the time asked for. */
  class Clock {
    var t: real

    constructor () { t := 0.0; }

    method Read() returns (now: real)
      modifies this
      ensures now == t >= old(t)
    {
      var passed: real :| passed >= 0.0;
      t := t + passed;
      now := t;
    }

    method Sleep(seconds: real)
      modifies this
      ensures t >= old(t) && t >= old(t) + seconds
    {
      var extra: real :| extra >= 0.0;
      t := t + (if seconds > 0.0 then seconds else 0.0) + extra;
    }
  }

  ghost predicate Ordered(times: seq<real>) {
    forall i, j :: 0 <= i <= j < |times| ==> times[i] <= times[j]
  }

  /** Any request and the hundredth before it are a full window apart. */
  ghost predicate Spaced(times: seq<real>) {
    forall i, j :: 0 <= i && j == i + RATE_LIMIT && j < |times| ==> times[j] - times[i] >= WINDOW_SECONDS
  }

  /** `[t for t in times if t > cutoff]` */
  function Prune(times: seq<real>, cutoff: real): seq<real> {
    if times == [] then []
    else (if times[0] > cutoff then [times[0]] else []) + Prune(times[1..], cutoff)
  }

  lemma {:induction false} PruneNothing(times: seq<real>, cutoff: real)
    requires forall i :: 0 <= i < |times| ==> times[i] > cutoff
    ensures Prune(times, cutoff) == times
  {
    if times != [] { PruneNothing(times[1..], cutoff); }
  }

  lemma {:induction false} PrunedInside(times: seq<real>, cutoff: real)
    ensures forall i :: 0 <= i < |Prune(times, cutoff)| ==> Prune(times, cutoff)[i] > cutoff
  {
    if times != [] { PrunedInside(times[1..], cutoff); }
  }

  lemma {:induction false} PruneKeepsSuffix(times: seq<real>, cutoff: real) returns (k: nat)
    requires Ordered(times)
    ensures k <= |times| && Prune(times, cutoff) == times[k..]
    ensures forall i :: 0 <= i < k ==> times[i] <= cutoff
    ensures forall i :: k <= i < |times| ==> times[i] > cutoff
  {
    if times == [] {
      k := 0;
    } else if times[0] > cutoff {
      k := 0;
      PruneNothing(times, cutoff);
    } else {
      var tail := times[1..];
      assert forall i :: 0 < i < |times| ==> times[i] == tail[i - 1];
      var k' := PruneKeepsSuffix(tail, cutoff);
      k := k' + 1;
    }
  }

  /** Half-open windows of ten seconds, closed at either end, hold at most a hundred requests. */
  lemma WindowBound(times: seq<real>, w: real)
    requires Ordered(times) && Spaced(times)
    ensures |set i | 0 <= i < |times| && w <= times[i] < w + 10.0| <= 100
    ensures |set i | 0 <= i < |times| && w < times[i] <= w + 10.0| <= 100
  {
    AtMostLimit(times, set i | 0 <= i < |times| && w <= times[i] < w + WINDOW_SECONDS);
    AtMostLimit(times, set i | 0 <= i < |times| && w < times[i] <= w + WINDOW_SECONDS);
  }

  lemma Apart(times: seq<real>, i: nat, j: nat)
    requires Ordered(times) && Spaced(times)
    requires i + RATE_LIMIT <= j < |times|
    ensures times[j] - times[i] >= WINDOW_SECONDS
  {
    assert times[i + RATE_LIMIT] <= times[j];
  }

  lemma AtMostLimit(times: seq<real>, hits: set<int>)
    requires Ordered(times) && Spaced(times)
    requires forall i <- hits :: 0 <= i < |times|
    requires forall i, j :: i in hits && j in hits ==> times[j] - times[i] < WINDOW_SECONDS
    ensures |hits| <= RATE_LIMIT
  {
    if hits != {} {
      var lo := Least(hits);
      forall j | lo + RATE_LIMIT <= j < |times|
        ensures times[j] - times[lo] >= WINDOW_SECONDS
      {
        Apart(times, lo, j);
      }
      WithinInterval(hits, lo, RATE_LIMIT);
    }
  }

  lemma Member<T>(s: set<T>) returns (x: T)
    requires s != {}
    ensures x in s
  {
    x :| x in s;
  }

  lemma {:induction false} Least(s: set<int>) returns (m: int)
    requires s != {}
    ensures m in s && forall x <- s :: m <= x
    decreases |s|
  {
    m := Member(s);
    if s != {m} {
      assert s - {m} != {};
      var rest := Least(s - {m});
      assert forall x <- s :: x == m || x in s - {m};
      if rest < m { m := rest; }
    }
  }

  lemma {:induction false} WithinInterval(s: set<int>, lo: int, n: nat)
    requires forall x <- s :: lo <= x < lo + n
    ensures |s| <= n
    decreases n
  {
    if n > 0 {
      WithinInterval(s - {lo + n - 1}, lo, n - 1);
    } else if s != {} {
      var x := Member(s);
      assert false;
    }
  }

  /** The kept times are the end of what was recorded; what was dropped had left the window. */
  ghost predicate Kept(kept: seq<real>, recorded: seq<real>, now: real) {
    && |kept| <= |recorded|
    && (forall i :: 0 <= i < |kept| ==> kept[i] == recorded[|recorded| - |kept| + i])
    && Ordered(recorded) && Spaced(recorded)
    && (recorded != [] ==> recorded[|recorded| - 1] <= now)
    && forall i :: 0 <= i < |recorded| - |kept| ==> recorded[i] <= now - WINDOW_SECONDS
  }

  /** Pruning leaves at most a hundred times, all of them inside the window. */
  lemma PruneKept(kept: seq<real>, recorded: seq<real>, now: real)
    requires Kept(kept, recorded, now)
    ensures var pruned := Prune(kept, now - WINDOW_SECONDS);
            Kept(pruned, recorded, now) && |pruned| <= RATE_LIMIT
  {
    var dropped := |recorded| - |kept|;
    var pruned := Prune(kept, now - WINDOW_SECONDS);
    assert Ordered(kept);
    var k := PruneKeepsSuffix(kept, now - WINDOW_SECONDS);
    assert |pruned| == |kept| - k;
    forall i | 0 <= i < dropped + k
      ensures recorded[i] <= now - WINDOW_SECONDS
    {
      if i >= dropped { assert kept[i - dropped] == recorded[i]; }
    }
    forall i | 0 <= i && i + RATE_LIMIT < |recorded|
      ensures recorded[i] <= now - WINDOW_SECONDS
    {
      Apart(recorded, i, |recorded| - 1);
    }
    if k < |kept| { assert kept[k] == recorded[dropped + k]; }
  }

  /** A new time may join once the oldest of a full hundred has left the window. */
  lemma AppendKept(kept: seq<real>, recorded: seq<real>, now: real, t: real)
    requires Kept(kept, recorded, now) && |kept| <= RATE_LIMIT && now <= t
    requires |kept| == RATE_LIMIT ==> kept[0] <= t - WINDOW_SECONDS
    ensures Kept(kept + [t], recorded + [t], t)
  {
    assert |kept| == RATE_LIMIT ==> kept[0] == recorded[|recorded| - RATE_LIMIT];
    assert |recorded| >= RATE_LIMIT ==> recorded[|recorded| - RATE_LIMIT] <= t - WINDOW_SECONDS;
  }

  // ----- Requests -----

  datatype Reply = Reply(status: int, retryAfter: int)

  /** `RateLimited` is the raised `RateLimitError`; any other reply is answered or raised by status. */
  datatype Outcome = Answered(status: int) | RateLimited(retryAfter: int)

  class HubSpotClient {
    var requestTimes: seq<real>
    ghost var recorded: seq<real>   // every time recorded since the last 429 reset

    ghost predicate Valid(now: real)
      reads this
    {
      Kept(requestTimes, recorded, now)
    }

    constructor ()
      ensures recorded == [] && forall now :: Valid(now)
    {
      requestTimes, recorded := [], [];
    }

    /** `slept` is how long it asked to sleep: until the oldest of a full hundred kept times leaves the
        window, and not at all with fewer. */
    method EnforceRateLimit(clock: Clock) returns (slept: real, ghost now: real)
      requires Valid(clock.t)
      modifies this, clock
      ensures Valid(clock.t) && clock.t >= now + slept && slept >= 0.0 && now >= old(clock.t)
      ensures recorded == old(recorded) + [clock.t]
      ensures var inside := Prune(old(requestTimes), now - 10.0);
              slept == if |inside| >= 100 then inside[0] - (now - 10.0) else 0.0
    {
      var start := clock.Read();
      now := start;
      slept := 0.0;
      var cutoff := start - WINDOW_SECONDS;
      PruneKept(requestTimes, recorded, start);
      PrunedInside(requestTimes, cutoff);
      var times := Prune(requestTimes, cutoff);
      if |times| >= RATE_LIMIT {
        var sleepFor := times[0] - cutoff;
        if sleepFor > 0.0 {
          clock.Sleep(sleepFor);
        }
        slept := sleepFor;
      }
      var t := clock.Read();
      Record(times, start, t);
    }

    method Record(times: seq<real>, ghost now: real, t: real)
      requires Kept(times, recorded, now) && |times| <= RATE_LIMIT && now <= t
      requires |times| == RATE_LIMIT ==> times[0] <= t - WINDOW_SECONDS
      modifies this
      ensures Valid(t) && recorded == old(recorded) + [t]
      ensures requestTimes == times + [t]
    {
      AppendKept(times, recorded, now, t);
      requestTimes := times + [t];
      recorded := recorded + [t];
    }

    /** One attempt: a 401 has a read sent a second time after the token refresh. */
    method Attempt(isRead: bool, replies: seq<Reply>, sent: nat, clock: Clock) returns (resp: Reply, sends: nat)
      requires Valid(clock.t) && sent + 2 <= |replies|
      modifies this, clock
      ensures Valid(clock.t) && clock.t >= old(clock.t)
      ensures recorded == old(recorded) + [clock.t]
      ensures sends == sent + (if isRead && replies[sent].status == 401 then 2 else 1)
      ensures resp == replies[sends - 1]
    {
      var slept, now := EnforceRateLimit(clock);
      resp, sends := replies[sent], sent + 1;
      if resp.status == 401 {
        if isRead {
          resp, sends := replies[sends], sends + 1;
        }
      }
    }

    /** A 429 clears the local window, so that the next call paces off the server's signal. */
    method BackOff(retryAfter: int, clock: Clock) returns (wait: int)
      requires Valid(clock.t)
      modifies this, clock
      ensures Valid(clock.t) && recorded == []
      ensures wait == MinInt(retryAfter, MAX_RETRY_AFTER_SECONDS)
      ensures clock.t >= old(clock.t) + Pause(wait)
    {
      requestTimes, recorded := [], [];
      wait := MinInt(retryAfter, MAX_RETRY_AFTER_SECONDS);
      clock.Sleep(wait as real);
    }

    /** Another attempt after a 429: back off, then send. */
    method TryAgain(retryAfter: int, isRead: bool, replies: seq<Reply>, sent: nat, clock: Clock)
      returns (wait: int, resp: Reply, sends: nat)
      requires Valid(clock.t) && sent + 2 <= |replies|
      modifies this, clock
      ensures Valid(clock.t) && recorded == [clock.t]
      ensures wait == MinInt(retryAfter, MAX_RETRY_AFTER_SECONDS)
      ensures clock.t >= old(clock.t) + Pause(wait)
      ensures sends == sent + (if isRead && replies[sent].status == 401 then 2 else 1)
      ensures resp == replies[sends - 1]
    {
      wait := BackOff(retryAfter, clock);
      resp, sends := Attempt(isRead, replies, sent, clock);
    }

    /** One request: a read may be sent again after a 401 or a 429, a write never is. */
    method Request(isRead: bool, replies: seq<Reply>, clock: Clock)
      returns (out: Outcome, sends: nat, sleeps: seq<int>)
      requires Valid(clock.t) && |replies| >= 6
      modifies this, clock
      ensures Valid(clock.t)
      ensures 1 <= sends <= (if isRead then 6 else 1)
      // At most two sleeps: the capped wish of each 429 that was sent again, and the clock has passed them.
      ensures |sleeps| <= 2 && sleeps == Waits(replies[..sends - 1]) && Capped(sleeps)
      ensures clock.t >= old(clock.t) + Slept(sleeps)
      // Only 401 and 429 are ever sent again, and the last reply is the outcome.
      ensures OnlyRetried(replies, sends) && out == OutcomeOf(replies[sends - 1])
      // A read gives up on 429 only after the third attempt.
      ensures isRead && out.RateLimited? ==> |sleeps| == 2
      // A read answered 401 has been sent again after the 401 before.
      ensures isRead && out == Answered(401) ==> sends >= 2 && replies[sends - 2].status == 401
      // A 429 clears the limiter's record; otherwise the one attempt is added to it.
      ensures if sleeps == [] then recorded == old(recorded) + [clock.t] else recorded == [clock.t]
    {
      var maxAttempts := if isRead then 3 else 1;
      var resp: Reply;
      resp, sends := Attempt(isRead, replies, 0, clock);
      sleeps := [];
      FirstSent(isRead, replies, sends);
      while resp.status == 429 && |sleeps| < maxAttempts - 1
        invariant Sent(isRead, replies, sends, sleeps) && resp == replies[sends - 1]
        invariant Valid(clock.t) && clock.t >= old(clock.t) + Slept(sleeps)
        invariant if sleeps == [] then recorded == old(recorded) + [clock.t] else recorded == [clock.t]
        decreases maxAttempts - |sleeps|
      {
        var sent, wait := sends, 0;
        wait, resp, sends := TryAgain(resp.retryAfter, isRead, replies, sent, clock);
        SentMore(isRead, replies, sent, sleeps, sends, wait);
        SleptMore(sleeps, wait);
        sleeps := sleeps + [wait];
      }
      out := OutcomeOf(resp);
    }
  }

  /** What holds of the replies taken so far, after one attempt more than sleeps. */
  ghost predicate Sent(isRead: bool, replies: seq<Reply>, sends: nat, sleeps: seq<int>) {
    && |sleeps| < (if isRead then 3 else 1)
    && |sleeps| + 1 <= sends <= (if isRead then 2 * |sleeps| + 2 else 1) && sends <= |replies|
    && sleeps == Waits(replies[..sends - 1]) && Capped(sleeps) && OnlyRetried(replies, sends)
    && (isRead && replies[sends - 1].status == 401 ==> sends >= 2 && replies[sends - 2].status == 401)
  }

  lemma FirstSent(isRead: bool, replies: seq<Reply>, sends: nat)
    requires |replies| >= 2 && sends == if isRead && replies[0].status == 401 then 2 else 1
    ensures Sent(isRead, replies, sends, [])
  {
    assert sends == 2 ==> replies[..1] == [replies[0]] && [replies[0]][..0] == [];
  }

  lemma SentMore(isRead: bool, replies: seq<Reply>, sent: nat, sleeps: seq<int>, sends: nat, wait: int)
    requires Sent(isRead, replies, sent, sleeps) && replies[sent - 1].status == 429 && |sleeps| < (if isRead then 2 else 0)
    requires sent + 2 <= |replies| && sends == sent + (if isRead && replies[sent].status == 401 then 2 else 1)
    requires wait == MinInt(replies[sent - 1].retryAfter, MAX_RETRY_AFTER_SECONDS)
    ensures Sent(isRead, replies, sends, sleeps + [wait])
  {
    RetriedMore(replies, sent, sends);
    WaitsMore(replies, sent, sends);
  }

  /** How long `asyncio.sleep` pauses: not at all for a negative delay. */
  function Pause(wait: int): real { if wait > 0 then wait as real else 0.0 }

  function Slept(sleeps: seq<int>): real {
    if sleeps == [] then 0.0 else Slept(sleeps[..|sleeps| - 1]) + Pause(sleeps[|sleeps| - 1])
  }

  /** For each 429, its `Retry-After`, at most a minute. */
  function Waits(replies: seq<Reply>): seq<int> {
    if replies == [] then []
    else
      var n := |replies| - 1;
      Waits(replies[..n]) + if replies[n].status == 429 then [if replies[n].retryAfter <= 60 then replies[n].retryAfter else 60] else []
  }

  lemma WaitsMore(replies: seq<Reply>, sent: nat, sends: nat)
    requires 0 < sent < sends <= |replies| && replies[sent - 1].status == 429
    requires sends == sent + 1 || (sends == sent + 2 && replies[sent].status == 401)
    ensures Waits(replies[..sends - 1]) ==
              Waits(replies[..sent - 1]) + [if replies[sent - 1].retryAfter <= 60 then replies[sent - 1].retryAfter else 60]
  {
    assert replies[..sent][..sent - 1] == replies[..sent - 1];
    if sends == sent + 2 { assert replies[..sent + 1][..sent] == replies[..sent]; }
  }

  predicate Capped(sleeps: seq<int>) {
    forall i :: 0 <= i < |sleeps| ==> sleeps[i] <= MAX_RETRY_AFTER_SECONDS
  }

  lemma SleptMore(sleeps: seq<int>, wait: int)
    ensures Slept(sleeps + [wait]) == Slept(sleeps) + Pause(wait)
  {
    assert (sleeps + [wait])[..|sleeps|] == sleeps;
  }

  /** Every reply but the last of those sent was a 401 or a 429. */
  predicate OnlyRetried(replies: seq<Reply>, sends: nat)
    requires sends <= |replies|
  {
    forall k :: 0 <= k < sends - 1 ==> replies[k].status in {401, 429}
  }

  lemma RetriedMore(replies: seq<Reply>, sent: nat, sends: nat)
    requires 0 < sent < sends <= |replies| && OnlyRetried(replies, sent) && replies[sent - 1].status == 429
    requires sends == sent + 1 || (sends == sent + 2 && replies[sent].status == 401)
    ensures OnlyRetried(replies, sends)
  {
  }

  function OutcomeOf(r: Reply): Outcome {
    if r.status == 429 then RateLimited(r.retryAfter) else Answered(r.status)
  }

  function MinInt(a: int, b: int): int { if a <= b then a else b }

  function Min(a: real, b: real): real { if a <= b then a else b }

  // ----- The loop's retry wrapper -----

  /** One attempt of a read or preview step. */
  datatype Attempt<+T> = Success(value: T) | Raised(error: string, transient: bool, retryAfter: Option<real>)

  predicate Retryable<T>(a: Attempt<T>) { a.Raised? && a.transient }

  /** The attempt whose outcome stands: the first that is not a transient error, or the last of the budget. */
  function Settled<T>(attempts: seq<Attempt<T>>): Attempt<T>
    requires |attempts| >= READ_RETRY_BUDGET
  {
    if Retryable(attempts[0]) then
      if Retryable(attempts[1]) then attempts[2] else attempts[1]
    else attempts[0]
  }

  method ExecuteReadStepWithRetry<T>(attempts: seq<Attempt<T>>) returns (r: Attempt<T>, tried: nat, sleeps: seq<real>)
    requires |attempts| >= READ_RETRY_BUDGET
    ensures r == Settled(attempts)
    ensures 1 <= tried <= READ_RETRY_BUDGET && |sleeps| == tried - 1
    ensures r == attempts[tried - 1]
    ensures forall k :: 0 <= k < tried - 1 ==> Retryable(attempts[k])
    ensures Retryable(r) ==> tried == READ_RETRY_BUDGET
    ensures forall k :: 0 <= k < |sleeps| ==>
      sleeps[k] == Min(if attempts[k].retryAfter.Some? then attempts[k].retryAfter.value
                       else if k == 0 then 1.0 else 2.0, MAX_RETRY_AFTER_SECONDS as real)
    ensures forall i :: 0 <= i < |sleeps| ==> sleeps[i] <= MAX_RETRY_AFTER_SECONDS as real
  {
    var attempt := 0;
    var backoff := 1.0;
    sleeps := [];
    while true
      invariant 0 <= attempt < READ_RETRY_BUDGET && |sleeps| == attempt
      invariant backoff == if attempt == 0 then 1.0 else if attempt == 1 then 2.0 else 4.0
      invariant forall k :: 0 <= k < attempt ==> Retryable(attempts[k])
      invariant forall k :: 0 <= k < attempt ==>
        sleeps[k] == Min(if attempts[k].retryAfter.Some? then attempts[k].retryAfter.value
                         else if k == 0 then 1.0 else 2.0, MAX_RETRY_AFTER_SECONDS as real)
      decreases READ_RETRY_BUDGET - attempt
    {
      var a := attempts[attempt];
      if !Retryable(a) || attempt >= READ_RETRY_BUDGET - 1 {
        return a, attempt + 1, sleeps;
      }
      var wanted := if a.retryAfter.Some? then a.retryAfter.value else backoff;
      sleeps := sleeps + [Min(wanted, MAX_RETRY_AFTER_SECONDS as real)];
      attempt := attempt + 1;
      backoff := backoff * 2.0;
    }
  }
}
