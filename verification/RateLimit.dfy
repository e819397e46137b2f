/** The fixed-window rate limiter: one counter per client, created by its first
    request and expired by the store. */
module RateLimit {
  import opened Wrappers

  /** A counter and the time (in milliseconds) it was created. */
  datatype Counter = Counter(count: nat, start: int)

  /** The store still has a counter at its expiry time, and drops it after that. */
  predicate Alive(c: Counter, seconds: int, now: int) {
    now <= c.start + 1000 * seconds
  }

  /** The script's increment: it returns the counter it saw and what it leaves;
      an expiry that is not in the future removes a new counter at once. */
  function Increment(c: Option<Counter>, seconds: int, now: int): (Counter, Option<Counter>) {
    var seen := if c.Some? && Alive(c.value, seconds, now) then c.value.(count := c.value.count + 1)
                else Counter(1, now);
    (seen, if seen.count == 1 && seconds <= 0 then None else Some(seen))
  }

  // ----- the handler

  class RateLimiter {
    const limit: int
    const seconds: int
    var counters: map<string, Counter>

    constructor (limit: int, seconds: int)
      ensures this.limit == limit && this.seconds == seconds && counters == map[]
    {
      this.limit := limit;
      this.seconds := seconds;
      counters := map[];
    }

    function Find(key: string): Option<Counter>
      reads this
    {
      if key in counters then Some(counters[key]) else None
    }

    /** The atomic script and the answer to one request; other clients' counters stay. */
    method ServeHTTP(key: string, now: int) returns (admitted: bool, retryAfter: int)
      modifies this
      ensures Find(key) == Increment(old(Find(key)), seconds, now).1
      ensures counters - {key} == old(counters) - {key}
      ensures admitted <==> Increment(old(Find(key)), seconds, now).0.count <= limit
      ensures !admitted ==> Tells(Increment(old(Find(key)), seconds, now).0, seconds, now, retryAfter)
      ensures admitted ==> retryAfter == 0
    {
      var current := 1;
      if key in counters && Alive(counters[key], seconds, now) {
        current := counters[key].count + 1;
        counters := counters[key := counters[key].(count := current)];
      } else {
        counters := counters[key := Counter(1, now)];
      }
      var start := counters[key].start;
      if current == 1 && seconds <= 0 {
        counters := counters - {key};
      }
      admitted, retryAfter := current <= limit, 0;
      if !admitted {
        retryAfter := (start + 1000 * seconds - now + 500) / 1000;
        if retryAfter <= 0 {
          retryAfter := seconds;
        }
      }
    }
  }

  /** The client is told the whole seconds its counter still lives, rounded to the
      nearest, and the whole window if that is none. */
  predicate Tells(c: Counter, seconds: int, now: int, retryAfter: int) {
    var left := c.start + 1000 * seconds - now;
    if left >= 500 then left - 500 < 1000 * retryAfter <= left + 500 else retryAfter == seconds
  }

  /** A client that comes back more than half a second behind the time it was told is
      the first of a new counter. */
  lemma ToldTimeSuffices(c: Counter, seconds: int, now: int, retryAfter: int, later: int)
    requires Alive(c, seconds, now) && seconds > 0 && Tells(c, seconds, now, retryAfter)
    requires later > now + 1000 * retryAfter + 500
    ensures retryAfter >= 1 && Increment(Some(c), seconds, later).0 == Counter(1, later)
  {
  }

  // ----- histories of one client

  /** The counter after requests at the given times. */
  function After(times: seq<int>, seconds: int): Option<Counter>
    decreases |times|
  {
    if times == [] then None
    else Increment(After(times[..|times| - 1], seconds), seconds, times[|times| - 1]).1
  }

  /** The counter the last request saw. */
  function Seen(times: seq<int>, seconds: int): Counter
    requires times != []
  {
    Increment(After(times[..|times| - 1], seconds), seconds, times[|times| - 1]).0
  }

  /** How many requests with times in [from, to] are admitted. */
  function Admitted(times: seq<int>, limit: int, seconds: int, from: int, to: int): nat
    decreases |times|
  {
    if times == [] then 0
    else
      Admitted(times[..|times| - 1], limit, seconds, from, to)
      + if from <= times[|times| - 1] <= to && Seen(times, seconds).count <= limit then 1 else 0
  }

  /** How many requests of the lifetime that began at `start`, and how many of them are admitted. */
  function Lifetime(times: seq<int>, limit: int, seconds: int, start: int): (nat, nat)
    decreases |times|
  {
    if times == [] then (0, 0)
    else
      var (all, admitted) := Lifetime(times[..|times| - 1], limit, seconds, start);
      var seen := Seen(times, seconds);
      if seen.start != start then (all, admitted)
      else (all + 1, if seen.count <= limit then admitted + 1 else admitted)
  }

  ghost predicate InOrder(times: seq<int>) {
    forall i, j :: 0 <= i <= j < |times| ==> times[i] <= times[j]
  }

  function Min(a: int, b: int): int {
    if a < b then a else b
  }

  lemma {:induction false} CounterStarts(times: seq<int>, seconds: int)
    requires InOrder(times) && times != [] && seconds > 0
    ensures After(times, seconds) == Some(Seen(times, seconds))
    ensures Seen(times, seconds).start <= times[|times| - 1] && Seen(times, seconds).count >= 1
    decreases |times|
  {
    if |times| > 1 {
      CounterStarts(times[..|times| - 1], seconds);
    }
  }

  /** Every lifetime of a counter admits its first `limit` requests and no more. */
  lemma {:induction false} LifetimeAdmits(times: seq<int>, limit: int, seconds: int, start: int)
    requires InOrder(times) && seconds > 0 && limit > 0
    ensures var (all, admitted) := Lifetime(times, limit, seconds, start);
      && admitted == Min(all, limit)
      && (times != [] && Seen(times, seconds).start == start ==> all == Seen(times, seconds).count)
      && (times == [] || Seen(times, seconds).start < start ==> all == 0)
    decreases |times|
  {
    if times != [] {
      var before := times[..|times| - 1];
      LifetimeAdmits(before, limit, seconds, start);
      if before != [] {
        CounterStarts(before, seconds);
      }
    }
  }

  /** The admitted requests of a window against the counter in use: a lifetime that
      began before the window spent its first request there. */
  lemma {:induction false} WindowAdmits(times: seq<int>, limit: int, seconds: int, from: int)
    requires InOrder(times) && seconds > 0 && limit > 0 && times != []
    ensures var n := Admitted(times, limit, seconds, from, from + 1000 * seconds);
      var seen := Seen(times, seconds);
      && (times[|times| - 1] < from ==> n == 0)
      && (seen.start < from ==> n <= Min(seen.count, limit) - 1)
      && (from <= seen.start <= from + 1000 * seconds ==> n <= limit - 1 + Min(seen.count, limit))
      && n <= 2 * limit - 1
    decreases |times|
  {
    var before := times[..|times| - 1];
    CounterStarts(times, seconds);
    if before != [] {
      CounterStarts(before, seconds);
      WindowAdmits(before, limit, seconds, from);
    }
  }

  /** The requests admitted in a window of the configured length, ends included. */
  function InWindow(times: seq<int>, limit: int, seconds: int, from: int): nat {
    Admitted(times, limit, seconds, from, from + if seconds > 0 then 1000 * seconds else 0)
  }

  /** Every window of every history admits fewer than twice the limit iff the window
      is at least a second: without an expiry in the future all requests are admitted. */
  lemma FewerThanTwiceTheLimit(limit: int, seconds: int)
    requires limit > 0
    ensures seconds > 0 <==>
      forall times, from :: InOrder(times) ==> InWindow(times, limit, seconds, from) < 2 * limit
  {
    if seconds > 0 {
      forall times, from | InOrder(times)
        ensures InWindow(times, limit, seconds, from) < 2 * limit
      {
        if times != [] {
          WindowAdmits(times, limit, seconds, from);
        }
      }
    } else {
      NoWindowAdmitsAll(2 * limit, limit, seconds);
      assert InWindow(Burst(2 * limit, 0), limit, seconds, 0) == 2 * limit;
    }
  }

  function Burst(n: nat, at: int): seq<int> {
    seq(n, _ => at)
  }

  lemma {:induction false} NoWindowAdmitsAll(n: nat, limit: int, seconds: int)
    requires limit > 0 && seconds <= 0
    ensures Admitted(Burst(n, 0), limit, seconds, 0, 0) == n && After(Burst(n, 0), seconds) == None
    ensures InOrder(Burst(n, 0))
  {
    if n > 0 {
      assert Burst(n, 0)[..n - 1] == Burst(n - 1, 0);
      NoWindowAdmitsAll(n - 1, limit, seconds);
    }
  }

  /** More requests at one time in the life of one counter. */
  lemma {:induction false} BurstCounts(times: seq<int>, n: nat, at: int, limit: int, seconds: int, from: int, to: int)
    requires times != [] && seconds > 0 && from <= at <= to
    requires After(times, seconds) == Some(Seen(times, seconds)) && Alive(Seen(times, seconds), seconds, at)
    requires Seen(times, seconds).count + n <= limit
    ensures var all := times + Burst(n, at);
      && After(all, seconds) == Some(Seen(all, seconds))
      && Seen(all, seconds) == Counter(Seen(times, seconds).count + n, Seen(times, seconds).start)
      && Admitted(all, limit, seconds, from, to) == Admitted(times, limit, seconds, from, to) + n
  {
    var all := times + Burst(n, at);
    if n == 0 {
      assert all == times;
    } else {
      assert all[..|all| - 1] == times + Burst(n - 1, at);
      BurstCounts(times, n - 1, at, limit, seconds, from, to);
    }
  }

  /** One request that starts a counter. */
  lemma FreshCounts(times: seq<int>, at: int, limit: int, seconds: int, from: int, to: int) returns (all: seq<int>)
    requires limit > 0 && seconds > 0 && InOrder(times) && (times == [] || times[|times| - 1] <= at)
    requires After(times, seconds).None? || !Alive(After(times, seconds).value, seconds, at)
    ensures InOrder(all) && all != [] && all[|all| - 1] == at
    ensures After(all, seconds) == Some(Seen(all, seconds)) && Seen(all, seconds) == Counter(1, at)
    ensures Admitted(all, limit, seconds, from, to)
            == Admitted(times, limit, seconds, from, to) + if from <= at <= to then 1 else 0
  {
    all := times + [at];
    assert all[..|all| - 1] == times;
  }

  lemma BurstInOrder(times: seq<int>, n: nat, at: int)
    requires InOrder(times) && times != [] && times[|times| - 1] <= at
    ensures var all := times + Burst(n, at); InOrder(all) && all[|all| - 1] <= at
  {
  }

  /** A counter that starts at a time and is used up at another. */
  lemma LifetimeSpent(times: seq<int>, start: int, at: int, limit: int, seconds: int, from: int, to: int)
    returns (all: seq<int>)
    requires limit > 0 && seconds > 0 && from <= at <= to && start <= at && Alive(Counter(1, start), seconds, at)
    requires InOrder(times) && (times == [] || times[|times| - 1] <= start)
    requires After(times, seconds).None? || !Alive(After(times, seconds).value, seconds, start)
    ensures InOrder(all) && all != [] && all[|all| - 1] <= at && After(all, seconds) == Some(Counter(limit, start))
    ensures Admitted(all, limit, seconds, from, to)
            == Admitted(times, limit, seconds, from, to) + limit - if from <= start <= to then 0 else 1
  {
    var first := FreshCounts(times, start, limit, seconds, from, to);
    BurstCounts(first, limit - 1, at, limit, seconds, from, to);
    BurstInOrder(first, limit - 1, at);
    all := first + Burst(limit - 1, at);
  }

  /** And the bound is reached: requests at the end of one lifetime and the start of the next. */
  lemma BoundIsReached(limit: int, seconds: int) returns (times: seq<int>)
    requires limit > 0 && seconds > 0
    ensures InOrder(times) && InWindow(times, limit, seconds, 1) == 2 * limit - 1
  {
    var w := 1000 * seconds;
    var early := LifetimeSpent([], 0, w, limit, seconds, 1, w + 1);
    times := LifetimeSpent(early, w + 1, w + 1, limit, seconds, 1, w + 1);
  }
}
