/** The retry loops of the language-model client and of the agent that calls it. */
module Retry {
  import opened Wrappers

  const MAX_ATTEMPTS := 3
  const MAX_OVERLOAD_ATTEMPTS := 5
  const MAX_TURN_RETRIES := 3
  const OVERLOADED := "1305"
  const MAX_DELAY := 30_000

  /** The model's message: with tool calls, with content, or with neither. */
  datatype Message = Tools | Content | Empty

  /** What one post ends in. Delays are milliseconds. */
  datatype Reply =
    | Answer(message: Message)
    | RateLimited(code: string, terminal: bool, retryAfter: Option<nat>)
    | HttpError(badRequest: bool)
    | Broken(retryable: bool)

  /** When the caller's context is cancelled: while the n-th post waits for the request
      gate, before the n-th reply is looked at, or during the sleep behind it. */
  datatype Context = Context(atGate: nat -> bool, atReply: nat -> bool, asleep: nat -> bool)

  /** What a call of the client returns. */
  datatype Result = Received(message: Message) | Refused(reply: Reply) | Abandoned

  function Limit(code: string): nat {
    if code == OVERLOADED then MAX_OVERLOAD_ATTEMPTS else MAX_ATTEMPTS
  }

  /** Another post follows the n-th, unless the caller gives up. */
  predicate Retries(n: nat, r: Reply) {
    match r
    case Answer(_) => false
    case RateLimited(code, terminal, _) => !terminal && n < Limit(code)
    case HttpError(_) => false
    case Broken(retryable) => retryable && n < MAX_ATTEMPTS
  }

  /** Doubling from the base, cut at half a minute; before jitter. */
  function Backoff(base: nat, attempt: nat): nat
    requires attempt > 0
  {
    var delay := base * Pow2(attempt - 1);
    if delay > MAX_DELAY then MAX_DELAY else delay
  }

  function Pow2(n: nat): (p: nat)
    ensures p > 0
  {
    if n == 0 then 1 else 2 * Pow2(n - 1)
  }

  /** The delay behind the n-th reply. */
  function DelayAfter(n: nat, r: Reply): nat
    requires n > 0
  {
    match r
    case RateLimited(code, _, Some(after)) => after
    case RateLimited(code, _, None) => Backoff(if code == OVERLOADED then 4000 else 2000, n)
    case _ => 600 * n
  }

  // ----- one call of the client

  /** A call has made these posts and returned this: every reply but the last was
      retried, and the call ended where it had to. */
  ghost predicate Ends(reply: nat -> Reply, ctx: Context, posts: nat, result: Result) {
    && (forall n :: 1 <= n <= posts ==> !ctx.atGate(n))
    && (forall n :: 1 <= n < posts ==> GoesOn(reply, ctx, n))
    && (|| (ctx.atGate(posts + 1) && (posts > 0 ==> GoesOn(reply, ctx, posts)) && result == Abandoned)
        || (posts > 0 && !GoesOn(reply, ctx, posts) && result == Verdict(reply, ctx, posts)))
  }

  /** The n-th reply is retried, and nobody cancels before the next post. */
  predicate GoesOn(reply: nat -> Reply, ctx: Context, n: nat) {
    !ctx.atReply(n) && Retries(n, reply(n)) && !ctx.asleep(n)
  }

  function Verdict(reply: nat -> Reply, ctx: Context, n: nat): Result {
    match reply(n)
    case Answer(m) => Received(m)
    case r => if ctx.atReply(n) || Retries(n, r) then Abandoned else Refused(r)
  }

  method ChatWithExtra(reply: nat -> Reply, ctx: Context) returns (posts: nat, result: Result, delays: seq<nat>)
    ensures Ends(reply, ctx, posts, result)
    ensures posts <= MAX_OVERLOAD_ATTEMPTS
    ensures posts == 0 ==> ctx.atGate(1)
    ensures |delays| <= posts && forall n :: 1 <= n <= |delays| ==> delays[n - 1] == DelayAfter(n, reply(n))
  {
    posts := 0;
    delays := [];
    while true
      invariant 0 <= posts < MAX_OVERLOAD_ATTEMPTS
      invariant forall n :: 1 <= n <= posts ==> !ctx.atGate(n) && GoesOn(reply, ctx, n)
      invariant |delays| == posts && forall n :: 1 <= n <= posts ==> delays[n - 1] == DelayAfter(n, reply(n))
      decreases MAX_OVERLOAD_ATTEMPTS - posts
    {
      if ctx.atGate(posts + 1) {
        return posts, Abandoned, delays;
      }
      posts := posts + 1;
      match reply(posts) {
        case Answer(message) =>
          return posts, Received(message), delays;
        case RateLimited(code, terminal, retryAfter) =>
          if ctx.atReply(posts) {
            return posts, Abandoned, delays;
          }
          var maxAttempts := MAX_ATTEMPTS;
          if code == OVERLOADED {
            maxAttempts := MAX_OVERLOAD_ATTEMPTS;
          }
          if terminal || posts >= maxAttempts {
            return posts, Refused(reply(posts)), delays;
          }
          var delay;
          if retryAfter.Some? {
            delay := retryAfter.value;
          } else {
            var base := if code == OVERLOADED then 4000 else 2000;
            delay := base * Pow2(posts - 1);
            if delay > MAX_DELAY {
              delay := MAX_DELAY;
            }
          }
          delays := delays + [delay];
        case HttpError(_) =>
          return posts, if ctx.atReply(posts) then Abandoned else Refused(reply(posts)), delays;
        case Broken(retryable) =>
          if ctx.atReply(posts) {
            return posts, Abandoned, delays;
          }
          if !retryable || posts >= MAX_ATTEMPTS {
            return posts, Refused(reply(posts)), delays;
          }
          delays := delays + [600 * posts];
      }
      if ctx.asleep(posts) {
        return posts, Abandoned, delays;
      }
    }
  }

  lemma EndsNoLater(reply: nat -> Reply, ctx: Context, p: nat, x: Result, q: nat, y: Result)
    requires Ends(reply, ctx, p, x) && Ends(reply, ctx, q, y)
    ensures q <= p
  {
    var next: nat := p + 1;
    assert next <= q ==> !ctx.atGate(next);
    assert 0 < p < q ==> GoesOn(reply, ctx, p);
  }

  /** The replies and the context decide how many posts a call makes and what it returns. */
  lemma EndsOnce(reply: nat -> Reply, ctx: Context, p: nat, x: Result, q: nat, y: Result)
    requires Ends(reply, ctx, p, x) && Ends(reply, ctx, q, y)
    ensures p == q && x == y
  {
    EndsNoLater(reply, ctx, p, x, q, y);
    EndsNoLater(reply, ctx, q, y, p, x);
  }

  predicate Overloaded(r: Reply) {
    r.RateLimited? && r.code == OVERLOADED && !r.terminal
  }

  /** The delays a caller sees before jitter: 2 and 4 seconds, or 4, 8, 16 and 30. */
  function ExpectedDelay(code: string, n: nat): nat {
    if code == OVERLOADED then
      if n == 1 then 4000 else if n == 2 then 8000 else if n == 3 then 16000 else 30000
    else if n == 1 then 2000 else 4000
  }

  /** What a retried reply tells: its place in the budget, and the delay behind it. */
  lemma RetriedReply(n: nat, r: Reply)
    requires n >= 1 && Retries(n, r)
    ensures n < MAX_OVERLOAD_ATTEMPTS && (n >= MAX_ATTEMPTS ==> Overloaded(r))
    ensures r.RateLimited? ==> !r.terminal
    ensures r.RateLimited? ==> DelayAfter(n, r) == r.retryAfter.GetOr(ExpectedDelay(r.code, n))
    ensures r.RateLimited? ==> ExpectedDelay(r.code, n) <= MAX_DELAY
    ensures r.Broken? ==> DelayAfter(n, r) == if n == 1 then 600 else 1200
  {
    assert Pow2(0) == 1 && Pow2(1) == 2 && Pow2(2) == 4 && Pow2(3) == 8;
  }

  /** How often a call posts that gets the same reply again and again. */
  function Patience(r: Reply): nat {
    match r
    case Answer(_) => 1
    case HttpError(_) => 1
    case RateLimited(code, terminal, _) => if terminal then 1 else if code == OVERLOADED then 5 else 3
    case Broken(retryable) => if retryable then 3 else 1
  }

  /** A service that always replies the same gets its posts in full, and then the
      caller gets the reply. */
  lemma SteadyReply(reply: nat -> Reply, ctx: Context, r: Reply, posts: nat, result: Result)
    requires Ends(reply, ctx, posts, result) && forall n :: reply(n) == r
    requires forall n :: !ctx.atGate(n) && !ctx.atReply(n) && !ctx.asleep(n)
    ensures posts == Patience(r) && result == if r.Answer? then Received(r.message) else Refused(r)
  {
    assert posts > 0;
    assert !GoesOn(reply, ctx, posts);
    assert posts > 1 ==> GoesOn(reply, ctx, posts - 1);
  }

  /** No post is made behind a cancellation or a reply that is not retried, and another
      one is made where there is neither. */
  lemma PostsIff(reply: nat -> Reply, ctx: Context, posts: nat, result: Result)
    requires Ends(reply, ctx, posts, result)
    ensures forall n :: 1 <= n <= posts ==> !ctx.atGate(n)
    ensures forall n :: 1 <= n < posts ==> Retries(n, reply(n)) && !ctx.atReply(n) && !ctx.asleep(n)
    ensures posts == 0 || (Retries(posts, reply(posts)) && !ctx.atReply(posts) && !ctx.asleep(posts)) ==> ctx.atGate(posts + 1)
  {
    forall n | 1 <= n < posts
      ensures Retries(n, reply(n)) && !ctx.atReply(n) && !ctx.asleep(n)
    {
      assert GoesOn(reply, ctx, n);
    }
  }

  /** A caller is told that it was abandoned exactly if it cancelled while the call had
      not ended otherwise: before its first post, behind a reply that is retried, or by
      the time of a reply without an answer. */
  lemma AbandonedIff(reply: nat -> Reply, ctx: Context, posts: nat, result: Result)
    requires Ends(reply, ctx, posts, result)
    ensures result == Abandoned <==>
      posts == 0 || Retries(posts, reply(posts)) || (!reply(posts).Answer? && ctx.atReply(posts))
  {
  }

  // ----- the agent's turns

  /** The replies and contexts of all calls the agent makes, numbered from 0, and
      whether its own sleep behind a call is cut off. */
  datatype Script = Script(reply: nat -> nat -> Reply, ctx: nat -> Context, asleep: nat -> bool)

  datatype Ending = Delivered | Finalized(result: Result) | GaveUp(result: Result)

  /** A call the agent has made: its posts and what it returned. */
  datatype Call = Call(posts: nat, result: Result)

  function TotalPosts(calls: seq<Call>): nat {
    if calls == [] then 0 else TotalPosts(calls[..|calls| - 1]) + calls[|calls| - 1].posts
  }

  /** Each call is one of the client's, on its own replies. */
  ghost predicate Scripted(s: Script, calls: seq<Call>) {
    forall i :: 0 <= i < |calls| ==> Ends(s.reply(i), s.ctx(i), calls[i].posts, calls[i].result)
  }

  predicate RateLimit(r: Result) {
    r.Refused? && r.reply.RateLimited?
  }

  /** One rate limit in a row more than the agent retries. */
  predicate Streak(calls: seq<Call>, i: nat) {
    i + MAX_TURN_RETRIES < |calls| && forall j :: i <= j <= i + MAX_TURN_RETRIES ==> RateLimit(calls[j].result)
  }

  lemma {:induction false} PostsPerCall(s: Script, calls: seq<Call>)
    requires Scripted(s, calls)
    ensures TotalPosts(calls) <= MAX_OVERLOAD_ATTEMPTS * |calls|
  {
    if calls != [] {
      var k := |calls| - 1;
      PostsPerCall(s, calls[..k]);
      PostsOfOne(s.reply(k), s.ctx(k), calls[k].posts, calls[k].result);
    }
  }

  lemma PostsOfOne(reply: nat -> Reply, ctx: Context, posts: nat, result: Result)
    requires Ends(reply, ctx, posts, result)
    ensures posts <= MAX_OVERLOAD_ATTEMPTS
  {
    assert posts > MAX_OVERLOAD_ATTEMPTS ==> GoesOn(reply, ctx, MAX_OVERLOAD_ATTEMPTS);
  }

  /** The agent goes on behind its i-th call: it has tool calls to answer, or waits and tries again. */
  predicate Carries(s: Script, r: Result, i: nat) {
    r == Received(Tools) || (r.Refused? && r.reply.RateLimited? && !r.reply.terminal && !s.asleep(i))
  }

  ghost predicate AllCarry(s: Script, calls: seq<Call>, n: nat)
    requires n <= |calls|
  {
    forall i :: 0 <= i < n ==> Carries(s, calls[i].result, i)
  }

  /** Where a run of the agent stands: only tool calls and retried rate limits so far,
      the last of them in a row counted. */
  ghost predicate Underway(s: Script, calls: seq<Call>, turnRetries: nat) {
    && AllCarry(s, calls, |calls|)
    && turnRetries <= MAX_TURN_RETRIES && turnRetries <= |calls|
    && (forall i :: |calls| - turnRetries <= i < |calls| ==> RateLimit(calls[i].result))
    && (turnRetries < |calls| ==> calls[|calls| - turnRetries - 1].result == Received(Tools))
    && (forall i: nat :: !Streak(calls, i))
  }

  /** Streaks end a run, and only there. */
  ghost predicate StreaksLast(calls: seq<Call>) {
    forall i: nat :: Streak(calls, i) ==> |calls| == i + MAX_TURN_RETRIES + 1
  }

  lemma StreakMore(s: Script, calls: seq<Call>, turnRetries: nat, c: Call)
    requires Underway(s, calls, turnRetries)
    ensures StreaksLast(calls + [c])
    ensures turnRetries < MAX_TURN_RETRIES || !RateLimit(c.result) ==> forall i: nat :: !Streak(calls + [c], i)
  {
    var more := calls + [c];
    forall i: nat | Streak(more, i)
      ensures |more| == i + MAX_TURN_RETRIES + 1 && turnRetries == MAX_TURN_RETRIES && RateLimit(c.result)
    {
      assert forall j :: 0 <= j < |calls| ==> more[j] == calls[j];
      assert !Streak(calls, i);
      assert RateLimit(more[i + MAX_TURN_RETRIES].result);
      assert turnRetries < |calls| ==> more[|calls| - turnRetries - 1].result == Received(Tools);
    }
  }

  lemma UnderwayMore(s: Script, calls: seq<Call>, turnRetries: nat, c: Call)
    requires Underway(s, calls, turnRetries) && Carries(s, c.result, |calls|)
    ensures RateLimit(c.result) && turnRetries < MAX_TURN_RETRIES ==> Underway(s, calls + [c], turnRetries + 1)
    ensures c.result == Received(Tools) ==> Underway(s, calls + [c], 0)
  {
    StreakMore(s, calls, turnRetries, c);
    assert forall j :: 0 <= j < |calls| ==> (calls + [c])[j] == calls[j];
  }

  /** Where a turn leads. */
  datatype Next = Again(turnRetries: nat) | LastWord | Stop(ending: Ending)

  /** A message with tool calls or a rate limit that may be retried leads to another
      turn; an empty message or a bad request to the last word. */
  function Lead(r: Result, asleep: bool, turnRetries: nat): Next {
    match r
    case Received(Tools) => Again(0)
    case Received(Content) => Stop(Delivered)
    case Received(Empty) => LastWord
    case Abandoned => Stop(GaveUp(r))
    case Refused(reply) =>
      if reply.RateLimited? && !reply.terminal && turnRetries < MAX_TURN_RETRIES then
        if asleep then Stop(GaveUp(r)) else Again(turnRetries + 1)
      else if reply == HttpError(true) then LastWord
      else Stop(GaveUp(r))
  }

  /** The agent gives up on a call: it was cancelled, or refused for good. */
  ghost predicate Hopeless(s: Script, calls: seq<Call>) {
    && calls != []
    && var n := |calls| - 1; var last := calls[n].result;
       || last == Abandoned
       || (&& last.Refused? && last.reply != HttpError(true)
           && (last.reply.RateLimited? && !last.reply.terminal ==>
                 s.asleep(n) || (n >= MAX_TURN_RETRIES && Streak(calls, n - MAX_TURN_RETRIES))))
  }

  /** A call without use: an empty message or a bad request. */
  predicate Useless(r: Result) {
    r == Received(Empty) || r == Refused(HttpError(true))
  }

  /** How a run ends: behind calls that carry it on comes content, or a call to give up
      on, or one more call because of a useless one or because all turns are spent. */
  ghost predicate EndsAs(s: Script, calls: seq<Call>, ending: Ending, maxToolTurns: nat) {
    && calls != []
    && var n := |calls| - 1; var last := calls[n].result;
       match ending
       case Delivered => AllCarry(s, calls, n) && last == Received(Content)
       case GaveUp(r) => AllCarry(s, calls, n) && r == last && Hopeless(s, calls)
       case Finalized(r) =>
         && r == last && n > 0 && AllCarry(s, calls, n - 1)
         && (Useless(calls[n - 1].result) || (Carries(s, calls[n - 1].result, n - 1) && n == maxToolTurns + 1))
  }

  /** What a turn leaves: a run under way, an ending, or a run that only wants its last word. */
  ghost predicate Leaves(s: Script, calls: seq<Call>, next: Next) {
    && calls != []
    && AllCarry(s, calls, |calls| - 1)
    && var last := calls[|calls| - 1].result;
       match next
       case Again(retries) => Underway(s, calls, retries)
       case Stop(Delivered) => StreaksLast(calls) && last == Received(Content)
       case Stop(GaveUp(r)) => StreaksLast(calls) && r == last && Hopeless(s, calls)
       case Stop(Finalized(_)) => false
       case LastWord => (forall i: nat :: !Streak(calls, i)) && Useless(last)
  }

  /** A rate limit behind as many in a row as the agent retries makes the streak. */
  lemma StreakFull(s: Script, calls: seq<Call>, c: Call)
    requires Underway(s, calls, MAX_TURN_RETRIES) && RateLimit(c.result)
    ensures Streak(calls + [c], |calls| - MAX_TURN_RETRIES)
  {
    assert forall j :: 0 <= j < |calls| ==> (calls + [c])[j] == calls[j];
  }

  lemma LeadLeaves(s: Script, calls: seq<Call>, turnRetries: nat, c: Call)
    requires Underway(s, calls, turnRetries)
    ensures Leaves(s, calls + [c], Lead(c.result, s.asleep(|calls|), turnRetries))
  {
    StreakMore(s, calls, turnRetries, c);
    assert forall j :: 0 <= j < |calls| ==> (calls + [c])[j] == calls[j];
    if Carries(s, c.result, |calls|) {
      UnderwayMore(s, calls, turnRetries, c);
    }
    if turnRetries == MAX_TURN_RETRIES && RateLimit(c.result) {
      StreakFull(s, calls, c);
    }
  }

  lemma StopEnds(s: Script, calls: seq<Call>, ending: Ending, maxToolTurns: nat)
    requires Leaves(s, calls, Stop(ending))
    ensures EndsAs(s, calls, ending, maxToolTurns) && StreaksLast(calls)
  {
  }

  /** A useless call, or all turns spent. */
  ghost predicate WantsLastWord(s: Script, calls: seq<Call>, maxToolTurns: nat) {
    && calls != []
    && var n := |calls| - 1;
       && AllCarry(s, calls, n)
       && (Useless(calls[n].result) || (Carries(s, calls[n].result, n) && n == maxToolTurns))
  }

  lemma LastWordEnds(s: Script, calls: seq<Call>, c: Call, maxToolTurns: nat)
    requires WantsLastWord(s, calls, maxToolTurns)
    ensures EndsAs(s, calls + [c], Finalized(c.result), maxToolTurns)
  {
    assert forall j :: 0 <= j < |calls| ==> (calls + [c])[j] == calls[j];
  }

  /** One turn of the agent's loop. */
  method Turn(s: Script, turn: nat, turnRetries: nat, posts0: nat, ghost calls0: seq<Call>)
    returns (posts: nat, next: Next, ghost calls: seq<Call>)
    requires Scripted(s, calls0) && |calls0| == turn && posts0 == TotalPosts(calls0) && Underway(s, calls0, turnRetries)
    ensures |calls| == turn + 1 && Scripted(s, calls) && posts == TotalPosts(calls) && Leaves(s, calls, next)
  {
    var made, result, delays := ChatWithExtra(s.reply(turn), s.ctx(turn));
    calls := calls0 + [Call(made, result)];
    posts := posts0 + made;
    next := Follow(result, s.asleep(turn), turnRetries);
    TotalMore(calls0, Call(made, result));
    LeadLeaves(s, calls0, turnRetries, Call(made, result));
  }

  /** The branches behind a call. */
  method Follow(result: Result, asleep: bool, turnRetries: nat) returns (next: Next)
    ensures next == Lead(result, asleep, turnRetries)
  {
    if result.Refused? {
      var reply := result.reply;
      if reply.RateLimited? && !reply.terminal && turnRetries < MAX_TURN_RETRIES {
        if asleep {
          return Stop(GaveUp(result));
        }
        return Again(turnRetries + 1);
      }
      if reply == HttpError(true) {
        return LastWord;
      }
      return Stop(GaveUp(result));
    }
    if result.Abandoned? {
      return Stop(GaveUp(result));
    }
    match result.message {
      case Tools => next := Again(0);
      case Content => next := Stop(Delivered);
      case Empty => next := LastWord;
    }
  }

  /** `agentLoop`: every turn is a call of the client, and so is finalising. All its
      calls together make at most five posts for each turn and for the last word. */
  method AgentLoop(s: Script, maxToolTurns: nat) returns (posts: nat, ending: Ending, ghost calls: seq<Call>)
    ensures posts == TotalPosts(calls) && Scripted(s, calls)
    ensures posts <= MAX_OVERLOAD_ATTEMPTS * (maxToolTurns + 2)
    ensures |calls| <= maxToolTurns + 2 && EndsAs(s, calls, ending, maxToolTurns) && StreaksLast(calls)
  {
    var turnRetries := 0;
    var turn := 0;
    posts, calls := 0, [];
    while turn <= maxToolTurns
      invariant 0 <= turn == |calls| <= maxToolTurns + 1
      invariant posts == TotalPosts(calls) && Scripted(s, calls) && Underway(s, calls, turnRetries)
    {
      var next;
      posts, next, calls := Turn(s, turn, turnRetries, posts, calls);
      turn := turn + 1;
      match next {
        case Again(retries) =>
          turnRetries := retries;
        case Stop(e) =>
          StopEnds(s, calls, e, maxToolTurns);
          Budget(s, calls, maxToolTurns);
          return posts, e, calls;
        case LastWord =>
          posts, ending, calls := Finalize(s, maxToolTurns, turn, posts, calls);
          return;
      }
    }
    posts, ending, calls := Finalize(s, maxToolTurns, turn, posts, calls);
  }

  lemma TotalMore(calls: seq<Call>, c: Call)
    ensures TotalPosts(calls + [c]) == TotalPosts(calls) + c.posts
  {
    assert (calls + [c])[..|calls|] == calls;
  }

  lemma Budget(s: Script, calls: seq<Call>, maxToolTurns: nat)
    requires Scripted(s, calls) && |calls| <= maxToolTurns + 2
    ensures TotalPosts(calls) <= MAX_OVERLOAD_ATTEMPTS * (maxToolTurns + 2)
  {
    PostsPerCall(s, calls);
  }

  lemma StreakAfter(calls: seq<Call>, c: Call)
    requires forall i: nat :: !Streak(calls, i)
    ensures StreaksLast(calls + [c])
  {
    forall i: nat | Streak(calls + [c], i)
      ensures |calls + [c]| == i + MAX_TURN_RETRIES + 1
    {
      assert forall j :: 0 <= j < |calls| ==> (calls + [c])[j] == calls[j];
      assert !Streak(calls, i);
    }
  }

  /** `finalize`: one more call. */
  method Finalize(s: Script, maxToolTurns: nat, turn: nat, posts0: nat, ghost calls0: seq<Call>)
    returns (posts: nat, ending: Ending, ghost calls: seq<Call>)
    requires posts0 == TotalPosts(calls0) && Scripted(s, calls0) && |calls0| == turn <= maxToolTurns + 1
    requires (forall i: nat :: !Streak(calls0, i)) && WantsLastWord(s, calls0, maxToolTurns)
    ensures posts == TotalPosts(calls) && Scripted(s, calls)
    ensures |calls| == turn + 1 && EndsAs(s, calls, ending, maxToolTurns)
    ensures posts <= MAX_OVERLOAD_ATTEMPTS * (maxToolTurns + 2) && StreaksLast(calls)
  {
    var made, result, _ := ChatWithExtra(s.reply(turn), s.ctx(turn));
    calls := calls0 + [Call(made, result)];
    posts, ending := posts0 + made, Finalized(result);
    TotalMore(calls0, calls[turn]);
    StreakAfter(calls0, calls[turn]);
    LastWordEnds(s, calls0, calls[turn], maxToolTurns);
    Budget(s, calls, maxToolTurns);
  }

  /** An overloaded service that gives in at the fifth post of every call. */
  const SLOW := Script(_ => n => if n < MAX_OVERLOAD_ATTEMPTS then RateLimited(OVERLOADED, false, None) else Answer(Tools),
                       _ => Context(_ => false, _ => false, _ => false), _ => false)

  /** The bound is reached: tool calls to the end, five posts each. */
  lemma {:induction false} BudgetIsReached(n: nat)
    ensures var calls := seq(n, _ => Call(MAX_OVERLOAD_ATTEMPTS, Received(Tools)));
      Scripted(SLOW, calls) && TotalPosts(calls) == MAX_OVERLOAD_ATTEMPTS * n
  {
    var calls := seq(n, _ => Call(MAX_OVERLOAD_ATTEMPTS, Received(Tools)));
    if n > 0 {
      BudgetIsReached(n - 1);
      assert calls[..n - 1] == seq(n - 1, _ => Call(MAX_OVERLOAD_ATTEMPTS, Received(Tools)));
    }
  }
}
