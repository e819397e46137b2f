/** Request pacing: callers take turns through a gate and stamp their start no sooner
    than an interval after the last stamp. The client's gate and the enrichment
    service's per-API limiter are the same machine. */
module Pacing {
  import opened Wrappers

  // ----- one caller's turn

  class Gate {
    const interval: int
    var lastStart: Option<int>
    ghost var stamps: seq<int>

    constructor (interval: int)
      ensures this.interval == interval && Valid() && stamps == []
    {
      this.interval := interval;
      lastStart := None;
      stamps := [];
    }

    /** The stamps so far are an interval apart, and the last one is remembered. */
    ghost predicate Valid()
      reads this
    {
      && Spaced(stamps, interval)
      && lastStart == if stamps == [] then None else Some(stamps[|stamps| - 1])
    }

    /** A turn inside the gate: the clock is read, the caller sleeps at least as long as
        it asks and the clock is read again. A sleep may be cut off by cancellation. */
    method Wait(now: int, slept: nat, cancelled: bool) returns (started: bool)
      requires Valid() && interval > 0
      requires !cancelled ==> slept >= Asked(lastStart, interval, now)
      modifies this
      ensures Valid()
      ensures started <==> !(cancelled && Asked(old(lastStart), interval, now) > 0)
      ensures stamps == if started then old(stamps) + [now + slept] else old(stamps)
    {
      if lastStart.Some? {
        var wait := interval - (now - lastStart.value);
        if wait > 0 && cancelled {
          return false;
        }
      }
      lastStart := Some(now + slept);
      stamps := stamps + [now + slept];
      return true;
    }
  }

  /** How long a caller asks to sleep. */
  function Asked(lastStart: Option<int>, interval: int, now: int): int {
    if lastStart.Some? && interval - (now - lastStart.value) > 0 then interval - (now - lastStart.value) else 0
  }

  /** A caller asks for the least sleep that is enough: it may start iff it slept that long. */
  lemma AskedIsLeast(lastStart: Option<int>, interval: int, now: int, slept: nat)
    ensures slept >= Asked(lastStart, interval, now) <==> lastStart.None? || now + slept >= lastStart.value + interval
  {
  }

  ghost predicate Spaced(stamps: seq<int>, interval: int) {
    forall i :: 0 < i < |stamps| ==> stamps[i] - stamps[i - 1] >= interval
  }

  // ----- any number of callers

  /** The caller inside a gate and the time its sleep ends at the earliest. */
  datatype Holder = Holder(caller: nat, wakeAt: int)

  datatype GateState = GateState(holder: Option<Holder>, lastStart: Option<int>, stamps: seq<int>)

  /** All gates, one for each API; the client's own gate is one of them. */
  datatype State = State(clock: int, gates: map<string, GateState>)

  datatype Action = Tick(elapsed: nat) | Enter(caller: nat, api: string) | Stamp(caller: nat, api: string)
                  | Cancel(caller: nat, api: string)

  predicate Holds(s: State, caller: nat, api: string) {
    api in s.gates && s.gates[api].holder.Some? && s.gates[api].holder.value.caller == caller
  }

  /** One step of some caller, or of the clock; a step that is not possible changes nothing. */
  function Next(s: State, intervals: string -> int, act: Action): State {
    match act
    case Tick(d) => s.(clock := s.clock + d)
    case Enter(caller, api) =>
      if api !in s.gates || s.gates[api].holder.Some? then s
      else
        var g := s.gates[api];
        var wakeAt := s.clock + Asked(g.lastStart, intervals(api), s.clock);
        s.(gates := s.gates[api := g.(holder := Some(Holder(caller, wakeAt)))])
    case Stamp(caller, api) =>
      if !Holds(s, caller, api) || s.clock < s.gates[api].holder.value.wakeAt then s
      else s.(gates := s.gates[api := GateState(None, Some(s.clock), s.gates[api].stamps + [s.clock])])
    case Cancel(caller, api) =>
      if !Holds(s, caller, api) then s
      else s.(gates := s.gates[api := s.gates[api].(holder := None)])
  }

  function Run(s: State, intervals: string -> int, actions: seq<Action>): State
    decreases |actions|
  {
    if actions == [] then s
    else Next(Run(s, intervals, actions[..|actions| - 1]), intervals, actions[|actions| - 1])
  }

  predicate Initial(s: State) {
    forall api :: api in s.gates ==> s.gates[api] == GateState(None, None, [])
  }

  /** A gate's stamps are spaced, and its holder sleeps until the next one may come. */
  ghost predicate GoodGate(g: GateState, interval: int) {
    && Spaced(g.stamps, interval)
    && g.lastStart == (if g.stamps == [] then None else Some(g.stamps[|g.stamps| - 1]))
    && (g.holder.Some? && g.stamps != [] ==> g.holder.value.wakeAt >= g.stamps[|g.stamps| - 1] + interval)
  }

  ghost predicate GoodGates(s: State, intervals: string -> int) {
    forall api :: api in s.gates ==> GoodGate(s.gates[api], intervals(api))
  }

  lemma SpacedMore(stamps: seq<int>, interval: int, t: int)
    requires Spaced(stamps, interval) && (stamps != [] ==> t >= stamps[|stamps| - 1] + interval)
    ensures Spaced(stamps + [t], interval)
  {
  }

  lemma GoodKept(s: State, intervals: string -> int, act: Action)
    requires GoodGates(s, intervals)
    ensures GoodGates(Next(s, intervals, act), intervals)
  {
    if act.Stamp? && Holds(s, act.caller, act.api) && s.clock >= s.gates[act.api].holder.value.wakeAt {
      assert GoodGate(s.gates[act.api], intervals(act.api));
      SpacedMore(s.gates[act.api].stamps, intervals(act.api), s.clock);
    }
  }

  lemma {:induction false} AlwaysGood(s: State, intervals: string -> int, actions: seq<Action>)
    requires Initial(s)
    ensures GoodGates(Run(s, intervals, actions), intervals)
    decreases |actions|
  {
    if actions != [] {
      AlwaysGood(s, intervals, actions[..|actions| - 1]);
      GoodKept(Run(s, intervals, actions[..|actions| - 1]), intervals, actions[|actions| - 1]);
    }
  }

  lemma {:induction false} SpacedApart(stamps: seq<int>, interval: int, i: nat, j: nat)
    requires Spaced(stamps, interval) && i <= j < |stamps|
    ensures stamps[j] - stamps[i] >= (j - i) * interval
    decreases j
  {
    if i < j {
      SpacedApart(stamps, interval, i, j - 1);
      assert (j - i) * interval == (j - 1 - i) * interval + interval;
    }
  }

  /** However many callers compete, in every interleaving and with any cancellations,
      stamps i and j of a gate are at least j - i intervals apart. */
  lemma StampsApart(s: State, intervals: string -> int, actions: seq<Action>, api: string, i: nat, j: nat)
    requires Initial(s) && api in Run(s, intervals, actions).gates
    requires i <= j < |Run(s, intervals, actions).gates[api].stamps|
    ensures var stamps := Run(s, intervals, actions).gates[api].stamps;
      stamps[j] - stamps[i] >= (j - i) * intervals(api)
  {
    AlwaysGood(s, intervals, actions);
    SpacedApart(Run(s, intervals, actions).gates[api].stamps, intervals(api), i, j);
  }

  /** A gate has one caller at a time, who is in it until it stamps or cancels. */
  lemma HolderStays(s: State, intervals: string -> int, act: Action, caller: nat, api: string)
    requires Holds(s, caller, api) && act != Stamp(caller, api) && act != Cancel(caller, api)
    ensures var t := Next(s, intervals, act); Holds(t, caller, api) && t.gates[api] == s.gates[api]
  {
  }

  lemma {:induction false} RunConcat(s: State, intervals: string -> int, a: seq<Action>, b: seq<Action>)
    ensures Run(s, intervals, a + b) == Run(Run(s, intervals, a), intervals, b)
    decreases |b|
  {
    if b == [] {
      assert a + b == a;
    } else {
      var init := b[..|b| - 1];
      assert (a + b)[..|a + b| - 1] == a + init;
      RunConcat(s, intervals, a, init);
    }
  }

  /** A turn at a free gate: its caller stamps iff it has slept as long as it asks, and
      is in the gate otherwise. */
  lemma TurnStamps(s: State, intervals: string -> int, caller: nat, api: string, slept: nat)
    requires api in s.gates && s.gates[api].holder.None?
    ensures var g, now := s.gates[api], s.clock + slept;
      var t := Run(s, intervals, [Enter(caller, api), Tick(slept), Stamp(caller, api)]);
      && t.clock == now
      && if slept >= Asked(g.lastStart, intervals(api), s.clock) then t.gates == s.gates[api := GateState(None, Some(now), g.stamps + [now])]
         else Holds(t, caller, api) && t.gates[api].stamps == g.stamps
  {
    var all := [Enter(caller, api), Tick(slept), Stamp(caller, api)];
    assert all[..2] == [Enter(caller, api), Tick(slept)] && all[..2][..1] == [Enter(caller, api)] && all[..1][..0] == [];
    var entered := Next(s, intervals, Enter(caller, api));
    assert Run(s, intervals, all[..1]) == entered;
    assert Run(s, intervals, all[..2]) == Next(entered, intervals, Tick(slept));
  }

  /** A cancelled turn leaves its gate as it was. */
  lemma TurnCancelled(s: State, intervals: string -> int, caller: nat, api: string, slept: nat)
    requires api in s.gates && s.gates[api].holder.None?
    ensures Run(s, intervals, [Enter(caller, api), Tick(slept), Cancel(caller, api)]) == s.(clock := s.clock + slept)
  {
    var all := [Enter(caller, api), Tick(slept), Cancel(caller, api)];
    assert all[..2] == [Enter(caller, api), Tick(slept)] && all[..2][..1] == [Enter(caller, api)] && all[..1][..0] == [];
    var entered := Next(s, intervals, Enter(caller, api));
    assert Run(s, intervals, all[..1]) == entered;
    assert Run(s, intervals, all[..2]) == Next(entered, intervals, Tick(slept));
    assert s.gates[api := s.gates[api]] == s.gates;
  }

  /** And the spacing is reached: some run stamps exactly every interval. */
  lemma {:induction false} SpacingIsReached(s: State, intervals: string -> int, api: string, n: nat) returns (actions: seq<Action>)
    requires Initial(s) && api in s.gates && intervals(api) >= 0
    ensures var t := Run(s, intervals, actions);
      && api in t.gates && t.gates[api].holder.None? && |t.gates[api].stamps| == n
      && t.gates[api].lastStart == (if n == 0 then None else Some(t.clock))
      && t.clock == s.clock + (if n == 0 then 0 else (n - 1) * intervals(api))
      && forall i :: 0 <= i < n ==> t.gates[api].stamps[i] == s.clock + i * intervals(api)
  {
    if n == 0 {
      actions := [];
    } else {
      var before := SpacingIsReached(s, intervals, api, n - 1);
      var t, d := Run(s, intervals, before), if n == 1 then 0 else intervals(api);
      var turn := [Enter(0, api), Tick(d), Stamp(0, api)];
      TurnStamps(t, intervals, 0, api, d);
      RunConcat(s, intervals, before, turn);
      NextMultiple(n, intervals(api));
      actions := before + turn;
    }
  }

  lemma NextMultiple(n: nat, interval: int)
    requires n > 0
    ensures (n - 1) * interval == if n == 1 then 0 else (n - 2) * interval + interval
  {
  }
}
