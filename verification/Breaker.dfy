/** The circuit breaker of a source: counters kept by each recorded run, and the
    ingestor that leaves a source alone while its circuit is open. */
module Breaker {
  import opened Wrappers

  const COOLDOWN := 15 * 60
  const THRESHOLD := 3

  datatype Run = Run(success: bool, at: int)

  // ----- what a history of runs says

  function Successes(runs: seq<Run>): (n: nat)
    ensures n <= |runs|
    decreases |runs|
  {
    if runs == [] then 0
    else Successes(runs[..|runs| - 1]) + if runs[|runs| - 1].success then 1 else 0
  }

  /** The failures at the end of a history. */
  function TrailingFailures(runs: seq<Run>): (n: nat)
    ensures n <= |runs|
    decreases |runs|
  {
    if runs == [] || runs[|runs| - 1].success then 0 else TrailingFailures(runs[..|runs| - 1]) + 1
  }

  function LastSuccess(runs: seq<Run>): Option<int>
    decreases |runs|
  {
    if runs == [] then None
    else if runs[|runs| - 1].success then Some(runs[|runs| - 1].at) else LastSuccess(runs[..|runs| - 1])
  }

  /** Open until a quarter of an hour after the last run, once three failures end the history. */
  function OpenUntil(runs: seq<Run>): Option<int> {
    if TrailingFailures(runs) >= THRESHOLD then Some(runs[|runs| - 1].at + COOLDOWN) else None
  }

  predicate IsOpen(runs: seq<Run>, now: int) {
    OpenUntil(runs).Some? && OpenUntil(runs).value > now
  }

  lemma HistoryStep(runs: seq<Run>, r: Run)
    ensures var more := runs + [r];
      && Successes(more) == Successes(runs) + (if r.success then 1 else 0)
      && TrailingFailures(more) == (if r.success then 0 else TrailingFailures(runs) + 1)
      && LastSuccess(more) == (if r.success then Some(r.at) else LastSuccess(runs))
  {
    assert (runs + [r])[..|runs|] == runs;
  }

  // ----- the counters

  class Source {
    var totalRuns: nat
    var totalSuccesses: nat
    var totalFailures: nat
    var consecutiveFailures: nat
    var lastSuccessAt: Option<int>
    var circuitOpenUntil: Option<int>
    ghost var runs: seq<Run>

    /** Every counter is what the history of runs says. */
    ghost predicate Valid()
      reads this
    {
      && totalRuns == |runs| == totalSuccesses + totalFailures
      && totalSuccesses == Successes(runs)
      && consecutiveFailures == TrailingFailures(runs)
      && lastSuccessAt == LastSuccess(runs)
      && circuitOpenUntil == OpenUntil(runs)
    }

    constructor ()
      ensures Valid() && runs == []
    {
      totalRuns, totalSuccesses, totalFailures, consecutiveFailures := 0, 0, 0, 0;
      lastSuccessAt, circuitOpenUntil := None, None;
      runs := [];
    }

    method RecordRun(success: bool, now: int)
      requires Valid()
      modifies this
      ensures Valid() && runs == old(runs) + [Run(success, now)]
    {
      HistoryStep(runs, Run(success, now));
      totalRuns := totalRuns + 1;
      if success {
        totalSuccesses := totalSuccesses + 1;
        lastSuccessAt := Some(now);
        circuitOpenUntil := None;
        consecutiveFailures := 0;
      } else {
        totalFailures := totalFailures + 1;
        if consecutiveFailures + 1 >= THRESHOLD {
          circuitOpenUntil := Some(now + COOLDOWN);
        }
        consecutiveFailures := consecutiveFailures + 1;
      }
      runs := runs + [Run(success, now)];
    }

    /** The check and the run of one scan; the run is recorded when it ends. */
    method Visit(v: Visit)
      requires Valid()
      modifies this
      ensures Valid() && runs == AfterVisit(old(runs), v)
    {
      if circuitOpenUntil.Some? && circuitOpenUntil.value > v.at {
        return;
      }
      RecordRun(v.success, v.end);
    }
  }

  // ----- scans of a source, one after the other

  /** A scan that reaches the source at one time and would end its run at another. */
  datatype Visit = Visit(at: int, end: int, success: bool)

  function AfterVisit(runs: seq<Run>, v: Visit): seq<Run> {
    if IsOpen(runs, v.at) then runs else runs + [Run(v.success, v.end)]
  }

  function AfterVisits(visits: seq<Visit>): seq<Run>
    decreases |visits|
  {
    if visits == [] then [] else AfterVisit(AfterVisits(visits[..|visits| - 1]), visits[|visits| - 1])
  }

  /** The visits that are not turned away: one for each recorded run. */
  function Attempts(visits: seq<Visit>): (a: seq<Visit>)
    ensures |a| == |AfterVisits(visits)|
    ensures forall i :: 0 <= i < |a| ==> a[i] in visits && AfterVisits(visits)[i] == Run(a[i].success, a[i].end)
    decreases |visits|
  {
    if visits == [] then []
    else
      var before, v := visits[..|visits| - 1], visits[|visits| - 1];
      if IsOpen(AfterVisits(before), v.at) then Attempts(before) else Attempts(before) + [v]
  }

  /** After three straight failures the next attempt starts no sooner than a quarter
      of an hour after the last one ended, until a success. */
  lemma {:induction false} AttemptsAfterThirdFailure(visits: seq<Visit>, i: nat)
    requires i + 1 < |Attempts(visits)|
    requires TrailingFailures(AfterVisits(visits)[..i + 1]) >= THRESHOLD
    ensures Attempts(visits)[i + 1].at >= Attempts(visits)[i].end + COOLDOWN
    decreases |visits|
  {
    var before, v := visits[..|visits| - 1], visits[|visits| - 1];
    var runs := AfterVisits(before);
    if i + 1 < |runs| {
      assert AfterVisits(visits)[..i + 1] == runs[..i + 1];
      AttemptsAfterThirdFailure(before, i);
    } else {
      assert AfterVisits(visits)[..i + 1] == runs;
      assert !IsOpen(runs, v.at);
    }
  }

  /** Exactly the runs behind the last success. */
  lemma {:induction false} TrailingAreFailures(runs: seq<Run>)
    ensures var n := TrailingFailures(runs);
      && (forall i :: |runs| - n <= i < |runs| ==> !runs[i].success)
      && (n < |runs| ==> runs[|runs| - n - 1].success)
    decreases |runs|
  {
    if runs != [] && !runs[|runs| - 1].success {
      TrailingAreFailures(runs[..|runs| - 1]);
    }
  }

  /** And a source is turned away only for that reason. */
  lemma TurnedAwayIff(runs: seq<Run>, now: int)
    ensures IsOpen(runs, now) <==>
      && |runs| >= THRESHOLD && (forall i :: |runs| - THRESHOLD <= i < |runs| ==> !runs[i].success)
      && now < runs[|runs| - 1].at + COOLDOWN
  {
    TrailingAreFailures(runs);
  }
}
