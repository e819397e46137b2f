/** Which sources a job that ends well has tried: exactly, from the row its last run
    started on. */
module SearchJobCoverage {
  import opened Wrappers
  import opened SearchJob
  import opened SearchJobSafety
  import opened SearchJobCounters
  import opened SearchJobGaps

  // ----- timings stay within the registry

  ghost predicate Within(trace: seq<Effect>, registry: set<string>) {
    forall e :: e in trace && !e.Fetch? ==> e.job.timings.Keys <= registry
  }

  lemma WithinConcat(a: seq<Effect>, b: seq<Effect>, registry: set<string>)
    requires Within(a, registry) && Within(b, registry)
    ensures Within(a + b, registry)
  {
  }

  lemma SourceWithin(j: Job, key: string, w: World, done: int, total: nat, failed: seq<string>, registry: set<string>)
    requires key in registry && j.timings.Keys <= registry
    ensures var s := ScanSource(j, key, w, done, total, failed);
      Within(s.trace, registry) && s.job.timings.Keys <= registry
  {
    var o := w.outcome(key);
    var started := Progress(j, done, total, failed);
    OpeningWithin(started, key, o, registry);
    SettledWithin(Opening(started, key, o), if o.LookupFailed? || o.CircuitOpen? then j else started, key, Settled(o),
                  done, total, failed, if o.Fetched? then failed else failed + [w.name(key)], registry);
  }

  lemma OpeningWithin(started: Job, key: string, o: Outcome, registry: set<string>)
    requires started.timings.Keys <= registry
    ensures Within(Opening(started, key, o), registry)
  {
  }

  lemma SettledWithin(before: seq<Effect>, j: Job, key: string, settled: Option<Timing>, done: int, total: nat,
                      failed: seq<string>, failedNow: seq<string>, registry: set<string>)
    requires key in registry && j.timings.Keys <= registry && Within(before, registry)
    ensures var s := SourceSettled(before, j, key, settled, done, total, failed, failedNow);
      Within(s.trace, registry) && s.job.timings.Keys <= registry
  {
  }

  lemma {:induction false} KeysWithin(j: Job, keys: seq<string>, resumed: set<string>, w: World,
                                      done: int, total: nat, failed: seq<string>, registry: set<string>)
    requires j.timings.Keys <= registry && forall k :: k in keys ==> k in registry
    ensures var s := ScanKeys(j, keys, resumed, w, done, total, failed);
      Within(s.trace, registry) && s.job.timings.Keys <= registry
    decreases |keys|
  {
    if keys != [] {
      if keys[0] in resumed {
        KeysWithin(j, keys[1..], resumed, w, done, total, failed, registry);
      } else {
        var s := ScanSource(j, keys[0], w, done, total, failed);
        SourceWithin(j, keys[0], w, done, total, failed, registry);
        if s.ok {
          KeysWithin(s.job, keys[1..], resumed, w, s.done, total, s.failed, registry);
          WithinConcat(s.trace, ScanKeys(s.job, keys[1..], resumed, w, s.done, total, s.failed).trace, registry);
        }
      }
    }
  }

  lemma ScannedWithin(j: Job, w: World, registry: set<string>)
    requires j.timings.Keys <= registry && registry == Keys(w)
    ensures Within(Scanned(j, w), registry)
  {
    var done := InitialDone(j, w);
    var queued := Progress(j, done, |w.selected|, j.sourceFailed);
    KeysWithin(queued, w.selected, j.timings.Keys, w, done, |w.selected|, j.sourceFailed, registry);
  }

  lemma FinishWithin(j: Job, w: World, registry: set<string>)
    requires j.timings.Keys <= registry
    ensures Within(Finish(j, w), registry)
  {
  }

  lemma DecidedWithin(j: Job, w: World, registry: set<string>)
    requires j.timings.Keys <= registry && registry == Keys(w)
    ensures Within(Decided(j, w), registry)
  {
    if j.rescan {
      ScannedWithin(j, w, registry);
    } else if FinishedLiveScan(j) {
      var searching := j.(stage := SearchingIndex);
      FinishWithin(searching, w, registry);
      WithinConcat([Snapshot(searching)], Finish(searching, w), registry);
    } else {
      var healthy := WithHealth(j, w);
      FinishWithin(healthy, w, registry);
      WithinConcat(if w.health == None then [] else [Snapshot(healthy)], Finish(healthy, w), registry);
    }
  }

  lemma RunWithin(row: Job, w: World)
    requires row.timings.Keys <= Keys(w)
    ensures Within(RunTrace(row, w), Keys(w))
  {
    var started := StartJob(row);
    if w.hits.Some? {
      DecidedWithin(started.(rescan := DetermineRescan(started, w.hits.value, w.recent)), w, Keys(w));
    }
  }

  lemma {:induction false} MomentsWithin(row: Job, trace: seq<Effect>, fates: seq<bool>, registry: set<string>)
    requires row.timings.Keys <= registry && Within(trace, registry)
    ensures forall m :: m in Moments(row, trace, fates) ==> m.after.timings.Keys <= registry
    ensures LastRow(row, Moments(row, trace, fates)).timings.Keys <= registry
    decreases |trace|
  {
    if trace != [] && fates != [] {
      var after := if fates[0] then Persist(row, trace[0]) else row;
      assert trace[0] in trace;
      MomentsWithin(after, trace[1..], fates[1..], registry);
    }
  }

  /** With one registry no row ever has a timing for anything else, health branch or not. */
  lemma {:induction false} HistoryWithin(row: Job, attempts: seq<Attempt>, w: World)
    requires row.timings.Keys <= Keys(w) && forall a :: a in attempts ==> a.world.selected == w.selected
    ensures forall m :: m in History(row, attempts) ==> m.after.timings.Keys <= Keys(w)
    decreases |attempts|
  {
    if attempts != [] {
      var v := attempts[0].world;
      RunWithin(row, v);
      MomentsWithin(row, RunTrace(row, v), attempts[0].fates, Keys(w));
      HistoryWithin(LastRow(row, RunMoments(row, attempts[0])), attempts[1..], w);
    }
  }

  // ----- what a finished scan has tried

  function SetOf(keys: seq<string>): set<string> {
    set k | k in keys
  }

  lemma SetOfFirst(keys: seq<string>)
    requires keys != []
    ensures SetOf(keys) == {keys[0]} + SetOf(keys[1..])
  {
    assert keys == [keys[0]] + keys[1..];
  }

  /** A scan that reaches its end has a timing for every key, and no new one besides. */
  lemma {:induction false} KeysTimed(j: Job, keys: seq<string>, resumed: set<string>, w: World,
                                     done: int, total: nat, failed: seq<string>)
    requires Distinct(keys) && forall k :: k in keys ==> (k in j.timings <==> k in resumed)
    ensures var s := ScanKeys(j, keys, resumed, w, done, total, failed);
      s.ok ==> s.job.timings.Keys == j.timings.Keys + SetOf(keys)
    decreases |keys|
  {
    if keys != [] {
      DistinctTail(keys);
      SetOfFirst(keys);
      if keys[0] in resumed {
        KeysTimed(j, keys[1..], resumed, w, done, total, failed);
      } else {
        var s := ScanSource(j, keys[0], w, done, total, failed);
        GrowingSource(j, keys[0], w, done, total, failed);
        if s.ok {
          KeysTimed(s.job, keys[1..], resumed, w, s.done, total, s.failed);
        }
      }
    }
  }

  lemma FinishTimings(i: Job, w: World, j: Job)
    requires Final(j) in Finish(i, w) && !j.status.Failed?
    ensures j.timings == i.timings
  {
  }

  /** The run scans the registry, or has nothing left to scan. */
  predicate ScansOrCovered(row: Job, w: World) {
    w.hits.Some? && (DetermineRescan(row, w.hits.value, w.recent) || row.timings.Keys == Keys(w))
  }

  lemma ScanCovers(j: Job, w: World, last: Job)
    requires ValidWorld(w) && j.timings.Keys <= Keys(w)
    requires Final(last) in Scanned(j, w) && !last.status.Failed?
    ensures last.timings.Keys == Keys(w)
  {
    var done := InitialDone(j, w);
    var queued := Progress(j, done, |w.selected|, j.sourceFailed);
    var s := Ingest(j, w);
    KeysNotFinal(queued, w.selected, j.timings.Keys, w, done, |w.selected|, j.sourceFailed);
    NoFinalIn(s.trace, if s.ok then Finish(s.job, w) else [Final(FailedJob(s.job))], last);
    FinishTimings(s.job, w, last);
    KeysTimed(queued, w.selected, j.timings.Keys, w, done, |w.selected|, j.sourceFailed);
  }

  /** A run that ends its job well leaves a timing for every source of the registry
      iff it rescans, or the row it started on already had them all. */
  lemma EndsCoveredIff(row: Job, w: World, j: Job)
    requires ValidWorld(w) && row.timings.Keys <= Keys(w)
    requires Final(j) in RunTrace(row, w) && !j.status.Failed?
    ensures j.timings.Keys == Keys(w) <==> ScansOrCovered(row, w)
  {
    var started := StartJob(row);
    var decided := started.(rescan := DetermineRescan(started, w.hits.value, w.recent));
    assert Final(j) in Decided(decided, w);
    if decided.rescan {
      ScanCovers(decided, w, j);
    } else {
      var next := if FinishedLiveScan(decided) then decided.(stage := SearchingIndex) else WithHealth(decided, w);
      FinishTimings(next, w, j);
    }
  }

  /** In any history with one registry, whatever branches it took: the run that ends
      the job well covers the registry iff it scanned or had nothing left to scan. */
  lemma HistoryEndsCoveredIff(row: Job, attempts: seq<Attempt>, w: World, j: Job)
    requires New(row) && ValidWorld(w) && forall a :: a in attempts ==> a.world.selected == w.selected
    requires var r := LastRow(row, History(row, attempts)); Final(j) in RunTrace(r, w) && !j.status.Failed?
    ensures j.timings.Keys == Keys(w) <==> ScansOrCovered(LastRow(row, History(row, attempts)), w)
  {
    var ms := History(row, attempts);
    HistoryWithin(row, attempts, w);
    assert ms != [] ==> ms[|ms| - 1] in ms;
    EndsCoveredIff(LastRow(row, ms), w, j);
  }
}
