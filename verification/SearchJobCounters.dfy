/** The counters of a search job: what they promise about the timed sources, and the
    two places where a crash makes them lie. */
module SearchJobCounters {
  import opened Wrappers
  import opened SearchJob
  import opened SearchJobSafety

  function Keys(w: World): set<string> {
    set k | k in w.selected
  }

  lemma {:induction false} CountIsCardinality(keys: seq<string>, resumed: set<string>)
    requires Distinct(keys)
    ensures Count(keys, resumed) == |set k | k in keys && k in resumed|
    decreases |keys|
  {
    if keys == [] {
      assert (set k | k in keys && k in resumed) == {};
    } else {
      CountIsCardinality(keys[1..], resumed);
      FirstCounted(keys[0], keys[1..], resumed);
      assert keys == [keys[0]] + keys[1..];
    }
  }

  lemma FirstCounted(key: string, rest: seq<string>, resumed: set<string>)
    requires key !in rest
    ensures |set k | k in [key] + rest && k in resumed|
            == |set k | k in rest && k in resumed| + if key in resumed then 1 else 0
  {
    var counted := set k | k in rest && k in resumed;
    assert (set k | k in [key] + rest && k in resumed) == (if key in resumed then {key} else {}) + counted;
  }

  lemma {:induction false} SubsetSize(a: set<string>, b: set<string>)
    requires a <= b
    ensures |a| <= |b| && (|a| == |b| ==> a == b)
    decreases |a|
  {
    if a != {} {
      var x :| x in a;
      SubsetSize(a - {x}, b - {x});
      assert a == (a - {x}) + {x} && b == (b - {x}) + {x};
    }
  }

  lemma CountBounds(w: World, resumed: set<string>)
    requires ValidWorld(w)
    ensures Count(w.selected, resumed) <= |resumed|
    ensures resumed <= Keys(w) ==> Count(w.selected, resumed) == |resumed|
    ensures |Keys(w)| == |w.selected|
  {
    CountIsCardinality(w.selected, resumed);
    SubsetSize((set k | k in w.selected && k in resumed), resumed);
    assert resumed <= Keys(w) ==> resumed == set k | k in w.selected && k in resumed;
    CountIsCardinality(w.selected, Keys(w));
    assert Keys(w) == set k | k in w.selected && k in Keys(w);
    CountAll(w.selected, Keys(w));
  }

  lemma {:induction false} CountAll(keys: seq<string>, resumed: set<string>)
    requires forall k :: k in keys ==> k in resumed
    ensures Count(keys, resumed) == |keys|
    decreases |keys|
  {
    if keys != [] {
      CountAll(keys[1..], resumed);
    }
  }

  // ----- the end of a scan

  lemma {:induction false} KeysDone(j: Job, keys: seq<string>, resumed: set<string>, w: World,
                                    done: int, total: nat, failed: seq<string>)
    requires j.sourceDone == done && j.sourceTotal == total
    ensures var s := ScanKeys(j, keys, resumed, w, done, total, failed);
      s.ok ==> s.done == done + |keys| - Count(keys, resumed) && s.job.sourceDone == s.done && s.job.sourceTotal == total
    decreases |keys|
  {
    if keys != [] {
      if keys[0] in resumed {
        KeysDone(j, keys[1..], resumed, w, done, total, failed);
      } else {
        var s := ScanSource(j, keys[0], w, done, total, failed);
        if s.ok {
          KeysDone(s.job, keys[1..], resumed, w, s.done, total, s.failed);
        }
      }
    }
  }

  /** A scan that reaches its end reports all sources done iff it did not start with
      more done than sources resumed. */
  lemma ScanReportsAll(j: Job, w: World)
    requires ValidWorld(w) && Ingest(j, w).ok
    ensures Ingest(j, w).job.sourceTotal == |w.selected|
    ensures Ingest(j, w).job.sourceDone == |w.selected| <==> j.sourceDone <= Count(w.selected, j.timings.Keys)
  {
    var done := InitialDone(j, w);
    var queued := Progress(j, done, |w.selected|, j.sourceFailed);
    KeysDone(queued, w.selected, j.timings.Keys, w, done, |w.selected|, j.sourceFailed);
  }

  // ----- counters never run ahead of the timings

  /** The counters fit the timings; with `fixed`, also for an unchanged registry. */
  ghost predicate Sound(j: Job, w: World, fixed: bool) {
    && j.sourceDone <= |j.timings|
    && (fixed ==> j.timings.Keys <= Keys(w) && (j.timings != map[] ==> j.sourceTotal == |w.selected|))
  }

  ghost predicate SoundEffect(e: Effect, w: World, fixed: bool) {
    && (!e.Fetch? ==> Sound(e.job, w, fixed))
    && (fixed && e.Final? && !e.job.status.Failed? ==> e.job.timings.Keys == Keys(w))
  }

  ghost predicate SoundTrace(trace: seq<Effect>, w: World, fixed: bool) {
    forall e :: e in trace ==> SoundEffect(e, w, fixed)
  }

  /** A source keeps the counters sound; it is timed iff the scan goes on. */
  ghost predicate SoundScan(s: Scan, timed: set<string>, key: string, w: World, fixed: bool) {
    && SoundTrace(s.trace, w, fixed) && Sound(s.job, w, fixed) && s.job.sourceTotal == |w.selected|
    && s.done <= |s.job.timings|
    && s.job.timings.Keys == if s.ok then timed + {key} else timed
  }

  lemma DoneSound(before: seq<Effect>, j: Job, key: string, timing: Timing, w: World, done: int,
                  failed: seq<string>, fixed: bool)
    requires key in w.selected && key !in j.timings && SoundTrace(before, w, fixed)
    requires Sound(j, w, fixed) && j.sourceTotal == |w.selected| && done <= |j.timings| + 1
    ensures SoundScan(SourceDone(before, j, key, timing, done, |w.selected|, failed), j.timings.Keys, key, w, fixed)
  {
    var t := Profile(j, key, timing).timings;
    assert t.Keys == j.timings.Keys + {key};
    assert |t| == |t.Keys| && |j.timings| == |j.timings.Keys|;
  }

  lemma OpeningSound(j: Job, key: string, o: Outcome, w: World, fixed: bool)
    requires Sound(j, w, fixed)
    ensures SoundTrace(Opening(j, key, o), w, fixed)
  {
  }

  lemma StoppedSound(before: seq<Effect>, j: Job, key: string, w: World, done: int, failed: seq<string>, fixed: bool)
    requires SoundTrace(before, w, fixed)
    requires Sound(j, w, fixed) && j.sourceTotal == |w.selected| && done <= |j.timings|
    ensures SoundScan(Scan(before, j, done, failed, false), j.timings.Keys, key, w, fixed)
  {
  }

  lemma ProgressSound(j: Job, done: int, failed: seq<string>, w: World, fixed: bool)
    requires Sound(j, w, fixed) && done <= |j.timings|
    ensures var started := Progress(j, done, |w.selected|, failed);
      Sound(started, w, fixed) && started.sourceTotal == |w.selected| && started.timings == j.timings
  {
  }

  lemma SettledSound(before: seq<Effect>, j: Job, key: string, settled: Option<Timing>, w: World, done: int,
                     failed: seq<string>, failedNow: seq<string>, fixed: bool)
    requires key in w.selected && key !in j.timings && SoundTrace(before, w, fixed)
    requires Sound(j, w, fixed) && j.sourceTotal == |w.selected| && done <= |j.timings|
    ensures SoundScan(SourceSettled(before, j, key, settled, done, |w.selected|, failed, failedNow),
                      j.timings.Keys, key, w, fixed)
  {
    match settled
    case None => StoppedSound(before, j, key, w, done, failed, fixed);
    case Some(timing) => DoneSound(before, j, key, timing, w, done + 1, failedNow, fixed);
  }

  lemma SourceSound(j: Job, key: string, w: World, done: int, failed: seq<string>, fixed: bool)
    requires key in w.selected && key !in j.timings
    requires Sound(j, w, fixed) && j.sourceTotal == |w.selected| && done <= |j.timings|
    ensures SoundScan(ScanSource(j, key, w, done, |w.selected|, failed), j.timings.Keys, key, w, fixed)
  {
    var o := w.outcome(key);
    var started := Progress(j, done, |w.selected|, failed);
    ProgressSound(j, done, failed, w, fixed);
    OpeningSound(started, key, o, w, fixed);
    SettledSound(Opening(started, key, o), if o.LookupFailed? || o.CircuitOpen? then j else started, key, Settled(o),
                 w, done, failed, if o.Fetched? then failed else failed + [w.name(key)], fixed);
  }

  lemma SoundConcat(a: seq<Effect>, b: seq<Effect>, w: World, fixed: bool)
    requires SoundTrace(a, w, fixed) && SoundTrace(b, w, fixed)
    ensures SoundTrace(a + b, w, fixed)
  {
  }

  lemma DistinctTail(keys: seq<string>)
    requires keys != [] && Distinct(keys)
    ensures Distinct(keys[1..]) && keys[0] !in keys[1..]
    ensures forall k :: k in keys <==> k == keys[0] || k in keys[1..]
  {
    assert keys == [keys[0]] + keys[1..];
  }

  lemma {:induction false} KeysSound(j: Job, keys: seq<string>, resumed: set<string>, w: World,
                                     done: int, failed: seq<string>, fixed: bool)
    requires Distinct(keys) && (forall k :: k in keys ==> k in w.selected && (k in j.timings <==> k in resumed))
    requires Sound(j, w, fixed) && j.sourceTotal == |w.selected| && done <= |j.timings|
    ensures var s := ScanKeys(j, keys, resumed, w, done, |w.selected|, failed);
      && SoundTrace(s.trace, w, fixed) && Sound(s.job, w, fixed)
      && j.timings.Keys <= s.job.timings.Keys
      && (s.ok ==> forall k :: k in keys ==> k in s.job.timings)
    decreases |keys|
  {
    if keys != [] {
      DistinctTail(keys);
      if keys[0] in resumed {
        KeysSound(j, keys[1..], resumed, w, done, failed, fixed);
      } else {
        SourceSound(j, keys[0], w, done, failed, fixed);
        var s := ScanSource(j, keys[0], w, done, |w.selected|, failed);
        if s.ok {
          KeysSound(s.job, keys[1..], resumed, w, s.done, s.failed, fixed);
          var rest := ScanKeys(s.job, keys[1..], resumed, w, s.done, |w.selected|, s.failed);
          SoundConcat(s.trace, rest.trace, w, fixed);
        }
      }
    }
  }

  lemma FinishSound(j: Job, w: World, fixed: bool)
    requires Sound(j, w, fixed) && (fixed ==> j.timings.Keys == Keys(w))
    ensures SoundTrace(Finish(j, w), w, fixed)
  {
  }

  lemma ScannedSound(j: Job, w: World, fixed: bool)
    requires ValidWorld(w) && Sound(j, w, fixed)
    ensures SoundTrace(Scanned(j, w), w, fixed)
  {
    CountBounds(w, j.timings.Keys);
    var done := InitialDone(j, w);
    var queued := Progress(j, done, |w.selected|, j.sourceFailed);
    KeysSound(queued, w.selected, j.timings.Keys, w, done, j.sourceFailed, fixed);
    var s := Ingest(j, w);
    if s.ok {
      FinishSound(s.job, w, fixed);
    }
  }

  lemma FinishedCovers(j: Job, w: World)
    requires ValidWorld(w) && Sound(j, w, true) && FinishedLiveScan(j)
    ensures j.timings.Keys == Keys(w)
  {
    CountBounds(w, {});
    SubsetSize(j.timings.Keys, Keys(w));
  }

  lemma RunSound(row: Job, w: World, fixed: bool)
    requires ValidWorld(w) && Sound(row, w, fixed) && !TakesHealth(row, w)
    ensures SoundTrace(RunTrace(row, w), w, fixed)
  {
    var started := StartJob(row);
    if w.hits.Some? {
      var decided := started.(rescan := DetermineRescan(started, w.hits.value, w.recent));
      if decided.rescan {
        ScannedSound(decided, w, fixed);
      } else {
        if fixed {
          FinishedCovers(row, w);
        }
        FinishSound(decided.(stage := SearchingIndex), w, fixed);
      }
      assert SoundTrace(Decided(decided, w), w, fixed);
    }
  }

  /** No run of the history copies aggregated source health. */
  predicate NoHealth(row: Job, attempts: seq<Attempt>)
    decreases |attempts|
  {
    attempts == [] ||
    (!TakesHealth(row, attempts[0].world) && NoHealth(LastRow(row, RunMoments(row, attempts[0])), attempts[1..]))
  }

  ghost predicate SoundRow(row: Job, w: World, fixed: bool) {
    && Sound(row, w, fixed)
    && (fixed && (row.status.Completed? || row.status.Partial?) ==> row.timings.Keys == Keys(w))
  }

  lemma {:induction false} MomentsSound(row: Job, trace: seq<Effect>, fates: seq<bool>, w: World, fixed: bool)
    requires SoundRow(row, w, fixed) && SoundTrace(trace, w, fixed)
    requires row.status == Queued && (trace == [] || Ends(trace))
    ensures var ms := Moments(row, trace, fates);
      (forall m :: m in ms ==> SoundRow(m.after, w, fixed)) && SoundRow(LastRow(row, ms), w, fixed)
    decreases |trace|
  {
    if trace != [] && fates != [] {
      var after := if fates[0] then Persist(row, trace[0]) else row;
      assert SoundEffect(trace[0], w, fixed);
      if |trace| > 1 {
        MomentsSound(after, trace[1..], fates[1..], w, fixed);
      } else {
        assert Moments(after, trace[1..], fates[1..]) == [];
      }
    }
  }

  lemma {:induction false} HistorySound(row: Job, attempts: seq<Attempt>, w: World, fixed: bool)
    requires ValidAttempts(attempts) && NoHealth(row, attempts)
    requires forall a :: a in attempts && fixed ==> a.world.selected == w.selected
    requires row.status == Queued && SoundRow(row, w, fixed)
    ensures forall m :: m in History(row, attempts) ==> SoundRow(m.after, w, fixed)
    decreases |attempts|
  {
    if attempts != [] {
      var v := attempts[0].world;
      RunSound(row, v, fixed);
      RunEnds(row, v);
      MomentsQueued(row, RunTrace(row, v), attempts[0].fates);
      MomentsSound(row, RunTrace(row, v), attempts[0].fates, v, fixed);
      var last := LastRow(row, RunMoments(row, attempts[0]));
      if last.status == Queued {
        HistorySound(last, attempts[1..], w, fixed);
      } else {
        TerminalRunsNothing(last, attempts[1..]);
      }
    }
  }

  /** A job as it is created. */
  predicate New(row: Job) {
    row.status == Queued && !row.finished && row.sourceDone <= 0 && row.timings == map[]
  }

  /** The row never counts more sources done than it has timings, whatever happens
      to the registry between runs. */
  lemma DoneWithinTimings(row: Job, attempts: seq<Attempt>, i: nat)
    requires ValidAttempts(attempts) && New(row) && NoHealth(row, attempts)
    requires i < |History(row, attempts)|
    ensures var r := History(row, attempts)[i].after; r.sourceDone <= |r.timings|
  {
    var w := attempts[0].world;
    HistorySound(row, attempts, w, false);
    assert SoundRow(History(row, attempts)[i].after, w, false);
  }

  /** With one registry throughout, a job that ends well has a timing for every source. */
  lemma CompletedCoversRegistry(row: Job, attempts: seq<Attempt>, w: World, i: nat)
    requires ValidWorld(w) && ValidAttempts(attempts) && New(row) && NoHealth(row, attempts)
    requires forall a :: a in attempts ==> a.world.selected == w.selected
    requires i < |History(row, attempts)|
    ensures var r := History(row, attempts)[i].after;
      r.status.Completed? || r.status.Partial? ==> r.timings.Keys == Keys(w)
  {
    HistorySound(row, attempts, w, true);
    assert SoundRow(History(row, attempts)[i].after, w, true);
  }

  /** And a scan that reaches its end from any such row reports every source done. */
  lemma ScanFromHistoryReportsAll(row: Job, attempts: seq<Attempt>, w: World, i: nat)
    requires ValidWorld(w) && ValidAttempts(attempts) && New(row) && NoHealth(row, attempts)
    requires forall a :: a in attempts ==> a.world.selected == w.selected
    requires i < |History(row, attempts)|
    requires Ingest(History(row, attempts)[i].after, w).ok
    ensures var j := Ingest(History(row, attempts)[i].after, w).job;
      j.sourceDone == j.sourceTotal == |w.selected|
  {
    var r := History(row, attempts)[i].after;
    HistorySound(row, attempts, w, true);
    assert SoundRow(r, w, true);
    CountBounds(w, r.timings.Keys);
    ScanReportsAll(r, w);
  }
}
