/** When a run scans, what it then fetches, and what it reports at its end: said of
    the row it starts on and the outside world alone. */
module SearchJobDecision {
  import opened Wrappers
  import opened Sequences
  import opened SearchJob
  import opened SearchJobSafety
  import opened SearchJobCounters
  import opened SearchJobGaps

  /** A run starts on the row. */
  predicate Open(row: Job) {
    !row.status.Terminal() && !row.finished
  }

  /** A scan was interrupted, somebody asks for one, the index has nothing, or the
      last scan is too old. */
  predicate ScanDue(row: Job, w: World) {
    && w.hits.Some?
    && (|| (row.timings != map[] && (row.sourceTotal <= 0 || row.sourceDone < row.sourceTotal))
        || row.forceRefresh || w.hits.value <= 0 || !w.recent)
  }

  /** The job as a run has decided about it. */
  function Deciding(row: Job, w: World): Job
    requires w.hits.Some?
  {
    StartJob(row).(rescan := DetermineRescan(StartJob(row), w.hits.value, w.recent))
  }

  lemma OpenRun(row: Job, w: World)
    requires Open(row)
    ensures w.hits.None? ==> RunTrace(row, w) == [Snapshot(StartJob(row)), Final(FailedJob(StartJob(row)))]
    ensures w.hits.Some? ==> Deciding(row, w).rescan == ScanDue(row, w)
    ensures w.hits.Some? ==>
      RunTrace(row, w) == [Snapshot(StartJob(row)), Snapshot(Deciding(row, w))] + Decided(Deciding(row, w), w)
  {
    if w.hits.Some? {
      var rest := Decided(Deciding(row, w), w);
      assert [Snapshot(StartJob(row))] + ([Snapshot(Deciding(row, w))] + rest)
          == [Snapshot(StartJob(row)), Snapshot(Deciding(row, w))] + rest;
    }
  }

  /** Work starts on a row unless it is terminal or has an end time. */
  lemma RunsIffOpen(row: Job, w: World)
    ensures RunTrace(row, w) != [] <==> Open(row)
  {
  }

  // ----- the row behind a write

  /** A progress write shows the stage, the counters, the failures and the timings of the
      job and leaves status, end time and the request alone; the terminal write shows
      status and end time as well; a fetch writes nothing. */
  lemma RowShows(row: Job, e: Effect)
    ensures var after := Persist(row, e);
      && after.forceRefresh == row.forceRefresh
      && (e.Fetch? ==> after == row)
      && (!e.Fetch? ==>
            && after.stage == e.job.stage && after.rescan == e.job.rescan && after.timings == e.job.timings
            && after.sourceTotal == e.job.sourceTotal && after.sourceDone == e.job.sourceDone
            && after.sourceLive == e.job.sourceLive && after.sourceFailed == e.job.sourceFailed)
      && (e.Snapshot? ==> after.status == row.status && after.finished == row.finished)
      && (e.Final? ==> after.status == e.job.status && after.finished == e.job.finished)
  {
  }

  // ----- scanning

  predicate IsScanning(e: Effect) {
    e.Snapshot? && e.job.stage == LiveScan
  }

  ghost predicate Scans(trace: seq<Effect>) {
    exists e :: e in trace && IsScanning(e)
  }

  lemma FinishScansNot(j: Job, w: World)
    ensures forall e :: e in Finish(j, w) ==> !IsScanning(e) && !e.Fetch?
  {
  }

  lemma UndueScansNot(j: Job, w: World)
    requires !j.rescan && j.stage != LiveScan
    ensures forall e :: e in Decided(j, w) ==> !IsScanning(e) && !e.Fetch?
  {
    if FinishedLiveScan(j) {
      FinishScansNot(j.(stage := SearchingIndex), w);
    } else {
      FinishScansNot(WithHealth(j, w), w);
    }
  }

  /** A run scans exactly when a scan is due. */
  lemma ScansIff(row: Job, w: World)
    requires Open(row)
    ensures Scans(RunTrace(row, w)) <==> ScanDue(row, w)
  {
    OpenRun(row, w);
    if w.hits.Some? {
      var j := Deciding(row, w);
      if ScanDue(row, w) {
        var queued := Progress(j, InitialDone(j, w), |w.selected|, j.sourceFailed);
        assert Snapshot(queued) in Ingest(j, w).trace;
        assert Snapshot(queued) in RunTrace(row, w) && IsScanning(Snapshot(queued));
      } else {
        UndueScansNot(j, w);
      }
    }
  }

  // ----- fetching

  /** A source is asked: its lookup worked and its circuit is closed. */
  predicate Asked(o: Outcome) {
    o.FetchFailed? || o.Fetched?
  }

  /** The scan goes on behind a source. */
  predicate GoesThrough(o: Outcome) {
    || o.CircuitOpen?
    || (o.FetchFailed? && o.recorded)
    || (o.Fetched? && o.marked && o.saved.Some?)
  }

  /** The scan comes to the i-th key. */
  predicate Reached(keys: seq<string>, timed: set<string>, w: World, i: nat)
    requires i < |keys|
  {
    keys[i] !in timed && forall j :: 0 <= j < i ==> keys[j] in timed || GoesThrough(w.outcome(keys[j]))
  }

  ghost predicate Fetches(keys: seq<string>, timed: set<string>, w: World, key: string) {
    Asked(w.outcome(key)) && exists i :: 0 <= i < |keys| && keys[i] == key && Reached(keys, timed, w, i)
  }

  /** The scan comes to a key as the first, or behind the first if that lets it. */
  lemma FetchesFirst(keys: seq<string>, timed: set<string>, w: World, key: string)
    requires keys != []
    ensures Fetches(keys, timed, w, key) <==>
      || (Asked(w.outcome(key)) && keys[0] == key && key !in timed)
      || ((keys[0] in timed || GoesThrough(w.outcome(keys[0]))) && Fetches(keys[1..], timed, w, key))
  {
    var rest := keys[1..];
    assert forall i :: 0 <= i < |rest| ==> rest[i] == keys[i + 1];
    if i :| 0 <= i < |keys| && keys[i] == key && Reached(keys, timed, w, i) && Asked(w.outcome(key)) {
      if i > 0 {
        assert Reached(rest, timed, w, i - 1);
      }
    }
    if keys[0] == key && key !in timed {
      assert Reached(keys, timed, w, 0);
    }
    if (keys[0] in timed || GoesThrough(w.outcome(keys[0]))) && Fetches(rest, timed, w, key) {
      var i :| 0 <= i < |rest| && rest[i] == key && Reached(rest, timed, w, i);
      assert keys[i + 1] == key && Reached(keys, timed, w, i + 1);
    }
  }

  lemma SourceFetches(j: Job, key: string, w: World, done: int, total: nat, failed: seq<string>, other: string)
    ensures var s := ScanSource(j, key, w, done, total, failed);
      && (Fetch(other) in s.trace <==> other == key && Asked(w.outcome(key)))
      && (s.ok <==> GoesThrough(w.outcome(key)))
  {
  }

  lemma {:induction false} KeysFetch(j: Job, keys: seq<string>, timed: set<string>, w: World,
                                     done: int, total: nat, failed: seq<string>, key: string)
    ensures Fetch(key) in ScanKeys(j, keys, timed, w, done, total, failed).trace <==> Fetches(keys, timed, w, key)
    decreases |keys|
  {
    if keys != [] {
      FetchesFirst(keys, timed, w, key);
      if keys[0] in timed {
        KeysFetch(j, keys[1..], timed, w, done, total, failed, key);
      } else {
        var s := ScanSource(j, keys[0], w, done, total, failed);
        SourceFetches(j, keys[0], w, done, total, failed, key);
        KeysFetch(s.job, keys[1..], timed, w, s.done, total, s.failed, key);
      }
    }
  }

  lemma ScannedFetches(j: Job, w: World, key: string)
    ensures Fetch(key) in Scanned(j, w) <==> Fetches(w.selected, j.timings.Keys, w, key)
  {
    var done := InitialDone(j, w);
    var queued := Progress(j, done, |w.selected|, j.sourceFailed);
    var s := Ingest(j, w);
    KeysFetch(queued, w.selected, j.timings.Keys, w, done, |w.selected|, j.sourceFailed, key);
    FinishScansNot(s.job, w);
  }

  /** A run fetches exactly the sources without a timing that can be asked, up to the
      first source that stops the scan, and none if no scan is due. */
  lemma FetchesIff(row: Job, w: World, key: string)
    requires Open(row)
    ensures Fetch(key) in RunTrace(row, w) <==> ScanDue(row, w) && Fetches(w.selected, row.timings.Keys, w, key)
  {
    OpenRun(row, w);
    if w.hits.Some? {
      if ScanDue(row, w) {
        ScannedFetches(Deciding(row, w), w, key);
      } else {
        UndueScansNot(Deciding(row, w), w);
      }
    }
  }

  /** The keys a run fetches, in order. */
  function FetchedBy(trace: seq<Effect>): seq<string> {
    if trace == [] then [] else (if trace[0].Fetch? then [trace[0].key] else []) + FetchedBy(trace[1..])
  }

  lemma {:induction false} FetchedConcat(a: seq<Effect>, b: seq<Effect>)
    ensures FetchedBy(a + b) == FetchedBy(a) + FetchedBy(b)
    decreases |a|
  {
    if a == [] {
      assert a + b == b;
    } else {
      assert (a + b)[1..] == a[1..] + b;
      FetchedConcat(a[1..], b);
    }
  }

  lemma {:induction false} NothingFetched(trace: seq<Effect>)
    requires forall e :: e in trace ==> !e.Fetch?
    ensures FetchedBy(trace) == []
  {
    if trace != [] {
      assert trace[0] in trace && forall e :: e in trace[1..] ==> e in trace;
      NothingFetched(trace[1..]);
    }
  }

  /** The registry without the timed sources and those that cannot be asked, up to the
      first source that stops the scan. */
  function AskedKeys(keys: seq<string>, timed: set<string>, w: World): seq<string> {
    if keys == [] then []
    else if keys[0] in timed then AskedKeys(keys[1..], timed, w)
    else
      (if Asked(w.outcome(keys[0])) then [keys[0]] else [])
      + if GoesThrough(w.outcome(keys[0])) then AskedKeys(keys[1..], timed, w) else []
  }

  lemma OpeningFetched(started: Job, key: string, o: Outcome)
    ensures FetchedBy(Opening(started, key, o)) == if Asked(o) then [key] else []
  {
    var a, rest := [Snapshot(started)], if o.FetchFailed? then [] else [Snapshot(started), Snapshot(started)];
    NothingFetched(rest);
    NothingFetched([Snapshot(started)]);
    FetchedConcat([Snapshot(started), Fetch(key)], rest);
    FetchedConcat([Snapshot(started), Fetch(key)], [Snapshot(started)]);
    FetchedConcat(a, [Fetch(key)]);
    assert FetchedBy([Fetch(key)]) == [key];
    match o
    case LookupFailed =>
    case CircuitOpen =>
    case FetchFailed(_) => assert Opening(started, key, o) == a + [Fetch(key)];
    case Fetched(marked, _) =>
      assert Opening(started, key, o) == (a + [Fetch(key)]) + if marked then rest else [Snapshot(started)];
  }

  lemma SettledFetched(before: seq<Effect>, j: Job, key: string, settled: Option<Timing>, done: int, total: nat,
                       failed: seq<string>, failedNow: seq<string>)
    ensures FetchedBy(SourceSettled(before, j, key, settled, done, total, failed, failedNow).trace) == FetchedBy(before)
  {
    if settled.Some? {
      var timed := Profile(j, key, settled.value);
      var writes := [Snapshot(timed), Snapshot(Progress(timed, done + 1, total, failedNow))];
      NothingFetched(writes);
      FetchedConcat(before, writes);
    }
  }

  lemma SourceFetched(j: Job, key: string, w: World, done: int, total: nat, failed: seq<string>)
    ensures FetchedBy(ScanSource(j, key, w, done, total, failed).trace) == if Asked(w.outcome(key)) then [key] else []
  {
    var o := w.outcome(key);
    var started := Progress(j, done, total, failed);
    OpeningFetched(started, key, o);
    SettledFetched(Opening(started, key, o), if o.LookupFailed? || o.CircuitOpen? then j else started, key, Settled(o),
                   done, total, failed, if o.Fetched? then failed else failed + [w.name(key)]);
  }

  lemma {:induction false} KeysFetched(j: Job, keys: seq<string>, timed: set<string>, w: World,
                                       done: int, total: nat, failed: seq<string>)
    ensures FetchedBy(ScanKeys(j, keys, timed, w, done, total, failed).trace) == AskedKeys(keys, timed, w)
    decreases |keys|
  {
    if keys != [] {
      if keys[0] in timed {
        KeysFetched(j, keys[1..], timed, w, done, total, failed);
      } else {
        var s := ScanSource(j, keys[0], w, done, total, failed);
        SourceFetched(j, keys[0], w, done, total, failed);
        SourceFetches(j, keys[0], w, done, total, failed, keys[0]);
        if s.ok {
          KeysFetched(s.job, keys[1..], timed, w, s.done, total, s.failed);
          FetchedConcat(s.trace, ScanKeys(s.job, keys[1..], timed, w, s.done, total, s.failed).trace);
        }
      }
    }
  }

  lemma ScannedFetched(j: Job, w: World)
    ensures FetchedBy(Scanned(j, w)) == AskedKeys(w.selected, j.timings.Keys, w)
  {
    var done := InitialDone(j, w);
    var queued := Progress(j, done, |w.selected|, j.sourceFailed);
    var s := ScanKeys(queued, w.selected, j.timings.Keys, w, done, |w.selected|, j.sourceFailed);
    var all := Ingest(j, w);
    var tail := if all.ok then Finish(all.job, w) else [Final(FailedJob(all.job))];
    KeysFetched(queued, w.selected, j.timings.Keys, w, done, |w.selected|, j.sourceFailed);
    FinishScansNot(all.job, w);
    NothingFetched(tail);
    NothingFetched([Snapshot(queued)]);
    FetchedConcat([Snapshot(queued)], s.trace);
    FetchedConcat(all.trace, tail);
  }

  /** The fetches of a run, each once and in the registry's order. */
  lemma FetchedInOrder(row: Job, w: World)
    requires Open(row)
    ensures FetchedBy(RunTrace(row, w)) == if ScanDue(row, w) then AskedKeys(w.selected, row.timings.Keys, w) else []
  {
    OpenRun(row, w);
    if w.hits.Some? {
      var j := Deciding(row, w);
      var front := [Snapshot(StartJob(row)), Snapshot(j)];
      NothingFetched(front);
      FetchedConcat(front, Decided(j, w));
      if ScanDue(row, w) {
        ScannedFetched(j, w);
      } else {
        UndueScansNot(j, w);
        NothingFetched(Decided(j, w));
      }
    } else {
      NothingFetched(RunTrace(row, w));
    }
  }

  // ----- reporting

  /** The names of the sources that had no timing and were not fetched. */
  function FailedNames(keys: seq<string>, timed: set<string>, w: World): seq<string> {
    if keys == [] then []
    else (if keys[0] in timed || w.outcome(keys[0]).Fetched? then [] else [w.name(keys[0])])
         + FailedNames(keys[1..], timed, w)
  }

  /** A timing says how the source went. */
  predicate Fits(t: Timing, o: Outcome) {
    && (t.status == "completed" <==> o.Fetched?) && (t.status == "failed" <==> o.FetchFailed?)
    && (t.status == "skipped" <==> o.CircuitOpen?)
    && (o.Fetched? ==> o.saved == Some(t.articles)) && (!o.Fetched? ==> t.articles == 0)
  }

  /** Sources that had a timing keep it, and each of the others has one that fits. */
  ghost predicate Recorded(before: map<string, Timing>, after: map<string, Timing>, keys: seq<string>,
                           timed: set<string>, w: World) {
    && (forall k :: k in before ==> k in after && after[k] == before[k])
    && (forall k :: k in keys && k !in timed ==> k in after && Fits(after[k], w.outcome(k)))
  }

  predicate AllThrough(keys: seq<string>, timed: set<string>, w: World) {
    forall k :: k in keys && k !in timed ==> GoesThrough(w.outcome(k))
  }

  /** The counters of a job that has these failures in a scan of so many sources. */
  predicate Counted(j: Job, failed: seq<string>, total: nat) {
    && j.sourceFailed == failed && j.sourceTotal == total
    && (total > 0 ==> j.sourceLive == if total < |failed| then 0 else total - |failed|)
  }

  /** What a scan of the keys has to report. */
  ghost predicate Reports(before: map<string, Timing>, failed: seq<string>, keys: seq<string>, timed: set<string>,
                          w: World, total: nat, s: Scan) {
    && (s.ok <==> AllThrough(keys, timed, w))
    && (s.ok ==> s.failed == failed + FailedNames(keys, timed, w) && Counted(s.job, s.failed, total)
                 && Recorded(before, s.job.timings, keys, timed, w))
  }

  /** What one source that lets the scan go on adds. */
  ghost predicate Adds(before: map<string, Timing>, failed: seq<string>, key: string, w: World, total: nat, s: Scan) {
    && s.ok && s.failed == failed + (if w.outcome(key).Fetched? then [] else [w.name(key)])
    && Counted(s.job, s.failed, total)
    && key in s.job.timings && Fits(s.job.timings[key], w.outcome(key)) && s.job.timings - {key} == before
  }

  lemma SourceRecords(j: Job, key: string, w: World, done: int, total: nat, failed: seq<string>)
    requires GoesThrough(w.outcome(key)) && key !in j.timings
    ensures Adds(j.timings, failed, key, w, total, ScanSource(j, key, w, done, total, failed))
  {
    var o := w.outcome(key);
    var started := Progress(j, done, total, failed);
    DoneAdds(Opening(started, key, o), if o.CircuitOpen? then j else started, key, Settled(o).value, w, done + 1, total,
             failed, if o.Fetched? then failed else failed + [w.name(key)]);
  }

  lemma DoneAdds(trace: seq<Effect>, j: Job, key: string, timing: Timing, w: World, done: int, total: nat,
                 failed: seq<string>, failedNow: seq<string>)
    requires key !in j.timings && Fits(timing, w.outcome(key))
    requires failedNow == if w.outcome(key).Fetched? then failed else failed + [w.name(key)]
    ensures Adds(j.timings, failed, key, w, total, SourceDone(trace, j, key, timing, done, total, failedNow))
  {
    assert failed + [] == failed;
    assert j.timings[key := timing] - {key} == j.timings;
  }

  lemma RecordedMore(before: map<string, Timing>, mid: map<string, Timing>, after: map<string, Timing>,
                     keys: seq<string>, timed: set<string>, w: World)
    requires keys != [] && keys[0] in mid && keys[0] !in before && mid - {keys[0]} == before
    requires Fits(mid[keys[0]], w.outcome(keys[0])) && Recorded(mid, after, keys[1..], timed, w)
    ensures Recorded(before, after, keys, timed, w)
  {
    assert forall k :: k in before ==> k in mid - {keys[0]} && mid[k] == before[k];
    assert forall k :: k in keys ==> k == keys[0] || k in keys[1..];
  }

  lemma ReportsMore(before: map<string, Timing>, failed: seq<string>, keys: seq<string>, timed: set<string>,
                    w: World, total: nat, first: Scan, rest: Scan)
    requires keys != [] && keys[0] !in timed && keys[0] !in before && GoesThrough(w.outcome(keys[0]))
    requires Adds(before, failed, keys[0], w, total, first)
    requires Reports(first.job.timings, first.failed, keys[1..], timed, w, total, rest)
    ensures Reports(before, failed, keys, timed, w, total, rest.(trace := first.trace + rest.trace))
  {
    ThroughFirst(keys, timed, w);
    if rest.ok {
      RecordedMore(before, first.job.timings, rest.job.timings, keys, timed, w);
      ConcatAssoc(failed, if w.outcome(keys[0]).Fetched? then [] else [w.name(keys[0])], FailedNames(keys[1..], timed, w));
    }
  }

  lemma ReportsTimed(before: map<string, Timing>, failed: seq<string>, keys: seq<string>, timed: set<string>,
                     w: World, total: nat, s: Scan)
    requires keys != [] && keys[0] in timed && Reports(before, failed, keys[1..], timed, w, total, s)
    ensures Reports(before, failed, keys, timed, w, total, s)
  {
    ThroughFirst(keys, timed, w);
    assert forall k :: k in keys ==> k == keys[0] || k in keys[1..];
    assert [] + FailedNames(keys[1..], timed, w) == FailedNames(keys[1..], timed, w);
  }

  lemma StillUntimed(keys: seq<string>, before: map<string, Timing>, after: map<string, Timing>, timed: set<string>)
    requires keys != [] && keys[0] !in keys[1..] && keys[0] in after && after - {keys[0]} == before
    requires forall k :: k in keys ==> (k in before <==> k in timed)
    ensures forall k :: k in keys[1..] ==> (k in after <==> k in timed)
  {
    assert forall k :: k in keys[1..] ==> k in keys && (k in after - {keys[0]} <==> k in before);
  }

  lemma {:induction false} KeysRecord(j: Job, keys: seq<string>, timed: set<string>, w: World,
                                      done: int, total: nat, failed: seq<string>)
    requires Distinct(keys) && forall k :: k in keys ==> (k in j.timings <==> k in timed)
    requires Counted(j, failed, total)
    ensures Reports(j.timings, failed, keys, timed, w, total, ScanKeys(j, keys, timed, w, done, total, failed))
    decreases |keys|
  {
    if keys == [] {
      assert failed + [] == failed;
    } else {
      DistinctTail(keys);
      if keys[0] in timed {
        KeysRecord(j, keys[1..], timed, w, done, total, failed);
        ReportsTimed(j.timings, failed, keys, timed, w, total, ScanKeys(j, keys[1..], timed, w, done, total, failed));
      } else {
        var s := ScanSource(j, keys[0], w, done, total, failed);
        SourceFetches(j, keys[0], w, done, total, failed, keys[0]);
        if s.ok {
          SourceRecords(j, keys[0], w, done, total, failed);
          StillUntimed(keys, j.timings, s.job.timings, timed);
          KeysRecord(s.job, keys[1..], timed, w, s.done, total, s.failed);
          ReportsMore(j.timings, failed, keys, timed, w, total, s,
                      ScanKeys(s.job, keys[1..], timed, w, s.done, total, s.failed));
        } else {
          ThroughFirst(keys, timed, w);
        }
      }
    }
  }

  lemma ThroughFirst(keys: seq<string>, timed: set<string>, w: World)
    requires keys != []
    ensures AllThrough(keys, timed, w) <==>
      (keys[0] in timed || GoesThrough(w.outcome(keys[0]))) && AllThrough(keys[1..], timed, w)
  {
    assert forall k :: k in keys <==> k == keys[0] || k in keys[1..];
  }

  // ----- the end of a run

  lemma ScannedReports(j: Job, w: World)
    requires ValidWorld(w)
    ensures Reports(j.timings, j.sourceFailed, w.selected, j.timings.Keys, w, |w.selected|, Ingest(j, w))
  {
    var done := InitialDone(j, w);
    var queued := Progress(j, done, |w.selected|, j.sourceFailed);
    KeysRecord(queued, w.selected, j.timings.Keys, w, done, |w.selected|, j.sourceFailed);
  }

  lemma FinishOnly(j: Job, w: World, last: Job)
    requires Final(last) in Finish(j, w)
    ensures last.finished && last.timings == j.timings && last.sourceFailed == j.sourceFailed
    ensures last.sourceTotal == j.sourceTotal && last.sourceLive == j.sourceLive && last.sourceDone == j.sourceDone
    ensures last.stage == if last.status.Failed? then FailedStage else CompletedStage
    ensures last.status == if !w.ranked then Failed else if j.sourceFailed == [] then Completed else Partial
  {
  }

  /** The end of a run that has scanned. */
  lemma ScannedEnds(j: Job, w: World, last: Job)
    requires ValidWorld(w) && Final(last) in Scanned(j, w)
    ensures last.finished && (last.status.Failed? <==> !w.ranked || !AllThrough(w.selected, j.timings.Keys, w))
    ensures last.stage == if last.status.Failed? then FailedStage else CompletedStage
    ensures !last.status.Failed? ==>
      && Counted(last, j.sourceFailed + FailedNames(w.selected, j.timings.Keys, w), |w.selected|)
      && (w.selected == [] ==> last.sourceLive == j.sourceLive)
      && Recorded(j.timings, last.timings, w.selected, j.timings.Keys, w)
      && last.status == if last.sourceFailed == [] then Completed else Partial
  {
    var done := InitialDone(j, w);
    var queued := Progress(j, done, |w.selected|, j.sourceFailed);
    var s := Ingest(j, w);
    KeysNotFinal(queued, w.selected, j.timings.Keys, w, done, |w.selected|, j.sourceFailed);
    NoFinalIn(s.trace, if s.ok then Finish(s.job, w) else [Final(FailedJob(s.job))], last);
    ScannedReports(j, w);
    if s.ok {
      FinishOnly(s.job, w, last);
    }
  }

  /** The end of a run that has not. */
  lemma UnscannedEnds(j: Job, w: World, last: Job)
    requires !j.rescan && Final(last) in Decided(j, w)
    ensures last.finished && last.timings == j.timings && (last.status.Failed? <==> !w.ranked)
    ensures last.stage == if last.status.Failed? then FailedStage else CompletedStage
    ensures !FinishedLiveScan(j) && w.health.Some? ==>
      last.sourceTotal == last.sourceDone == w.health.value.total && last.sourceLive == w.health.value.live
    ensures !last.status.Failed? ==> last.status == if last.sourceFailed == [] then Completed else Partial
    ensures last.sourceFailed == if FinishedLiveScan(j) || w.health.None? then j.sourceFailed else w.health.value.failed
  {
    if FinishedLiveScan(j) {
      FinishOnly(j.(stage := SearchingIndex), w, last);
    } else {
      FinishOnly(WithHealth(j, w), w, last);
    }
  }

  /** A run fails exactly if the index cannot be asked, a due scan is stopped by a
      source, or the results cannot be ranked; its last word has an end time. */
  lemma FailsIff(row: Job, w: World, j: Job)
    requires ValidWorld(w) && Open(row) && Final(j) in RunTrace(row, w)
    ensures j.finished && j.stage == if j.status.Failed? then FailedStage else CompletedStage
    ensures j.status.Failed? <==>
      w.hits.None? || !w.ranked || (ScanDue(row, w) && !AllThrough(w.selected, row.timings.Keys, w))
  {
    OpenRun(row, w);
    if w.hits.Some? {
      if ScanDue(row, w) {
        ScannedEnds(Deciding(row, w), w, j);
      } else {
        UnscannedEnds(Deciding(row, w), w, j);
      }
    }
  }

  /** A run that does not fail reports its job partial exactly if some source failed.
      After a scan these are the failures it started with and, in order, the sources
      without a timing that were not fetched; the timings say how each of them went. */
  lemma RunReports(row: Job, w: World, j: Job)
    requires ValidWorld(w) && Open(row) && Final(j) in RunTrace(row, w) && !j.status.Failed?
    ensures j.status == if j.sourceFailed == [] then Completed else Partial
    ensures ScanDue(row, w) ==>
      && Counted(j, row.sourceFailed + FailedNames(w.selected, row.timings.Keys, w), |w.selected|)
      && (w.selected == [] ==> j.sourceLive == row.sourceLive)
      && Recorded(row.timings, j.timings, w.selected, row.timings.Keys, w)
    ensures !ScanDue(row, w) ==>
      && j.timings == row.timings
      && j.sourceFailed == (if row.timings != map[] || w.health.None? then row.sourceFailed else w.health.value.failed)
      && (row.timings == map[] && w.health.Some? ==>
            j.sourceTotal == j.sourceDone == w.health.value.total && j.sourceLive == w.health.value.live)
  {
    OpenRun(row, w);
    if w.hits.Some? {
      if ScanDue(row, w) {
        ScannedEnds(Deciding(row, w), w, j);
      } else {
        UnscannedEnds(Deciding(row, w), w, j);
      }
    }
  }

  // ----- what a run shows on its way

  /** Every fetch comes right behind a snapshot of the scan. */
  ghost predicate Announced(trace: seq<Effect>) {
    forall i :: 0 <= i < |trace| && trace[i].Fetch? ==> i > 0 && IsScanning(trace[i - 1])
  }

  lemma AnnouncedConcat(a: seq<Effect>, b: seq<Effect>)
    requires Announced(a) && Announced(b)
    ensures Announced(a + b)
  {
    var all := a + b;
    forall i | 0 <= i < |all| && all[i].Fetch?
      ensures i > 0 && IsScanning(all[i - 1])
    {
      assert i < |a| ==> all[i] == a[i] && all[i].Fetch?;
      assert i >= |a| ==> all[i] == b[i - |a|];
    }
  }

  lemma SourceAnnounced(j: Job, key: string, w: World, done: int, total: nat, failed: seq<string>)
    ensures Announced(ScanSource(j, key, w, done, total, failed).trace)
  {
    var o := w.outcome(key);
    var started := Progress(j, done, total, failed);
    SettledAnnounced(Opening(started, key, o), if o.LookupFailed? || o.CircuitOpen? then j else started, key, Settled(o),
                     done, total, failed, if o.Fetched? then failed else failed + [w.name(key)]);
  }

  lemma SettledAnnounced(before: seq<Effect>, j: Job, key: string, settled: Option<Timing>, done: int, total: nat,
                         failed: seq<string>, failedNow: seq<string>)
    requires Announced(before)
    ensures Announced(SourceSettled(before, j, key, settled, done, total, failed, failedNow).trace)
  {
    if settled.Some? {
      var timed := Profile(j, key, settled.value);
      AnnouncedConcat(before, [Snapshot(timed), Snapshot(Progress(timed, done + 1, total, failedNow))]);
    }
  }

  lemma {:induction false} KeysAnnounced(j: Job, keys: seq<string>, timed: set<string>, w: World,
                                         done: int, total: nat, failed: seq<string>)
    ensures Announced(ScanKeys(j, keys, timed, w, done, total, failed).trace)
    decreases |keys|
  {
    if keys != [] {
      if keys[0] in timed {
        KeysAnnounced(j, keys[1..], timed, w, done, total, failed);
      } else {
        var s := ScanSource(j, keys[0], w, done, total, failed);
        SourceAnnounced(j, keys[0], w, done, total, failed);
        if s.ok {
          KeysAnnounced(s.job, keys[1..], timed, w, s.done, total, s.failed);
          AnnouncedConcat(s.trace, ScanKeys(s.job, keys[1..], timed, w, s.done, total, s.failed).trace);
        }
      }
    }
  }

  lemma NoFetchAnnounced(trace: seq<Effect>)
    requires forall e :: e in trace ==> !e.Fetch?
    ensures Announced(trace)
  {
    assert forall i :: 0 <= i < |trace| ==> trace[i] in trace;
  }

  lemma ScannedAnnounced(j: Job, w: World)
    ensures Announced(Scanned(j, w))
  {
    var done := InitialDone(j, w);
    var queued := Progress(j, done, |w.selected|, j.sourceFailed);
    var s := ScanKeys(queued, w.selected, j.timings.Keys, w, done, |w.selected|, j.sourceFailed);
    var all := Ingest(j, w);
    var tail := if all.ok then Finish(all.job, w) else [Final(FailedJob(all.job))];
    KeysAnnounced(queued, w.selected, j.timings.Keys, w, done, |w.selected|, j.sourceFailed);
    AnnouncedConcat([Snapshot(queued)], s.trace);
    FinishScansNot(all.job, w);
    NoFetchAnnounced(tail);
    AnnouncedConcat(all.trace, tail);
  }

  /** A run that does not fail shows the search of the index right before its end. */
  lemma FinishSearches(j: Job, w: World)
    ensures var f := Finish(j, w); w.ranked ==>
      |f| > 1 && f[|f| - 2].Snapshot? && f[|f| - 2].job.stage == SearchingIndex
  {
  }

  lemma TailSearches(a: seq<Effect>, f: seq<Effect>)
    requires |f| > 1 && f[|f| - 2].Snapshot? && f[|f| - 2].job.stage == SearchingIndex
    ensures var all := a + f; all[|all| - 2].Snapshot? && all[|all| - 2].job.stage == SearchingIndex
  {
  }

  lemma DecidedShows(j: Job, w: World)
    ensures Announced(Decided(j, w))
    ensures var d := Decided(j, w);
      w.ranked && (j.rescan ==> Ingest(j, w).ok) ==> |d| > 1 && d[|d| - 2].Snapshot? && d[|d| - 2].job.stage == SearchingIndex
  {
    if j.rescan {
      ScannedAnnounced(j, w);
      var s := Ingest(j, w);
      FinishSearches(s.job, w);
      if w.ranked && s.ok {
        TailSearches(s.trace, Finish(s.job, w));
      }
    } else {
      var next := if FinishedLiveScan(j) then j.(stage := SearchingIndex) else WithHealth(j, w);
      var front := if FinishedLiveScan(j) || w.health.Some? then [Snapshot(next)] else [];
      FinishScansNot(next, w);
      NoFetchAnnounced(front + Finish(next, w));
      FinishSearches(next, w);
      if w.ranked {
        TailSearches(front, Finish(next, w));
      }
    }
  }

  /** A run shows first that it checks the index, then whether it scans, every source
      before it fetches it, and the search of the index before it ends well. */
  lemma RunShows(row: Job, w: World)
    requires Open(row) && ValidWorld(w)
    ensures var t := RunTrace(row, w);
      && t[0].Snapshot? && t[0].job == row.(status := Running, stage := CheckingIndex)
      && (w.hits.Some? ==> |t| > 3 && t[1].Snapshot? && t[1].job == t[0].job.(rescan := ScanDue(row, w)))
      && Announced(t)
      && (w.hits.Some? && w.ranked && (ScanDue(row, w) ==> AllThrough(w.selected, row.timings.Keys, w)) ==>
            t[|t| - 2].Snapshot? && t[|t| - 2].job.stage == SearchingIndex)
  {
    OpenRun(row, w);
    if w.hits.None? {
      NoFetchAnnounced(RunTrace(row, w));
    } else {
      var j := Deciding(row, w);
      var front := [Snapshot(StartJob(row)), Snapshot(j)];
      DecidedShows(j, w);
      DecidedLong(j, w);
      ScannedReports(j, w);
      NoFetchAnnounced(front);
      AnnouncedConcat(front, Decided(j, w));
      if w.ranked && (ScanDue(row, w) ==> AllThrough(w.selected, row.timings.Keys, w)) {
        TailSearches(front, Decided(j, w));
      }
    }
  }

  lemma DecidedLong(j: Job, w: World)
    requires j.stage != SearchingIndex
    ensures |Decided(j, w)| > 1
  {
    if j.rescan {
      assert |Ingest(j, w).trace| > 0;
    }
  }

  /** A run that does not scan writes its health counters exactly if it starts without
      timings and they are known, and shows nothing else before it searches the index. */
  lemma UnscannedShows(row: Job, w: World)
    requires Open(row) && w.hits.Some? && !ScanDue(row, w)
    ensures var t, counted := RunTrace(row, w), row.timings == map[] && w.health.Some?;
      && |t| == (if counted then 4 else 3) + (if w.ranked then 2 else 1)
      && (forall i :: 0 <= i < |t| - 1 ==> t[i].Snapshot?)
      && (forall i :: 0 <= i < |t| - 1 ==> t[i].job.stage == if i < 2 || (i == 2 && counted) then CheckingIndex else SearchingIndex)
      && (forall i :: 2 <= i < |t| - 1 ==> Shows(t[i].job, row, if counted then w.health else None))
  {
    OpenRun(row, w);
  }

  /** The job's counters are those of its sources' health, or of its row. */
  predicate Shows(j: Job, row: Job, health: Option<Health>) {
    match health
    case None => (j.sourceTotal, j.sourceDone, j.sourceLive, j.sourceFailed) == (row.sourceTotal, row.sourceDone, row.sourceLive, row.sourceFailed)
    case Some(h) => (j.sourceTotal, j.sourceDone, j.sourceLive, j.sourceFailed) == (h.total, h.total, h.live, h.failed)
  }
}
