/** The worker and the ingestor as they run: the job is updated in place and every
    callback writes a snapshot of it. */
module SearchJobWorker {
  import opened Sequences
  import opened SearchJob

  class SearchJobWorker {
    var dbJob: Job
    ghost var trace: seq<Effect>

    constructor (row: Job)
      ensures dbJob == row && trace == []
    {
      dbJob := row;
      trace := [];
    }

    method UpdateProgress()
      modifies this`trace
      ensures trace == old(trace) + [Snapshot(dbJob)]
    {
      trace := trace + [Snapshot(dbJob)];
    }

    method Update()
      modifies this`trace
      ensures trace == old(trace) + [Final(dbJob)]
    {
      trace := trace + [Final(dbJob)];
    }

    method OnProgress(done: int, total: nat, failed: seq<string>)
      modifies this
      ensures dbJob == Progress(old(dbJob), done, total, failed)
      ensures trace == old(trace) + [Snapshot(dbJob)]
    {
      var live := dbJob.sourceLive;
      if total > 0 {
        live := total - |failed|;
        if live < 0 {
          live := 0;
        }
      }
      dbJob := dbJob.(stage := LiveScan);
      dbJob := dbJob.(sourceTotal := total, sourceDone := done, sourceLive := live, sourceFailed := failed);
      UpdateProgress();
    }

    method OnProfile(key: string, timing: Timing)
      requires key != ""
      modifies this
      ensures dbJob == Profile(old(dbJob), key, timing)
      ensures trace == old(trace) + [Snapshot(dbJob)]
    {
      dbJob := dbJob.(timings := dbJob.timings[key := timing]);
      UpdateProgress();
    }

    /** How a source ends that gets a timing. */
    method RecordSource(key: string, timing: Timing, done: int, total: nat, failed: seq<string>)
      requires key != ""
      modifies this
      ensures var s := SourceDone([], old(dbJob), key, timing, done, total, failed);
        dbJob == s.job && trace == old(trace) + s.trace
    {
      OnProfile(key, timing);
      OnProgress(done, total, failed);
    }

    method ProcessSource(key: string, w: World, initialDone: int, total: nat, initialFailed: seq<string>)
      returns (done: int, failed: seq<string>, ok: bool)
      requires key != "" && !w.outcome(key).LookupFailed? && !w.outcome(key).CircuitOpen?
      modifies this
      ensures
        var s := ScanSource(old(dbJob), key, w, initialDone, total, initialFailed);
        s == Scan(s.trace, dbJob, done, failed, ok) && trace == old(trace) + s.trace
    {
      done, failed := initialDone, initialFailed;
      OnProgress(done, total, failed);
      trace := trace + [Fetch(key)];
      match w.outcome(key)
      case FetchFailed(recorded) =>
        if !recorded {
          return done, failed, false;
        }
        failed := failed + [w.name(key)];
        done := done + 1;
        RecordSource(key, Timing("failed", 0), done, total, failed);
        return done, failed, true;
      case Fetched(marked, saved) =>
        OnProgress(done, total, failed);
        if !marked {
          return done, failed, false;
        }
        OnProgress(done, total, failed);
        if saved.None? {
          return done, failed, false;
        }
        done := done + 1;
        RecordSource(key, Timing("completed", saved.value), done, total, failed);
        return done, failed, true;
    }

    /** The body of the scan loop for a source that is not resumed. */
    method VisitSource(key: string, w: World, initialDone: int, total: nat, initialFailed: seq<string>)
      returns (done: int, failed: seq<string>, ok: bool)
      requires key != ""
      modifies this
      ensures
        var s := ScanSource(old(dbJob), key, w, initialDone, total, initialFailed);
        s == Scan(s.trace, dbJob, done, failed, ok) && trace == old(trace) + s.trace
    {
      done, failed, ok := initialDone, initialFailed, true;
      match w.outcome(key) {
        case LookupFailed =>
          ok := false;
        case CircuitOpen =>
          failed := failed + [w.name(key)];
          done := done + 1;
          RecordSource(key, Timing("skipped", 0), done, total, failed);
        case _ =>
          done, failed, ok := ProcessSource(key, w, done, total, failed);
      }
    }

    /** The counter a scan starts from. */
    method CountDone(w: World) returns (done: nat)
      ensures done == InitialDone(dbJob, w)
    {
      var resumed := dbJob.timings.Keys;
      var resumedSelected := 0;
      for i := 0 to |w.selected|
        invariant resumedSelected + Count(w.selected[i..], resumed) == Count(w.selected, resumed)
      {
        if w.selected[i] in resumed {
          resumedSelected := resumedSelected + 1;
        }
      }
      var initial := dbJob.sourceDone;
      if initial < 0 {
        initial := 0;
      }
      if initial < resumedSelected {
        initial := resumedSelected;
      }
      return initial;
    }

    /** One turn of the scan loop: what remains is the scan of the keys behind it. */
    method VisitNext(i: nat, w: World, resumed: set<string>, initialDone: int, initialFailed: seq<string>)
      returns (done: int, failed: seq<string>, ok: bool, ghost effects: seq<Effect>)
      requires ValidWorld(w) && i < |w.selected|
      modifies this
      ensures trace == old(trace) + effects
      ensures
        ScanKeys(old(dbJob), w.selected[i..], resumed, w, initialDone, |w.selected|, initialFailed) ==
        if ok then After(effects, ScanKeys(dbJob, w.selected[i + 1..], resumed, w, done, |w.selected|, failed))
        else Scan(effects, dbJob, done, failed, false)
    {
      var key := w.selected[i];
      ScanStep(dbJob, w, i, resumed, initialDone, |w.selected|, initialFailed);
      done, failed, ok, effects := initialDone, initialFailed, true, [];
      assert trace == trace + effects;
      if key in resumed {
        return;
      }
      effects := ScanSource(dbJob, key, w, done, |w.selected|, failed).trace;
      done, failed, ok := VisitSource(key, w, done, |w.selected|, failed);
    }

    /** The loop of `IngestQuery` over the selected keys. */
    method ScanLoop(w: World, resumed: set<string>, initialDone: int, initialFailed: seq<string>)
      returns (done: int, failed: seq<string>, ok: bool, ghost effects: seq<Effect>)
      requires ValidWorld(w)
      modifies this
      ensures trace == old(trace) + effects
      ensures ScanKeys(old(dbJob), w.selected, resumed, w, initialDone, |w.selected|, initialFailed) ==
              Scan(effects, dbJob, done, failed, ok)
    {
      done, failed, ok, effects := initialDone, initialFailed, true, [];
      ghost var all := ScanKeys(dbJob, w.selected, resumed, w, done, |w.selected|, failed);
      assert w.selected[0..] == w.selected;
      AfterNothing(all);
      var i := 0;
      while ok && i < |w.selected|
        invariant i <= |w.selected|
        invariant trace == old(trace) + effects
        invariant all == After(effects,
                               if ok then ScanKeys(dbJob, w.selected[i..], resumed, w, done, |w.selected|, failed)
                               else Scan([], dbJob, done, failed, false))
        decreases ok, |w.selected| - i
      {
        ghost var more;
        done, failed, ok, more := VisitNext(i, w, resumed, done, failed);
        AfterAfter(effects, more, ScanKeys(dbJob, w.selected[i + 1..], resumed, w, done, |w.selected|, failed));
        AfterAfter(effects, more, Scan([], dbJob, done, failed, false));
        ConcatAssoc(old(trace), effects, more);
        effects := effects + more;
        i := i + 1;
      }
      assert ok ==> w.selected[i..] == [];
    }

    method IngestQuery(w: World) returns (ok: bool, ghost effects: seq<Effect>)
      requires ValidWorld(w)
      modifies this
      ensures trace == old(trace) + effects
      ensures Ingest(old(dbJob), w).trace == effects
      ensures Ingest(old(dbJob), w).job == dbJob && Ingest(old(dbJob), w).ok == ok
    {
      var resumed := dbJob.timings.Keys;
      var failed := dbJob.sourceFailed;
      var done: int := CountDone(w);
      OnProgress(done, |w.selected|, failed);
      effects := [Snapshot(dbJob)];
      ghost var more;
      done, failed, ok, more := ScanLoop(w, resumed, done, failed);
      ConcatAssoc(old(trace), effects, more);
      effects := effects + more;
    }

    method Fail()
      modifies this
      ensures trace == old(trace) + [Final(FailedJob(old(dbJob)))]
    {
      dbJob := dbJob.(status := Failed, stage := FailedStage);
      dbJob := dbJob.(finished := true);
      Update();
    }

    /** From the ranking stage to the terminal write. */
    method FinishJob(w: World) returns (ghost effects: seq<Effect>)
      modifies this
      ensures trace == old(trace) + effects && effects == Finish(old(dbJob), w)
    {
      effects := [];
      if dbJob.stage != SearchingIndex {
        dbJob := dbJob.(stage := SearchingIndex);
        UpdateProgress();
        effects := [Snapshot(dbJob)];
      }
      if !w.ranked {
        effects := effects + [Final(FailedJob(dbJob))];
        Fail();
        return;
      }
      UpdateProgress();
      var finalStatus := Completed;
      if |dbJob.sourceFailed| > 0 {
        finalStatus := Partial;
      }
      effects := effects + [Snapshot(dbJob), Final(CompletedJob(dbJob))];
      dbJob := dbJob.(status := finalStatus, stage := CompletedStage);
      dbJob := dbJob.(finished := true);
      Update();
    }

    /** The live scan and what follows it. */
    method ScanAndFinish(w: World) returns (ghost effects: seq<Effect>)
      requires ValidWorld(w)
      modifies this
      ensures trace == old(trace) + effects && effects == Scanned(old(dbJob), w)
    {
      var ok;
      ok, effects := IngestQuery(w);
      ghost var more := [Final(FailedJob(dbJob))];
      if ok {
        more := FinishJob(w);
      } else {
        Fail();
      }
      ConcatAssoc(old(trace), effects, more);
      effects := effects + more;
    }

    /** The branch taken once the rescan is decided. */
    method RunDecided(w: World) returns (ghost effects: seq<Effect>)
      requires ValidWorld(w)
      modifies this
      ensures trace == old(trace) + effects && effects == Decided(old(dbJob), w)
    {
      effects := [];
      if dbJob.rescan {
        effects := ScanAndFinish(w);
        return;
      }
      if FinishedLiveScan(dbJob) {
        dbJob := dbJob.(stage := SearchingIndex);
        UpdateProgress();
        effects := [Snapshot(dbJob)];
      } else if w.health.Some? {
        var health := w.health.value;
        dbJob := dbJob.(sourceTotal := health.total, sourceDone := health.total);
        dbJob := dbJob.(sourceLive := health.live, sourceFailed := health.failed);
        UpdateProgress();
        effects := [Snapshot(dbJob)];
      }
      ghost var more := FinishJob(w);
      ConcatAssoc(old(trace), effects, more);
      effects := effects + more;
    }

    /** The run behind its first write. */
    method Check(w: World) returns (ghost effects: seq<Effect>)
      requires ValidWorld(w)
      modifies this
      ensures trace == old(trace) + effects && effects == Checked(old(dbJob), w)
    {
      if w.hits.None? {
        effects := [Final(FailedJob(dbJob))];
        Fail();
        return;
      }
      dbJob := dbJob.(rescan := DetermineRescan(dbJob, w.hits.value, w.recent));
      UpdateProgress();
      effects := [Snapshot(dbJob)];
      ghost var more := RunDecided(w);
      ConcatAssoc(old(trace), effects, more);
      effects := effects + more;
    }

    /** A whole run on the row that was loaded. */
    method Work(w: World)
      requires ValidWorld(w) && trace == []
      modifies this
      ensures trace == RunTrace(old(dbJob), w)
    {
      if dbJob.status.Terminal() || dbJob.finished {
        return;
      }
      dbJob := dbJob.(status := Running, stage := CheckingIndex);
      UpdateProgress();
      ghost var effects := Check(w);
    }
  }

  /** A scan with effects in front. */
  ghost function After(effects: seq<Effect>, s: Scan): Scan {
    s.(trace := effects + s.trace)
  }

  lemma AfterNothing(s: Scan)
    ensures After([], s) == s
  {
    assert [] + s.trace == s.trace;
  }

  lemma AfterAfter(a: seq<Effect>, b: seq<Effect>, s: Scan)
    ensures After(a, After(b, s)) == After(a + b, s)
  {
    assert a + (b + s.trace) == (a + b) + s.trace;
  }

  lemma ScanStep(j: Job, w: World, i: nat, resumed: set<string>, done: int, total: nat, failed: seq<string>)
    requires i < |w.selected|
    ensures
      var key := w.selected[i];
      var s := ScanSource(j, key, w, done, total, failed);
      ScanKeys(j, w.selected[i..], resumed, w, done, total, failed) ==
      if key in resumed then After([], ScanKeys(j, w.selected[i + 1..], resumed, w, done, total, failed))
      else if !s.ok then s
      else After(s.trace, ScanKeys(s.job, w.selected[i + 1..], resumed, w, s.done, total, s.failed))
  {
    assert w.selected[i..][1..] == w.selected[i + 1..];
    AfterNothing(ScanKeys(j, w.selected[i + 1..], resumed, w, done, total, failed));
  }
}
