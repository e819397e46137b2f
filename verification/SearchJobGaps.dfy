/** Where a crash makes a finished search job claim more than it did. */
module SearchJobGaps {
  import opened Sequences
  import opened SearchJob
  import opened SearchJobSafety
  import opened SearchJobCounters

  // ----- a failed source whose name a crash forgets

  ghost predicate HasFailed(j: Job) {
    exists k :: k in j.timings && j.timings[k].status != "completed"
  }

  /** A source has failed but the list of failed sources is empty: the row between
      the two writes that settle the first source to fail. */
  ghost predicate Forgotten(j: Job) {
    HasFailed(j) && j.sourceFailed == []
  }

  lemma SourceRemembers(j: Job, key: string, w: World, done: int, total: nat, failed: seq<string>)
    requires j.sourceFailed == failed && key !in j.timings
    ensures var s := ScanSource(j, key, w, done, total, failed);
      && s.job.sourceFailed == s.failed
      && (s.failed == [] ==> failed == [] && (HasFailed(s.job) <==> HasFailed(j)))
  {
    var s := ScanSource(j, key, w, done, total, failed);
    if s.failed == [] {
      assert forall k :: k in j.timings ==> k in s.job.timings && s.job.timings[k] == j.timings[k];
      assert forall k :: k in s.job.timings && k !in j.timings ==> s.job.timings[k].status == "completed";
    }
  }

  lemma {:induction false} KeysRemember(j: Job, keys: seq<string>, resumed: set<string>, w: World,
                                        done: int, total: nat, failed: seq<string>)
    requires j.sourceFailed == failed
    requires Distinct(keys) && forall k :: k in keys ==> (k in j.timings <==> k in resumed)
    ensures var s := ScanKeys(j, keys, resumed, w, done, total, failed);
      && s.job.sourceFailed == s.failed
      && (s.failed == [] ==> failed == [] && (HasFailed(s.job) <==> HasFailed(j)))
    decreases |keys|
  {
    if keys != [] {
      DistinctTail(keys);
      if keys[0] in resumed {
        KeysRemember(j, keys[1..], resumed, w, done, total, failed);
      } else {
        SourceRemembers(j, keys[0], w, done, total, failed);
        var s := ScanSource(j, keys[0], w, done, total, failed);
        if s.ok {
          GrowingSource(j, keys[0], w, done, total, failed);
          KeysRemember(s.job, keys[1..], resumed, w, s.done, total, s.failed);
        }
      }
    }
  }

  lemma {:induction false} NoFinalIn(a: seq<Effect>, b: seq<Effect>, j: Job)
    requires Final(j) in a + b && forall e :: e in a ==> !e.Final?
    ensures Final(j) in b
  {
  }

  lemma FinishFinal(i: Job, w: World, j: Job)
    requires Final(j) in Finish(i, w) && j.status == Completed
    ensures j.timings == i.timings && j.sourceFailed == i.sourceFailed == []
  {
  }

  /** A run reports its job completed although a source failed iff it started on a
      row whose failure was already forgotten. */
  lemma CompletedHidesFailure(row: Job, w: World, j: Job)
    requires ValidWorld(w) && Final(j) in RunTrace(row, w) && j.status == Completed
    ensures HasFailed(j) <==> Forgotten(row)
  {
    var started := StartJob(row);
    var hits := w.hits.value;
    var decided := started.(rescan := DetermineRescan(started, hits, w.recent));
    assert Final(j) in Decided(decided, w);
    if decided.rescan {
      var done := InitialDone(decided, w);
      var queued := Progress(decided, done, |w.selected|, decided.sourceFailed);
      KeysNotFinal(queued, w.selected, decided.timings.Keys, w, done, |w.selected|, decided.sourceFailed);
      var s := Ingest(decided, w);
      NoFinalIn(s.trace, if s.ok then Finish(s.job, w) else [Final(FailedJob(s.job))], j);
      FinishFinal(s.job, w, j);
      KeysRemember(queued, w.selected, decided.timings.Keys, w, done, |w.selected|, decided.sourceFailed);
    } else {
      var next := if FinishedLiveScan(decided) then decided.(stage := SearchingIndex) else WithHealth(decided, w);
      FinishFinal(next, w, j);
    }
  }

  // ----- runs without losses, for the concrete histories

  function AllWritten(n: nat): seq<bool> {
    seq(n, _ => true)
  }

  /** Without losses the row is what the last write made of it. */
  lemma {:induction false} LastWrite(row: Job, trace: seq<Effect>, n: nat)
    requires 0 < n <= |trace| && !trace[n - 1].Fetch?
    requires forall i :: 0 <= i < n - 1 ==> !trace[i].Final?
    ensures |Moments(row, trace, AllWritten(n))| > 0
    ensures LastRow(row, Moments(row, trace, AllWritten(n))) == Persist(row, trace[n - 1])
    decreases n
  {
    var after := Persist(row, trace[0]);
    assert AllWritten(n)[1..] == AllWritten(n - 1);
    if n > 1 {
      LastWrite(after, trace[1..], n - 1);
    } else {
      assert Moments(after, trace[1..], []) == [];
    }
  }

  /** The row a crash behind the first n effects of a run leaves. */
  function CrashAfter(row: Job, w: World, n: nat): Job {
    LastRow(row, RunMoments(row, Attempt(w, AllWritten(n))))
  }

  function Queue(j: Job, w: World): Job {
    Progress(j, InitialDone(j, w), |w.selected|, j.sourceFailed)
  }

  function FirstSource(j: Job, w: World): Scan
    requires w.selected != []
  {
    ScanSource(Queue(j, w), w.selected[0], w, InitialDone(j, w), |w.selected|, j.sourceFailed)
  }

  /** A scan without timings starts with its first source. */
  lemma IngestStart(j: Job, w: World) returns (rest: seq<Effect>)
    requires w.selected != [] && j.timings == map[] && FirstSource(j, w).ok
    ensures Ingest(j, w).trace == [Snapshot(Queue(j, w))] + (FirstSource(j, w).trace + rest)
  {
    var s := FirstSource(j, w);
    assert j.timings.Keys == {};
    rest := ScanKeys(s.job, w.selected[1..], j.timings.Keys, w, s.done, |w.selected|, s.failed).trace;
  }

  function Decide(row: Job): Job {
    StartJob(row).(rescan := true)
  }

  lemma ScanStart(row: Job, w: World) returns (more: seq<Effect>)
    requires row.status == Queued && !row.finished && row.timings == map[] && w.selected != []
    requires w.hits.Some? && DetermineRescan(row, w.hits.value, w.recent)
    requires FirstSource(Decide(row), w).ok
    ensures RunTrace(row, w) == [Snapshot(StartJob(row))] + ([Snapshot(Decide(row))] +
                                ([Snapshot(Queue(Decide(row), w))] + (FirstSource(Decide(row), w).trace + more)))
  {
    var j := Decide(row);
    var rest := IngestStart(j, w);
    var all := Ingest(j, w);
    var tail := if all.ok then Finish(all.job, w) else [Final(FailedJob(all.job))];
    more := rest + tail;
    ConcatAssoc([Snapshot(Queue(j, w))], FirstSource(j, w).trace + rest, tail);
    ConcatAssoc(FirstSource(j, w).trace, rest, tail);
  }

  lemma NothingFinal(a: Effect, b: Effect, c: Effect, t: seq<Effect>, more: seq<Effect>, k: nat)
    requires k < |t| && !a.Final? && !b.Final? && !c.Final? && forall e :: e in t ==> !e.Final?
    ensures var all := [a] + ([b] + ([c] + (t + more)));
      |all| > k + 3 && all[k + 3] == t[k] && forall i :: 0 <= i < k + 3 ==> !all[i].Final?
  {
  }

  lemma CrashIs(row: Job, w: World, trace: seq<Effect>, n: nat)
    requires trace == RunTrace(row, w) && 0 < n <= |trace| && !trace[n - 1].Fetch?
    requires forall i :: 0 <= i < n - 1 ==> !trace[i].Final?
    ensures CrashAfter(row, w, n) == Persist(row, trace[n - 1])
  {
    LastWrite(row, trace, n);
  }

  /** The effects of a first source come fourth, with nothing final in front. */
  lemma FirstSourceAt(row: Job, w: World, k: nat) returns (trace: seq<Effect>)
    requires row.status == Queued && !row.finished && row.timings == map[] && w.selected != []
    requires w.hits.Some? && DetermineRescan(row, w.hits.value, w.recent)
    requires FirstSource(Decide(row), w).ok && k < |FirstSource(Decide(row), w).trace|
    ensures trace == RunTrace(row, w) && |trace| > k + 3 && trace[k + 3] == FirstSource(Decide(row), w).trace[k]
    ensures forall i :: 0 <= i < k + 3 ==> !trace[i].Final?
  {
    var j := Decide(row);
    var more := ScanStart(row, w);
    SourceNotFinal(Queue(j, w), w.selected[0], w, InitialDone(j, w), |w.selected|, j.sourceFailed);
    NothingFinal(Snapshot(StartJob(row)), Snapshot(j), Snapshot(Queue(j, w)), FirstSource(j, w).trace, more, k);
    trace := [Snapshot(StartJob(row))] + ([Snapshot(j)] + ([Snapshot(Queue(j, w))] + (FirstSource(j, w).trace + more)));
  }

  /** A rescan that crashes behind an effect of its first source leaves what that wrote. */
  lemma CrashInFirst(row: Job, w: World, k: nat)
    requires row.status == Queued && !row.finished && row.timings == map[] && w.selected != []
    requires w.hits.Some? && DetermineRescan(row, w.hits.value, w.recent)
    requires FirstSource(Decide(row), w).ok && k < |FirstSource(Decide(row), w).trace|
    requires !FirstSource(Decide(row), w).trace[k].Fetch?
    ensures CrashAfter(row, w, k + 4) == Persist(row, FirstSource(Decide(row), w).trace[k])
  {
    var trace := FirstSourceAt(row, w, k);
    CrashIs(row, w, trace, k + 4);
  }

  /** The last two effects of a source that is settled. */
  lemma FirstSourceWrites(j: Job, w: World)
    requires j.timings == map[] && w.selected != [] && Settled(w.outcome(w.selected[0])).Some?
    ensures var s := FirstSource(j, w); var key := w.selected[0]; var k := |s.trace| - 2;
      && s.ok && k >= 0 && s.trace[k].Snapshot? && s.trace[k + 1] == Snapshot(s.job)
      && s.trace[k].job.timings == s.job.timings == map[key := Settled(w.outcome(key)).value]
      && s.trace[k].job.sourceDone == InitialDone(j, w) && s.trace[k].job.sourceFailed == j.sourceFailed
      && s.job.sourceDone == InitialDone(j, w) + 1 && s.job.sourceTotal == |w.selected|
  {
  }

  /** A crash between the two writes of a first source leaves the row with a timing
      for it that neither the failed list nor the counter knows of. */
  lemma CrashBetweenWrites(row: Job, w: World) returns (n: nat)
    requires row.status == Queued && !row.finished && row.timings == map[] && w.selected != []
    requires w.hits.Some? && DetermineRescan(row, w.hits.value, w.recent)
    requires Settled(w.outcome(w.selected[0])).Some?
    ensures var r := CrashAfter(row, w, n); var key := w.selected[0];
      && r.status == Queued && r.timings == map[key := Settled(w.outcome(key)).value]
      && r.sourceDone == InitialDone(row, w) && r.sourceFailed == row.sourceFailed
    ensures w.outcome(w.selected[0]).FetchFailed? && row.sourceFailed == [] ==> Forgotten(CrashAfter(row, w, n))
  {
    var s, key := FirstSource(Decide(row), w), w.selected[0];
    FirstSourceWrites(Decide(row), w);
    var k := |s.trace| - 2;
    n := k + 4;
    CrashInFirst(row, w, k);
    if w.outcome(key).FetchFailed? {
      assert CrashAfter(row, w, n).timings[key].status == "failed";
    }
  }

  /** And a crash behind both writes leaves the counters of one source. */
  lemma CrashBehindFirst(row: Job, w: World) returns (n: nat)
    requires row.status == Queued && !row.finished && row.timings == map[] && w.selected != []
    requires w.hits.Some? && DetermineRescan(row, w.hits.value, w.recent)
    requires Settled(w.outcome(w.selected[0])).Some?
    ensures var r := CrashAfter(row, w, n);
      && r.status == Queued && !r.finished && r.forceRefresh == row.forceRefresh
      && r.timings.Keys == {w.selected[0]}
      && r.sourceDone == InitialDone(row, w) + 1 && r.sourceTotal == |w.selected|
  {
    var s := FirstSource(Decide(row), w);
    FirstSourceWrites(Decide(row), w);
    n := |s.trace| + 3;
    CrashInFirst(row, w, |s.trace| - 1);
  }

  /** A crash behind the write of the health branch leaves all sources done, none timed. */
  lemma CrashBehindHealth(row: Job, w: World)
    requires New(row) && TakesHealth(row, w) && w.health.Some?
    ensures var r := CrashAfter(row, w, 3);
      && r.status == Queued && !r.finished && r.forceRefresh == row.forceRefresh == false
      && r.timings == map[] && r.sourceDone == r.sourceTotal == w.health.value.total
  {
    var decided := StartJob(row).(rescan := false);
    var trace := RunTrace(row, w);
    assert trace == [Snapshot(StartJob(row))] + ([Snapshot(decided)] + ([Snapshot(WithHealth(decided, w))]
                    + Finish(WithHealth(decided, w), w)));
    LastWrite(row, trace, 3);
  }

  /** A job that looks finished ends without fetching anything. */
  lemma FinishedEnds(row: Job, w: World)
    requires row.status == Queued && !row.finished && FinishedLiveScan(row) && w.ranked
    requires w.hits.Some? && !DetermineRescan(row, w.hits.value, w.recent)
    ensures var r := CrashAfter(row, w, 5);
      (r.status.Completed? || r.status.Partial?) && r.timings == row.timings
  {
    var searching := StartJob(row).(rescan := false, stage := SearchingIndex);
    var trace := RunTrace(row, w);
    assert trace == [Snapshot(StartJob(row)), Snapshot(StartJob(row).(rescan := false)), Snapshot(searching),
                     Snapshot(searching), Final(CompletedJob(searching))];
    LastWrite(row, trace, 5);
  }

  /** One registry of at least two sources, a crash behind the health branch, a later
      stale scan that crashes behind its first source: the next run ends the job well
      although all other sources were never tried. */
  lemma HealthBranchSkipsSources(row: Job, w1: World, w2: World, w3: World) returns (n: nat)
    requires ValidWorld(w1) && |w1.selected| >= 2 && w1.selected == w2.selected == w3.selected
    requires New(row) && TakesHealth(row, w1) && w1.health.Some? && w1.health.value.total == |w1.selected|
    requires w2.hits.Some? && !w2.recent && Settled(w2.outcome(w2.selected[0])).Some?
    requires w3.hits.Some? && w3.hits.value > 0 && w3.recent && w3.ranked
    ensures var last := CrashAfter(CrashAfter(CrashAfter(row, w1, 3), w2, n), w3, 5);
      && (last.status.Completed? || last.status.Partial?)
      && last.timings.Keys == {w1.selected[0]} && w1.selected[1] !in last.timings
  {
    CrashBehindHealth(row, w1);
    n := CrashBehindFirst(CrashAfter(row, w1, 3), w2);
    FinishedEnds(CrashAfter(CrashAfter(row, w1, 3), w2, n), w3);
  }
}
