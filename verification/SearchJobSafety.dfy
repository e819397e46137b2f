/** Crash safety of a search job: any number of runs, each cut anywhere and with any
    progress write lost, started from the last persisted row. */
module SearchJobSafety {
  import opened Wrappers
  import opened SearchJob

  // ----- histories

  /** One run: the effects that happen before it crashes or ends; false is a lost write. */
  datatype Attempt = Attempt(world: World, fates: seq<bool>)

  /** An effect with the row before and after it. */
  datatype Moment = Moment(before: Job, effect: Effect, after: Job)

  function Moments(row: Job, trace: seq<Effect>, fates: seq<bool>): seq<Moment>
    decreases |trace|
  {
    if trace == [] || fates == [] then []
    else
      var after := if fates[0] then Persist(row, trace[0]) else row;
      [Moment(row, trace[0], after)] + Moments(after, trace[1..], fates[1..])
  }

  function LastRow(row: Job, ms: seq<Moment>): Job {
    if ms == [] then row else ms[|ms| - 1].after
  }

  function RunMoments(row: Job, a: Attempt): seq<Moment> {
    Moments(row, RunTrace(row, a.world), a.fates)
  }

  function History(row: Job, attempts: seq<Attempt>): seq<Moment>
    decreases |attempts|
  {
    if attempts == [] then []
    else
      var ms := RunMoments(row, attempts[0]);
      ms + History(LastRow(row, ms), attempts[1..])
  }

  ghost predicate ValidAttempts(attempts: seq<Attempt>) {
    forall a :: a in attempts ==> ValidWorld(a.world)
  }

  /** Each moment starts on the row the one before it left. */
  ghost predicate Connected(row: Job, ms: seq<Moment>) {
    forall i {:trigger ms[i]} :: 0 <= i < |ms| ==> ms[i].before == if i == 0 then row else ms[i - 1].after
  }

  lemma ConnectedConcat(row: Job, a: seq<Moment>, b: seq<Moment>)
    requires Connected(row, a) && Connected(LastRow(row, a), b)
    ensures Connected(row, a + b)
  {
    var ms := a + b;
    forall i | 0 <= i < |ms|
      ensures ms[i].before == if i == 0 then row else ms[i - 1].after
    {
      if i < |a| {
        assert ms[i] == a[i];
      } else {
        assert ms[i] == b[i - |a|];
      }
    }
  }

  lemma {:induction false} MomentsConnected(row: Job, trace: seq<Effect>, fates: seq<bool>)
    ensures Connected(row, Moments(row, trace, fates))
    decreases |trace|
  {
    if trace != [] && fates != [] {
      var after := if fates[0] then Persist(row, trace[0]) else row;
      MomentsConnected(after, trace[1..], fates[1..]);
      ConnectedConcat(row, [Moment(row, trace[0], after)], Moments(after, trace[1..], fates[1..]));
    }
  }

  lemma {:induction false} HistoryConnected(row: Job, attempts: seq<Attempt>)
    ensures Connected(row, History(row, attempts))
    decreases |attempts|
  {
    if attempts != [] {
      var ms := RunMoments(row, attempts[0]);
      MomentsConnected(row, RunTrace(row, attempts[0].world), attempts[0].fates);
      HistoryConnected(LastRow(row, ms), attempts[1..]);
      ConnectedConcat(row, ms, History(LastRow(row, ms), attempts[1..]));
    }
  }

  // ----- timings only grow, and only sources without one are fetched

  /** Every snapshot keeps the known timings and no known source is fetched. */
  predicate Growing(known: set<string>, trace: seq<Effect>)
    decreases |trace|
  {
    trace == [] ||
    match trace[0]
    case Fetch(key) => key !in known && Growing(known, trace[1..])
    case Snapshot(j) => known <= j.timings.Keys && Growing(j.timings.Keys, trace[1..])
    case Final(j) => known <= j.timings.Keys && Growing(j.timings.Keys, trace[1..])
  }

  function Known(known: set<string>, trace: seq<Effect>): set<string>
    decreases |trace|
  {
    if trace == [] then known
    else if trace[0].Fetch? then Known(known, trace[1..])
    else Known(trace[0].job.timings.Keys, trace[1..])
  }

  lemma {:induction false} GrowingConcat(known: set<string>, a: seq<Effect>, b: seq<Effect>)
    requires Growing(known, a) && Growing(Known(known, a), b)
    ensures Growing(known, a + b) && Known(known, a + b) == Known(Known(known, a), b)
    decreases |a|
  {
    if a == [] {
      assert a + b == b;
    } else {
      assert (a + b)[1..] == a[1..] + b;
      GrowingConcat(if a[0].Fetch? then known else a[0].job.timings.Keys, a[1..], b);
    }
  }

  lemma GrowingFetch(known: set<string>, key: string)
    requires key !in known
    ensures Growing(known, [Fetch(key)]) && Known(known, [Fetch(key)]) == known
  {
    assert [Fetch(key)][1..] == [];
  }

  lemma GrowingWrite(known: set<string>, e: Effect)
    requires !e.Fetch? && known <= e.job.timings.Keys
    ensures Growing(known, [e]) && Known(known, [e]) == e.job.timings.Keys
  {
    assert [e][1..] == [];
  }

  lemma GrowingDone(known: set<string>, before: seq<Effect>, j: Job, key: string, timing: Timing,
                    done: int, total: nat, failed: seq<string>)
    requires Growing(known, before) && Known(known, before) == j.timings.Keys
    ensures var s := SourceDone(before, j, key, timing, done, total, failed);
      Growing(known, s.trace) && Known(known, s.trace) == s.job.timings.Keys == j.timings.Keys + {key}
  {
    var timed := Profile(j, key, timing);
    var counted := Progress(timed, done, total, failed);
    GrowingWrite(j.timings.Keys, Snapshot(timed));
    GrowingWrite(timed.timings.Keys, Snapshot(counted));
    GrowingConcat(j.timings.Keys, [Snapshot(timed)], [Snapshot(counted)]);
    assert [Snapshot(timed), Snapshot(counted)] == [Snapshot(timed)] + [Snapshot(counted)];
    GrowingConcat(known, before, [Snapshot(timed), Snapshot(counted)]);
  }

  lemma GrowingOpening(known: set<string>, started: Job, key: string, o: Outcome)
    requires key !in known && known == started.timings.Keys
    ensures Growing(known, Opening(started, key, o)) && Known(known, Opening(started, key, o)) == known
  {
    var here := [Snapshot(started)];
    GrowingWrite(known, Snapshot(started));
    GrowingFetch(known, key);
    GrowingConcat(known, here, [Fetch(key)]);
    GrowingConcat(known, here + [Fetch(key)], here);
    GrowingConcat(known, here + [Fetch(key)] + here, here);
    assert here + [Fetch(key)] + here + here == [Snapshot(started), Fetch(key), Snapshot(started), Snapshot(started)];
  }

  lemma GrowingSource(j: Job, key: string, w: World, done: int, total: nat, failed: seq<string>)
    requires key !in j.timings
    ensures var s := ScanSource(j, key, w, done, total, failed);
      Growing(j.timings.Keys, s.trace) && Known(j.timings.Keys, s.trace) == s.job.timings.Keys &&
      s.job.timings.Keys == if s.ok then j.timings.Keys + {key} else j.timings.Keys
  {
    var o := w.outcome(key);
    var started := Progress(j, done, total, failed);
    GrowingOpening(j.timings.Keys, started, key, o);
    if Settled(o).Some? {
      GrowingDone(j.timings.Keys, Opening(started, key, o), if o.CircuitOpen? then j else started, key,
                  Settled(o).value, done + 1, total, if o.Fetched? then failed else failed + [w.name(key)]);
    }
  }

  /** The scan of the keys whose timings are known exactly when they are resumed. */
  lemma {:induction false} GrowingKeys(j: Job, keys: seq<string>, resumed: set<string>, w: World,
                                       done: int, total: nat, failed: seq<string>)
    requires Distinct(keys) && forall k :: k in keys ==> (k in j.timings <==> k in resumed)
    ensures var s := ScanKeys(j, keys, resumed, w, done, total, failed);
      Growing(j.timings.Keys, s.trace) && Known(j.timings.Keys, s.trace) == s.job.timings.Keys
    decreases |keys|
  {
    if keys != [] {
      assert forall k :: k in keys[1..] ==> k in keys && k != keys[0];
      if keys[0] in resumed {
        GrowingKeys(j, keys[1..], resumed, w, done, total, failed);
      } else {
        var s := ScanSource(j, keys[0], w, done, total, failed);
        GrowingSource(j, keys[0], w, done, total, failed);
        if s.ok {
          GrowingKeys(s.job, keys[1..], resumed, w, s.done, total, s.failed);
          var rest := ScanKeys(s.job, keys[1..], resumed, w, s.done, total, s.failed);
          GrowingConcat(j.timings.Keys, s.trace, rest.trace);
        }
      }
    }
  }

  lemma GrowingFinish(j: Job, w: World)
    ensures Growing(j.timings.Keys, Finish(j, w))
  {
    var known := j.timings.Keys;
    var searching := j.(stage := SearchingIndex);
    GrowingWrite(known, Snapshot(searching));
    GrowingWrite(known, Final(FailedJob(searching)));
    GrowingWrite(known, Final(CompletedJob(searching)));
    GrowingConcat(known, [Snapshot(searching)], [Final(CompletedJob(searching))]);
    var last := if !w.ranked then [Final(FailedJob(searching))]
                else [Snapshot(searching)] + [Final(CompletedJob(searching))];
    GrowingConcat(known, if j.stage != SearchingIndex then [Snapshot(searching)] else [], last);
  }

  lemma GrowingScanned(j: Job, w: World)
    requires ValidWorld(w)
    ensures Growing(j.timings.Keys, Scanned(j, w))
  {
    var known := j.timings.Keys;
    var done := InitialDone(j, w);
    var queued := Progress(j, done, |w.selected|, j.sourceFailed);
    var s := ScanKeys(queued, w.selected, known, w, done, |w.selected|, j.sourceFailed);
    GrowingWrite(known, Snapshot(queued));
    GrowingKeys(queued, w.selected, known, w, done, |w.selected|, j.sourceFailed);
    GrowingConcat(known, [Snapshot(queued)], s.trace);
    GrowingFinish(s.job, w);
    GrowingWrite(s.job.timings.Keys, Final(FailedJob(s.job)));
    GrowingConcat(known, [Snapshot(queued)] + s.trace,
                  if s.ok then Finish(s.job, w) else [Final(FailedJob(s.job))]);
  }

  lemma GrowingDecided(j: Job, w: World)
    requires ValidWorld(w)
    ensures Growing(j.timings.Keys, Decided(j, w))
  {
    var known := j.timings.Keys;
    if j.rescan {
      GrowingScanned(j, w);
    } else {
      var next := if FinishedLiveScan(j) then j.(stage := SearchingIndex) else WithHealth(j, w);
      GrowingWrite(known, Snapshot(next));
      GrowingFinish(next, w);
      GrowingConcat(known, if !FinishedLiveScan(j) && w.health == None then [] else [Snapshot(next)], Finish(next, w));
    }
  }

  lemma GrowingRun(row: Job, w: World)
    requires ValidWorld(w)
    ensures Growing(row.timings.Keys, RunTrace(row, w))
  {
    var known := row.timings.Keys;
    var started := StartJob(row);
    GrowingWrite(known, Snapshot(started));
    GrowingWrite(known, Final(FailedJob(started)));
    if w.hits.Some? {
      var decided := started.(rescan := DetermineRescan(started, w.hits.value, w.recent));
      GrowingWrite(known, Snapshot(decided));
      GrowingDecided(decided, w);
      GrowingConcat(known, [Snapshot(decided)], Decided(decided, w));
    }
    GrowingConcat(known, [Snapshot(started)], Checked(started, w));
  }

  ghost predicate Careful(m: Moment) {
    && m.before.timings.Keys <= m.after.timings.Keys
    && (m.effect.Fetch? ==> m.effect.key !in m.before.timings)
  }

  lemma {:induction false} MomentsCareful(row: Job, known: set<string>, trace: seq<Effect>, fates: seq<bool>)
    requires row.timings.Keys <= known && Growing(known, trace)
    ensures forall m :: m in Moments(row, trace, fates) ==> Careful(m)
    decreases |trace|
  {
    if trace != [] && fates != [] {
      var after := if fates[0] then Persist(row, trace[0]) else row;
      MomentsCareful(after, if trace[0].Fetch? then known else trace[0].job.timings.Keys, trace[1..], fates[1..]);
    }
  }

  lemma {:induction false} HistoryCareful(row: Job, attempts: seq<Attempt>)
    requires ValidAttempts(attempts)
    ensures forall m :: m in History(row, attempts) ==> Careful(m)
    decreases |attempts|
  {
    if attempts != [] {
      var w := attempts[0].world;
      GrowingRun(row, w);
      MomentsCareful(row, row.timings.Keys, RunTrace(row, w), attempts[0].fates);
      HistoryCareful(LastRow(row, RunMoments(row, attempts[0])), attempts[1..]);
    }
  }

  lemma {:induction false} TimingsKept(row: Job, ms: seq<Moment>, i: nat, j: nat)
    requires Connected(row, ms) && (forall m :: m in ms ==> Careful(m)) && i <= j < |ms|
    ensures ms[i].before.timings.Keys <= ms[j].before.timings.Keys
    decreases j
  {
    if i < j {
      TimingsKept(row, ms, i, j - 1);
      assert Careful(ms[j - 1]) && ms[j].before == ms[j - 1].after;
    }
  }

  /** Over any crashes and restarts, a source whose timing has reached the row is
      never fetched again, by the same run or a later one. */
  lemma NeverFetchedAgain(row: Job, attempts: seq<Attempt>, i: nat, j: nat, key: string)
    requires ValidAttempts(attempts)
    requires i < j < |History(row, attempts)|
    requires key in History(row, attempts)[i].after.timings
    ensures History(row, attempts)[j].effect != Fetch(key)
    ensures key in History(row, attempts)[j].after.timings
  {
    var ms := History(row, attempts);
    HistoryConnected(row, attempts);
    HistoryCareful(row, attempts);
    assert ms[i + 1].before == ms[i].after;
    TimingsKept(row, ms, i + 1, j);
    assert Careful(ms[j]);
  }

  // ----- the status of the row

  /** A run's effects: one terminal write, and it comes last. */
  predicate Ends(trace: seq<Effect>) {
    && trace != []
    && trace[|trace| - 1].Final? && trace[|trace| - 1].job.status.Terminal()
    && forall i :: 0 <= i < |trace| - 1 ==> !trace[i].Final?
  }

  lemma EndsConcat(a: seq<Effect>, b: seq<Effect>)
    requires (forall e :: e in a ==> !e.Final?) && Ends(b)
    ensures Ends(a + b)
  {
  }

  lemma SourceNotFinal(j: Job, key: string, w: World, done: int, total: nat, failed: seq<string>)
    ensures forall e :: e in ScanSource(j, key, w, done, total, failed).trace ==> !e.Final?
  {
  }

  lemma {:induction false} KeysNotFinal(j: Job, keys: seq<string>, resumed: set<string>, w: World,
                                        done: int, total: nat, failed: seq<string>)
    ensures forall e :: e in ScanKeys(j, keys, resumed, w, done, total, failed).trace ==> !e.Final?
    decreases |keys|
  {
    if keys != [] {
      if keys[0] in resumed {
        KeysNotFinal(j, keys[1..], resumed, w, done, total, failed);
      } else {
        var s := ScanSource(j, keys[0], w, done, total, failed);
        SourceNotFinal(j, keys[0], w, done, total, failed);
        KeysNotFinal(s.job, keys[1..], resumed, w, s.done, total, s.failed);
      }
    }
  }

  lemma FinishEnds(j: Job, w: World)
    ensures Ends(Finish(j, w))
  {
    var searching := j.(stage := SearchingIndex);
    EndsConcat(if j.stage != SearchingIndex then [Snapshot(searching)] else [],
               if !w.ranked then [Final(FailedJob(searching))]
               else [Snapshot(searching), Final(CompletedJob(searching))]);
  }

  lemma DecidedEnds(j: Job, w: World)
    ensures Ends(Decided(j, w))
  {
    if j.rescan {
      var done := InitialDone(j, w);
      var queued := Progress(j, done, |w.selected|, j.sourceFailed);
      KeysNotFinal(queued, w.selected, j.timings.Keys, w, done, |w.selected|, j.sourceFailed);
      var s := Ingest(j, w);
      FinishEnds(s.job, w);
      EndsConcat(s.trace, if s.ok then Finish(s.job, w) else [Final(FailedJob(s.job))]);
    } else {
      var next := if FinishedLiveScan(j) then j.(stage := SearchingIndex) else WithHealth(j, w);
      FinishEnds(next, w);
      EndsConcat([Snapshot(next)], Finish(next, w));
    }
  }

  lemma RunEnds(row: Job, w: World)
    ensures RunTrace(row, w) == [] || Ends(RunTrace(row, w))
  {
    var started := StartJob(row);
    if w.hits.Some? {
      var decided := started.(rescan := DetermineRescan(started, w.hits.value, w.recent));
      DecidedEnds(decided, w);
      EndsConcat([Snapshot(decided)], Decided(decided, w));
    }
    EndsConcat([Snapshot(started)], Checked(started, w));
  }

  /** A row as it was when a moment began: still waiting unless the moment is past the end. */
  ghost predicate StillQueued(m: Moment) {
    m.before.status == Queued && (m.after.status == Queued || (m.after.status.Terminal() && m.effect.Final?))
  }

  lemma {:induction false} MomentsQueued(row: Job, trace: seq<Effect>, fates: seq<bool>)
    requires row.status == Queued && (trace == [] || Ends(trace))
    ensures var ms := Moments(row, trace, fates);
      (forall m :: m in ms ==> StillQueued(m)) && (LastRow(row, ms).status == Queued || LastRow(row, ms).status.Terminal())
    decreases |trace|
  {
    if trace != [] && fates != [] {
      var after := if fates[0] then Persist(row, trace[0]) else row;
      if |trace| > 1 {
        MomentsQueued(after, trace[1..], fates[1..]);
      } else {
        assert Moments(after, trace[1..], fates[1..]) == [];
      }
    }
  }

  lemma {:induction false} TerminalRunsNothing(row: Job, attempts: seq<Attempt>)
    requires row.status.Terminal()
    ensures History(row, attempts) == []
    decreases |attempts|
  {
    if attempts != [] {
      TerminalRunsNothing(row, attempts[1..]);
    }
  }

  lemma {:induction false} HistoryQueued(row: Job, attempts: seq<Attempt>)
    requires row.status == Queued
    ensures forall m :: m in History(row, attempts) ==> StillQueued(m)
    decreases |attempts|
  {
    if attempts != [] {
      RunEnds(row, attempts[0].world);
      MomentsQueued(row, RunTrace(row, attempts[0].world), attempts[0].fates);
      var last := LastRow(row, RunMoments(row, attempts[0]));
      if last.status == Queued {
        HistoryQueued(last, attempts[1..]);
      } else {
        TerminalRunsNothing(last, attempts[1..]);
      }
    }
  }

  /** The row of a new job never shows it running, and once it is terminal nothing
      writes to it again, whatever runs are started on it. */
  lemma TerminalRowIsFinal(row: Job, attempts: seq<Attempt>, i: nat)
    requires row.status == Queued && i < |History(row, attempts)|
    ensures History(row, attempts)[i].after.status != Running
    ensures History(row, attempts)[i].after.status.Terminal() ==> i == |History(row, attempts)| - 1
  {
    var ms := History(row, attempts);
    HistoryConnected(row, attempts);
    HistoryQueued(row, attempts);
    assert StillQueued(ms[i]);
    if i + 1 < |ms| {
      assert ms[i + 1].before == ms[i].after && StillQueued(ms[i + 1]);
    }
  }
}
