/** A search job that scans every source, writes its progress to a row after each
    step and may crash anywhere: the worker, the ingestor it drives, and the row. */
module SearchJob {
  import opened Wrappers

  datatype Status = Queued | Running | Completed | Partial | Failed {
    predicate Terminal() {
      Completed? || Partial? || Failed?
    }
  }

  datatype Stage = Accepted | CheckingIndex | LiveScan | SearchingIndex | CompletedStage | FailedStage

  datatype Timing = Timing(status: string, articles: nat)

  /** The job as the worker holds it and as the row stores it. */
  datatype Job = Job(status: Status, finished: bool, stage: Stage, forceRefresh: bool, rescan: bool,
                     sourceTotal: int, sourceDone: int, sourceLive: int, sourceFailed: seq<string>,
                     timings: map<string, Timing>)

  // ----- what a run does to the outside world

  datatype Effect = Fetch(key: string) | Snapshot(job: Job) | Final(job: Job)

  /** The row after a write: progress snapshots carry neither status nor end time. */
  function Persist(row: Job, e: Effect): Job {
    match e
    case Fetch(_) => row
    case Snapshot(j) => j.(status := row.status, finished := row.finished, forceRefresh := row.forceRefresh)
    case Final(j) => j.(forceRefresh := row.forceRefresh)
  }

  /** The writes of the repository. */
  class SearchJobs {
    var row: Job

    constructor (initial: Job)
      ensures row == initial
    {
      row := initial;
    }

    method Update(j: Job)
      modifies this
      ensures row == Persist(old(row), Final(j))
    {
      row := Job(j.status, j.finished, j.stage, row.forceRefresh, j.rescan,
                 j.sourceTotal, j.sourceDone, j.sourceLive, j.sourceFailed, j.timings);
    }

    method UpdateProgress(j: Job)
      modifies this
      ensures row == Persist(old(row), Snapshot(j))
    {
      row := Job(row.status, row.finished, j.stage, row.forceRefresh, j.rescan,
                 j.sourceTotal, j.sourceDone, j.sourceLive, j.sourceFailed, j.timings);
    }
  }

  // ----- what the outside world answers

  /** How one source goes: its lookup fails, its circuit is open, its fetch fails
      (and the failure is recorded or not), or it is fetched (then success is
      recorded or not, and the articles are saved or not). */
  datatype Outcome = LookupFailed | CircuitOpen | FetchFailed(recorded: bool)
                   | Fetched(marked: bool, saved: Option<nat>)

  datatype Health = Health(total: nat, failed: seq<string>, live: int)

  /** `selected` are the keys of the connector registry. */
  datatype World = World(selected: seq<string>, outcome: string -> Outcome, name: string -> string,
                         hits: Option<int>, recent: bool, health: Option<Health>, ranked: bool)

  predicate Distinct(keys: seq<string>) {
    forall i, j :: 0 <= i < j < |keys| ==> keys[i] != keys[j]
  }

  predicate ValidWorld(w: World) {
    Distinct(w.selected) && "" !in w.selected
  }

  // ----- the live scan

  function Progress(j: Job, done: int, total: nat, failed: seq<string>): Job {
    var live := if total == 0 then j.sourceLive else if total < |failed| then 0 else total - |failed|;
    j.(stage := LiveScan, sourceTotal := total, sourceDone := done, sourceLive := live, sourceFailed := failed)
  }

  function Profile(j: Job, key: string, timing: Timing): Job {
    j.(timings := j.timings[key := timing])
  }

  /** A scan so far: its effects, the job in memory, the counters and whether it goes on. */
  datatype Scan = Scan(trace: seq<Effect>, job: Job, done: int, failed: seq<string>, ok: bool)

  /** The end of one source: its timing is written before the counters are. */
  function SourceDone(before: seq<Effect>, j: Job, key: string, timing: Timing,
                      done: int, total: nat, failed: seq<string>): Scan {
    var timed := Profile(j, key, timing);
    var counted := Progress(timed, done, total, failed);
    Scan(before + [Snapshot(timed), Snapshot(counted)], counted, done, failed, true)
  }

  /** The snapshots and the fetch before a source is settled. */
  function Opening(started: Job, key: string, o: Outcome): seq<Effect> {
    match o
    case LookupFailed => []
    case CircuitOpen => []
    case FetchFailed(_) => [Snapshot(started), Fetch(key)]
    case Fetched(false, _) => [Snapshot(started), Fetch(key), Snapshot(started)]
    case Fetched(true, _) => [Snapshot(started), Fetch(key), Snapshot(started), Snapshot(started)]
  }

  /** The timing a source gets; None if the whole scan stops at it. */
  function Settled(o: Outcome): Option<Timing> {
    match o
    case LookupFailed => None
    case CircuitOpen => Some(Timing("skipped", 0))
    case FetchFailed(recorded) => if recorded then Some(Timing("failed", 0)) else None
    case Fetched(marked, saved) =>
      if marked && saved.Some? then Some(Timing("completed", saved.value)) else None
  }

  function SourceSettled(before: seq<Effect>, j: Job, key: string, settled: Option<Timing>,
                         done: int, total: nat, failed: seq<string>, failedNow: seq<string>): Scan {
    match settled
    case None => Scan(before, j, done, failed, false)
    case Some(timing) => SourceDone(before, j, key, timing, done + 1, total, failedNow)
  }

  function ScanSource(j: Job, key: string, w: World, done: int, total: nat, failed: seq<string>): Scan {
    var o := w.outcome(key);
    var started := Progress(j, done, total, failed);
    var job := if o.LookupFailed? || o.CircuitOpen? then j else started;
    SourceSettled(Opening(started, key, o), job, key, Settled(o), done, total, failed,
                  if o.Fetched? then failed else failed + [w.name(key)])
  }

  function ScanKeys(j: Job, keys: seq<string>, resumed: set<string>, w: World,
                    done: int, total: nat, failed: seq<string>): Scan
    decreases |keys|
  {
    if keys == [] then Scan([], j, done, failed, true)
    else if keys[0] in resumed then ScanKeys(j, keys[1..], resumed, w, done, total, failed)
    else
      var s := ScanSource(j, keys[0], w, done, total, failed);
      if !s.ok then s
      else
        var rest := ScanKeys(s.job, keys[1..], resumed, w, s.done, total, s.failed);
        rest.(trace := s.trace + rest.trace)
  }

  /** How many of the keys are resumed. */
  function Count(keys: seq<string>, resumed: set<string>): (n: nat)
    ensures n <= |keys|
  {
    if keys == [] then 0 else (if keys[0] in resumed then 1 else 0) + Count(keys[1..], resumed)
  }

  function InitialDone(j: Job, w: World): nat {
    var resumed := Count(w.selected, j.timings.Keys);
    if j.sourceDone < resumed then resumed else j.sourceDone
  }

  /** `IngestQuery` as the worker calls it: the timed sources are resumed. */
  function Ingest(j: Job, w: World): Scan {
    var done := InitialDone(j, w);
    var queued := Progress(j, done, |w.selected|, j.sourceFailed);
    var s := ScanKeys(queued, w.selected, j.timings.Keys, w, done, |w.selected|, j.sourceFailed);
    s.(trace := [Snapshot(queued)] + s.trace)
  }

  // ----- the worker

  predicate FinishedLiveScan(j: Job) {
    j.sourceTotal > 0 && j.sourceDone >= j.sourceTotal && j.timings != map[]
  }

  predicate DetermineRescan(j: Job, hits: int, recent: bool) {
    || (j.timings != map[] && !FinishedLiveScan(j))
    || j.forceRefresh
    || hits <= 0
    || !recent
  }

  /** The run takes the branch that copies aggregated source health. */
  predicate TakesHealth(row: Job, w: World) {
    && w.hits.Some?
    && !DetermineRescan(row, w.hits.value, w.recent)
    && !FinishedLiveScan(row)
  }

  function FailedJob(j: Job): Job {
    j.(status := Failed, stage := FailedStage, finished := true)
  }

  function CompletedJob(j: Job): Job {
    j.(status := if j.sourceFailed == [] then Completed else Partial, stage := CompletedStage, finished := true)
  }

  /** Ranking, quote extraction and the terminal write. */
  function Finish(j: Job, w: World): seq<Effect> {
    var searching := j.(stage := SearchingIndex);
    (if j.stage != SearchingIndex then [Snapshot(searching)] else [])
    + if !w.ranked then [Final(FailedJob(searching))]
      else [Snapshot(searching), Final(CompletedJob(searching))]
  }

  function Scanned(j: Job, w: World): seq<Effect> {
    var s := Ingest(j, w);
    s.trace + if s.ok then Finish(s.job, w) else [Final(FailedJob(s.job))]
  }

  function WithHealth(j: Job, w: World): Job {
    match w.health
    case None => j
    case Some(h) => j.(sourceTotal := h.total, sourceDone := h.total, sourceLive := h.live, sourceFailed := h.failed)
  }

  function StartJob(row: Job): Job {
    row.(status := Running, stage := CheckingIndex)
  }

  /** `Work`: everything a run started on a row does, unless it crashes. */
  function RunTrace(row: Job, w: World): seq<Effect> {
    if row.status.Terminal() || row.finished then []
    else [Snapshot(StartJob(row))] + Checked(StartJob(row), w)
  }

  function Checked(j: Job, w: World): seq<Effect> {
    match w.hits
    case None => [Final(FailedJob(j))]
    case Some(hits) =>
      var decided := j.(rescan := DetermineRescan(j, hits, w.recent));
      [Snapshot(decided)] + Decided(decided, w)
  }

  function Decided(j: Job, w: World): seq<Effect> {
    if j.rescan then Scanned(j, w)
    else if FinishedLiveScan(j) then
      var searching := j.(stage := SearchingIndex);
      [Snapshot(searching)] + Finish(searching, w)
    else
      var healthy := WithHealth(j, w);
      (if w.health == None then [] else [Snapshot(healthy)]) + Finish(healthy, w)
  }
}
