/** Quote extraction by many workers: a cache row per article that is claimed with a
    lease, a markdown file published before the row is marked done, clocks, crashes. */
module Extraction {
  import opened Text
  import opened FrozenMarkdown

  // ----- the cache rows

  /** A pending row may be taken over when it is older than this many seconds. */
  const LEASE := 15 * 60

  datatype Status = Pending | Failed | NoText | Done

  datatype Row = Row(status: Status, updatedAt: int, quotes: seq<Quote>, tldr: string)

  type Rows = map<nat, Row>

  predicate Claimable(row: Row, now: int) {
    row.status == Failed || row.status == NoText || (row.status == Pending && row.updatedAt < now - LEASE)
  }

  predicate ClaimWins(rows: Rows, article: nat, now: int) {
    article !in rows || Claimable(rows[article], now)
  }

  /** The rows after a won claim: old quotes stay until they are replaced. */
  function ClaimRows(rows: Rows, article: nat, now: int): Rows {
    rows[article := if article in rows then rows[article].(status := Pending, updatedAt := now)
                    else Row(Pending, now, [], "")]
  }

  /** `setOutcome`: an upsert that does not look at the row it replaces. */
  function OutcomeRows(rows: Rows, article: nat, status: Status, now: int): Rows {
    rows[article := if article in rows then rows[article].(status := status, updatedAt := now)
                    else Row(status, now, [], "")]
  }

  function DoneRows(rows: Rows, article: nat, result: ExtractionResult, now: int): Rows {
    rows[article := Row(Done, now, result.quotes, result.tldr)]
  }

  // ----- articles and files

  datatype Stored = Stored(doi: string, stamp: string)

  function Replace(s: string, c: char, other: char): (r: string)
    ensures |r| == |s| && forall i :: 0 <= i < |s| ==> r[i] == if s[i] == c then other else s[i]
  {
    if s == "" then "" else [if s[0] == c then other else s[0]] + Replace(s[1..], c, other)
  }

  predicate SafeChar(c: char) {
    'A' <= c <= 'Z' || 'a' <= c <= 'z' || '0' <= c <= '9' || c == '.' || c == '_' || c == '-'
  }

  function Sanitize(s: string): string {
    if s == "" then "" else [if SafeChar(s[0]) then s[0] else '_'] + Sanitize(s[1..])
  }

  predicate Joint(c: char) {
    c == '.' || c == '_' || c == '-'
  }

  function TrimJointsLeft(s: string): string {
    if s != "" && Joint(s[0]) then TrimJointsLeft(s[1..]) else s
  }

  function TrimJointsRight(s: string): string {
    if s != "" && Joint(s[|s| - 1]) then TrimJointsRight(s[..|s| - 1]) else s
  }

  /** The name of an article's markdown file, relative to the articles directory. */
  function FileName(doi: string): string {
    var key := TrimSpace(doi);
    if HasPrefix(key, "10.") then Replace(key, '/', '_') + ".md"
    else
      var safe := TrimJointsRight(TrimJointsLeft(Sanitize(key)));
      (if safe == "" then "article" else safe) + ".md"
  }

  /** What a file holds: the rendering of a record and a result, once it is whole. */
  datatype Frozen = Frozen(record: Record, result: ExtractionResult) {
    function Contents(nf: NumberFormat): string {
      Render(nf, record, result)
    }
  }

  datatype Content = Unfinished | Whole(frozen: Frozen)

  datatype Name = Temporary(id: nat) | Published(path: string)

  type Files = map<Name, Content>

  predicate IsEmpty(r: ExtractionResult) {
    r.quotes == [] && r.formulas == [] && r.figures == [] && r.tldr == ""
  }

  // ----- workers

  /** Where a worker stands; `Stamping` has published its file. */
  datatype Phase = Extracting | MarkingNoText | Freezing(frozen: Frozen) | Writing(frozen: Frozen, temp: nat)
                 | Written(frozen: Frozen, temp: nat) | Stamping(frozen: Frozen) | Failing

  /** A goroutine for an article: published articles are claimed, preprints are not. */
  datatype Worker = Worker(article: nat, published: bool, claimedAt: int, phase: Phase)

  datatype State = State(clock: int, rows: Rows, articles: map<nat, Stored>, files: Files, workers: map<nat, Worker>)

  datatype Action =
    | Tick(seconds: nat)
    | Upsert(article: nat, doi: string, path: string)
    | Claim(worker: nat, article: nat)
    | ReadPreprint(worker: nat, article: nat)
    | ExtractFails(worker: nat)
    | Extracted(worker: nat, frozen: Frozen)
    | MarkNoText(worker: nat, ok: bool)
    | CreateTemp(worker: nat, temp: nat)
    | WriteTemp(worker: nat)
    | SaveFails(worker: nat)
    | Rename(worker: nat)
    | StampDone(worker: nat, ok: bool)
    | MarkFailed(worker: nat, ok: bool)
    | Crash(worker: nat)

  function WithPhase(s: State, w: nat, phase: Phase): State
    requires w in s.workers
  {
    s.(workers := s.workers[w := s.workers[w].(phase := phase)])
  }

  function Without(s: State, w: nat): State {
    s.(workers := s.workers - {w})
  }

  /** `fail`: a preprint's failure leaves no trace. */
  function Fail(s: State, w: nat): State
    requires w in s.workers
  {
    if s.workers[w].published then WithPhase(s, w, Failing) else Without(s, w)
  }

  /** An article is inserted once; later upserts keep its DOI and its stamp. */
  function UpsertArticle(s: State, article: nat, doi: string, path: string): State {
    if article in s.articles then s else s.(articles := s.articles[article := Stored(doi, path)])
  }

  function ClaimStep(s: State, w: nat, article: nat): State {
    if w in s.workers || article !in s.articles || !ClaimWins(s.rows, article, s.clock) then s
    else s.(rows := ClaimRows(s.rows, article, s.clock),
            workers := s.workers[w := Worker(article, true, s.clock, Extracting)])
  }

  function ReadStep(s: State, w: nat, article: nat): State {
    if w in s.workers || article !in s.articles then s
    else s.(workers := s.workers[w := Worker(article, false, s.clock, Extracting)])
  }

  function ExtractedStep(s: State, w: nat, frozen: Frozen): State {
    if w !in s.workers || !s.workers[w].phase.Extracting? then s
    else if !s.workers[w].published then Without(s, w)
    else if IsEmpty(frozen.result) then WithPhase(s, w, MarkingNoText)
    else if s.workers[w].article in s.articles && s.articles[s.workers[w].article].doi == frozen.record.article.doi
    then WithPhase(s, w, Freezing(frozen))
    else s
  }

  /** The atomic transaction that stamps the article and completes the row. */
  function StampStep(s: State, w: nat, ok: bool): State {
    if w !in s.workers || !s.workers[w].phase.Stamping? then s
    else if !ok then WithPhase(s, w, Failing)
    else
      var article, frozen := s.workers[w].article, s.workers[w].phase.frozen;
      var stamped := if article in s.articles
                     then s.articles[article := s.articles[article].(stamp := FileName(frozen.record.article.doi))]
                     else s.articles;
      Without(s, w).(articles := stamped, rows := DoneRows(s.rows, article, frozen.result, s.clock))
  }

  function OutcomeStep(s: State, w: nat, status: Status, ok: bool): State
    requires w in s.workers
  {
    if ok then Without(s, w).(rows := OutcomeRows(s.rows, s.workers[w].article, status, s.clock)) else Without(s, w)
  }

  function SaveStep(s: State, act: Action): State
    requires act.CreateTemp? || act.WriteTemp? || act.SaveFails? || act.Rename?
  {
    if act.worker !in s.workers then s
    else
      match (act, s.workers[act.worker].phase)
      case (CreateTemp(w, t), Freezing(f)) =>
        if f.record.article.doi == "" || Temporary(t) in s.files then s
        else WithPhase(s, w, Writing(f, t)).(files := s.files[Temporary(t) := Unfinished])
      case (WriteTemp(w), Writing(f, t)) =>
        WithPhase(s, w, Written(f, t)).(files := s.files[Temporary(t) := Whole(f)])
      case (Rename(w), Written(f, t)) =>
        if Temporary(t) !in s.files then WithPhase(s, w, Failing)
        else
          WithPhase(s, w, Stamping(f)).(files :=
            (s.files - {Temporary(t)})[Published(FileName(f.record.article.doi)) := s.files[Temporary(t)]])
      case (SaveFails(w), Freezing(_)) => WithPhase(s, w, Failing)
      case (SaveFails(w), Writing(_, t)) => WithPhase(s, w, Failing).(files := s.files - {Temporary(t)})
      case (SaveFails(w), Written(_, t)) => WithPhase(s, w, Failing).(files := s.files - {Temporary(t)})
      case _ => s
  }

  /** One step; a step that is not possible changes nothing. */
  function Next(s: State, act: Action): State {
    match act
    case Tick(d) => s.(clock := s.clock + d)
    case Upsert(a, doi, path) => UpsertArticle(s, a, doi, path)
    case Claim(w, a) => ClaimStep(s, w, a)
    case ReadPreprint(w, a) => ReadStep(s, w, a)
    case ExtractFails(w) => if w in s.workers && s.workers[w].phase.Extracting? then Fail(s, w) else s
    case Extracted(w, f) => ExtractedStep(s, w, f)
    case MarkNoText(w, ok) =>
      if w in s.workers && s.workers[w].phase.MarkingNoText? then OutcomeStep(s, w, NoText, ok) else s
    case StampDone(w, ok) => StampStep(s, w, ok)
    case MarkFailed(w, ok) =>
      if w in s.workers && s.workers[w].phase.Failing? then OutcomeStep(s, w, Failed, ok) else s
    case Crash(w) => Without(s, w)
    case _ => SaveStep(s, act)
  }

  function Run(s: State, actions: seq<Action>): State
    decreases |actions|
  {
    if actions == [] then s else Next(Run(s, actions[..|actions| - 1]), actions[|actions| - 1])
  }

  lemma RunMore(s: State, actions: seq<Action>, act: Action)
    ensures Run(s, actions + [act]) == Next(Run(s, actions), act)
  {
    assert (actions + [act])[..|actions|] == actions;
  }

  lemma {:induction false} RunConcat(s: State, a: seq<Action>, b: seq<Action>)
    ensures Run(s, a + b) == Run(Run(s, a), b)
    decreases |b|
  {
    if b == [] {
      assert a + b == a;
    } else {
      var init := b[..|b| - 1];
      assert (a + b)[..|a + b| - 1] == a + init;
      RunConcat(s, a, init);
    }
  }

  /** A property of every state of a run, its first and its last included. */
  ghost predicate Along(s: State, actions: seq<Action>, q: State -> bool)
    decreases |actions|
  {
    q(Run(s, actions)) && (actions != [] ==> Along(s, actions[..|actions| - 1], q))
  }

  /** Induction over a run: p is kept by every step from a state with q. */
  lemma {:induction false} KeptAlong(s: State, actions: seq<Action>, p: State -> bool, q: State -> bool)
    requires p(s) && Along(s, actions, q)
    requires forall t, act :: p(t) && q(t) ==> p(Next(t, act))
    ensures p(Run(s, actions))
    decreases |actions|
  {
    if actions != [] {
      var before, last := actions[..|actions| - 1], actions[|actions| - 1];
      KeptAlong(s, before, p, q);
      AlongLast(s, before, q);
      var t := Run(s, before);
      assert p(Next(t, last));
    }
  }

  lemma AlongLast(s: State, actions: seq<Action>, q: State -> bool)
    requires Along(s, actions, q)
    ensures q(Run(s, actions))
  {
  }

  lemma {:induction false} AlongSuffix(s: State, before: seq<Action>, after: seq<Action>, q: State -> bool)
    requires Along(s, before + after, q)
    ensures Along(s, before, q) && Along(Run(s, before), after, q)
    decreases |after|
  {
    RunConcat(s, before, after);
    if after == [] {
      assert before + after == before;
    } else {
      var init := after[..|after| - 1];
      assert (before + after)[..|before + after| - 1] == before + init;
      AlongSuffix(s, before, init, q);
    }
  }

  predicate Initial(s: State) {
    s.rows == map[] && s.workers == map[] && s.files == map[]
  }
}
