/** What the extraction protocol keeps in every interleaving. */
module ExtractionSafety {
  import opened Extraction

  // ----- preprints

  ghost predicate ActsFor(act: Action, w: nat) {
    !act.Tick? && !act.Upsert? && !act.Claim? && !act.ReadPreprint? && act.worker == w
  }

  /** Preprint workers only extract. */
  ghost predicate PreprintsOnlyExtract(s: State) {
    forall w :: w in s.workers && !s.workers[w].published ==> s.workers[w].phase.Extracting?
  }

  lemma PreprintsKept(s: State, act: Action)
    requires PreprintsOnlyExtract(s)
    ensures PreprintsOnlyExtract(Next(s, act))
  {
  }

  lemma {:induction false} PreprintsAlways(s: State, actions: seq<Action>)
    requires Initial(s)
    ensures PreprintsOnlyExtract(Run(s, actions))
    decreases |actions|
  {
    if actions != [] {
      PreprintsAlways(s, actions[..|actions| - 1]);
      PreprintsKept(Run(s, actions[..|actions| - 1]), actions[|actions| - 1]);
    }
  }

  lemma PreprintStep(s: State, act: Action, w: nat)
    requires PreprintsOnlyExtract(s) && w in s.workers && !s.workers[w].published && ActsFor(act, w)
    ensures var t := Next(s, act); t.rows == s.rows && t.files == s.files && t.articles == s.articles
  {
  }

  /** Whatever has happened, a step of a worker that read its article as a preprint
      writes neither row nor file nor stamp. */
  lemma PreprintWritesNothing(s: State, actions: seq<Action>, act: Action, w: nat)
    requires Initial(s) && w in Run(s, actions).workers && !Run(s, actions).workers[w].published && ActsFor(act, w)
    ensures var (before, after) := (Run(s, actions), Next(Run(s, actions), act));
      after.rows == before.rows && after.files == before.files && after.articles == before.articles
  {
    PreprintsAlways(s, actions);
    PreprintStep(Run(s, actions), act, w);
  }

  // ----- runs

  lemma RunStep(s: State, actions: seq<Action>, k: nat)
    requires k < |actions|
    ensures Run(s, actions[..k + 1]) == Next(Run(s, actions[..k]), actions[k])
  {
    assert actions[..k + 1][..k] == actions[..k];
  }

  // ----- what separates two claims

  predicate WinsClaim(s: State, act: Action, article: nat) {
    && act.Claim? && act.article == article && act.worker !in s.workers
    && article in s.articles && ClaimWins(s.rows, article, s.clock)
  }

  /** The step writes failed or no_text to the article's row. */
  predicate Reopens(s: State, act: Action, article: nat) {
    && (act.MarkNoText? || act.MarkFailed?) && act.ok && act.worker in s.workers
    && s.workers[act.worker].article == article
    && s.workers[act.worker].phase == if act.MarkNoText? then MarkingNoText else Failing
  }

  predicate Completes(s: State, act: Action, article: nat) {
    && act.StampDone? && act.ok && act.worker in s.workers
    && s.workers[act.worker].article == article && s.workers[act.worker].phase.Stamping?
  }

  predicate SameRow(s: State, t: State, article: nat) {
    (article in s.rows <==> article in t.rows) && (article in s.rows ==> s.rows[article] == t.rows[article])
  }

  /** The only steps that touch an article's row, and what they leave there. */
  lemma RowStep(s: State, act: Action, article: nat)
    ensures var t := Next(s, act);
      if WinsClaim(s, act, article) then
        article in t.rows && t.rows[article].status == Pending && t.rows[article].updatedAt == s.clock
      else if Reopens(s, act, article) then
        article in t.rows && t.rows[article].status == (if act.MarkNoText? then NoText else Failed)
      else if Completes(s, act, article) then
        article in t.rows && t.rows[article].status == Done
      else SameRow(s, t, article)
  {
  }

  /** Behind a won claim the row stays pending since it, or is done, until it is reopened. */
  lemma {:induction false} HeldSince(s: State, actions: seq<Action>, i: nat, j: nat, article: nat)
    requires i < j <= |actions| && WinsClaim(Run(s, actions[..i]), actions[i], article)
    requires forall k :: i < k < j ==> !WinsClaim(Run(s, actions[..k]), actions[k], article)
    requires forall k :: i < k < j ==> !Reopens(Run(s, actions[..k]), actions[k], article)
    ensures var rows := Run(s, actions[..j]).rows;
      && article in rows
      && (rows[article].status == Done ||
          (rows[article].status == Pending && rows[article].updatedAt == Run(s, actions[..i]).clock))
    decreases j
  {
    RunStep(s, actions, j - 1);
    RowStep(Run(s, actions[..j - 1]), actions[j - 1], article);
    if i < j - 1 {
      HeldSince(s, actions, i, j - 1, article);
    }
  }

  /** In every interleaving two successive won claims of an article are separated by a
      failed or no_text write, or by a lease of untouched pending. */
  lemma ClaimsSeparated(s: State, actions: seq<Action>, i: nat, j: nat, article: nat)
    requires i < j < |actions|
    requires WinsClaim(Run(s, actions[..i]), actions[i], article)
    requires WinsClaim(Run(s, actions[..j]), actions[j], article)
    requires forall k :: i < k < j ==> !WinsClaim(Run(s, actions[..k]), actions[k], article)
    ensures
      || (exists k :: i < k < j && Reopens(Run(s, actions[..k]), actions[k], article))
      || (var first, second := Run(s, actions[..i]), Run(s, actions[..j]);
          && article in second.rows && second.rows[article].status == Pending
          && second.rows[article].updatedAt == first.clock
          && second.clock > first.clock + LEASE)
  {
    if forall k :: i < k < j ==> !Reopens(Run(s, actions[..k]), actions[k], article) {
      HeldSince(s, actions, i, j, article);
    }
  }

  // ----- timely owners

  /** No owner is still at work when its claim is older than the lease. */
  ghost predicate Timely(s: State) {
    forall w :: w in s.workers && s.workers[w].published ==> s.clock <= s.workers[w].claimedAt + LEASE
  }

  ghost predicate TimelyRun(s: State, actions: seq<Action>) {
    Along(s, actions, Timely)
  }

  /** Every owner's row is pending since its own claim, and no two own one article. */
  ghost predicate Owned(s: State) {
    && (forall w :: w in s.workers && s.workers[w].published ==> Holds(s, s.workers[w]))
    && (forall v, w :: v in s.workers && w in s.workers && v != w && s.workers[v].published && s.workers[w].published
          ==> s.workers[v].article != s.workers[w].article)
  }

  predicate Holds(s: State, w: Worker) {
    w.article in s.rows && s.rows[w.article].status == Pending && s.rows[w.article].updatedAt == w.claimedAt
  }

  /** The owner a step leaves was there before, or has just won its claim. */
  predicate OwnerBefore(s: State, act: Action, w: nat, after: Worker) {
    if w in s.workers then
      && s.workers[w].published && after.article == s.workers[w].article
      && after.claimedAt == s.workers[w].claimedAt
    else WinsClaim(s, act, after.article) && after.claimedAt == s.clock
  }

  lemma SaveOwners(s: State, act: Action, w: nat)
    requires act.CreateTemp? || act.WriteTemp? || act.SaveFails? || act.Rename?
    requires w in Next(s, act).workers && Next(s, act).workers[w].published
    ensures OwnerBefore(s, act, w, Next(s, act).workers[w])
  {
  }

  lemma StartOwners(s: State, act: Action, w: nat)
    requires act.Claim? || act.ReadPreprint?
    requires w in Next(s, act).workers && Next(s, act).workers[w].published
    ensures OwnerBefore(s, act, w, Next(s, act).workers[w])
  {
  }

  lemma OutcomeOwners(s: State, act: Action, w: nat)
    requires act.MarkNoText? || act.StampDone? || act.MarkFailed?
    requires w in Next(s, act).workers && Next(s, act).workers[w].published
    ensures OwnerBefore(s, act, w, Next(s, act).workers[w])
  {
  }

  lemma OwnersAfter(s: State, act: Action, w: nat)
    requires w in Next(s, act).workers && Next(s, act).workers[w].published
    ensures OwnerBefore(s, act, w, Next(s, act).workers[w])
  {
    if act.CreateTemp? || act.WriteTemp? || act.SaveFails? || act.Rename? {
      SaveOwners(s, act, w);
    } else if act.Claim? || act.ReadPreprint? {
      StartOwners(s, act, w);
    } else if act.MarkNoText? || act.StampDone? || act.MarkFailed? {
      OutcomeOwners(s, act, w);
    }
  }

  /** A worker that writes its outcome is gone. */
  lemma WriterLeaves(s: State, act: Action, article: nat)
    ensures Reopens(s, act, article) || Completes(s, act, article) ==> act.worker !in Next(s, act).workers
  {
  }

  /** A step writes to a row only for its owner, or by a claim that leaves no timely owner behind. */
  lemma WriterOwns(s: State, act: Action, article: nat)
    requires PreprintsOnlyExtract(s)
    ensures Reopens(s, act, article) || Completes(s, act, article) ==>
              && ActsFor(act, act.worker) && act.worker in s.workers
              && s.workers[act.worker].published && s.workers[act.worker].article == article
  {
  }

  lemma ClaimFindsNoOwner(s: State, act: Action, article: nat, w: nat)
    requires Owned(s) && Timely(s) && w in s.workers && s.workers[w].published
    ensures WinsClaim(s, act, article) ==> s.workers[w].article != article
  {
    assert Holds(s, s.workers[w]);
  }

  lemma OwnedKept(s: State, act: Action)
    requires Owned(s) && Timely(s) && PreprintsOnlyExtract(s)
    ensures Owned(Next(s, act))
  {
    var t := Next(s, act);
    forall w | w in t.workers && t.workers[w].published
      ensures Holds(t, t.workers[w])
    {
      OwnersAfter(s, act, w);
      var article := t.workers[w].article;
      RowStep(s, act, article);
      if w in s.workers {
        assert Holds(s, s.workers[w]);
        WriterOwns(s, act, article);
        WriterLeaves(s, act, article);
        ClaimFindsNoOwner(s, act, article, w);
      }
    }
    forall v, w | v in t.workers && w in t.workers && v != w && t.workers[v].published && t.workers[w].published
      ensures t.workers[v].article != t.workers[w].article
    {
      OwnersAfter(s, act, v);
      OwnersAfter(s, act, w);
      if v !in s.workers && w in s.workers {
        ClaimFindsNoOwner(s, act, t.workers[v].article, w);
      } else if w !in s.workers && v in s.workers {
        ClaimFindsNoOwner(s, act, t.workers[w].article, v);
      }
    }
  }

  predicate IsDone(s: State, article: nat) {
    article in s.rows && s.rows[article].status == Done
  }

  /** What timely owners keep. */
  ghost predicate OwnerInv(s: State) {
    Owned(s) && PreprintsOnlyExtract(s)
  }

  lemma OwnerInvKept()
    ensures forall t, act :: OwnerInv(t) && Timely(t) ==> OwnerInv(Next(t, act))
  {
    forall t, act | OwnerInv(t) && Timely(t)
      ensures OwnerInv(Next(t, act))
    {
      PreprintsKept(t, act);
      OwnedKept(t, act);
    }
  }

  lemma TimelyRunOwned(s: State, actions: seq<Action>)
    requires Initial(s) && TimelyRun(s, actions)
    ensures OwnerInv(Run(s, actions))
  {
    OwnerInvKept();
    KeptAlong(s, actions, OwnerInv, Timely);
  }

  /** If every owner writes or dies before its claim is older than the lease, no
      article ever has two owners at work. */
  lemma OneOwner(s: State, actions: seq<Action>, v: nat, w: nat)
    requires Initial(s) && TimelyRun(s, actions) && v != w
    requires var t := Run(s, actions);
      v in t.workers && w in t.workers && t.workers[v].published && t.workers[w].published
    ensures Run(s, actions).workers[v].article != Run(s, actions).workers[w].article
  {
    TimelyRunOwned(s, actions);
  }

  lemma DoneKept(s: State, act: Action, article: nat)
    requires Owned(s) && PreprintsOnlyExtract(s) && article in s.rows && s.rows[article].status == Done
    ensures SameRow(s, Next(s, act), article)
  {
    RowStep(s, act, article);
    WriterOwns(s, act, article);
    assert forall w :: w in s.workers && s.workers[w].published ==>
        Holds(s, s.workers[w]) && s.workers[w].article != article;
  }

  lemma DoneInvKept(r: State, article: nat)
    requires IsDone(r, article)
    ensures forall t, act :: OwnerInv(t) && SameRow(r, t, article) && Timely(t) ==>
              OwnerInv(Next(t, act)) && SameRow(r, Next(t, act), article)
  {
    OwnerInvKept();
    forall t, act | OwnerInv(t) && SameRow(r, t, article)
      ensures SameRow(r, Next(t, act), article)
    {
      DoneKept(t, act, article);
    }
  }

  /** And a row that is done is never written again. */
  lemma DoneIsFinal(s: State, before: seq<Action>, after: seq<Action>, article: nat)
    requires Initial(s) && TimelyRun(s, before + after) && IsDone(Run(s, before), article)
    ensures SameRow(Run(s, before), Run(s, before + after), article)
  {
    var r := Run(s, before);
    AlongSuffix(s, before, after, Timely);
    TimelyRunOwned(s, before);
    DoneInvKept(r, article);
    KeptAlong(r, after, t => OwnerInv(t) && SameRow(r, t, article), Timely);
    RunConcat(s, before, after);
  }

  // ----- late owners

  predicate IsOwner(s: State, w: nat, article: nat) {
    w in s.workers && s.workers[w].published && s.workers[w].article == article
  }

  lemma UnownedDoneKept(s: State, act: Action, article: nat)
    requires PreprintsOnlyExtract(s) && IsDone(s, article) && forall w :: w in s.workers ==> !IsOwner(s, w, article)
    ensures var t := Next(s, act);
      SameRow(s, t, article) && PreprintsOnlyExtract(t) && forall w :: w in t.workers ==> !IsOwner(t, w, article)
  {
    RowStep(s, act, article);
    WriterOwns(s, act, article);
    PreprintsKept(s, act);
    var t := Next(s, act);
    forall w | w in t.workers
      ensures !IsOwner(t, w, article)
    {
      if t.workers[w].published {
        OwnersAfter(s, act, w);
      }
    }
  }

  lemma {:induction false} UnownedDoneStays(s: State, actions: seq<Action>, article: nat)
    requires PreprintsOnlyExtract(s) && IsDone(s, article) && forall w :: w in s.workers ==> !IsOwner(s, w, article)
    ensures var t := Run(s, actions);
      SameRow(s, t, article) && PreprintsOnlyExtract(t) && forall w :: w in t.workers ==> !IsOwner(t, w, article)
    decreases |actions|
  {
    if actions != [] {
      UnownedDoneStays(s, actions[..|actions| - 1], article);
      UnownedDoneKept(Run(s, actions[..|actions| - 1]), actions[|actions| - 1], article);
    }
  }

  /** The step by which an owner turns to its failure write. */
  function TurnToFailure(s: State, w: nat): Action
    requires w in s.workers
  {
    match s.workers[w].phase
    case Extracting => ExtractFails(w)
    case Stamping(_) => StampDone(w, false)
    case MarkingNoText => Tick(0)
    case Failing => Tick(0)
    case _ => SaveFails(w)
  }

  function OutcomeOf(s: State, w: nat): Action
    requires w in s.workers
  {
    if s.workers[w].phase.MarkingNoText? then MarkNoText(w, true) else MarkFailed(w, true)
  }

  lemma OwnerOverwrites(s: State, w: nat, article: nat)
    requires IsOwner(s, w, article)
    ensures !IsDone(Run(s, [TurnToFailure(s, w), OutcomeOf(s, w)]), article)
  {
    var turn, outcome := TurnToFailure(s, w), OutcomeOf(s, w);
    var t := Next(s, turn);
    assert [turn, outcome][..1] == [turn] && [turn][..0] == [];
    assert Run(s, [turn]) == t;
    assert Reopens(t, outcome, article);
    RowStep(t, outcome, article);
  }

  /** A done row can still be overwritten iff somebody is still at work on its article:
      outcome writes do not look at the row. */
  lemma DoneOverwritable(s: State, article: nat)
    requires PreprintsOnlyExtract(s) && IsDone(s, article)
    ensures (exists actions :: !IsDone(Run(s, actions), article)) <==> (exists w :: IsOwner(s, w, article))
  {
    if w :| IsOwner(s, w, article) {
      OwnerOverwrites(s, w, article);
    } else {
      forall actions
        ensures IsDone(Run(s, actions), article)
      {
        UnownedDoneStays(s, actions, article);
      }
    }
  }

  /** Worker 1 stands in the phase, worker 0 is still at work on the same article. */
  predicate TwoOwners(s: State, article: nat, phase: Phase) {
    && IsOwner(s, 0, article) && IsOwner(s, 1, article) && s.workers[1].phase == phase
    && article in s.articles
  }

  lemma SecondSaves(s: State, article: nat, f: Frozen)
    requires TwoOwners(s, article, Extracting) && s.files == map[] && !IsEmpty(f.result)
    requires s.articles[article].doi == f.record.article.doi != ""
    ensures var t := Next(Next(Next(s, Extracted(1, f)), CreateTemp(1, 0)), WriteTemp(1));
      TwoOwners(t, article, Written(f, 0)) && Temporary(0) in t.files
  {
    var t := Next(s, Extracted(1, f));
    assert TwoOwners(t, article, Freezing(f)) && t.files == map[];
    var u := Next(t, CreateTemp(1, 0));
    assert TwoOwners(u, article, Writing(f, 0));
  }

  lemma SecondStamps(s: State, article: nat, f: Frozen)
    requires TwoOwners(s, article, Written(f, 0)) && Temporary(0) in s.files
    ensures var t := Next(Next(s, Rename(1)), StampDone(1, true)); IsDone(t, article) && IsOwner(t, 0, article)
  {
    SecondPublishes(s, article, f);
    SecondCompletes(Next(s, Rename(1)), article, f);
  }

  lemma SecondPublishes(s: State, article: nat, f: Frozen)
    requires TwoOwners(s, article, Written(f, 0)) && Temporary(0) in s.files
    ensures TwoOwners(Next(s, Rename(1)), article, Stamping(f))
  {
  }

  lemma SecondCompletes(s: State, article: nat, f: Frozen)
    requires TwoOwners(s, article, Stamping(f))
    ensures var t := Next(s, StampDone(1, true)); IsDone(t, article) && IsOwner(t, 0, article)
  {
  }

  lemma StaleTakenOver(s: State, article: nat)
    requires Initial(s) && article in s.articles
    ensures var t := Next(Next(Next(s, Claim(0, article)), Tick(LEASE + 1)), Claim(1, article));
      TwoOwners(t, article, Extracting) && t.files == map[] && t.articles == s.articles
  {
  }

  lemma RunSteps(s: State, acts: seq<Action>, a: Action, b: Action)
    ensures Run(s, acts + [a, b]) == Next(Next(Run(s, acts), a), b)
  {
    RunMore(s, acts, a);
    RunMore(s, acts + [a], b);
    TwoMore(acts, a, b);
  }

  lemma TwoMore(acts: seq<Action>, a: Action, b: Action)
    ensures acts + [a, b] == (acts + [a]) + [b]
  {
  }

  /** Such states are reached: a second worker takes a stale claim over and finishes
      while the first is still extracting. */
  lemma LateOwnerReachable(s: State, article: nat, f: Frozen) returns (actions: seq<Action>)
    requires Initial(s) && article in s.articles && !IsEmpty(f.result)
    requires s.articles[article].doi == f.record.article.doi != ""
    ensures IsDone(Run(s, actions), article) && IsOwner(Run(s, actions), 0, article)
  {
    var a2 := [] + [Claim(0, article), Tick(LEASE + 1)];
    RunSteps(s, [], Claim(0, article), Tick(LEASE + 1));
    var a4 := a2 + [Claim(1, article), Extracted(1, f)];
    RunSteps(s, a2, Claim(1, article), Extracted(1, f));
    var a6 := a4 + [CreateTemp(1, 0), WriteTemp(1)];
    RunSteps(s, a4, CreateTemp(1, 0), WriteTemp(1));
    actions := a6 + [Rename(1), StampDone(1, true)];
    RunSteps(s, a6, Rename(1), StampDone(1, true));
    StaleTakenOver(s, article);
    SecondSaves(Next(Run(s, a2), Claim(1, article)), article, f);
    SecondStamps(Run(s, a6), article, f);
  }
}
