/** A row that is done has its file: publication before the stamp, in every
    interleaving and with crashes anywhere. */
module ExtractionFrozen {
  import opened Wrappers
  import opened Text
  import opened Extraction
  import Safety = ExtractionSafety

  // ----- the frozen invariant

  /** A whole rendering that belongs under the name. */
  predicate Fits(files: Files, path: string) {
    && Published(path) in files && files[Published(path)].Whole?
    && !IsEmpty(files[Published(path)].frozen.result)
    && FileName(files[Published(path)].frozen.record.article.doi) == path
  }

  ghost predicate PublishedFilesWhole(s: State) {
    forall path :: Published(path) in s.files ==> Fits(s.files, path)
  }

  predicate Backed(s: State, article: nat) {
    && article in s.articles
    && s.articles[article].stamp == FileName(s.articles[article].doi)
    && Published(s.articles[article].stamp) in s.files
  }

  ghost predicate DoneRowsBacked(s: State) {
    forall a :: a in s.rows && s.rows[a].status == Done ==> Backed(s, a)
  }

  /** The result a worker carries to its file. */
  function Carried(w: Worker): Option<Frozen> {
    match w.phase
    case Freezing(f) => Some(f)
    case Writing(f, _) => Some(f)
    case Written(f, _) => Some(f)
    case Stamping(f) => Some(f)
    case _ => None
  }

  predicate CarriesOwn(s: State, w: Worker) {
    Carried(w).Some? ==>
      && w.article in s.articles && s.articles[w.article].doi == Carried(w).value.record.article.doi
      && !IsEmpty(Carried(w).value.result)
  }

  ghost predicate CarriedFits(s: State) {
    forall w :: w in s.workers ==> CarriesOwn(s, s.workers[w])
  }

  predicate HasFile(files: Files, w: Worker) {
    match w.phase
    case Writing(_, t) => Temporary(t) in files
    case Written(f, t) => Temporary(t) in files && files[Temporary(t)] == Whole(f)
    case Stamping(f) => Published(FileName(f.record.article.doi)) in files
    case _ => true
  }

  ghost predicate PhaseFiles(s: State) {
    forall w :: w in s.workers ==> HasFile(s.files, s.workers[w])
  }

  function TempOf(w: Worker): int {
    match w.phase
    case Writing(_, t) => t
    case Written(_, t) => t
    case _ => -1
  }

  ghost predicate TempsDistinct(s: State) {
    forall v, w :: v in s.workers && w in s.workers && v != w && TempOf(s.workers[v]) >= 0 ==>
      TempOf(s.workers[v]) != TempOf(s.workers[w])
  }

  ghost predicate FrozenInv(s: State) {
    PublishedFilesWhole(s) && DoneRowsBacked(s) && CarriedFits(s) && PhaseFiles(s) && TempsDistinct(s)
  }

  // ----- steps that leave the files alone

  predicate IsSave(act: Action) {
    act.CreateTemp? || act.WriteTemp? || act.SaveFails? || act.Rename?
  }

  /** An article keeps its DOI; its stamp changes only with the completion of its row. */
  lemma ArticleStep(s: State, act: Action, a: nat)
    requires a in s.articles
    ensures var t := Next(s, act);
      && a in t.articles && t.articles[a].doi == s.articles[a].doi
      && (if Safety.Completes(s, act, a)
          then t.articles[a].stamp == FileName(s.workers[act.worker].phase.frozen.record.article.doi)
          else t.articles[a].stamp == s.articles[a].stamp)
  {
  }

  /** An article appears only by an upsert, with its DOI and path. */
  lemma ArticleAppears(s: State, act: Action, a: nat)
    requires a !in s.articles
    ensures var t := Next(s, act);
      && (a in t.articles <==> act.Upsert? && act.article == a)
      && (a in t.articles ==> t.articles[a] == Stored(act.doi, act.path))
  {
  }

  lemma OtherWorkers(s: State, act: Action, w: nat)
    requires !IsSave(act) && w in Next(s, act).workers
    ensures var v := Next(s, act).workers[w];
      || (w in s.workers && v == s.workers[w])
      || v.phase.Extracting? || v.phase.MarkingNoText? || v.phase.Failing?
      || (v.phase.Freezing? && v.article in s.articles && s.articles[v.article].doi == v.phase.frozen.record.article.doi
          && !IsEmpty(v.phase.frozen.result))
  {
  }

  lemma OtherFiles(s: State, act: Action)
    requires !IsSave(act)
    ensures Next(s, act).files == s.files
  {
  }

  lemma BackedKept(s: State, act: Action, a: nat)
    requires Backed(s, a) && CarriedFits(s) && forall path :: Published(path) in s.files ==> Published(path) in Next(s, act).files
    ensures Backed(Next(s, act), a)
  {
    ArticleStep(s, act, a);
    if Safety.Completes(s, act, a) {
      assert CarriesOwn(s, s.workers[act.worker]);
    }
  }

  lemma CompletedBacked(s: State, act: Action, a: nat)
    requires FrozenInv(s) && Safety.Completes(s, act, a)
    ensures Backed(Next(s, act), a)
  {
    assert CarriesOwn(s, s.workers[act.worker]);
    ArticleStep(s, act, a);
  }

  lemma DoneRowsKept(s: State, act: Action)
    requires FrozenInv(s) && forall path :: Published(path) in s.files ==> Published(path) in Next(s, act).files
    ensures DoneRowsBacked(Next(s, act))
  {
    forall a | a in Next(s, act).rows && Next(s, act).rows[a].status == Done
      ensures Backed(Next(s, act), a)
    {
      Safety.RowStep(s, act, a);
      if Safety.Completes(s, act, a) {
        CompletedBacked(s, act, a);
      } else {
        BackedKept(s, act, a);
      }
    }
  }

  lemma OtherKept(s: State, act: Action)
    requires FrozenInv(s) && !IsSave(act)
    ensures FrozenInv(Next(s, act))
  {
    OtherFiles(s, act);
    DoneRowsKept(s, act);
    OtherPhases(s, act);
    OtherCarried(s, act);
  }

  lemma OtherPhases(s: State, act: Action)
    requires PhaseFiles(s) && TempsDistinct(s) && !IsSave(act) && Next(s, act).files == s.files
    ensures PhaseFiles(Next(s, act)) && TempsDistinct(Next(s, act))
  {
    forall w | w in Next(s, act).workers
      ensures KeepsPlace(s, Next(s, act), w)
    {
      OtherWorkers(s, act, w);
    }
    PlacesKept(s, Next(s, act));
  }

  /** A worker with a file in the making stood there before. */
  predicate KeepsPlace(s: State, t: State, w: nat)
    requires w in t.workers
  {
    TempOf(t.workers[w]) >= 0 || t.workers[w].phase.Stamping? ==> w in s.workers && t.workers[w] == s.workers[w]
  }

  lemma PlacesKept(s: State, t: State)
    requires PhaseFiles(s) && TempsDistinct(s) && t.files == s.files
    requires forall w :: w in t.workers ==> KeepsPlace(s, t, w)
    ensures PhaseFiles(t) && TempsDistinct(t)
  {
    forall w | w in t.workers
      ensures HasFile(t.files, t.workers[w])
    {
      assert KeepsPlace(s, t, w);
    }
    forall v, w | v in t.workers && w in t.workers && v != w && TempOf(t.workers[v]) >= 0
      ensures TempOf(t.workers[v]) != TempOf(t.workers[w])
    {
      assert KeepsPlace(s, t, v) && KeepsPlace(s, t, w);
    }
  }

  lemma OtherCarried(s: State, act: Action)
    requires CarriedFits(s) && !IsSave(act)
    ensures CarriedFits(Next(s, act))
  {
    var t := Next(s, act);
    forall w | w in t.workers
      ensures CarriesOwn(t, t.workers[w])
    {
      OtherWorkers(s, act, w);
      if t.workers[w].article in s.articles {
        ArticleStep(s, act, t.workers[w].article);
      }
    }
  }

  // ----- the steps of saving a file

  lemma CreatePhases(s: State, act: Action)
    requires PhaseFiles(s) && TempsDistinct(s) && act.CreateTemp?
    ensures PhaseFiles(Next(s, act)) && TempsDistinct(Next(s, act))
  {
    var t := Next(s, act);
    forall v | v in t.workers
      ensures HasFile(t.files, t.workers[v])
    {
      assert v in s.workers && HasFile(s.files, s.workers[v]);
      assert v != act.worker ==> t.workers[v] == s.workers[v];
    }
  }

  lemma CreateKept(s: State, act: Action)
    requires FrozenInv(s) && act.CreateTemp?
    ensures FrozenInv(Next(s, act))
  {
    CreatePhases(s, act);
    DoneRowsKept(s, act);
  }

  lemma WritePhases(s: State, act: Action)
    requires PhaseFiles(s) && TempsDistinct(s) && act.WriteTemp?
    ensures PhaseFiles(Next(s, act)) && TempsDistinct(Next(s, act))
  {
    var t := Next(s, act);
    forall v | v in t.workers
      ensures HasFile(t.files, t.workers[v])
    {
      assert v in s.workers && HasFile(s.files, s.workers[v]);
      assert v != act.worker ==> t.workers[v] == s.workers[v];
    }
  }

  lemma WriteKept(s: State, act: Action)
    requires FrozenInv(s) && act.WriteTemp?
    ensures FrozenInv(Next(s, act))
  {
    WritePhases(s, act);
    DoneRowsKept(s, act);
  }

  lemma SaveFailsPhases(s: State, act: Action)
    requires PhaseFiles(s) && TempsDistinct(s) && act.SaveFails?
    ensures PhaseFiles(Next(s, act)) && TempsDistinct(Next(s, act))
  {
    var t := Next(s, act);
    forall v | v in t.workers
      ensures HasFile(t.files, t.workers[v])
    {
      assert v in s.workers && HasFile(s.files, s.workers[v]);
      assert v != act.worker ==> t.workers[v] == s.workers[v];
    }
  }

  lemma SaveFailsKept(s: State, act: Action)
    requires FrozenInv(s) && act.SaveFails?
    ensures FrozenInv(Next(s, act))
  {
    SaveFailsPhases(s, act);
    DoneRowsKept(s, act);
  }

  lemma RenamePhases(s: State, act: Action)
    requires PhaseFiles(s) && TempsDistinct(s) && act.Rename?
    ensures PhaseFiles(Next(s, act)) && TempsDistinct(Next(s, act))
  {
    var t := Next(s, act);
    forall v | v in t.workers
      ensures HasFile(t.files, t.workers[v])
    {
      assert v in s.workers && HasFile(s.files, s.workers[v]);
      assert v != act.worker ==> t.workers[v] == s.workers[v];
    }
  }

  lemma RenameFiles(s: State, act: Action)
    requires PublishedFilesWhole(s) && CarriedFits(s) && PhaseFiles(s) && act.Rename?
    ensures PublishedFilesWhole(Next(s, act)) && CarriedFits(Next(s, act))
    ensures forall path :: Published(path) in s.files ==> Published(path) in Next(s, act).files
  {
    if act.worker in s.workers && s.workers[act.worker].phase.Written? {
      assert CarriesOwn(s, s.workers[act.worker]);
    }
  }

  lemma RenameKept(s: State, act: Action)
    requires FrozenInv(s) && act.Rename?
    ensures FrozenInv(Next(s, act))
  {
    RenamePhases(s, act);
    RenameFiles(s, act);
    DoneRowsKept(s, act);
  }

  lemma FrozenKept(s: State, act: Action)
    requires FrozenInv(s)
    ensures FrozenInv(Next(s, act))
  {
    if act.CreateTemp? {
      CreateKept(s, act);
    } else if act.WriteTemp? {
      WriteKept(s, act);
    } else if act.SaveFails? {
      SaveFailsKept(s, act);
    } else if act.Rename? {
      RenameKept(s, act);
    } else {
      OtherKept(s, act);
    }
  }

  lemma {:induction false} FrozenAlways(s: State, actions: seq<Action>)
    requires Initial(s)
    ensures FrozenInv(Run(s, actions))
    decreases |actions|
  {
    if actions != [] {
      FrozenAlways(s, actions[..|actions| - 1]);
      FrozenKept(Run(s, actions[..|actions| - 1]), actions[|actions| - 1]);
    }
  }

  /** In every reachable state a done row's article is stamped with its file name, and
      that file is whole and holds a result that is not empty. */
  lemma DoneImpliesFrozen(s: State, actions: seq<Action>, a: nat)
    requires Initial(s)
    ensures var t := Run(s, actions);
      a in t.rows && t.rows[a].status == Done ==>
        && a in t.articles && t.articles[a].stamp == FileName(t.articles[a].doi)
        && Fits(t.files, t.articles[a].stamp)
  {
    FrozenAlways(s, actions);
  }

  // ----- the file and the row agree

  ghost predicate NamesDistinct(s: State) {
    forall a, b :: a in s.articles && b in s.articles && a != b ==>
      FileName(s.articles[a].doi) != FileName(s.articles[b].doi)
  }

  predicate Agrees(s: State, a: nat) {
    && a in s.rows && a in s.articles
    && var name := Published(FileName(s.articles[a].doi));
       name in s.files && s.files[name].Whole?
       && s.files[name].frozen.result.quotes == s.rows[a].quotes
       && s.files[name].frozen.result.tldr == s.rows[a].tldr
  }

  ghost predicate DoneRowsAgree(s: State) {
    forall a :: a in s.rows && s.rows[a].status == Done ==> Agrees(s, a)
  }

  /** A worker about to stamp finds its own file. */
  ghost predicate StampersAgree(s: State) {
    forall w :: w in s.workers && s.workers[w].phase.Stamping? ==>
      var f := s.workers[w].phase.frozen;
      var name := Published(FileName(f.record.article.doi));
      name in s.files && s.files[name] == Whole(f)
  }

  ghost predicate AgreeInv(s: State) {
    FrozenInv(s) && Safety.PreprintsOnlyExtract(s) && Safety.Owned(s) && DoneRowsAgree(s) && StampersAgree(s)
  }

  /** Only a rename touches a published file, and then its worker owns the article. */
  lemma PublishedFileStep(s: State, act: Action, path: string)
    requires FrozenInv(s) && Safety.PreprintsOnlyExtract(s)
    ensures var t := Next(s, act); var name := Published(path);
      || ((name in s.files <==> name in t.files) && (name in s.files ==> s.files[name] == t.files[name]))
      || (act.Rename? && act.worker in s.workers && s.workers[act.worker].published
          && s.workers[act.worker].phase.Written?
          && s.workers[act.worker].article in s.articles
          && path == FileName(s.articles[s.workers[act.worker].article].doi)
          && name in t.files && t.files[name] == Whole(s.workers[act.worker].phase.frozen))
  {
    if act.Rename? && act.worker in s.workers && s.workers[act.worker].phase.Written? {
      assert CarriesOwn(s, s.workers[act.worker]);
    }
    if !IsSave(act) {
      OtherFiles(s, act);
    }
  }

  lemma AgreesKept(s: State, act: Action, a: nat)
    requires AgreeInv(s) && NamesDistinct(s) && a in s.rows && s.rows[a].status == Done
    ensures Agrees(Next(s, act), a)
  {
    Safety.DoneKept(s, act, a);
    assert Agrees(s, a) && Backed(s, a);
    ArticleStep(s, act, a);
    PublishedFileStep(s, act, FileName(s.articles[a].doi));
    assert forall w :: w in s.workers && s.workers[w].published ==>
        Safety.Holds(s, s.workers[w]) && s.workers[w].article != a;
  }

  lemma CompletionAgrees(s: State, act: Action, a: nat)
    requires AgreeInv(s) && Safety.Completes(s, act, a)
    ensures Agrees(Next(s, act), a)
  {
    assert CarriesOwn(s, s.workers[act.worker]);
    ArticleStep(s, act, a);
  }

  lemma StampersKept(s: State, act: Action)
    requires AgreeInv(s) && NamesDistinct(s)
    ensures StampersAgree(Next(s, act))
  {
    var t := Next(s, act);
    forall w | w in t.workers && t.workers[w].phase.Stamping?
      ensures var f := t.workers[w].phase.frozen; var name := Published(FileName(f.record.article.doi));
        name in t.files && t.files[name] == Whole(f)
    {
      StamperBefore(s, act, w);
      if w in s.workers && s.workers[w].phase.Stamping? {
        var f := s.workers[w].phase.frozen;
        assert CarriesOwn(s, s.workers[w]);
        PublishedFileStep(s, act, FileName(f.record.article.doi));
      }
    }
  }

  /** A stamper stood there before, or has just renamed its file. */
  lemma StamperBefore(s: State, act: Action, w: nat)
    requires FrozenInv(s) && w in Next(s, act).workers && Next(s, act).workers[w].phase.Stamping?
    ensures w in s.workers
    ensures s.workers[w] == Next(s, act).workers[w] ||
            (act.Rename? && act.worker == w &&
             var f := Next(s, act).workers[w].phase.frozen; var name := Published(FileName(f.record.article.doi));
             name in Next(s, act).files && Next(s, act).files[name] == Whole(f))
  {
    if !IsSave(act) {
      OtherWorkers(s, act, w);
    }
  }

  lemma AgreeKept(s: State, act: Action)
    requires AgreeInv(s) && NamesDistinct(s) && Safety.Timely(s)
    ensures AgreeInv(Next(s, act))
  {
    FrozenKept(s, act);
    Safety.PreprintsKept(s, act);
    Safety.OwnedKept(s, act);
    StampersKept(s, act);
    var t := Next(s, act);
    forall a | a in t.rows && t.rows[a].status == Done
      ensures Agrees(t, a)
    {
      Safety.RowStep(s, act, a);
      if Safety.Completes(s, act, a) {
        CompletionAgrees(s, act, a);
      } else {
        AgreesKept(s, act, a);
      }
    }
  }

  lemma NamesDistinctBefore(s: State, act: Action)
    requires NamesDistinct(Next(s, act))
    ensures NamesDistinct(s)
  {
    forall a, b | a in s.articles && b in s.articles && a != b
      ensures FileName(s.articles[a].doi) != FileName(s.articles[b].doi)
    {
      ArticleStep(s, act, a);
      ArticleStep(s, act, b);
    }
  }

  lemma AgreeInvKept()
    ensures forall t, act :: AgreeIfDistinct(t) && Safety.Timely(t) ==> AgreeIfDistinct(Next(t, act))
  {
    forall t, act | AgreeIfDistinct(t) && Safety.Timely(t)
      ensures AgreeIfDistinct(Next(t, act))
    {
      if NamesDistinct(Next(t, act)) {
        NamesDistinctBefore(t, act);
        AgreeKept(t, act);
      }
    }
  }

  ghost predicate AgreeIfDistinct(s: State) {
    NamesDistinct(s) ==> AgreeInv(s)
  }

  lemma AgreeAlways(s: State, actions: seq<Action>)
    requires Initial(s) && Safety.TimelyRun(s, actions) && NamesDistinct(Run(s, actions))
    ensures AgreeInv(Run(s, actions))
  {
    AgreeInvKept();
    KeptAlong(s, actions, AgreeIfDistinct, Safety.Timely);
  }

  /** With timely owners, and no two articles sharing a file name, the file of a done
      article holds exactly the quotes and the summary of its row. */
  lemma FileMatchesRow(s: State, actions: seq<Action>, a: nat)
    requires Initial(s) && Safety.TimelyRun(s, actions) && NamesDistinct(Run(s, actions))
    requires a in Run(s, actions).rows && Run(s, actions).rows[a].status == Done
    ensures Agrees(Run(s, actions), a)
  {
    AgreeAlways(s, actions);
  }

  // ----- file names

  lemma SameConcat(a: string, b: string, end: string)
    ensures a + end == b + end <==> a == b
  {
    if a + end == b + end {
      assert a == (a + end)[..|a|] && b == (b + end)[..|b|];
    }
  }

  /** Two DOIs share a file name iff they differ only in slashes against underscores. */
  lemma FileNamesCollide(a: string, b: string)
    requires HasPrefix(TrimSpace(a), "10.") && HasPrefix(TrimSpace(b), "10.")
    ensures FileName(a) == FileName(b) <==>
      var x, y := TrimSpace(a), TrimSpace(b);
      |x| == |y| && forall i :: 0 <= i < |x| ==> x[i] == y[i] || {x[i], y[i]} == {'/', '_'}
  {
    var x, y := TrimSpace(a), TrimSpace(b);
    var r, q := Replace(x, '/', '_'), Replace(y, '/', '_');
    SameConcat(r, q, ".md");
    if r == q {
      forall i | 0 <= i < |x|
        ensures x[i] == y[i] || {x[i], y[i]} == {'/', '_'}
      {
        assert r[i] == q[i];
      }
    }
    if |x| == |y| && forall i :: 0 <= i < |x| ==> x[i] == y[i] || {x[i], y[i]} == {'/', '_'} {
      forall i | 0 <= i < |x|
        ensures r[i] == q[i]
      {
        assert x[i] != y[i] ==> x[i] in {'/', '_'} && y[i] in {'/', '_'};
      }
    }
  }
}
