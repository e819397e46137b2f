/** The extractor as it runs: row writes, file writes and the path of one worker,
    each tied to the steps of the protocol. */
module ExtractionCode {
  import opened Extraction

  /** How one worker's extraction goes: it errs, or it yields a result of which so
      many save steps succeed; `stamped` and `marked` say whether the row writes do. */
  datatype Course = Errs(marked: bool)
                  | Yields(frozen: Frozen, temp: nat, savedSteps: nat, stamped: bool, marked: bool)

  /** `Save`, which stops after so many steps. */
  function SaveActions(w: nat, temp: nat, saved: nat): seq<Action> {
    if saved == 0 then [SaveFails(w)] else [CreateTemp(w, temp)] + WriteActions(w, saved)
  }

  function WriteActions(w: nat, saved: nat): seq<Action> {
    if saved == 1 then [SaveFails(w)] else [WriteTemp(w)] + PublishActions(w, saved)
  }

  function PublishActions(w: nat, saved: nat): seq<Action> {
    if saved == 2 then [SaveFails(w)] else [Rename(w)]
  }

  /** The steps of `extractOne`. */
  function Actions(w: nat, published: bool, c: Course): seq<Action> {
    match c
    case Errs(marked) => [ExtractFails(w)] + if published then [MarkFailed(w, marked)] else []
    case Yields(f, temp, saved, stamped, marked) =>
      [Extracted(w, f)]
      + if !published then []
        else if IsEmpty(f.result) then [MarkNoText(w, marked)]
        else SaveActions(w, temp, saved) + Settle(w, saved, stamped, marked)
  }

  function Settle(w: nat, saved: nat, stamped: bool, marked: bool): seq<Action> {
    (if saved < 3 then [] else [StampDone(w, stamped)])
    + if saved < 3 || !stamped then [MarkFailed(w, marked)] else []
  }

  lemma RunOne(s: State, act: Action)
    ensures Run(s, [act]) == Next(s, act)
  {
    assert [act][..0] == [];
  }

  lemma RunFirst(s: State, act: Action, rest: seq<Action>)
    ensures Run(s, [act] + rest) == Run(Next(s, act), rest)
  {
    RunConcat(s, [act], rest);
    RunOne(s, act);
  }

  lemma SettleRuns(s: State, w: nat, saved: nat, stamped: bool, marked: bool)
    ensures Run(s, Settle(w, saved, stamped, marked))
            == if saved < 3 then Next(s, MarkFailed(w, marked))
               else if stamped then Next(s, StampDone(w, stamped))
               else Next(Next(s, StampDone(w, stamped)), MarkFailed(w, marked))
  {
    if saved < 3 {
      RunOne(s, MarkFailed(w, marked));
    } else {
      RunOne(s, StampDone(w, stamped));
      RunMore(s, [StampDone(w, stamped)], MarkFailed(w, marked));
    }
  }

  class Extractor {
    var clock: int
    var rows: Rows
    var articles: map<nat, Stored>
    var files: Files
    ghost var workers: map<nat, Worker>

    constructor (clock: int, articles: map<nat, Stored>)
      ensures View() == State(clock, map[], articles, map[], map[]) && Initial(View())
    {
      this.clock := clock;
      this.articles := articles;
      rows, files, workers := map[], map[], map[];
    }

    ghost function View(): State
      reads this
    {
      State(clock, rows, articles, files, workers)
    }

    /** `Claim`: new, failed, no-text and stale pending rows are won. */
    method ClaimArticle(w: nat, article: nat) returns (won: bool)
      requires w !in workers && article in articles
      modifies this
      ensures View() == Next(old(View()), Claim(w, article))
      ensures won <==> ClaimWins(old(rows), article, old(clock))
    {
      if article !in rows {
        rows := rows[article := Row(Pending, clock, [], "")];
        won := true;
      } else {
        var row := rows[article];
        var stalePending := row.status == Pending && row.updatedAt < clock - LEASE;
        won := row.status == Failed || row.status == NoText || stalePending;
        if won {
          row := row.(status := Pending, updatedAt := clock);
          rows := rows[article := row];
        }
      }
      if won {
        workers := workers[w := Worker(article, true, clock, Extracting)];
      }
    }

    /** `setOutcome`, which may be lost. */
    method SetOutcome(w: nat, article: nat, status: Status, ok: bool)
      requires w in workers && workers[w].article == article
      modifies this
      ensures View() == OutcomeStep(old(View()), w, status, ok)
    {
      if ok {
        if article in rows {
          rows := rows[article := rows[article].(status := status, updatedAt := clock)];
        } else {
          rows := rows[article := Row(status, clock, [], "")];
        }
      }
      workers := workers - {w};
    }

    /** `fail`. */
    method MarkFailure(w: nat, article: nat, ok: bool)
      requires w in workers && workers[w].article == article && workers[w].phase.Failing?
      modifies this
      ensures View() == Next(old(View()), MarkFailed(w, ok))
    {
      SetOutcome(w, article, Failed, ok);
    }

    /** `SetDoneFrozen`: both writes or none. */
    method SetDoneFrozen(w: nat, article: nat, frozen: Frozen, path: string, ok: bool)
      requires w in workers && workers[w].article == article && workers[w].phase == Stamping(frozen)
      requires path == FileName(frozen.record.article.doi)
      modifies this
      ensures View() == Next(old(View()), StampDone(w, ok))
      ensures !ok ==> w in workers && workers[w] == old(workers[w]).(phase := Failing)
    {
      if !ok {
        workers := workers[w := workers[w].(phase := Failing)];
        return;
      }
      if article in articles {
        articles := articles[article := articles[article].(stamp := path)];
      }
      rows := rows[article := Row(Done, clock, frozen.result.quotes, frozen.result.tldr)];
      workers := workers - {w};
    }

    method CreateTempFile(w: nat, frozen: Frozen, temp: nat)
      requires w in workers && workers[w].phase == Freezing(frozen)
      requires frozen.record.article.doi != "" && Temporary(temp) !in files
      modifies this
      ensures View() == Next(old(View()), CreateTemp(w, temp))
      ensures w in workers && workers[w].phase == Writing(frozen, temp)
    {
      files := files[Temporary(temp) := Unfinished];
      workers := workers[w := workers[w].(phase := Writing(frozen, temp))];
    }

    method WriteTempFile(w: nat, frozen: Frozen, temp: nat)
      requires w in workers && workers[w].phase == Writing(frozen, temp)
      modifies this
      ensures View() == Next(old(View()), WriteTemp(w))
      ensures w in workers && workers[w].phase == Written(frozen, temp) && Temporary(temp) in files
    {
      files := files[Temporary(temp) := Whole(frozen)];
      workers := workers[w := workers[w].(phase := Written(frozen, temp))];
    }

    method PublishFile(w: nat, frozen: Frozen, temp: nat) returns (path: string)
      requires w in workers && workers[w].phase == Written(frozen, temp) && Temporary(temp) in files
      modifies this
      ensures View() == Next(old(View()), Rename(w))
      ensures w in workers && workers[w].phase == Stamping(frozen)
      ensures path == FileName(frozen.record.article.doi)
    {
      path := FileName(frozen.record.article.doi);
      var content := files[Temporary(temp)];
      files := files - {Temporary(temp)};
      files := files[Published(path) := content];
      workers := workers[w := workers[w].(phase := Stamping(frozen))];
    }

    /** The deferred clean-up of a save that failed. */
    method AbandonSave(w: nat, ghost frozen: Frozen, temp: nat, created: bool)
      requires w in workers
      requires created ==> workers[w].phase == Writing(frozen, temp) || workers[w].phase == Written(frozen, temp)
      requires !created ==> workers[w].phase == Freezing(frozen)
      modifies this
      ensures View() == Next(old(View()), SaveFails(w))
      ensures w in workers && workers[w].phase.Failing?
    {
      if created {
        files := files - {Temporary(temp)};
      }
      workers := workers[w := workers[w].(phase := Failing)];
    }

    method PublishOrFail(w: nat, frozen: Frozen, temp: nat, saved: nat) returns (path: string, ok: bool)
      requires w in workers && workers[w].phase == Written(frozen, temp) && Temporary(temp) in files
      modifies this
      ensures View() == Run(old(View()), PublishActions(w, saved))
      ensures ok <==> saved != 2
      ensures ok ==> path == FileName(frozen.record.article.doi)
      ensures w in workers && workers[w].phase == if ok then Stamping(frozen) else Failing
      ensures workers[w].article == old(workers[w].article)
    {
      RunOne(View(), if saved == 2 then SaveFails(w) else Rename(w));
      path, ok := "", saved != 2;
      if ok {
        path := PublishFile(w, frozen, temp);
      } else {
        AbandonSave(w, frozen, temp, true);
      }
    }

    method WriteThenPublish(w: nat, frozen: Frozen, temp: nat, saved: nat) returns (path: string, ok: bool)
      requires w in workers && workers[w].phase == Writing(frozen, temp)
      modifies this
      ensures View() == Run(old(View()), WriteActions(w, saved))
      ensures ok <==> saved != 1 && saved != 2
      ensures ok ==> path == FileName(frozen.record.article.doi)
      ensures w in workers && workers[w].phase == if ok then Stamping(frozen) else Failing
      ensures workers[w].article == old(workers[w].article)
    {
      if saved == 1 {
        RunOne(View(), SaveFails(w));
        AbandonSave(w, frozen, temp, true);
        return "", false;
      }
      RunFirst(View(), WriteTemp(w), PublishActions(w, saved));
      WriteTempFile(w, frozen, temp);
      path, ok := PublishOrFail(w, frozen, temp, saved);
    }

    /** `Save`: the file is whole under a temporary name before it gets its own. */
    method Save(w: nat, frozen: Frozen, temp: nat, saved: nat) returns (path: string, ok: bool)
      requires w in workers && workers[w].phase == Freezing(frozen) && Temporary(temp) !in files
      requires frozen.record.article.doi == "" ==> saved == 0
      modifies this
      ensures View() == Run(old(View()), SaveActions(w, temp, saved))
      ensures ok <==> saved >= 3
      ensures ok ==> path == FileName(frozen.record.article.doi)
      ensures w in workers && workers[w].phase == if ok then Stamping(frozen) else Failing
      ensures workers[w].article == old(workers[w].article)
    {
      if saved == 0 {
        RunOne(View(), SaveFails(w));
        AbandonSave(w, frozen, temp, false);
        return "", false;
      }
      RunFirst(View(), CreateTemp(w, temp), WriteActions(w, saved));
      CreateTempFile(w, frozen, temp);
      path, ok := WriteThenPublish(w, frozen, temp, saved);
    }

    /** What follows the save: the stamp, or the failure. */
    method SettleRow(w: nat, article: nat, frozen: Frozen, path: string, saved: nat, stamped: bool, marked: bool)
      requires w in workers && workers[w].article == article
      requires workers[w].phase == if saved >= 3 then Stamping(frozen) else Failing
      requires saved >= 3 ==> path == FileName(frozen.record.article.doi)
      modifies this
      ensures View() == Run(old(View()), Settle(w, saved, stamped, marked))
    {
      SettleRuns(View(), w, saved, stamped, marked);
      if saved >= 3 {
        SetDoneFrozen(w, article, frozen, path, stamped);
        if stamped {
          return;
        }
      }
      MarkFailure(w, article, marked);
    }

    /** `extractOne` and `fail`: a preprint's result goes to the hit only. */
    method ExtractOne(w: nat, article: nat, published: bool, c: Course)
      requires w in workers && article in articles
      requires workers[w] == Worker(article, published, workers[w].claimedAt, Extracting)
      requires c.Yields? ==> Temporary(c.temp) !in files && c.frozen.record.article.doi == articles[article].doi
      requires c.Yields? && c.frozen.record.article.doi == "" ==> c.savedSteps == 0
      modifies this
      ensures View() == Run(old(View()), Actions(w, published, c))
    {
      ghost var start := View();
      match c
      case Errs(marked) =>
        RunOne(start, ExtractFails(w));
        if !published {
          workers := workers - {w};
          return;
        }
        workers := workers[w := workers[w].(phase := Failing)];
        RunMore(start, [ExtractFails(w)], MarkFailed(w, marked));
        SetOutcome(w, article, Failed, marked);
      case Yields(frozen, temp, saved, stamped, marked) =>
        RunOne(start, Extracted(w, frozen));
        if !published {
          workers := workers - {w};
          return;
        }
        if IsEmpty(frozen.result) {
          workers := workers[w := workers[w].(phase := MarkingNoText)];
          RunMore(start, [Extracted(w, frozen)], MarkNoText(w, marked));
          SetOutcome(w, article, NoText, marked);
          return;
        }
        workers := workers[w := workers[w].(phase := Freezing(frozen))];
        assert View() == Run(start, [Extracted(w, frozen)]);
        Freeze(w, article, c);
        RunConcat(start, [Extracted(w, frozen)], SaveActions(w, temp, saved) + Settle(w, saved, stamped, marked));
    }

    method Freeze(w: nat, article: nat, c: Course)
      requires c.Yields? && w in workers && workers[w].article == article && workers[w].phase == Freezing(c.frozen)
      requires Temporary(c.temp) !in files && (c.frozen.record.article.doi == "" ==> c.savedSteps == 0)
      modifies this
      ensures View() == Run(old(View()), SaveActions(w, c.temp, c.savedSteps) + Settle(w, c.savedSteps, c.stamped, c.marked))
    {
      ghost var start := View();
      var path, ok := Save(w, c.frozen, c.temp, c.savedSteps);
      SettleRow(w, article, c.frozen, path, c.savedSteps, c.stamped, c.marked);
      RunConcat(start, SaveActions(w, c.temp, c.savedSteps), Settle(w, c.savedSteps, c.stamped, c.marked));
    }
  }
}
