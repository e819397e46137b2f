/** What a worker's whole path leaves behind, and what happens to a row's quotes. */
module ExtractionRows {
  import opened Sequences
  import opened Text
  import opened Extraction
  import opened ExtractionCode
  import Safety = ExtractionSafety

  // ----- claims

  /** A claim is won on an article without a row, after a failure, after nothing was
      found, and on a claim of more than a quarter of an hour ago; and on no other. */
  lemma ClaimIsWonIff(s: State, w: nat, a: nat)
    requires a in s.articles && w !in s.workers
    ensures w in Next(s, Claim(w, a)).workers <==>
      || a !in s.rows || s.rows[a].status.Failed? || s.rows[a].status.NoText?
      || (s.rows[a].status.Pending? && s.clock > s.rows[a].updatedAt + 900)
  {
  }

  // ----- quotes

  /** No step but the completion of a row changes its quotes and its summary, and no
      step removes a row. */
  lemma QuotesStay(s: State, act: Action, a: nat)
    requires a in s.rows && !Safety.Completes(s, act, a)
    ensures var t := Next(s, act); a in t.rows && t.rows[a].quotes == s.rows[a].quotes && t.rows[a].tldr == s.rows[a].tldr
  {
  }

  /** And a completion replaces them by those of the result that was frozen. */
  lemma CompletionReplaces(s: State, act: Action, a: nat)
    requires Safety.Completes(s, act, a)
    ensures var t, f := Next(s, act), s.workers[act.worker].phase.frozen;
      a in t.rows && t.rows[a] == Row(Done, s.clock, f.result.quotes, f.result.tldr)
  {
  }

  lemma {:induction false} QuotesStayAlong(s: State, actions: seq<Action>, a: nat)
    requires a in s.rows
    requires forall k :: 0 <= k < |actions| ==> !Safety.Completes(Run(s, actions[..k]), actions[k], a)
    ensures var t := Run(s, actions); a in t.rows && t.rows[a].quotes == s.rows[a].quotes && t.rows[a].tldr == s.rows[a].tldr
    decreases |actions|
  {
    if actions != [] {
      var k := |actions| - 1;
      var init := actions[..k];
      forall j | 0 <= j < |init|
        ensures !Safety.Completes(Run(s, init[..j]), init[j], a)
      {
        assert init[..j] == actions[..j];
      }
      QuotesStayAlong(s, init, a);
      QuotesStay(Run(s, init), actions[k], a);
    }
  }

  // ----- a worker's path

  /** A worker has this phase for this article, and nothing but files may differ from before. */
  ghost predicate OnlyFiles(s: State, t: State, w: nat, phase: Phase) {
    && w in s.workers && t == s.(files := t.files, workers := s.workers[w := s.workers[w].(phase := phase)])
  }

  lemma PublishEnds(s: State, w: nat, f: Frozen, temp: nat, saved: nat)
    requires w in s.workers && s.workers[w].phase == Written(f, temp)
    requires Temporary(temp) in s.files && s.files[Temporary(temp)] == Whole(f)
    ensures var t := Run(s, PublishActions(w, saved));
      && OnlyFiles(s, t, w, if saved == 2 then Failing else Stamping(f))
      && t.files == if saved == 2 then s.files - {Temporary(temp)}
                    else (s.files - {Temporary(temp)})[Published(FileName(f.record.article.doi)) := Whole(f)]
  {
    RunOne(s, if saved == 2 then SaveFails(w) else Rename(w));
  }

  lemma OnlyFilesTwice(s: State, t: State, u: State, w: nat, p: Phase, q: Phase)
    requires OnlyFiles(s, t, w, p) && OnlyFiles(t, u, w, q)
    ensures OnlyFiles(s, u, w, q)
  {
    assert s.workers[w := s.workers[w].(phase := p)][w := s.workers[w].(phase := q)] == s.workers[w := s.workers[w].(phase := q)];
  }

  lemma TempWritten(s: State, w: nat, f: Frozen, temp: nat)
    requires w in s.workers && s.workers[w].phase == Writing(f, temp)
    ensures var t := Next(s, WriteTemp(w));
      OnlyFiles(s, t, w, Written(f, temp)) && t.files == s.files[Temporary(temp) := Whole(f)]
  {
  }

  lemma Created(s: State, w: nat, f: Frozen, temp: nat)
    requires w in s.workers && s.workers[w].phase == Freezing(f) && Temporary(temp) !in s.files && f.record.article.doi != ""
    ensures var t := Next(s, CreateTemp(w, temp));
      OnlyFiles(s, t, w, Writing(f, temp)) && t.files == s.files[Temporary(temp) := Unfinished]
  {
  }

  lemma Abandoned(s: State, w: nat, f: Frozen)
    requires w in s.workers
    requires s.workers[w].phase == Freezing(f) || exists temp :: s.workers[w].phase == Writing(f, temp)
    ensures var t := Run(s, [SaveFails(w)]);
      && OnlyFiles(s, t, w, Failing)
      && t.files == if s.workers[w].phase.Writing? then s.files - {Temporary(s.workers[w].phase.temp)} else s.files
  {
    RunOne(s, SaveFails(w));
  }

  lemma WriteEnds(s: State, w: nat, f: Frozen, temp: nat, saved: nat)
    requires w in s.workers && s.workers[w].phase == Writing(f, temp)
    ensures var t := Run(s, WriteActions(w, saved));
      && OnlyFiles(s, t, w, if saved == 1 || saved == 2 then Failing else Stamping(f))
      && t.files == if saved == 1 || saved == 2 then s.files - {Temporary(temp)}
                    else (s.files - {Temporary(temp)})[Published(FileName(f.record.article.doi)) := Whole(f)]
  {
    if saved == 1 {
      Abandoned(s, w, f);
    } else {
      var t := Next(s, WriteTemp(w));
      RunFirst(s, WriteTemp(w), PublishActions(w, saved));
      TempWritten(s, w, f, temp);
      PublishEnds(t, w, f, temp, saved);
      OnlyFilesTwice(s, t, Run(t, PublishActions(w, saved)), w, Written(f, temp), if saved == 2 then Failing else Stamping(f));
      WithoutTemp(s.files, temp, Whole(f));
    }
  }

  lemma WithoutTemp(files: Files, temp: nat, c: Content)
    ensures files[Temporary(temp) := c] - {Temporary(temp)} == files - {Temporary(temp)}
    ensures Temporary(temp) !in files ==> files - {Temporary(temp)} == files
  {
  }

  /** A save publishes the whole file or leaves the files as they were. */
  lemma SaveEnds(s: State, w: nat, f: Frozen, temp: nat, saved: nat)
    requires w in s.workers && s.workers[w].phase == Freezing(f) && Temporary(temp) !in s.files
    requires f.record.article.doi == "" ==> saved == 0
    ensures var t := Run(s, SaveActions(w, temp, saved));
      && OnlyFiles(s, t, w, if saved < 3 then Failing else Stamping(f))
      && t.files == if saved < 3 then s.files else s.files[Published(FileName(f.record.article.doi)) := Whole(f)]
  {
    if saved == 0 {
      Abandoned(s, w, f);
    } else {
      var t := Next(s, CreateTemp(w, temp));
      RunFirst(s, CreateTemp(w, temp), WriteActions(w, saved));
      Created(s, w, f, temp);
      WriteEnds(t, w, f, temp, saved);
      OnlyFilesTwice(s, t, Run(t, WriteActions(w, saved)), w, Writing(f, temp), if saved < 3 then Failing else Stamping(f));
      WithoutTemp(s.files, temp, Unfinished);
    }
  }

  /** The row of an article after its worker has marked an outcome, or failed to. */
  predicate Marked(s: State, t: State, a: nat, status: Status, marked: bool) {
    if marked then
      a in t.rows && t.rows[a].status == status && t.rows[a].updatedAt == s.clock && t.rows - {a} == s.rows - {a}
    else t.rows == s.rows
  }

  lemma MarkEnds(s: State, w: nat, act: Action, marked: bool)
    requires w in s.workers && act == (if s.workers[w].phase.Failing? then MarkFailed(w, marked) else MarkNoText(w, marked))
    requires s.workers[w].phase.Failing? || s.workers[w].phase.MarkingNoText?
    ensures var t := Next(s, act);
      && t.workers == s.workers - {w} && t.files == s.files && t.articles == s.articles
      && Marked(s, t, s.workers[w].article, if act.MarkFailed? then Failed else NoText, marked)
  {
  }

  /** The row is done with the result and the article stamped, or the row is marked failed. */
  ghost predicate Settled(s: State, t: State, w: nat, a: nat, f: Frozen, done: bool, marked: bool) {
    && t.workers == s.workers - {w}
    && if done then
         && t.rows == s.rows[a := Row(Done, s.clock, f.result.quotes, f.result.tldr)]
         && a in s.articles && t.articles == s.articles[a := s.articles[a].(stamp := FileName(f.record.article.doi))]
       else Marked(s, t, a, Failed, marked) && t.articles == s.articles
  }

  lemma StampEnds(s: State, w: nat, f: Frozen)
    requires w in s.workers && s.workers[w].phase == Stamping(f) && s.workers[w].article in s.articles
    ensures Settled(s, Next(s, StampDone(w, true)), w, s.workers[w].article, f, true, false)
    ensures Next(s, StampDone(w, true)).files == s.files
    ensures OnlyFiles(s, Next(s, StampDone(w, false)), w, Failing) && Next(s, StampDone(w, false)).files == s.files
  {
  }

  lemma SettleEnds(s: State, w: nat, f: Frozen, saved: nat, stamped: bool, marked: bool)
    requires w in s.workers && s.workers[w].phase == if saved < 3 then Failing else Stamping(f)
    requires s.workers[w].article in s.articles
    ensures var t := Run(s, Settle(w, saved, stamped, marked));
      t.files == s.files && Settled(s, t, w, s.workers[w].article, f, saved >= 3 && stamped, marked)
  {
    SettleRuns(s, w, saved, stamped, marked);
    if saved < 3 {
      MarkEnds(s, w, MarkFailed(w, marked), marked);
    } else {
      StampEnds(s, w, f);
      if !stamped {
        var t := Next(s, StampDone(w, false));
        MarkEnds(t, w, MarkFailed(w, marked), marked);
        assert t.workers - {w} == s.workers - {w};
      }
    }
  }

  /** What a course leaves of a state, for a worker of an article. */
  ghost predicate Leaves(s: State, t: State, w: nat, a: nat, c: Course) {
    match c
    case Errs(marked) =>
      t.workers == s.workers - {w} && Marked(s, t, a, Failed, marked) && t.files == s.files && t.articles == s.articles
    case Yields(f, _, saved, stamped, marked) =>
      if f.result.quotes == [] && f.result.formulas == [] && f.result.figures == [] && f.result.tldr == "" then
        t.workers == s.workers - {w} && Marked(s, t, a, NoText, marked) && t.files == s.files && t.articles == s.articles
      else
        && t.files == (if saved < 3 then s.files else s.files[Published(FileName(f.record.article.doi)) := Whole(f)])
        && Settled(s, t, w, a, f, saved >= 3 && stamped, marked)
  }

  /** A published article's worker is gone at its end. An error, a save or a stamp that
      fails leaves the row failed, nothing found leaves it without text, and success
      leaves it done with the result's quotes, the file whole and the article stamped. */
  lemma CourseEnds(s: State, w: nat, c: Course)
    requires w in s.workers && s.workers[w].published && s.workers[w].phase.Extracting? && s.workers[w].article in s.articles
    requires c.Yields? ==> Temporary(c.temp) !in s.files && c.frozen.record.article.doi == s.articles[s.workers[w].article].doi
    requires c.Yields? && c.frozen.record.article.doi == "" ==> c.savedSteps == 0
    ensures Leaves(s, Run(s, Actions(w, true, c)), w, s.workers[w].article, c)
  {
    match c
    case Errs(marked) => ErrorEnds(s, w, marked);
    case Yields(f, temp, saved, stamped, marked) =>
      if IsEmpty(f.result) {
        EmptyEnds(s, w, f, marked);
      } else {
        RunFirst(s, Extracted(w, f), SaveActions(w, temp, saved) + Settle(w, saved, stamped, marked));
        SavedEnds(s, w, f, temp, saved, stamped, marked);
      }
  }

  lemma ErrorEnds(s: State, w: nat, marked: bool)
    requires w in s.workers && s.workers[w].published && s.workers[w].phase.Extracting?
    ensures var t := Run(s, [ExtractFails(w)] + [MarkFailed(w, marked)]);
      t.workers == s.workers - {w} && t.files == s.files && t.articles == s.articles && Marked(s, t, s.workers[w].article, Failed, marked)
  {
    RunFirst(s, ExtractFails(w), [MarkFailed(w, marked)]);
    var t := WithPhase(s, w, Failing);
    assert Next(s, ExtractFails(w)) == t;
    RunOne(t, MarkFailed(w, marked));
    MarkEnds(t, w, MarkFailed(w, marked), marked);
    assert t.workers - {w} == s.workers - {w};
  }

  lemma EmptyEnds(s: State, w: nat, f: Frozen, marked: bool)
    requires w in s.workers && s.workers[w].published && s.workers[w].phase.Extracting? && IsEmpty(f.result)
    ensures var t := Run(s, [Extracted(w, f)] + [MarkNoText(w, marked)]);
      t.workers == s.workers - {w} && t.files == s.files && t.articles == s.articles && Marked(s, t, s.workers[w].article, NoText, marked)
  {
    RunFirst(s, Extracted(w, f), [MarkNoText(w, marked)]);
    var t := WithPhase(s, w, MarkingNoText);
    assert Next(s, Extracted(w, f)) == t;
    RunOne(t, MarkNoText(w, marked));
    MarkEnds(t, w, MarkNoText(w, marked), marked);
    assert t.workers - {w} == s.workers - {w};
  }

  lemma SavedEnds(s: State, w: nat, f: Frozen, temp: nat, saved: nat, stamped: bool, marked: bool)
    requires w in s.workers && s.workers[w].article in s.articles
    requires Temporary(temp) !in s.files && (f.record.article.doi == "" ==> saved == 0)
    ensures var t := WithPhase(s, w, Freezing(f));
      var u := Run(t, SaveActions(w, temp, saved) + Settle(w, saved, stamped, marked));
      && u.files == (if saved < 3 then s.files else s.files[Published(FileName(f.record.article.doi)) := Whole(f)])
      && Settled(s, u, w, s.workers[w].article, f, saved >= 3 && stamped, marked)
  {
    var t := WithPhase(s, w, Freezing(f));
    RunConcat(t, SaveActions(w, temp, saved), Settle(w, saved, stamped, marked));
    SaveEnds(t, w, f, temp, saved);
    SettledBehind(s, t, Run(t, SaveActions(w, temp, saved)), w, f, saved, stamped, marked);
  }

  lemma SettledBehind(s: State, t: State, m: State, w: nat, f: Frozen, saved: nat, stamped: bool, marked: bool)
    requires w in s.workers && s.workers[w].article in s.articles && t == WithPhase(s, w, Freezing(f))
    requires OnlyFiles(t, m, w, if saved < 3 then Failing else Stamping(f))
    ensures var u := Run(m, Settle(w, saved, stamped, marked));
      u.files == m.files && Settled(s, u, w, s.workers[w].article, f, saved >= 3 && stamped, marked)
  {
    OnlyFilesTwice(s, t, m, w, Freezing(f), if saved < 3 then Failing else Stamping(f));
    SettleEnds(m, w, f, saved, stamped, marked);
    assert m.workers - {w} == s.workers - {w};
  }

  /** The way of a worker through its phases. */
  predicate Follows(a: Phase, b: Phase) {
    match a
    case Extracting => b.MarkingNoText? || b.Freezing? || b.Failing?
    case Freezing(f) => (b.Writing? && b.frozen == f) || b.Failing?
    case Writing(f, t) => b == Written(f, t) || b.Failing?
    case Written(f, _) => b == Stamping(f) || b.Failing?
    case Stamping(_) => b.Failing?
    case MarkingNoText => false
    case Failing => false
  }

  ghost predicate Moves(s: State, t: State, w: nat) {
    && w in s.workers && w in t.workers && t.workers[w] == s.workers[w].(phase := t.workers[w].phase)
    && (t.workers[w].phase == s.workers[w].phase || Follows(s.workers[w].phase, t.workers[w].phase))
  }

  lemma SaveFollows(s: State, act: Action, w: nat)
    requires act.CreateTemp? || act.WriteTemp? || act.SaveFails? || act.Rename?
    requires w in SaveStep(s, act).workers
    ensures Moves(s, SaveStep(s, act), w)
  {
  }

  lemma OutcomeFollows(s: State, act: Action, w: nat)
    requires act.MarkNoText? || act.MarkFailed? || act.StampDone? || act.Crash?
    requires w in Next(s, act).workers
    ensures Moves(s, Next(s, act), w)
  {
  }

  /** A step moves a worker on by one phase, and a worker keeps its article; one that is
      new has claimed it, or read it as a preprint, and starts to extract. */
  lemma PhasesFollow(s: State, act: Action, w: nat)
    requires w in Next(s, act).workers
    ensures var v := Next(s, act).workers[w];
      if w in s.workers then Moves(s, Next(s, act), w)
      else
        v.phase.Extracting? && v.claimedAt == s.clock && v.article in s.articles && act == (if v.published then Claim(w, v.article) else ReadPreprint(w, v.article))
  {
    if act.CreateTemp? || act.WriteTemp? || act.SaveFails? || act.Rename? {
      SaveFollows(s, act, w);
    } else if act.MarkNoText? || act.MarkFailed? || act.StampDone? || act.Crash? {
      OutcomeFollows(s, act, w);
    }
  }

  lemma PreprintGone(s: State, w: nat, c: Course)
    requires w in s.workers && !s.workers[w].published && s.workers[w].phase.Extracting?
    ensures Run(s, Actions(w, false, c)) == s.(workers := s.workers - {w})
  {
    match c
    case Errs(_) =>
      assert Actions(w, false, c) == [ExtractFails(w)];
      RunOne(s, ExtractFails(w));
    case Yields(f, _, _, _, _) =>
      assert Actions(w, false, c) == [Extracted(w, f)];
      RunOne(s, Extracted(w, f));
  }

  /** A preprint's worker starts without a claim and is gone at its end; whatever its
      course, it leaves everything as it was. */
  lemma PreprintCourse(s: State, w: nat, a: nat, c: Course)
    requires w !in s.workers && a in s.articles
    ensures Next(s, ReadPreprint(w, a)) == s.(workers := s.workers[w := Worker(a, false, s.clock, Extracting)])
    ensures Run(s, [ReadPreprint(w, a)] + Actions(w, false, c)) == s
  {
    var t := Next(s, ReadPreprint(w, a));
    RunFirst(s, ReadPreprint(w, a), Actions(w, false, c));
    PreprintGone(t, w, c);
    assert t.workers - {w} == s.workers;
  }

  // ----- file names

  lemma {:induction false} SanitizeIs(s: string)
    ensures |Sanitize(s)| == |s|
    ensures forall i :: 0 <= i < |s| ==> Sanitize(s)[i] == if SafeChar(s[i]) then s[i] else '_'
  {
    if s != "" {
      SanitizeIs(s[1..]);
    }
  }

  lemma {:induction false} JointsLeftIs(s: string)
    ensures forall c :: c in TrimJointsLeft(s) ==> c in s
    ensures TrimJointsLeft(s) != "" ==> !Joint(TrimJointsLeft(s)[0])
  {
    if s != "" {
      assert s == [s[0]] + s[1..];
      JointsLeftIs(s[1..]);
    }
  }

  lemma {:induction false} JointsRightIs(s: string)
    ensures TrimJointsRight(s) <= s
    ensures TrimJointsRight(s) != "" ==> !Joint(TrimJointsRight(s)[|TrimJointsRight(s)| - 1])
  {
    if s != "" && Joint(s[|s| - 1]) {
      JointsRightIs(s[..|s| - 1]);
      assert s[..|s| - 1] <= s;
    }
  }

  /** Whatever the key, the file is one in the store's directory: a name that is not
      hidden, has no separator, and ends in `.md`. */
  lemma FileStaysInside(doi: string)
    ensures '/' !in FileName(doi) && |FileName(doi)| > 3 && FileName(doi)[0] != '.'
    ensures FileName(doi)[|FileName(doi)| - 3..] == ".md"
  {
    var key := TrimSpace(doi);
    if HasPrefix(key, "10.") {
      assert key[..3][0] == key[0];
      var r := Replace(key, '/', '_');
      assert r[0] == '1' && '/' !in r;
    } else {
      SanitizedName(key);
    }
  }

  lemma SanitizedName(key: string)
    ensures var safe := TrimJointsRight(TrimJointsLeft(Sanitize(key)));
      (forall c :: c in safe ==> SafeChar(c)) && (safe != "" ==> !Joint(safe[0]))
  {
    SanitizeIs(key);
    JointsLeftIs(Sanitize(key));
    JointsRightIs(TrimJointsLeft(Sanitize(key)));
    var left := TrimJointsLeft(Sanitize(key));
    assert forall c :: c in TrimJointsRight(left) ==> c in left;
  }

  predicate Alphanumeric(c: char) {
    'A' <= c <= 'Z' || 'a' <= c <= 'z' || '0' <= c <= '9'
  }

  ghost predicate NoneAlphanumeric(s: string) {
    forall i :: 0 <= i < |s| ==> !Alphanumeric(s[i])
  }

  ghost predicate AllJoints(s: string) {
    forall i :: 0 <= i < |s| ==> Joint(s[i])
  }

  lemma {:induction false} JointsLeftPad(a: string, s: string)
    requires AllJoints(a) && (s == "" || !Joint(s[0]))
    ensures TrimJointsLeft(a + s) == s
  {
    if a == "" {
      assert a + s == s;
    } else {
      assert (a + s)[1..] == a[1..] + s;
      JointsLeftPad(a[1..], s);
    }
  }

  lemma {:induction false} JointsRightPad(s: string, b: string)
    requires AllJoints(b) && (s == "" || !Joint(s[|s| - 1]))
    ensures TrimJointsRight(s + b) == s
  {
    if b == "" {
      assert s + b == s;
    } else {
      assert (s + b)[..|s + b| - 1] == s + b[..|b| - 1];
      JointsRightPad(s, b[..|b| - 1]);
    }
  }

  lemma {:induction false} SanitizeConcat(a: string, b: string)
    ensures Sanitize(a + b) == Sanitize(a) + Sanitize(b)
  {
    if a == "" {
      assert a + b == b;
    } else {
      assert (a + b)[1..] == a[1..] + b;
      SanitizeConcat(a[1..], b);
      ConcatAssoc([if SafeChar(a[0]) then a[0] else '_'], Sanitize(a[1..]), Sanitize(b));
    }
  }

  lemma SanitizedJoints(s: string)
    requires NoneAlphanumeric(s)
    ensures AllJoints(Sanitize(s))
  {
    SanitizeIs(s);
  }

  lemma JointsOnly(left: string, right: string)
    requires AllJoints(left) && AllJoints(right)
    ensures TrimJointsLeft(left + right) == ""
  {
    var all := left + right;
    assert AllJoints(all);
    assert all + "" == all;
    JointsLeftPad(all, "");
  }

  lemma JointsAround(left: string, named: string, right: string)
    requires AllJoints(left) && AllJoints(right)
    requires named == "" || (!Joint(named[0]) && !Joint(named[|named| - 1]))
    ensures TrimJointsRight(TrimJointsLeft(left + (named + right))) == named
  {
    if named == "" {
      assert named + right == right;
      JointsOnly(left, right);
    } else {
      assert (named + right)[0] == named[0];
      JointsLeftPad(left, named + right);
      JointsRightPad(named, right);
    }
  }

  /** A key that is not a DOI is named after its stretch from the first to the last letter
      or digit, in which letters, digits, dots, dashes and underscores stay and every
      other character becomes an underscore; a key without one is an `article`. */
  lemma FileNameOfKey(doi: string, a: string, s: string, b: string, named: string)
    requires TrimSpace(doi) == a + s + b && !HasPrefix(a + s + b, "10.")
    requires NoneAlphanumeric(a) && NoneAlphanumeric(b)
    requires s == "" || (Alphanumeric(s[0]) && Alphanumeric(s[|s| - 1]))
    requires |named| == |s|
    requires forall i :: 0 <= i < |s| ==> named[i] == if Alphanumeric(s[i]) || s[i] in {'.', '_', '-'} then s[i] else '_'
    ensures FileName(doi) == (if s == "" then "article" else named) + ".md"
  {
    SanitizeConcat(a + s, b);
    SanitizeConcat(a, s);
    ConcatAssoc(Sanitize(a), Sanitize(s), Sanitize(b));
    SanitizedJoints(a);
    SanitizedJoints(b);
    SanitizeIs(s);
    assert Sanitize(s) == named;
    JointsAround(Sanitize(a), named, Sanitize(b));
  }
}
