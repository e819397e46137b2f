/** Which objects are found in a model's answer: the code fence around them, the
    language behind the fence and prose behind its end do not matter. */
module JsonFences {
  import opened Wrappers
  import opened Sequences
  import opened Text
  import opened JsonRecovery
  import opened JsonGrammar

  const FENCE := "```"

  // ----- text that holds no part of an object

  /** Neither braces nor quotation marks. */
  ghost predicate Inert(s: string) {
    '{' !in s && '}' !in s && '"' !in s
  }

  lemma SpaceInert(s: string)
    requires AllSpace(s)
    ensures Inert(s)
  {
  }

  lemma {:induction false} ConsumedInert(s: string, depth: nat, st: StringState)
    requires depth > 0 && Inert(s)
    ensures Consumed(s, depth, st) == None
    decreases |s|
  {
    if s != "" {
      ConsumedInert(s[1..], depth, st.Step(s[0]));
    }
  }

  /** Inert text behind a text neither closes an object nor keeps one open. */
  lemma {:induction false} ConsumedThenInert(s: string, b: string, depth: nat, st: StringState)
    requires depth > 0 && Inert(b)
    ensures Consumed(s + b, depth, st) == Consumed(s, depth, st)
    decreases |s|
  {
    if s == "" {
      assert s + b == b;
      ConsumedInert(b, depth, st);
    } else {
      assert (s + b)[1..] == s[1..] + b;
      var next := ScanDepth(depth, st, s[0]);
      if next > 0 {
        ConsumedThenInert(s[1..], b, next, st.Step(s[0]));
      }
    }
  }

  lemma {:induction false} InertCandidates(b: string)
    requires Inert(b)
    ensures Candidates(b) == []
  {
    if b != "" {
      InertCandidates(b[1..]);
    }
  }

  lemma CandidateThen(s: string, b: string, n: nat)
    requires s != "" && s[0] == '{' && Consumed(s[1..], 1, Outside) == Some(n) && Inert(b)
    ensures Candidates(s + b) == [s[..n + 1]] + Candidates(s[n + 1..] + b)
  {
    ConsumedThenInert(s[1..], b, 1, Outside);
    assert (s + b)[1..] == s[1..] + b;
    assert (s + b)[..n + 1] == s[..n + 1] && (s + b)[n + 1..] == s[n + 1..] + b;
  }

  lemma {:induction false} CandidatesThenInert(s: string, b: string)
    requires Inert(b)
    ensures Candidates(s + b) == Candidates(s)
    decreases |s|
  {
    if s == "" {
      assert s + b == b;
      InertCandidates(b);
    } else if s[0] != '{' {
      assert (s + b)[1..] == s[1..] + b;
      CandidatesThenInert(s[1..], b);
    } else {
      ConsumedThenInert(s[1..], b, 1, Outside);
      assert (s + b)[1..] == s[1..] + b;
      if Consumed(s[1..], 1, Outside).Some? {
        var n := Consumed(s[1..], 1, Outside).value;
        CandidateThen(s, b, n);
        CandidatesThenInert(s[n + 1..], b);
      }
    }
  }

  lemma {:induction false} CandidatesBehindInert(a: string, s: string)
    requires Inert(a)
    ensures Candidates(a + s) == Candidates(s)
  {
    if a == "" {
      assert a + s == s;
    } else {
      assert (a + s)[1..] == a[1..] + s;
      CandidatesBehindInert(a[1..], s);
    }
  }

  /** White space around a text does not matter. */
  lemma CandidatesOfTrimmed(s: string)
    ensures Candidates(TrimSpace(s)) == Candidates(s)
  {
    var a, b := TrimParts(s);
    SpaceInert(a);
    SpaceInert(b);
    CandidatesThenInert(a + TrimSpace(s), b);
    CandidatesBehindInert(a, TrimSpace(s));
  }

  // ----- the last fence

  lemma {:induction false} LastIs(s: string, p: string, i: nat, k: nat)
    requires k <= i <= |s| && Occurs(s, p, k) && forall j :: k < j <= i ==> !Occurs(s, p, j)
    ensures LastIndexFrom(s, p, i) == k
  {
    MatchOccurs(s, p, i);
    if i > k {
      LastIs(s, p, i - 1, k);
    }
  }

  lemma {:induction false} LastIsNone(s: string, p: string, i: nat)
    requires i <= |s| && Absent(s, p)
    ensures LastIndexFrom(s, p, i) == -1
  {
    MatchOccurs(s, p, i);
    if i > 0 {
      LastIsNone(s, p, i - 1);
    }
  }

  /** Text behind a fence that does not go on with a fence. */
  ghost predicate Prose(s: string) {
    Absent(s, FENCE) && (s == "" || s[0] != '`')
  }

  lemma FenceIsLast(prose: string)
    requires Prose(prose)
    ensures Occurs(FENCE + prose, FENCE, 0) && forall j :: 0 < j ==> !Occurs(FENCE + prose, FENCE, j)
  {
    var s := FENCE + prose;
    forall j | 0 < j
      ensures !Occurs(s, FENCE, j)
    {
      if j >= 3 {
        OccursShift(FENCE, prose, FENCE, j);
      } else if j + 3 <= |s| {
        assert FENCE[3 - j] == '`' && s[j + (3 - j)] == prose[0];
      }
    }
  }

  lemma LastFence(t: string, prose: string)
    requires Prose(prose)
    ensures var s := t + (FENCE + prose); LastIndexFrom(s, FENCE, |s|) == |t| && s[..|t|] == t
  {
    var s := t + (FENCE + prose);
    FenceIsLast(prose);
    forall j | j >= |t|
      ensures Occurs(s, FENCE, j) <==> Occurs(FENCE + prose, FENCE, j - |t|)
    {
      OccursShift(t, FENCE + prose, FENCE, j);
    }
    LastIs(s, FENCE, |s|, |t|);
  }

  lemma FirstNewline(a: string, b: string)
    requires '\n' !in a
    ensures Index(a + ("\n" + b), "\n") == |a| && (a + ("\n" + b))[|a| + 1..] == b
  {
    AbsentNoNewline(a, "\n");
    forall i | i < |a|
      ensures !Occurs(a + ("\n" + b), "\n", i)
    {
      OccursSplit(a, "\n" + b, "\n", i);
    }
    OccursSplit(a, "\n" + b, "\n", |a|);
    IndexIs(a + ("\n" + b), "\n", |a|);
  }

  lemma NoNewline(s: string)
    requires '\n' !in s
    ensures Index(s, "\n") == -1
  {
    AbsentNoNewline(s, "\n");
    IndexSpec(s, "\n");
  }

  // ----- trimmed answers

  lemma FencedTrimmed(content: string, tag: string, t: string, prose: string)
    requires '\n' !in tag && Prose(prose) && TrimSpace(content) == (FENCE + tag) + ("\n" + (t + (FENCE + prose)))
    ensures Unfence(content) == TrimSpace(t)
  {
    var trimmed := TrimSpace(content);
    assert trimmed[..3] == FENCE;
    assert '\n' !in FENCE + tag;
    FirstNewline(FENCE + tag, t + (FENCE + prose));
    LastFence(t, prose);
  }

  lemma OpenTrimmed(content: string, tag: string, t: string)
    requires '\n' !in tag && Absent(t, FENCE) && TrimSpace(content) == (FENCE + tag) + ("\n" + t)
    ensures Unfence(content) == t
  {
    var trimmed := TrimSpace(content);
    assert trimmed[..3] == FENCE;
    assert '\n' !in FENCE + tag;
    FirstNewline(FENCE + tag, t);
    LastIsNone(t, FENCE, |t|);
  }

  lemma LineTrimmed(content: string, x: string, prose: string)
    requires '\n' !in x && '\n' !in prose && Prose(prose) && HasPrefix(x + (FENCE + prose), FENCE)
    requires TrimSpace(content) == x + (FENCE + prose)
    ensures Unfence(content) == TrimSpace(x)
  {
    var trimmed := TrimSpace(content);
    assert '\n' !in trimmed;
    NoNewline(trimmed);
    LastFence(x, prose);
  }

  // ----- where the white space around an answer goes

  lemma TrimFront(a: string, b: string)
    requires a != "" && !IsSpace(a[0]) && TrimRight(b) != ""
    ensures TrimSpace(a + b) == a + TrimRight(b)
  {
    assert (a + b)[0] == a[0];
    TrimRightTail(a, b);
  }

  lemma FenceThenProse(prose: string)
    requires Prose(prose)
    ensures TrimRight(FENCE + prose) == FENCE + TrimRight(prose) && Prose(TrimRight(prose))
  {
    var b := TrimRightParts(prose);
    if TrimRight(prose) == "" {
      TrimRightPad(FENCE, prose);
    } else {
      TrimRightTail(FENCE, prose);
      TrimRightFirst(prose);
    }
    PartOfAbsent(TrimRight(prose), b, FENCE);
  }

  lemma PartOfAbsent(a: string, b: string, p: string)
    requires Absent(a + b, p)
    ensures Absent(a, p)
  {
    forall i
      ensures !Occurs(a, p, i)
    {
      OccursInFront(a, b, p, i);
    }
  }

  // ----- the answers

  /** White space around an answer does not matter. */
  lemma PaddedAnswer(p: string, content: string, q: string)
    requires AllSpace(p) && AllSpace(q)
    ensures CandidatesOf(p + content + q) == CandidatesOf(content)
  {
    TrimPad(p, content, q);
  }

  /** Without a fence in front the objects of the answer itself are found. */
  lemma PlainAnswer(content: string, objects: seq<string>)
    requires !HasPrefix(TrimSpace(content), FENCE)
    ensures objects == CandidatesOf(content) <==> Splits(content, objects)
  {
    ScannerMeetsGrammar(content, objects);
    CandidatesOfTrimmed(content);
  }

  /** In a fence the objects between the line of the opening fence and the last fence
      are found, whatever the language and the prose behind. */
  lemma FencedAnswer(tag: string, t: string, prose: string, objects: seq<string>)
    requires '\n' !in tag && Prose(prose)
    ensures objects == CandidatesOf((FENCE + tag) + ("\n" + (t + (FENCE + prose)))) <==> Splits(t, objects)
  {
    FencedUnfenced(tag, t, prose);
    CandidatesOfTrimmed(t);
    ScannerMeetsGrammar(t, objects);
  }

  lemma FencedUnfenced(tag: string, t: string, prose: string)
    requires '\n' !in tag && Prose(prose)
    ensures Unfence((FENCE + tag) + ("\n" + (t + (FENCE + prose)))) == TrimSpace(t)
  {
    var content := (FENCE + tag) + ("\n" + (t + (FENCE + prose)));
    FenceThenProse(prose);
    FrontStarts(FENCE + tag, t);
    TrimFront((FENCE + tag) + "\n" + t, FENCE + prose);
    Regroup(FENCE + tag, "\n", t, FENCE + prose);
    Regroup(FENCE + tag, "\n", t, FENCE + TrimRight(prose));
    FencedTrimmed(content, tag, t, TrimRight(prose));
  }

  lemma FrontStarts(head: string, t: string)
    requires head != "" && !IsSpace(head[0])
    ensures head + "\n" + t != "" && !IsSpace((head + "\n" + t)[0])
  {
  }

  lemma Regroup(a: string, b: string, c: string, d: string)
    ensures a + (b + (c + d)) == (a + b + c) + d
  {
  }

  /** A fence that is never closed hides nothing either. */
  lemma OpenAnswer(tag: string, t: string, objects: seq<string>)
    requires '\n' !in tag && Absent(t, FENCE) && TrimSpace(t) != ""
    ensures objects == CandidatesOf((FENCE + tag) + ("\n" + t)) <==> Splits(t, objects)
  {
    OpenUnfenced(tag, t);
    var b := TrimRightParts(t);
    SpaceInert(b);
    CandidatesThenInert(TrimRight(t), b);
    ScannerMeetsGrammar(t, objects);
  }

  lemma OpenUnfenced(tag: string, t: string)
    requires '\n' !in tag && Absent(t, FENCE) && TrimSpace(t) != ""
    ensures Unfence((FENCE + tag) + ("\n" + t)) == TrimRight(t)
  {
    var b := TrimRightParts(t);
    assert TrimRight(t) == "" ==> t == b;
    if TrimRight(t) == "" {
      TrimLeftAllSpace(t);
    }
    PartOfAbsent(TrimRight(t), b, FENCE);
    ConcatAssoc(FENCE + tag, "\n", t);
    TrimFront(FENCE + tag + "\n", t);
    ConcatAssoc(FENCE + tag, "\n", TrimRight(t));
    OpenTrimmed((FENCE + tag) + ("\n" + t), tag, TrimRight(t));
  }

  /** On a single line the objects in front of the last fence are found; without a
      second fence there are none, since the opening fence is the last. */
  lemma OneLineAnswer(x: string, prose: string, objects: seq<string>)
    requires '\n' !in x && '\n' !in prose && Prose(prose) && HasPrefix(x + (FENCE + prose), FENCE)
    ensures objects == CandidatesOf(x + (FENCE + prose)) <==> Splits(x, objects)
  {
    ScannerMeetsGrammar(x, objects);
    LineTrimmedRight(x, prose);
    FenceThenProse(prose);
    LineTrimmed(x + (FENCE + prose), x, TrimRight(prose));
    CandidatesOfTrimmed(x);
  }

  lemma LineTrimmedRight(x: string, prose: string)
    requires Prose(prose) && '\n' !in prose && HasPrefix(x + (FENCE + prose), FENCE)
    ensures TrimSpace(x + (FENCE + prose)) == x + (FENCE + TrimRight(prose))
    ensures HasPrefix(x + (FENCE + TrimRight(prose)), FENCE) && '\n' !in TrimRight(prose)
  {
    StaysOneLine(prose);
    FenceThenProse(prose);
    StartsFenced(x, prose);
    StartsFenced(x, TrimRight(prose));
    TrimLine(x, FENCE + prose);
  }

  lemma StaysOneLine(s: string)
    requires '\n' !in s
    ensures '\n' !in TrimRight(s)
  {
    var b := TrimRightParts(s);
    assert forall c :: c in TrimRight(s) ==> c in TrimRight(s) + b;
  }

  lemma TrimLine(x: string, s: string)
    requires (x != "" ==> !IsSpace(x[0])) && s != "" && !IsSpace(s[0])
    ensures TrimSpace(x + s) == x + TrimRight(s)
  {
    TrimRightNonBlank(s);
    TrimRightTail(x, s);
    assert !IsSpace((x + s)[0]);
  }

  lemma StartsFenced(x: string, prose: string)
    ensures HasPrefix(x + (FENCE + prose), FENCE) <==> HasPrefix(x + FENCE, FENCE)
    ensures x != "" && HasPrefix(x + FENCE, FENCE) ==> x[0] == '`'
  {
    assert (x + (FENCE + prose))[..3] == (x + FENCE)[..3];
    assert x != "" ==> (x + FENCE)[..3][0] == x[0];
  }
}
