/** The merge of open-access full texts into the text an article already has. */
module Resolver {
  import opened Sequences
  import opened Text

  const MAX_CANDIDATES := 12
  const MAX_TEXT := 2_000_000

  // ----- normalisation

  /** What the pattern \s matches: fewer characters than the trimming removes. */
  predicate IsBlank(c: char) {
    c == ' ' || c == '\t' || c == '\n' || c == '\U{0C}' || c == '\r'
  }

  /** Every run of blanks becomes one space. */
  function Collapse(s: string): (r: string)
    ensures |r| <= |s|
  {
    if s == "" then ""
    else if !IsBlank(s[0]) then [s[0]] + Collapse(s[1..])
    else if |s| > 1 && IsBlank(s[1]) then Collapse(s[1..])
    else " " + Collapse(s[1..])
  }

  /** `NormalizeScholarly` without a length limit. */
  function Normalize(s: string): string {
    TrimSpace(Collapse(TrimSpace(s)))
  }

  /** Trimmed, and the only blanks are single spaces. */
  ghost predicate Normal(s: string) {
    Trimmed(s) && Tidy(s)
  }

  ghost predicate Tidy(s: string) {
    forall i :: 0 <= i < |s| && IsBlank(s[i]) ==> s[i] == ' ' && (i + 1 < |s| ==> !IsBlank(s[i + 1]))
  }

  lemma TidyCons(c: char, s: string)
    requires Tidy(s) && (IsBlank(c) ==> c == ' ' && (s != "" ==> !IsBlank(s[0])))
    ensures Tidy([c] + s)
  {
    forall i | 0 <= i < |[c] + s| && IsBlank(([c] + s)[i])
      ensures ([c] + s)[i] == ' ' && (i + 1 < |[c] + s| ==> !IsBlank(([c] + s)[i + 1]))
    {
      if i > 0 {
        assert ([c] + s)[i] == s[i - 1];
      }
    }
  }

  lemma {:induction false} CollapseTidy(s: string)
    ensures Tidy(Collapse(s))
    ensures s != "" && !IsBlank(s[0]) ==> Collapse(s) != "" && Collapse(s)[0] == s[0]
    ensures s != "" && IsBlank(s[0]) ==> Collapse(s) != "" && Collapse(s)[0] == ' '
  {
    if s != "" {
      CollapseTidy(s[1..]);
      if !IsBlank(s[0]) {
        TidyCons(s[0], Collapse(s[1..]));
      } else if !(|s| > 1 && IsBlank(s[1])) {
        TidyCons(' ', Collapse(s[1..]));
      }
    }
  }

  lemma {:induction false} CollapseOfTidy(s: string)
    requires Tidy(s)
    ensures Collapse(s) == s
  {
    if s != "" {
      assert Tidy(s[1..]) by {
        assert forall i :: 0 <= i < |s[1..]| ==> s[1..][i] == s[i + 1];
      }
      CollapseOfTidy(s[1..]);
      assert s == [s[0]] + s[1..];
    }
  }

  /** Collapsing goes piece by piece where one piece ends or the next begins without blanks. */
  lemma {:induction false} CollapseConcat(a: string, b: string)
    requires b == "" || !IsBlank(b[0])
    ensures Collapse(a + b) == Collapse(a) + Collapse(b)
  {
    if a == "" {
      assert a + b == b;
    } else {
      CollapseConcat(a[1..], b);
      FirstOfConcat(a, b);
      ConcatAssoc(if IsBlank(a[0]) then " " else [a[0]], Collapse(a[1..]), Collapse(b));
    }
  }

  lemma FirstOfConcat(a: string, b: string)
    requires a != ""
    ensures (a + b)[1..] == a[1..] + b && (a + b)[0] == a[0]
    ensures |a| > 1 ==> (a + b)[1] == a[1]
    ensures |a| == 1 && b != "" ==> (a + b)[1] == b[0]
  {
  }

  lemma TidyPart(s: string, i: nat, j: nat)
    requires Tidy(s) && i <= j <= |s|
    ensures Tidy(s[i..j])
  {
    assert forall k :: 0 <= k < j - i ==> s[i..j][k] == s[i + k];
  }

  /** Trimming cuts a stretch out. */
  lemma {:induction false} TrimLeftIsPart(s: string)
    ensures TrimLeft(s) == s[|s| - |TrimLeft(s)|..]
  {
    if s != "" && IsSpace(s[0]) {
      TrimLeftIsPart(s[1..]);
    }
  }

  lemma {:induction false} TrimRightIsPart(s: string)
    ensures TrimRight(s) == s[..|TrimRight(s)|]
  {
    if s != "" && IsSpace(s[|s| - 1]) {
      TrimRightIsPart(s[..|s| - 1]);
    }
  }

  lemma NormalizeNormal(s: string)
    ensures Normal(Normalize(s)) && |Normalize(s)| <= |s|
  {
    var c := Collapse(TrimSpace(s));
    CollapseTidy(TrimSpace(s));
    TrimLeftIsPart(c);
    TrimRightIsPart(TrimLeft(c));
    TidyPart(c, |c| - |TrimLeft(c)|, |c|);
    TidyPart(TrimLeft(c), 0, |TrimSpace(c)|);
  }

  /** Normalising twice is normalising once. */
  lemma NormalizeIdempotent(s: string)
    ensures Normalize(Normalize(s)) == Normalize(s)
  {
    NormalizeNormal(s);
    var n := Normalize(s);
    TrimOfTrimmed(n);
    CollapseOfTidy(n);
  }

  // ----- one merge

  /** Behind a normal text, a space and a text that starts without white space are kept. */
  lemma MergeShape(best: string, text: string)
    requires Normal(best) && best != "" && text != "" && !IsSpace(text[0])
    ensures Normalize(best + " " + text) == best + " " + TrimRight(Collapse(TrimRight(text)))
  {
    var t := TrimRight(text);
    TrimRightNonBlank(text);
    TrimRightFirst(text);
    TrimRightTail(best + " ", text);
    assert TrimLeft(best + " " + text) == best + " " + text;
    assert TrimSpace(best + " " + text) == (best + " ") + t;
    CollapseConcat(best + " ", t);
    CollapseSpaceEnd(best);
    CollapseTidy(t);
    var c := Collapse(t);
    assert c[0] == t[0] == text[0];
    TrimRightNonBlank(c);
    TrimRightTail(best + " ", c);
    assert TrimLeft((best + " ") + c) == (best + " ") + c;
  }

  lemma CollapseSpaceEnd(best: string)
    requires Normal(best) && best != ""
    ensures Collapse(best + " ") == best + " "
  {
    assert Tidy(best + " ") by {
      assert forall i :: 0 <= i < |best| ==> (best + " ")[i] == best[i];
    }
    CollapseOfTidy(best + " ");
  }

  // ----- the resolver

  function Merge(best: string, text: string): string {
    Normalize(TrimSpace(best + " " + TruncateRunes(text, MAX_TEXT - |best|)))
  }

  /** The candidates without blanks and repetitions, in order of first occurrence. */
  function Unique(urls: seq<string>): seq<string>
    decreases |urls|
  {
    if urls == [] then []
    else
      var before := Unique(urls[..|urls| - 1]);
      var url := TrimSpace(urls[|urls| - 1]);
      if url == "" || url in before then before else before + [url]
  }

  method CandidateURLs(urls: seq<string>) returns (unique: seq<string>)
    ensures unique == Unique(urls)
  {
    var seen: set<string> := {};
    unique := [];
    assert urls[..0] == [];
    for i := 0 to |urls|
      invariant unique == Unique(urls[..i])
      invariant forall u :: u in seen <==> u in unique
    {
      assert urls[..i + 1][..i] == urls[..i];
      var candidate := TrimSpace(urls[i]);
      if candidate == "" || candidate in seen {
        continue;
      }
      seen := seen + {candidate};
      unique := unique + [candidate];
    }
    assert urls[..|urls|] == urls;
  }

  datatype Progress = Progress(best: string, seen: set<string>)

  /** What the text of one page changes. */
  function Step(p: Progress, text: string): Progress {
    if text == "" || text in p.seen then p
    else
      var merged := Merge(p.best, text);
      Progress(if |merged| > |p.best| then merged else p.best, p.seen + {text})
  }

  /** The progress after the first n candidates. */
  function After(start: string, urls: seq<string>, fetch: string -> string, n: nat): Progress
    requires n <= |urls|
  {
    if n == 0 then Progress(start, {start}) else Step(After(start, urls, fetch, n - 1), fetch(urls[n - 1]))
  }

  /** The body of the loop over candidates. */
  method MergeText(p: Progress, page: string) returns (q: Progress)
    ensures q == Step(p, page)
  {
    var best, seenText := p.best, p.seen;
    if page == "" || page in seenText {
      return p;
    }
    seenText := seenText + {page};
    var merged := Merge(best, page);
    if |merged| > |best| {
      best := merged;
    }
    return Progress(best, seenText);
  }

  /** The text is short of the limit before each of the first n candidates. */
  predicate ShortBefore(start: string, urls: seq<string>, fetch: string -> string, n: nat)
    requires n <= |urls|
  {
    n == 0 || (|After(start, urls, fetch, n - 1).best| < MAX_TEXT && ShortBefore(start, urls, fetch, n - 1))
  }

  /** How many candidates are fetched: all of them, or twelve, or until the text is long enough. */
  predicate FetchesAll(start: string, urls: seq<string>, fetch: string -> string, n: nat)
  {
    && n <= |urls| && n <= MAX_CANDIDATES && ShortBefore(start, urls, fetch, n)
    && (n < |urls| && n < MAX_CANDIDATES ==> |After(start, urls, fetch, n).best| >= MAX_TEXT)
  }

  /** The loop of `Resolve`: merge until there are enough candidates or the text is long enough. */
  method MergeCandidates(start: string, candidates: seq<string>, fetch: string -> string)
    returns (best: string, fetched: nat)
    ensures FetchesAll(start, candidates, fetch, fetched)
    ensures best == After(start, candidates, fetch, fetched).best
  {
    fetched := 0;
    var p := Progress(start, {start});
    while fetched < |candidates| && fetched < MAX_CANDIDATES && |p.best| < MAX_TEXT
      invariant fetched <= |candidates| && fetched <= MAX_CANDIDATES
      invariant p == After(start, candidates, fetch, fetched)
      invariant ShortBefore(start, candidates, fetch, fetched)
      decreases |candidates| - fetched
    {
      p := MergeText(p, fetch(candidates[fetched]));
      fetched := fetched + 1;
    }
    best := p.best;
  }

  method Resolve(existing: string, doi: string, urls: seq<string>, fetch: string -> string)
    returns (best: string, fetched: nat)
    ensures TrimSpace(doi) == "" ==> best == Normalize(existing) && fetched == 0
    ensures TrimSpace(doi) != "" ==>
      && FetchesAll(Normalize(existing), Unique(urls), fetch, fetched)
      && best == After(Normalize(existing), Unique(urls), fetch, fetched).best
  {
    best, fetched := Normalize(existing), 0;
    if TrimSpace(doi) == "" {
      return;
    }
    var candidates := CandidateURLs(urls);
    best, fetched := MergeCandidates(best, candidates, fetch);
  }

  // ----- what a resolution keeps

  /** Pages are normalised before they are merged. */
  ghost predicate NormalPages(fetch: string -> string) {
    forall u :: Normal(fetch(u))
  }

  lemma TrimTwice(s: string)
    ensures Normalize(TrimSpace(s)) == Normalize(s)
  {
    TrimOfTrimmed(TrimSpace(s));
  }

  /** A merge has the best text as a prefix and is at most one longer than the limit. */
  lemma MergeKeeps(best: string, text: string)
    requires Normal(best) && Normal(text) && text != "" && |best| < MAX_TEXT
    ensures var m := Merge(best, text); Normal(m) && best <= m && |m| <= MAX_TEXT + 1
  {
    var cut := TruncateRunes(text, MAX_TEXT - |best|);
    TrimTwice(best + " " + cut);
    NormalizeNormal(best + " " + cut);
    if best != "" {
      MergeShape(best, cut);
    }
  }

  /** A step keeps the text or makes it strictly longer at its end. */
  lemma StepKeeps(p: Progress, text: string)
    requires Normal(p.best) && Normal(text) && |p.best| < MAX_TEXT
    ensures var q := Step(p, text);
      q.best == p.best || (Normal(q.best) && p.best < q.best && |p.best| < |q.best| <= MAX_TEXT + 1)
  {
    if text != "" {
      MergeKeeps(p.best, text);
    }
  }

  lemma {:induction false} AfterKeeps(start: string, urls: seq<string>, fetch: string -> string, n: nat)
    requires Normal(start) && NormalPages(fetch) && n <= |urls| && ShortBefore(start, urls, fetch, n)
    ensures var best := After(start, urls, fetch, n).best;
      Normal(best) && start <= best && (best == start || |best| <= MAX_TEXT + 1)
  {
    if n > 0 {
      AfterKeeps(start, urls, fetch, n - 1);
      StepKeeps(After(start, urls, fetch, n - 1), fetch(urls[n - 1]));
    }
  }

  /** The result keeps the normalised existing text as its prefix, fetches at most
      twelve candidates, and is never longer than the limit and one, or than the
      existing text. */
  lemma ResolveKeeps(existing: string, urls: seq<string>, fetch: string -> string, fetched: nat)
    requires NormalPages(fetch) && FetchesAll(Normalize(existing), Unique(urls), fetch, fetched)
    ensures var start := Normalize(existing); var best := After(start, Unique(urls), fetch, fetched).best;
      && start <= best && Normal(best) && fetched <= MAX_CANDIDATES
      && |best| <= if |start| > MAX_TEXT + 1 then |start| else MAX_TEXT + 1
  {
    NormalizeNormal(existing);
    AfterKeeps(Normalize(existing), Unique(urls), fetch, fetched);
  }

  /** Every step keeps the text or makes it strictly longer at its end. */
  lemma StepsLengthen(start: string, urls: seq<string>, fetch: string -> string, n: nat)
    requires Normal(start) && NormalPages(fetch) && n < |urls| && ShortBefore(start, urls, fetch, n + 1)
    ensures var (a, b) := (After(start, urls, fetch, n).best, After(start, urls, fetch, n + 1).best);
      a == b || (a < b && |a| < |b|)
  {
    AfterKeeps(start, urls, fetch, n);
    StepKeeps(After(start, urls, fetch, n), fetch(urls[n]));
  }
}
