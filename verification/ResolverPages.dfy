/** What a resolution adds to a text: the pages, in the order of their candidates. */
module ResolverPages {
  import opened Sequences
  import opened Text
  import opened Resolver

  // ----- candidates

  /** The candidates are the trimmed non-blank URLs, each once, and more URLs only add
      candidates at the end: so each stands where it first occurs. */
  lemma {:induction false} UniqueIs(urls: seq<string>)
    ensures forall u :: u in Unique(urls) <==> u != "" && exists i :: 0 <= i < |urls| && TrimSpace(urls[i]) == u
    ensures forall i, j :: 0 <= i < j < |Unique(urls)| ==> Unique(urls)[i] != Unique(urls)[j]
    decreases |urls|
  {
    if urls != [] {
      var init, last := urls[..|urls| - 1], TrimSpace(urls[|urls| - 1]);
      UniqueIs(init);
      forall u
        ensures u in Unique(urls) <==> u != "" && exists i :: 0 <= i < |urls| && TrimSpace(urls[i]) == u
      {
        assert forall i :: 0 <= i < |init| ==> init[i] == urls[i];
        assert TrimSpace(urls[|urls| - 1]) == last;
      }
    }
  }

  lemma {:induction false} UniqueGrows(urls: seq<string>, n: nat)
    requires n <= |urls|
    ensures Unique(urls[..n]) <= Unique(urls)
    decreases |urls|
  {
    if n == |urls| {
      assert urls[..n] == urls;
    } else {
      var init := urls[..|urls| - 1];
      assert init[..n] == urls[..n];
      UniqueGrows(init, n);
    }
  }

  // ----- what one page adds

  function Beside(best: string, page: string): string {
    if best == "" then page else best + " " + page
  }

  lemma NormalizeTidy(page: string)
    requires Normal(page)
    ensures Normalize(page) == page
  {
    TrimOfTrimmed(page);
    CollapseOfTidy(page);
  }

  /** The part of a page that fits: cut, and trimmed at its end. */
  lemma CutNormal(page: string, room: nat)
    requires Normal(page) && page != "" && room > 0
    ensures var cut := TruncateRunes(page, room);
      && cut != "" && cut[0] == page[0] && TrimRight(cut) != "" && TrimRight(cut) <= page && Normal(TrimRight(cut))
  {
    var cut := TruncateRunes(page, room);
    TruncatedPrefix(page, room);
    assert cut[0] == page[0];
    TrimRightNonBlank(cut);
    TrimRightFirst(cut);
    TrimRightIsPart(cut);
    assert cut == page[..|cut|];
    assert TrimRight(cut) == page[0..|TrimRight(cut)|];
    TidyPart(page, 0, |TrimRight(cut)|);
  }

  /** Merging keeps the text, and adds a space and what fits of the page. */
  lemma MergeAdds(best: string, page: string)
    requires Normal(best) && Normal(page) && page != "" && |best| < MAX_TEXT
    ensures Merge(best, page) == Beside(best, TrimRight(page[..if |page| < MAX_TEXT - |best| then |page| else MAX_TEXT - |best|]))
  {
    var room := MAX_TEXT - |best|;
    var cut := TruncateRunes(page, room);
    CutNormal(page, room);
    TruncatedPrefix(page, room);
    assert cut == page[..if |page| < room then |page| else room];
    TrimTwice(best + " " + cut);
    CollapseOfTidy(TrimRight(cut));
    if best == "" {
      TrimmedBehindSpace(cut);
      NormalizeOf(" " + cut, TrimRight(cut));
    } else {
      MergeShape(best, cut);
      TrimOfTrimmed(TrimRight(cut));
    }
  }

  lemma TrimmedBehindSpace(cut: string)
    requires cut != "" && !IsSpace(cut[0])
    ensures "" + " " + cut == " " + cut && TrimSpace(" " + cut) == TrimRight(cut)
  {
    assert (" " + cut)[1..] == cut;
    assert TrimLeft(" " + cut) == TrimLeft(cut) == cut;
  }

  lemma NormalizeOf(s: string, t: string)
    requires TrimSpace(s) == t && Normal(t)
    ensures Normalize(s) == t
  {
    CollapseOfTidy(t);
    TrimOfTrimmed(t);
  }

  /** A page that fits is added whole. */
  lemma MergeFits(best: string, page: string)
    requires Normal(best) && Normal(page) && page != "" && |best| + |page| <= MAX_TEXT
    ensures Merge(best, page) == Beside(best, page)
  {
    assert page[..|page|] == page;
    MergeAdds(best, page);
    assert TrimRight(page) == page;
  }

  // ----- which pages are fresh

  predicate FetchedBefore(urls: seq<string>, fetch: string -> string, n: nat, page: string)
    requires n <= |urls|
  {
    exists i :: 0 <= i < n && fetch(urls[i]) == page
  }

  /** What is remembered is what was fetched. */
  predicate Remembers(start: string, urls: seq<string>, fetch: string -> string, n: nat, page: string)
    requires n <= |urls|
  {
    page in After(start, urls, fetch, n).seen <==> page == start || FetchedBefore(urls, fetch, n, page)
  }

  lemma {:induction false} SeenPages(start: string, urls: seq<string>, fetch: string -> string, n: nat, page: string)
    requires n <= |urls| && page != ""
    ensures Remembers(start, urls, fetch, n, page)
  {
    if n == 0 {
      NothingSeen(start, urls, fetch, page);
    } else {
      SeenPages(start, urls, fetch, n - 1, page);
      SeenMore(start, urls, fetch, n - 1, page);
    }
  }

  lemma NothingSeen(start: string, urls: seq<string>, fetch: string -> string, page: string)
    ensures Remembers(start, urls, fetch, 0, page)
  {
    assert !FetchedBefore(urls, fetch, 0, page);
  }

  lemma SeenMore(start: string, urls: seq<string>, fetch: string -> string, n: nat, page: string)
    requires n < |urls| && page != "" && Remembers(start, urls, fetch, n, page)
    ensures Remembers(start, urls, fetch, n + 1, page)
  {
    AfterSees(start, urls, fetch, n, page);
    FetchedMore(urls, fetch, n, page);
  }

  lemma AfterSees(start: string, urls: seq<string>, fetch: string -> string, n: nat, page: string)
    requires n < |urls| && page != ""
    ensures page in After(start, urls, fetch, n + 1).seen <==>
            page in After(start, urls, fetch, n).seen || fetch(urls[n]) == page
  {
    StepSees(After(start, urls, fetch, n), fetch(urls[n]), page);
  }

  lemma StepSees(p: Progress, text: string, page: string)
    requires page != ""
    ensures page in Step(p, text).seen <==> page in p.seen || text == page
  {
  }

  lemma FetchedMore(urls: seq<string>, fetch: string -> string, n: nat, page: string)
    requires n < |urls|
    ensures FetchedBefore(urls, fetch, n + 1, page) <==> FetchedBefore(urls, fetch, n, page) || fetch(urls[n]) == page
  {
  }

  /** A page that is not empty, not the existing text and not fetched before. */
  predicate Fresh(start: string, urls: seq<string>, fetch: string -> string, n: nat)
    requires n < |urls|
  {
    var page := fetch(urls[n]);
    page != "" && page != start && !FetchedBefore(urls, fetch, n, page)
  }

  /** A text with what fits of a page behind a space. */
  function WithPage(best: string, page: string): string
    requires |best| <= MAX_TEXT
  {
    if |page| <= MAX_TEXT - |best| then Beside(best, page) else Beside(best, TrimRight(page[..MAX_TEXT - |best|]))
  }

  /** A fresh page adds what fits of it; any other page adds nothing. */
  lemma PageAdds(start: string, urls: seq<string>, fetch: string -> string, n: nat)
    requires Normal(start) && NormalPages(fetch) && n < |urls| && ShortBefore(start, urls, fetch, n + 1)
    ensures var best := After(start, urls, fetch, n).best;
      After(start, urls, fetch, n + 1).best == if Fresh(start, urls, fetch, n) then WithPage(best, fetch(urls[n])) else best
  {
    AfterKeeps(start, urls, fetch, n);
    AfterAdds(start, urls, fetch, n);
    FreshUnseen(start, urls, fetch, n);
  }

  lemma FreshUnseen(start: string, urls: seq<string>, fetch: string -> string, n: nat)
    requires n < |urls|
    ensures Fresh(start, urls, fetch, n) <==> fetch(urls[n]) != "" && fetch(urls[n]) !in After(start, urls, fetch, n).seen
  {
    if fetch(urls[n]) != "" {
      SeenPages(start, urls, fetch, n, fetch(urls[n]));
    }
  }

  lemma AfterAdds(start: string, urls: seq<string>, fetch: string -> string, n: nat)
    requires NormalPages(fetch) && n < |urls|
    requires Normal(After(start, urls, fetch, n).best) && |After(start, urls, fetch, n).best| < MAX_TEXT
    ensures var p, page := After(start, urls, fetch, n), fetch(urls[n]);
      After(start, urls, fetch, n + 1).best == if page != "" && page !in p.seen then WithPage(p.best, page) else p.best
  {
    StepAdds(After(start, urls, fetch, n), fetch(urls[n]));
  }

  lemma StepAdds(p: Progress, page: string)
    requires Normal(p.best) && Normal(page) && |p.best| < MAX_TEXT
    ensures Step(p, page).best == if page != "" && page !in p.seen then WithPage(p.best, page) else p.best
  {
    if page != "" {
      MergeIs(p.best, page);
    }
  }

  lemma MergeIs(best: string, page: string)
    requires Normal(best) && Normal(page) && page != "" && |best| < MAX_TEXT
    ensures Merge(best, page) == WithPage(best, page) && |Merge(best, page)| > |best|
  {
    if |page| <= MAX_TEXT - |best| {
      MergeFits(best, page);
    } else {
      var room := MAX_TEXT - |best|;
      MergeAdds(best, page);
      CutNormal(page, room);
      assert TruncateRunes(page, room) == page[..room];
    }
  }

  // ----- all pages

  /** The fresh pages among the first n, in the order of the candidates. */
  function FreshPages(start: string, urls: seq<string>, fetch: string -> string, n: nat): seq<string>
    requires n <= |urls|
  {
    if n == 0 then []
    else FreshPages(start, urls, fetch, n - 1) + if Fresh(start, urls, fetch, n - 1) then [fetch(urls[n - 1])] else []
  }

  /** The existing text, if there is any, and the fresh pages. */
  function Texts(start: string, urls: seq<string>, fetch: string -> string, n: nat): seq<string>
    requires n <= |urls|
  {
    (if start == "" then [] else [start]) + FreshPages(start, urls, fetch, n)
  }

  lemma {:induction false} FreshNonEmpty(start: string, urls: seq<string>, fetch: string -> string, n: nat)
    requires n <= |urls|
    ensures forall s :: s in Texts(start, urls, fetch, n) ==> s != ""
  {
    if n > 0 {
      FreshNonEmpty(start, urls, fetch, n - 1);
      var before := Texts(start, urls, fetch, n - 1);
      assert Texts(start, urls, fetch, n) == before + if Fresh(start, urls, fetch, n - 1) then [fetch(urls[n - 1])] else [];
    }
  }

  lemma {:induction false} JoinMore(texts: seq<string>, page: string)
    requires forall s :: s in texts ==> s != ""
    ensures Join(texts + [page], " ") == Beside(Join(texts, " "), page)
    ensures texts != [] ==> Join(texts, " ") != ""
  {
    if texts == [] {
      assert texts + [page] == [page];
    } else {
      JoinConcat(texts, [page], " ");
      assert texts[0] in texts;
    }
  }

  /** If everything fits, the text is the existing one and all fresh pages. */
  predicate Joined(start: string, urls: seq<string>, fetch: string -> string, n: nat)
    requires n <= |urls|
  {
    var all := Join(Texts(start, urls, fetch, n), " ");
    |all| <= MAX_TEXT ==> After(start, urls, fetch, n).best == all
  }

  /** As long as everything fits, the result is the existing text and all fresh pages,
      joined by spaces in the order of the candidates. */
  lemma {:induction false} PagesJoined(start: string, urls: seq<string>, fetch: string -> string, n: nat)
    requires Normal(start) && NormalPages(fetch) && n <= |urls| && ShortBefore(start, urls, fetch, n)
    ensures Joined(start, urls, fetch, n)
  {
    if n == 0 {
      NothingJoined(start, urls, fetch);
    } else {
      PagesJoined(start, urls, fetch, n - 1);
      JoinedMore(start, urls, fetch, n - 1);
    }
  }

  lemma NothingJoined(start: string, urls: seq<string>, fetch: string -> string)
    ensures Joined(start, urls, fetch, 0)
  {
    assert Texts(start, urls, fetch, 0) == if start == "" then [] else [start];
  }

  lemma JoinedMore(start: string, urls: seq<string>, fetch: string -> string, n: nat)
    requires Normal(start) && NormalPages(fetch) && n < |urls| && ShortBefore(start, urls, fetch, n + 1)
    requires Joined(start, urls, fetch, n)
    ensures Joined(start, urls, fetch, n + 1)
  {
    TextsMore(start, urls, fetch, n);
    PageAdds(start, urls, fetch, n);
    WholePage(Join(Texts(start, urls, fetch, n), " "), fetch(urls[n]));
  }

  lemma WholePage(best: string, page: string)
    ensures |Beside(best, page)| <= MAX_TEXT ==> |best| <= MAX_TEXT && WithPage(best, page) == Beside(best, page)
  {
  }

  /** One more candidate: nothing changes, or its page is joined at the end. */
  lemma TextsMore(start: string, urls: seq<string>, fetch: string -> string, n: nat)
    requires n < |urls|
    ensures var (before, after) := (Join(Texts(start, urls, fetch, n), " "), Join(Texts(start, urls, fetch, n + 1), " "));
      && |before| <= |after|
      && after == if Fresh(start, urls, fetch, n) then Beside(before, fetch(urls[n])) else before
  {
    var texts := Texts(start, urls, fetch, n);
    FreshNonEmpty(start, urls, fetch, n);
    JoinMore(texts, fetch(urls[n]));
    TextsNext(start, urls, fetch, n);
  }

  lemma TextsNext(start: string, urls: seq<string>, fetch: string -> string, n: nat)
    requires n < |urls|
    ensures Texts(start, urls, fetch, n + 1)
            == if Fresh(start, urls, fetch, n) then Texts(start, urls, fetch, n) + [fetch(urls[n])] else Texts(start, urls, fetch, n)
  {
    var first := if start == "" then [] else [start];
    var pages := FreshPages(start, urls, fetch, n);
    ConcatAssoc(first, pages, [fetch(urls[n])]);
    assert pages + [] == pages;
  }

  // ----- normalisation

  /** Normalising keeps every character that is not white space, in order. */
  lemma NormalizeKeepsInk(s: string)
    ensures Ink(Normalize(s)) == Ink(s)
  {
    TrimKeepsInk(s);
    BlanksKeepInk(TrimSpace(s));
    TrimKeepsInk(Resolver.Collapse(TrimSpace(s)));
  }

  lemma TrimKeepsInk(s: string)
    ensures Ink(TrimSpace(s)) == Ink(s)
  {
    var a, b := TrimParts(s);
    InkOfSpace(a);
    InkOfSpace(b);
    InkConcat(a + TrimSpace(s), b);
    InkConcat(a, TrimSpace(s));
    assert "" + Ink(TrimSpace(s)) + "" == Ink(TrimSpace(s));
  }

  lemma {:induction false} InkOfSpace(s: string)
    requires AllSpace(s)
    ensures Ink(s) == ""
  {
    if s != "" {
      assert forall i :: 0 <= i < |s[1..]| ==> s[1..][i] == s[i + 1];
      InkOfSpace(s[1..]);
    }
  }

  lemma {:induction false} BlanksKeepInk(s: string)
    ensures Ink(Resolver.Collapse(s)) == Ink(s)
  {
    if s != "" {
      BlanksKeepInk(s[1..]);
      if IsBlank(s[0]) && !(|s| > 1 && IsBlank(s[1])) {
        InkConcat(" ", Resolver.Collapse(s[1..]));
        assert Ink(" ") == "";
      } else if !IsBlank(s[0]) {
        assert ([s[0]] + Resolver.Collapse(s[1..]))[1..] == Resolver.Collapse(s[1..]);
      }
    }
  }

  lemma {:induction false} BlankEnd(a: string, g: string)
    requires g != "" && (forall c :: c in g ==> IsBlank(c)) && (a == "" || !IsBlank(a[|a| - 1]))
    ensures Resolver.Collapse(a + g) == Resolver.Collapse(a) + " "
    decreases |a| + |g|
  {
    if a != "" {
      FirstOfConcat(a, g);
      if |a| > 1 {
        assert a[1..][|a| - 2] == a[|a| - 1];
      }
      BlankEnd(a[1..], g);
      ConcatAssoc(if IsBlank(a[0]) then " " else [a[0]], Resolver.Collapse(a[1..]), " ");
    } else {
      assert a + g == g;
      if |g| > 1 {
        assert g[1] in g;
        BlankEnd("", g[1..]);
        assert "" + g[1..] == g[1..];
      }
    }
  }

  /** Collapsing keeps the ends of a trimmed text. */
  lemma CollapseTrimmed(s: string)
    requires s != "" && Trimmed(s)
    ensures Resolver.Collapse(s) != "" && Trimmed(Resolver.Collapse(s))
  {
    var init, last := s[..|s| - 1], [s[|s| - 1]];
    assert s == init + last;
    CollapseConcat(init, last);
    CollapseTidy(s);
  }

  /** White space around a text does not matter, and blanks, tabs and line ends between
      two texts become one space. */
  lemma NormalizeGap(x: string, a: string, g: string, b: string, y: string)
    requires AllSpace(x) && AllSpace(y) && a != "" && Trimmed(a) && b != "" && Trimmed(b)
    requires g != "" && forall c :: c in g ==> c in {' ', '\t', '\n', '\r', '\U{0C}'}
    ensures Normalize(x + (a + g + b) + y) == Normalize(a) + " " + Normalize(b)
  {
    var s := a + g + b;
    TrimPad(x, s, y);
    TrimOfTrimmed(s);
    TrimOfTrimmed(a);
    TrimOfTrimmed(b);
    BlankEnd(a, g);
    CollapseConcat(a + g, b);
    CollapseTrimmed(a);
    CollapseTrimmed(b);
    TrimOfTrimmed(Resolver.Collapse(a));
    TrimOfTrimmed(Resolver.Collapse(b));
    TrimOfTrimmed(Resolver.Collapse(s));
  }
}
