/** The loops of the frozen-markdown printer and parsers, proved to compute the
    functions the round-trip theorems are about. */
module FrozenCode {
  import opened Wrappers
  import opened Sequences
  import opened Text
  import opened FrozenMarkdown
  import opened FrozenFrontMatter
  import FrozenQuotes

  // ----- the printer

  lemma AuthorNamesSnoc(authors: seq<string>, i: nat)
    requires i < |authors|
    ensures AuthorNames(authors[..i + 1]) == AuthorNames(authors[..i]) + AuthorNames([authors[i]])
  {
    AuthorNamesConcat(authors[..i], [authors[i]]);
    assert authors[..i + 1] == authors[..i] + [authors[i]];
  }

  lemma {:induction false} AuthorNamesConcat(a: seq<string>, b: seq<string>)
    ensures AuthorNames(a + b) == AuthorNames(a) + AuthorNames(b)
    decreases |a|
  {
    if a == [] {
      assert a + b == b;
    } else {
      var tail := a[1..];
      assert (a + b)[1..] == tail + b;
      AuthorNamesConcat(tail, b);
      ConcatAssoc(AuthorNames([a[0]]), AuthorNames(tail), AuthorNames(b));
    }
  }

  lemma {:induction false} ListItemsConcat(a: seq<string>, b: seq<string>)
    ensures ListItems(a + b) == ListItems(a) + ListItems(b)
  {
    if a == [] {
      assert a + b == b;
    } else {
      assert (a + b)[1..] == a[1..] + b;
      ListItemsConcat(a[1..], b);
    }
  }

  lemma OneName(author: string)
    ensures AuthorNames([author]) == if TrimSpace(author) == "" then [] else [CollapseWhitespace(TrimSpace(author))]
  {
    assert AuthorNames([author][1..]) == [];
  }

  lemma OneLineText(l: string)
    ensures LinesText([l]) == l + "\n"
  {
    assert LinesText([l][1..]) == "";
    assert l + "\n" + "" == l + "\n";
  }

  lemma AuthorStep(authors: seq<string>, i: nat)
    requires i < |authors|
    ensures var name := TrimSpace(authors[i]);
            ItemsText(authors[..i + 1])
            == ItemsText(authors[..i]) + (if name == "" then "" else "  - " + CollapseWhitespace(name) + "\n")
  {
    var name := TrimSpace(authors[i]);
    AuthorNamesSnoc(authors, i);
    OneName(authors[i]);
    ListItemsConcat(AuthorNames(authors[..i]), AuthorNames([authors[i]]));
    LinesTextConcat(ListItems(AuthorNames(authors[..i])), ListItems(AuthorNames([authors[i]])));
    if name != "" {
      assert ListItems([CollapseWhitespace(name)]) == ["  - " + CollapseWhitespace(name)];
      OneLineText("  - " + CollapseWhitespace(name));
    }
  }

  function ItemsText(authors: seq<string>): string {
    LinesText(ListItems(AuthorNames(authors)))
  }

  lemma AuthorsText(authors: seq<string>)
    requires authors != []
    ensures LinesText(AuthorLines(authors)) == "authors:\n" + ItemsText(authors)
  {
    LinesTextConcat(["authors:"], ListItems(AuthorNames(authors)));
    OneLineText("authors:");
  }

  lemma NoItemsYet(authors: seq<string>)
    ensures ItemsText(authors[..0]) == ""
  {
    assert authors[..0] == [];
  }

  method WriteAuthors(authors: seq<string>) returns (b: string)
    ensures b == LinesText(AuthorLines(authors))
  {
    b := "";
    if |authors| > 0 {
      var items := "";
      NoItemsYet(authors);
      for i := 0 to |authors|
        invariant items == ItemsText(authors[..i])
      {
        var author := TrimSpace(authors[i]);
        AuthorStep(authors, i);
        if author != "" {
          items := items + ("  - " + CollapseWhitespace(author) + "\n");
        }
      }
      assert authors[..|authors|] == authors;
      AuthorsText(authors);
      b := "authors:\n" + items;
    }
  }

  method WriteFrontValue(key: string, value: string) returns (b: string)
    ensures b == LinesText(FrontValue(key, value))
  {
    b := "";
    var v := CollapseWhitespace(value);
    if v != "" {
      b := key + ": " + v + "\n";
      OneLineText(key + ": " + v);
    }
  }

  lemma FrontTextOf(r: Record)
    ensures LinesText(FrontLines(r))
            == LinesText(FrontValue("title", r.article.title)) + LinesText(AuthorLines(r.authors))
               + LinesText(YearLines(r.article.pubYear)) + LinesText(FrontValue("journal", r.journal))
               + LinesText(FrontValue("doi", r.article.doi)) + LinesText(FrontValue("url", r.article.url))
               + LinesText(FrontValue("source_key", r.sourceKey)) + "is_preprint: false\n"
  {
    var t1, t2 := FrontValue("title", r.article.title), AuthorLines(r.authors);
    var t3, t4 := YearLines(r.article.pubYear), FrontValue("journal", r.journal);
    var t5, t6 := FrontValue("doi", r.article.doi), FrontValue("url", r.article.url);
    var t7, t8 := FrontValue("source_key", r.sourceKey), ["is_preprint: false"];
    LinesTextConcat(t1, t2 + TailLines(r));
    LinesTextConcat(t2, TailLines(r));
    LinesTextConcat(t3, CardLines(r) + t8);
    LinesTextConcat(CardLines(r), t8);
    LinesTextConcat(t4 + t5, t6 + t7);
    LinesTextConcat(t4, t5);
    LinesTextConcat(t6, t7);
    OneLineText("is_preprint: false");
    Associate(LinesText(t1), LinesText(t2), LinesText(t3), LinesText(t4), LinesText(t5), LinesText(t6), LinesText(t7), LinesText(t8));
  }

  lemma Associate(a: string, b: string, c: string, d: string, e: string, f: string, g: string, h: string)
    ensures a + (b + (c + ((d + e + (f + g)) + h))) == a + b + c + d + e + f + g + h
  {
  }

  method WriteFront(r: Record) returns (b: string)
    ensures b == LinesText(FrontLines(r))
  {
    var title := WriteFrontValue("title", r.article.title);
    var authors := WriteAuthors(r.authors);
    var year := "";
    if r.article.pubYear.Some? {
      year := "year: " + Decimal.IntToString(r.article.pubYear.value) + "\n";
      OneLineText("year: " + Decimal.IntToString(r.article.pubYear.value));
    }
    var journal := WriteFrontValue("journal", r.journal);
    var doi := WriteFrontValue("doi", r.article.doi);
    var url := WriteFrontValue("url", r.article.url);
    var source := WriteFrontValue("source_key", r.sourceKey);
    b := title + authors + year + journal + doi + url + source + "is_preprint: false\n";
    FrontTextOf(r);
  }

  method WriteFormulas(formulas: seq<Formula>) returns (b: string)
    ensures b == FormulasText(formulas)
  {
    b := "";
    for i := 0 to |formulas|
      invariant b == FormulasText(formulas[..i])
    {
      assert formulas[..i + 1][..i] == formulas[..i];
      var f := formulas[i];
      if f.latex == "" {
        assert b + "" == b;
        continue;
      }
      ghost var before := b;
      var entry := "\n- " + f.latex;
      if f.location != "" { entry := entry + ("  \n" + "  — location: " + f.location); }
      if f.caption != "" { entry := entry + ("  \n" + "  — caption: " + f.caption); }
      entry := entry + "\n";
      assert entry == FormulaText(f) by { FormulaEntry(f); }
      b := b + entry;
    }
    assert formulas[..|formulas|] == formulas;
  }

  lemma FormulaEntry(f: Formula)
    requires f.latex != ""
    ensures FormulaText(f) == "\n- " + f.latex
                              + (if f.location != "" then "  \n" + "  — location: " + f.location else "")
                              + (if f.caption != "" then "  \n" + "  — caption: " + f.caption else "") + "\n"
    ensures "\n- " + f.latex + "" == "\n- " + f.latex
    ensures f.location == "" ==> "\n- " + f.latex + Detail("  — location: ", f.location) == "\n- " + f.latex
    ensures forall s: string :: s + "" == s
  {
  }

  method WriteFigures(figures: seq<Figure>) returns (b: string)
    ensures b == FiguresText(figures)
  {
    b := "";
    for i := 0 to |figures|
      invariant b == FiguresText(figures[..i])
    {
      assert figures[..i + 1][..i] == figures[..i];
      var f := figures[i];
      if f.markdown == "" {
        assert b + "" == b;
        continue;
      }
      var kind := f.kind;
      if kind == "" { kind := "figure"; }
      var location := "";
      if f.location != "" { location := "*location: " + f.location + "*\n"; }
      var caption := "";
      if f.caption != "" { caption := "\n*" + f.caption + "*\n"; }
      b := b + ("\n### " + kind + "\n" + location + f.markdown + "\n" + caption);
    }
    assert figures[..|figures|] == figures;
  }

  lemma HeadText(line: string)
    ensures LinesText(["", line]) == "\n" + line + "\n"
  {
    LinesTextConcat([""], [line]);
    assert [""] + [line] == ["", line];
    OneLineText("");
    OneLineText(line);
  }

  lemma AttributesText(nf: NumberFormat, q: Quote)
    ensures LinesText(AttributeLines(nf, q))
            == LinesText(OptionalLine("  location: ", q.location))
               + ("  relevance: " + nf.print_(q.relevance) + "\n" + LinesText(OptionalLine("  rationale: ", q.rationale)))
  {
    var number := "  relevance: " + nf.print_(q.relevance);
    LinesTextConcat(OptionalLine("  location: ", q.location), [number] + OptionalLine("  rationale: ", q.rationale));
    LinesTextConcat([number], OptionalLine("  rationale: ", q.rationale));
    OneLineText(number);
  }

  lemma QuoteEntry(nf: NumberFormat, q: Quote, line: string)
    requires q.text != "" && line == "- text: " + CollapseWhitespace(q.text)
    ensures LinesText(QuoteLines(nf, q))
            == "\n" + line + "\n"
               + (LinesText(OptionalLine("  location: ", q.location))
                  + ("  relevance: " + nf.print_(q.relevance) + "\n" + LinesText(OptionalLine("  rationale: ", q.rationale))))
  {
    LinesTextConcat(["", line], AttributeLines(nf, q));
    HeadText(line);
    AttributesText(nf, q);
  }

  lemma OptionalText(prefix: string, value: string)
    ensures LinesText(OptionalLine(prefix, value)) == if value == "" then "" else prefix + value + "\n"
  {
    if value != "" { OneLineText(prefix + value); }
  }

  method WriteQuotes(nf: NumberFormat, quotes: seq<Quote>) returns (b: string)
    ensures b == LinesText(AllQuoteLines(nf, quotes))
  {
    b := "";
    for i := 0 to |quotes|
      invariant b == LinesText(AllQuoteLines(nf, quotes[..i]))
    {
      assert quotes[..i + 1][..i] == quotes[..i];
      var q := quotes[i];
      LinesTextConcat(AllQuoteLines(nf, quotes[..i]), QuoteLines(nf, q));
      if q.text == "" {
        assert b + "" == b;
        continue;
      }
      var line := "- text: " + CollapseWhitespace(q.text);
      var location := "";
      if q.location != "" { location := "  location: " + q.location + "\n"; }
      var rationale := "";
      if q.rationale != "" { rationale := "  rationale: " + q.rationale + "\n"; }
      OptionalText("  location: ", q.location);
      OptionalText("  rationale: ", q.rationale);
      QuoteEntry(nf, q, line);
      b := b + ("\n" + line + "\n" + (location + ("  relevance: " + nf.print_(q.relevance) + "\n" + rationale)));
    }
    assert quotes[..|quotes|] == quotes;
  }

  /** `renderFrozenMD`, section by section. */
  method RenderFrozenMD(nf: NumberFormat, r: Record, res: ExtractionResult) returns (text: string)
    ensures text == Render(nf, r, res)
  {
    var front := WriteFront(r);
    var tldr := "";
    if res.tldr != "" { tldr := Block(TLDR_HEADER, CollapseWhitespace(res.tldr)); }
    var abs := Block(ABSTRACT_HEADER, TrimSpace(r.article.abstract_));
    var fullText := Block(FULL_TEXT_HEADER, TrimSpace(r.article.fullText));
    var formulas := WriteFormulas(res.formulas);
    var figures := WriteFigures(res.figures);
    var quotes := WriteQuotes(nf, res.quotes);
    var tail := FORMULAS_HEADER + "\n" + formulas + "\n" + FIGURES_HEADER + "\n" + figures;
    assert tail == FormulasAndFigures(res);
    assert abs + fullText + tail == MiddleSections(r.article, res);
    var sections := tldr + (abs + fullText + tail) + "\n" + QUOTES_HEADER + "\n" + quotes;
    assert sections == Sections(nf, r.article, res);
    text := TrimRightNewlines("---\n" + front + "---\n\n" + sections) + "\n";
  }

  // ----- the parsers

  lemma RunSnoc(st: FrontState, lines: seq<FrontLine>, i: nat)
    requires i < |lines|
    ensures st.Run(lines[..i + 1]) == st.Run(lines[..i]).Apply(lines[i])
  {
    assert lines[..i + 1] == lines[..i] + [lines[i]];
    RunConcat(st, lines[..i], [lines[i]]);
    RunOne(st.Run(lines[..i]), lines[i]);
  }

  /** `parseFrontMatter`, with its map, its open list and that list's items. */
  method ParseFrontMatter(frontText: string) returns (out: map<string, string>)
    ensures out == FrontMatter(frontText)
  {
    out := map[];
    var currentList := "";
    var listItems: seq<string> := [];
    var lines := Split(frontText, '\n');
    ghost var classes := ClassifyAll(lines);
    for i := 0 to |lines|
      invariant NO_FRONT.Run(classes[..i]) == FrontState(out, currentList, listItems)
    {
      RunSnoc(NO_FRONT, classes, i);
      var line := TrimRightReturns(lines[i]);
      var stripped := TrimSpace(line);
      if stripped == "" {
        if currentList != "" && |listItems| > 0 {
          out := out[currentList := Join(listItems, [NUL])];
          listItems := [];
        }
        currentList := "";
        continue;
      }
      if HasPrefix(stripped, "- ") {
        if currentList != "" {
          listItems := listItems + [TrimSpace(stripped[2..])];
        }
        continue;
      }
      var colon := Index(line, ":");
      if colon == -1 {
        continue;
      }
      var key := TrimSpace(line[..colon]);
      var value := TrimSpace(line[colon + 1..]);
      if value == "" {
        if currentList != "" && |listItems| > 0 {
          out := out[currentList := Join(listItems, [NUL])];
        }
        currentList := key;
        listItems := [];
        out := out[key := ""];
      } else {
        if currentList != "" && |listItems| > 0 {
          out := out[currentList := Join(listItems, [NUL])];
          listItems := [];
        }
        currentList := "";
        out := out[key := value];
      }
    }
    assert classes[..|lines|] == classes;
    if currentList != "" && |listItems| > 0 {
      out := out[currentList := Join(listItems, [NUL])];
    }
  }

  lemma RunQuotesSnoc(nf: NumberFormat, lines: seq<QuoteLine>, i: nat)
    requires i < |lines|
    ensures NO_QUOTES.Run(nf, lines[..i + 1]) == NO_QUOTES.Run(nf, lines[..i]).Apply(nf, lines[i])
  {
    assert lines[..i + 1] == lines[..i] + [lines[i]];
    FrozenQuotes.RunQuotesConcat(nf, NO_QUOTES, lines[..i], [lines[i]]);
    FrozenQuotes.RunOneQuoteLine(nf, NO_QUOTES.Run(nf, lines[..i]), lines[i]);
  }

  /** `parseQuotesSection`, with the quotes already closed and the open one. */
  method ParseQuotesSection(nf: NumberFormat, text: string) returns (out: seq<FrozenQuote>)
    ensures out == QuotesOf(nf, text)
  {
    out := [];
    var current: Option<FrozenQuote> := None;
    var lines := Split(text, '\n');
    ghost var classes := ClassifyQuotes(lines);
    for i := 0 to |lines|
      invariant NO_QUOTES.Run(nf, classes[..i]) == QuoteState(out, current)
    {
      RunQuotesSnoc(nf, classes, i);
      var rawLine := lines[i];
      if TrimSpace(rawLine) == "" {
        continue;
      }
      if HasPrefix(rawLine, "- ") {
        if current.Some? {
          out := out + [current.value];
        }
        var item := TrimSpace(rawLine[2..]);
        if HasPrefix(item, "text:") {
          item := item[5..];
        }
        current := Some(FrozenQuote(TrimSpace(item), "", 0.0, ""));
      } else if current.Some? && HasPrefix(rawLine, "  ") {
        var line := TrimSpace(rawLine);
        var colon := Index(line, ":");
        if colon != -1 {
          var key := TrimSpace(line[..colon]);
          var value := TrimSpace(line[colon + 1..]);
          current := Some(ApplyQuoteField(nf, current.value, key, value));
        }
      }
    }
    assert classes[..|lines|] == classes;
    if current.Some? {
      out := out + [current.value];
    }
  }
}
