/** What a frozen file holds besides the parts its parsers read: the summary, the
    formulas and the figures. */
module FrozenContents {
  import opened Sequences
  import opened Text
  import opened FrozenMarkdown
  import opened FrozenFrontMatter
  import opened FrozenSections

  /** The text holds the piece somewhere. */
  ghost predicate Holds(s: string, p: string) {
    !Absent(s, p)
  }

  lemma HoldsSelf(p: string)
    ensures Holds(p, p)
  {
    assert Occurs(p, p, 0);
  }

  lemma HoldsLeft(a: string, b: string, p: string)
    requires Holds(a, p)
    ensures Holds(a + b, p)
  {
    var i :| Occurs(a, p, i);
    OccursInFront(a, b, p, i);
  }

  lemma HoldsRight(a: string, b: string, p: string)
    requires Holds(b, p)
    ensures Holds(a + b, p)
  {
    var i :| Occurs(b, p, i);
    OccursShift(a, b, p, |a| + i);
    assert Occurs(a + b, p, |a| + i);
  }

  lemma HoldsMiddle(a: string, p: string, b: string)
    ensures Holds(a + p + b, p)
  {
    HoldsSelf(p);
    HoldsRight(a, p, p);
    HoldsLeft(a + p, b, p);
  }

  // ----- one formula, one figure

  /** A written formula is an item with its location and its caption on labelled lines. */
  ghost predicate HoldsFormula(s: string, f: Formula) {
    && Holds(s, "\n- " + f.latex)
    && (f.location != "" ==> Holds(s, "\n  — location: " + f.location))
    && (f.caption != "" ==> Holds(s, "\n  — caption: " + f.caption))
  }

  /** A written figure has its kind as a heading, its markdown on a line of its own,
      and its location and its caption in italics. */
  ghost predicate HoldsFigure(s: string, f: Figure) {
    && Holds(s, "\n### " + (if f.kind == "" then "figure" else f.kind) + "\n")
    && Holds(s, "\n" + f.markdown + "\n")
    && (f.location != "" ==> Holds(s, "\n*location: " + f.location + "*\n"))
    && (f.caption != "" ==> Holds(s, "\n*" + f.caption + "*\n"))
  }

  lemma DetailHeld(a: string, tag: string, value: string, b: string)
    requires value != ""
    ensures Holds(a + Detail(tag, value) + b, "\n" + tag + value)
  {
    assert Detail(tag, value) == "  " + ("\n" + tag + value);
    ConcatAssoc(a, "  ", "\n" + tag + value);
    HoldsMiddle(a + "  ", "\n" + tag + value, b);
  }

  lemma ItemHeld(item: string, location: string, caption: string)
    ensures Holds(item + location + caption + "\n", item)
  {
    HoldsSelf(item);
    HoldsLeft(item, location, item);
    HoldsLeft(item + location, caption, item);
    HoldsLeft(item + location + caption, "\n", item);
  }

  lemma LocationHeld(item: string, location: string, caption: string)
    requires location != ""
    ensures Holds(item + Detail("  — location: ", location) + caption + "\n", "\n  — location: " + location)
  {
    DetailHeld(item, "  — location: ", location, caption + "\n");
    ConcatAssoc(item + Detail("  — location: ", location), caption, "\n");
    assert "\n" + "  — location: " == "\n  — location: ";
  }

  lemma CaptionHeld(before: string, caption: string)
    requires caption != ""
    ensures Holds(before + Detail("  — caption: ", caption) + "\n", "\n  — caption: " + caption)
  {
    DetailHeld(before, "  — caption: ", caption, "\n");
    assert "\n" + "  — caption: " == "\n  — caption: ";
  }

  lemma FormulaWritten(f: Formula)
    ensures f.latex == "" ==> FormulaText(f) == ""
    ensures f.latex != "" ==> HoldsFormula(FormulaText(f), f)
  {
    if f.latex != "" {
      var item, location := "\n- " + f.latex, Detail("  — location: ", f.location);
      ItemHeld(item, location, Detail("  — caption: ", f.caption));
      if f.location != "" {
        LocationHeld(item, f.location, Detail("  — caption: ", f.caption));
      }
      if f.caption != "" {
        CaptionHeld(item + location, f.caption);
      }
    }
  }

  lemma FigureParts(head: string, location: string, markdown: string, caption: string)
    ensures Holds(head + "\n" + location + markdown + "\n" + caption, head + "\n")
    ensures Holds(head + "\n" + location + markdown + "\n" + caption, caption)
  {
    HoldsSelf(head + "\n");
    HoldsLeft(head + "\n", location, head + "\n");
    HoldsLeft(head + "\n" + location, markdown, head + "\n");
    HoldsLeft(head + "\n" + location + markdown, "\n", head + "\n");
    HoldsLeft(head + "\n" + location + markdown + "\n", caption, head + "\n");
    HoldsSelf(caption);
    HoldsRight(head + "\n" + location + markdown + "\n", caption, caption);
  }

  lemma FigureMarkdown(before: string, markdown: string, caption: string)
    requires before != "" && before[|before| - 1] == '\n'
    ensures Holds(before + markdown + "\n" + caption, "\n" + markdown + "\n")
  {
    var init := before[..|before| - 1];
    assert before == init + "\n";
    assert before + markdown + "\n" + caption == init + ("\n" + markdown + "\n") + caption;
    HoldsMiddle(init, "\n" + markdown + "\n", caption);
  }

  lemma FigureLocation(head: string, location: string, rest: string)
    ensures Holds(head + "\n" + (location + "*\n") + rest, "\n" + location + "*\n")
  {
    assert head + "\n" + (location + "*\n") + rest == head + ("\n" + location + "*\n") + rest;
    HoldsMiddle(head, "\n" + location + "*\n", rest);
  }

  lemma FigureWritten(f: Figure)
    ensures f.markdown == "" ==> FigureText(f) == ""
    ensures f.markdown != "" ==> HoldsFigure(FigureText(f), f)
  {
    if f.markdown != "" {
      var head := "\n### " + if f.kind == "" then "figure" else f.kind;
      var location := if f.location == "" then "" else "*location: " + f.location + "*\n";
      var caption := if f.caption == "" then "" else "\n*" + f.caption + "*\n";
      FigureParts(head, location, f.markdown, caption);
      assert (head + "\n" + location)[|head + "\n" + location| - 1] == '\n';
      FigureMarkdown(head + "\n" + location, f.markdown, caption);
      if f.location != "" {
        FigureLocated(head, f.location, f.markdown, caption);
      }
    }
  }

  lemma FigureLocated(head: string, location: string, markdown: string, caption: string)
    ensures Holds(head + "\n" + ("*location: " + location + "*\n") + markdown + "\n" + caption, "\n*location: " + location + "*\n")
  {
    var l := "*location: " + location;
    assert "\n*location: " + location + "*\n" == "\n" + l + "*\n";
    FigureLocation(head, l, markdown + "\n" + caption);
    assert head + "\n" + (l + "*\n") + markdown + "\n" + caption == head + "\n" + (l + "*\n") + (markdown + "\n" + caption);
  }

  // ----- all of them, in order

  lemma {:induction false} FormulasConcat(a: seq<Formula>, b: seq<Formula>)
    ensures FormulasText(a + b) == FormulasText(a) + FormulasText(b)
    decreases |b|
  {
    if b == [] {
      assert a + b == a;
    } else {
      var init := b[..|b| - 1];
      assert (a + b)[..|a + b| - 1] == a + init;
      FormulasConcat(a, init);
      ConcatAssoc(FormulasText(a), FormulasText(init), FormulaText(b[|b| - 1]));
    }
  }

  lemma {:induction false} FiguresConcat(a: seq<Figure>, b: seq<Figure>)
    ensures FiguresText(a + b) == FiguresText(a) + FiguresText(b)
    decreases |b|
  {
    if b == [] {
      assert a + b == a;
    } else {
      var init := b[..|b| - 1];
      assert (a + b)[..|a + b| - 1] == a + init;
      FiguresConcat(a, init);
      ConcatAssoc(FiguresText(a), FiguresText(init), FigureText(b[|b| - 1]));
    }
  }

  lemma HoldsFormulaMiddle(a: string, t: string, b: string, f: Formula)
    requires HoldsFormula(t, f)
    ensures HoldsFormula(a + t + b, f)
  {
    forall p | Holds(t, p)
      ensures Holds(a + t + b, p)
    {
      HoldsRight(a, t, p);
      HoldsLeft(a + t, b, p);
    }
  }

  lemma HoldsFigureMiddle(a: string, t: string, b: string, f: Figure)
    requires HoldsFigure(t, f)
    ensures HoldsFigure(a + t + b, f)
  {
    forall p | Holds(t, p)
      ensures Holds(a + t + b, p)
    {
      HoldsRight(a, t, p);
      HoldsLeft(a + t, b, p);
    }
  }

  lemma {:induction false} EveryFormula(fs: seq<Formula>, i: nat)
    requires i < |fs| && fs[i].latex != ""
    ensures HoldsFormula(FormulasText(fs), fs[i])
    decreases |fs|
  {
    var init, last := fs[..|fs| - 1], fs[|fs| - 1];
    if i < |init| {
      EveryFormula(init, i);
      HoldsFormulaLeft(FormulasText(init), FormulaText(last), fs[i]);
    } else {
      FormulaWritten(last);
      HoldsFormulaRight(FormulasText(init), FormulaText(last), last);
    }
  }

  lemma HoldsFormulaLeft(a: string, b: string, f: Formula)
    requires HoldsFormula(a, f)
    ensures HoldsFormula(a + b, f)
  {
    HoldsFormulaMiddle("", a, b, f);
    assert "" + a + b == a + b;
  }

  lemma HoldsFormulaRight(a: string, b: string, f: Formula)
    requires HoldsFormula(b, f)
    ensures HoldsFormula(a + b, f)
  {
    HoldsFormulaMiddle(a, b, "", f);
    assert a + b + "" == a + b;
  }

  lemma {:induction false} EveryFigure(fs: seq<Figure>, i: nat)
    requires i < |fs| && fs[i].markdown != ""
    ensures HoldsFigure(FiguresText(fs), fs[i])
    decreases |fs|
  {
    var init, last := fs[..|fs| - 1], fs[|fs| - 1];
    if i < |init| {
      EveryFigure(init, i);
      HoldsFigureLeft(FiguresText(init), FigureText(last), fs[i]);
    } else {
      FigureWritten(last);
      HoldsFigureRight(FiguresText(init), FigureText(last), last);
    }
  }

  lemma HoldsFigureLeft(a: string, b: string, f: Figure)
    requires HoldsFigure(a, f)
    ensures HoldsFigure(a + b, f)
  {
    HoldsFigureMiddle("", a, b, f);
    assert "" + a + b == a + b;
  }

  lemma HoldsFigureRight(a: string, b: string, f: Figure)
    requires HoldsFigure(b, f)
    ensures HoldsFigure(a + b, f)
  {
    HoldsFigureMiddle(a, b, "", f);
    assert a + b + "" == a + b;
  }

  // ----- in the file

  /** Where the formulas and the figures stand in the body. */
  lemma BodyAround(nf: NumberFormat, a: Article, res: ExtractionResult)
    returns (front: string, middle: string, rest: string)
    ensures Body(nf, a, res) == (front + FormulasText(res.formulas)) + (middle + FiguresText(res.figures)) + rest
  {
    BodyParts(nf, a, res);
    var head := BeforeFullText(res.tldr, TrimSpace(a.abstract_)) + ("\n" + FULL_TEXT_HEADER + Wrapped(TrimSpace(a.fullText)));
    front, middle, rest := head + "\n" + FORMULAS_HEADER + "\n", "\n" + FIGURES_HEADER + "\n", QuotesPart(nf, res.quotes);
    Around(head, FORMULAS_HEADER, FormulasText(res.formulas), FIGURES_HEADER, FiguresText(res.figures), rest);
  }

  lemma Around(head: string, h: string, formulas: string, g: string, figures: string, rest: string)
    ensures head + ("\n" + (h + "\n" + formulas + "\n" + g + "\n" + figures)) + rest
         == ((head + "\n" + h + "\n") + formulas) + (("\n" + g + "\n") + figures) + rest
  {
    var x := h + "\n" + formulas;
    assert h + "\n" + formulas + "\n" + g + "\n" + figures == x + ("\n" + g + "\n" + figures);
    assert head + ("\n" + (x + ("\n" + g + "\n" + figures))) == (head + "\n" + x) + (("\n" + g + "\n") + figures);
    assert head + "\n" + x == (head + "\n" + h + "\n") + formulas;
  }

  /** Every formula with a text and every figure with a markdown is in the body of the
      frozen file, with all its fields. */
  lemma FormulasAndFiguresWritten(nf: NumberFormat, r: Record, res: ExtractionResult, i: nat)
    ensures ParseFrozenMD(Render(nf, r, res)).Parsed?
    ensures var body := ParseFrozenMD(Render(nf, r, res)).body;
      && (i < |res.formulas| && res.formulas[i].latex != "" ==> HoldsFormula(body, res.formulas[i]))
      && (i < |res.figures| && res.figures[i].markdown != "" ==> HoldsFigure(body, res.figures[i]))
  {
    ParseOfRender(nf, r, res);
    var front, middle, rest := BodyAround(nf, r.article, res);
    var x, y := FormulasText(res.formulas), FiguresText(res.figures);
    if i < |res.formulas| && res.formulas[i].latex != "" {
      EveryFormula(res.formulas, i);
      HoldsFormulaMiddle(front, x, (middle + y) + rest, res.formulas[i]);
      ConcatAssoc(front + x, middle + y, rest);
    }
    if i < |res.figures| && res.figures[i].markdown != "" {
      EveryFigure(res.figures, i);
      ConcatAssoc(front + x, middle, y);
      HoldsFigureMiddle((front + x) + middle, y, rest, res.figures[i]);
    }
  }

  /** So is the summary, collapsed, under its header. */
  lemma SummaryWritten(nf: NumberFormat, r: Record, res: ExtractionResult)
    requires res.tldr != ""
    ensures ParseFrozenMD(Render(nf, r, res)).Parsed?
    ensures "\n" + TLDR_HEADER + "\n\n" + CollapseWhitespace(res.tldr) + "\n" <= ParseFrozenMD(Render(nf, r, res)).body
  {
    ParseOfRender(nf, r, res);
    BodyParts(nf, r.article, res);
    SummaryStarts(r.article, res);
  }

  lemma SummaryStarts(a: Article, res: ExtractionResult)
    requires res.tldr != ""
    ensures "\n" + TLDR_HEADER + "\n\n" + CollapseWhitespace(res.tldr) + "\n" <= BeforeQuotes(a, res)
  {
    SummaryLines(TLDR_HEADER, CollapseWhitespace(res.tldr));
    Starts(BeforeAbstract(res.tldr), "\n" + ABSTRACT_HEADER + Wrapped(TrimSpace(a.abstract_)),
           "\n" + FULL_TEXT_HEADER + Wrapped(TrimSpace(a.fullText)), AfterFullText(res));
  }

  lemma SummaryLines(h: string, t: string)
    ensures "\n" + h + "\n\n" + t + "\n" == "\n" + h + Wrapped(t)
  {
    assert "\n\n" + (t + "\n") == Wrapped(t);
  }

  lemma Starts(p: string, a: string, b: string, c: string)
    ensures p <= (p + a) + b + c
  {
  }
}
