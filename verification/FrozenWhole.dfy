/** The whole frozen record: quotes, metadata and sections read back together. */
module FrozenWhole {
  import opened Wrappers
  import opened Sequences
  import opened Text
  import opened FrozenMarkdown
  import opened FrozenFrontMatter
  import opened FrozenSections
  import opened FrozenQuotes
  import opened FrozenRoundTrip

  // ----- no earlier line poses as the quotes header

  ghost predicate CleanFormula(f: Formula, h: string) {
    f.latex != "" ==> !HasLine(f.latex, h) && !HasLine(f.location, h) && !HasLine(f.caption, h)
  }

  ghost predicate CleanFigure(f: Figure, h: string) {
    f.markdown != "" ==>
      !HasLine(f.markdown, h) && !HasLine(f.kind, h) && !HasLine(f.location, h) && !HasLine(f.caption, h)
  }

  /** No line written before the quotes section starts with the header h. */
  ghost predicate Unshadowed(a: Article, res: ExtractionResult, h: string) {
    && (res.tldr == "" || !HasPrefix(CollapseWhitespace(res.tldr), h))
    && !HasLine(TrimSpace(a.abstract_), h) && !HasLine(TrimSpace(a.fullText), h)
    && (forall i :: 0 <= i < |res.formulas| ==> CleanFormula(res.formulas[i], h))
    && (forall i :: 0 <= i < |res.figures| ==> CleanFigure(res.figures[i], h))
  }

  lemma AddDetail(x: string, tag: string, value: string, h: string)
    requires IsHeader(h) && tag != "" && tag[0] == ' ' && '\n' !in tag
    requires Absent(x, "\n" + h) && !HasLine(value, h)
    ensures Absent(x + Detail(tag, value), "\n" + h)
  {
    if value == "" {
      assert x + "" == x;
    } else {
      AbsentPadded(x, "  ", "\n" + h);
      assert h[..3][0] == h[0];
      AbsentLabelled(tag, value, h, 0);
      Both(x + "  ", "\n" + tag + value, h);
      assert x + ("  \n" + tag + value) == (x + "  ") + ("\n" + tag + value);
    }
  }

  lemma CleanFormulaText(f: Formula, h: string)
    requires IsHeader(h) && CleanFormula(f, h)
    ensures Absent(FormulaText(f), "\n" + h)
  {
    NewlineAbsent(h);
    if f.latex != "" {
      assert h[..3][0] == h[0];
      AbsentLabelled("- ", f.latex, h, 0);
      var x := "\n" + "- " + f.latex;
      assert "\n- " + f.latex == x;
      AddDetail(x, "  — location: ", f.location, h);
      var y := x + Detail("  — location: ", f.location);
      AddDetail(y, "  — caption: ", f.caption, h);
      Both(y + Detail("  — caption: ", f.caption), "\n", h);
    }
  }

  lemma StartsLine(f: Formula)
    ensures FormulaText(f) == "" || FormulaText(f)[0] == '\n'
  {
  }

  /** A stretch of whole lines, none of which starts with the header h. */
  ghost predicate CleanPart(x: string, h: string) {
    Absent(x, "\n" + h) && (x == "" || x[0] == '\n')
  }

  lemma CleanNothing(h: string)
    requires IsHeader(h)
    ensures CleanPart("", h)
  {
    NewlineAbsent(h);
  }

  lemma AppendClean(x: string, y: string, h: string)
    requires IsHeader(h) && CleanPart(x, h) && CleanPart(y, h)
    ensures CleanPart(x + y, h)
  {
    Both(x, y, h);
  }

  lemma {:induction false} CleanFormulasText(fs: seq<Formula>, h: string)
    requires IsHeader(h) && forall i :: 0 <= i < |fs| ==> CleanFormula(fs[i], h)
    ensures CleanPart(FormulasText(fs), h)
  {
    if fs == [] {
      CleanNothing(h);
    } else {
      var k := |fs| - 1;
      CleanFormulasText(fs[..k], h);
      CleanFormulaText(fs[k], h);
      StartsLine(fs[k]);
      AppendClean(FormulasText(fs[..k]), FormulaText(fs[k]), h);
    }
  }

  lemma Starred(tag: string, value: string, h: string)
    requires IsHeader(h) && h[|h| - 1] != '*' && tag != "" && tag[0] == '*' && '\n' !in tag
    requires !HasLine(value, h)
    ensures Absent("\n" + tag + value + "*", "\n" + h)
  {
    assert h[..3][0] == h[0];
    AbsentLabelled(tag, value, h, 0);
    AbsentPadded("\n" + tag + value, "*", "\n" + h);
  }

  function FigureHead(f: Figure): string {
    "\n### " + (if f.kind == "" then "figure" else f.kind)
    + (if f.location == "" then "" else "\n*location: " + f.location + "*")
  }

  function FigureTail(f: Figure): string {
    if f.caption == "" then "" else "\n*" + f.caption + "*\n"
  }

  lemma FigureTextParts(f: Figure)
    requires f.markdown != ""
    ensures FigureText(f) == FigureHead(f) + ("\n" + f.markdown) + "\n" + FigureTail(f)
  {
    var kind := if f.kind == "" then "figure" else f.kind;
    if f.location == "" {
      FigureAssoc(kind, f.markdown, FigureTail(f));
    } else {
      FigureAssocLocated(kind, f.location, f.markdown, FigureTail(f));
    }
  }

  lemma FigureAssoc(kind: string, markdown: string, tail: string)
    ensures "\n### " + kind + "\n" + "" + markdown + "\n" + tail
            == ("\n### " + kind + "") + ("\n" + markdown) + "\n" + tail
  {
  }

  lemma FigureAssocLocated(kind: string, location: string, markdown: string, tail: string)
    ensures "\n### " + kind + "\n" + ("*location: " + location + "*\n") + markdown + "\n" + tail
            == ("\n### " + kind + ("\n*location: " + location + "*")) + ("\n" + markdown) + "\n" + tail
  {
    var m := "*location: " + location + "*";
    assert "*location: " + location + "*\n" == m + "\n";
    assert "\n*location: " + location + "*" == "\n" + m;
    var k := "\n### " + kind;
    assert k + "\n" + (m + "\n") + markdown + "\n" + tail == (k + ("\n" + m)) + ("\n" + markdown) + "\n" + tail;
  }

  lemma CleanFigureHead(f: Figure, h: string)
    requires IsHeader(h) && h[|h| - 1] != '*' && CleanFigure(f, h) && f.markdown != "" && !HasLine("figure", h)
    ensures Absent(FigureHead(f), "\n" + h)
  {
    var kind := if f.kind == "" then "figure" else f.kind;
    assert h[..3][2] == h[2];
    AbsentLabelled("### ", kind, h, 2);
    var k := "\n### " + kind;
    assert "\n" + "### " + kind == k;
    if f.location == "" {
      assert k + "" == k;
    } else {
      Starred("*location: ", f.location, h);
      var m := "\n*location: " + f.location + "*";
      assert "\n" + "*location: " + f.location + "*" == m;
      Both(k, m, h);
    }
  }

  lemma CleanFigureTail(f: Figure, h: string)
    requires IsHeader(h) && h[|h| - 1] != '*' && CleanFigure(f, h) && f.markdown != ""
    ensures Absent(FigureTail(f), "\n" + h)
    ensures FigureTail(f) == "" || FigureTail(f)[0] == '\n'
  {
    NewlineAbsent(h);
    if f.caption != "" {
      Starred("*", f.caption, h);
      assert "\n" + "*" + f.caption + "*" == "\n*" + f.caption + "*";
      Both("\n*" + f.caption + "*", "\n", h);
      assert ("\n*" + f.caption + "*") + "\n" == "\n*" + f.caption + "*\n";
    }
  }

  lemma CleanFigureText(f: Figure, h: string)
    requires IsHeader(h) && h[|h| - 1] != '*' && CleanFigure(f, h) && !HasLine("figure", h)
    ensures Absent(FigureText(f), "\n" + h)
    ensures FigureText(f) == "" || FigureText(f)[0] == '\n'
  {
    NewlineAbsent(h);
    if f.markdown != "" {
      CleanFigureHead(f, h);
      CleanFigureTail(f, h);
      FigureTextParts(f);
      Both(FigureHead(f), "\n" + f.markdown, h);
      Both(FigureHead(f) + ("\n" + f.markdown), "\n", h);
      Both(FigureHead(f) + ("\n" + f.markdown) + "\n", FigureTail(f), h);
    }
  }

  lemma AppendFigure(before: string, f: Figure, h: string)
    requires IsHeader(h) && h[|h| - 1] != '*' && CleanFigure(f, h) && !HasLine("figure", h)
    requires Absent(before, "\n" + h) && (before == "" || before[0] == '\n')
    ensures Absent(before + FigureText(f), "\n" + h)
    ensures before + FigureText(f) == "" || (before + FigureText(f))[0] == '\n'
  {
    CleanFigureText(f, h);
    Both(before, FigureText(f), h);
  }

  lemma {:induction false} CleanFiguresText(fs: seq<Figure>, h: string)
    requires IsHeader(h) && h[|h| - 1] != '*' && !HasLine("figure", h)
    requires forall i :: 0 <= i < |fs| ==> CleanFigure(fs[i], h)
    ensures Absent(FiguresText(fs), "\n" + h)
    ensures FiguresText(fs) == "" || FiguresText(fs)[0] == '\n'
  {
    if fs == [] {
      NewlineAbsent(h);
    } else {
      CleanFiguresText(fs[..|fs| - 1], h);
      AppendFigure(FiguresText(fs[..|fs| - 1]), fs[|fs| - 1], h);
    }
  }

  lemma FormulasAndFiguresAbsent(h1: string, fs: string, h2: string, gs: string, h: string)
    requires IsHeader(h) && '\n' !in h1 && '\n' !in h2 && !HasPrefix(h1, h) && !HasPrefix(h2, h)
    requires Absent(fs, "\n" + h) && (fs == "" || fs[0] == '\n')
    requires Absent(gs, "\n" + h) && (gs == "" || gs[0] == '\n')
    ensures Absent("\n" + (h1 + "\n" + fs + "\n" + h2 + "\n" + gs), "\n" + h)
  {
    NewlineAbsent(h);
    LineAbsent(h1, h);
    LineAbsent(h2, h);
    var x := "\n" + h1;
    Both(x, "\n", h);
    Both(x + "\n", fs, h);
    Both(x + "\n" + fs, "\n" + h2, h);
    Both(x + "\n" + fs + ("\n" + h2), "\n", h);
    Both(x + "\n" + fs + ("\n" + h2) + "\n", gs, h);
    assert x + "\n" + fs + ("\n" + h2) + "\n" + gs == "\n" + (h1 + "\n" + fs + "\n" + h2 + "\n" + gs);
  }

  lemma FigureWordClean(h: string)
    requires IsHeader(h)
    ensures !HasLine("figure", h)
  {
    assert h[..3][0] == h[0];
    DifferentHeader("figure", h, 0);
    LineAbsent("figure", h);
  }

  lemma UnshadowedAbsent(a: Article, res: ExtractionResult)
    requires Unshadowed(a, res, QUOTES_HEADER)
    ensures Absent(BeforeQuotes(a, res), "\n" + QUOTES_HEADER)
  {
    var h := QUOTES_HEADER;
    QuotesHeader();
    AbstractHeader();
    FullTextHeader();
    OtherHeaders();
    FigureWordClean(h);
    CleanFormulasText(res.formulas, h);
    CleanFiguresText(res.figures, h);
    FormulasAndFiguresAbsent(FORMULAS_HEADER, FormulasText(res.formulas), FIGURES_HEADER, FiguresText(res.figures), h);
    JoinParts(res.tldr, TrimSpace(a.abstract_), TrimSpace(a.fullText), AfterFullText(res), h);
  }

  lemma JoinParts(tldr: string, abs: string, ft: string, after: string, h: string)
    requires IsHeader(h) && !HasPrefix(TLDR_HEADER, h) && !HasPrefix(ABSTRACT_HEADER, h) && !HasPrefix(FULL_TEXT_HEADER, h)
    requires '\n' !in ABSTRACT_HEADER && '\n' !in FULL_TEXT_HEADER
    requires tldr == "" || !HasPrefix(CollapseWhitespace(tldr), h)
    requires !HasLine(abs, h) && !HasLine(ft, h)
    requires Absent(after, "\n" + h) && after != "" && after[0] == '\n'
    ensures Absent(BeforeAbstract(tldr) + AbstractPart(abs) + FullTextPart(ft) + after, "\n" + h)
  {
    AbstractPartAbsent(tldr, abs, h);
    LineAbsent(FULL_TEXT_HEADER, h);
    WrappedAbsent(ft, h);
    Both("\n" + FULL_TEXT_HEADER, Wrapped(ft), h);
    Both(BeforeAbstract(tldr) + AbstractPart(abs), FullTextPart(ft), h);
    Both(BeforeAbstract(tldr) + AbstractPart(abs) + FullTextPart(ft), after, h);
  }

  // ----- the quotes

  lemma {:induction false} TrimKeepsLine(s: string)
    requires '\n' !in s
    ensures '\n' !in TrimSpace(s)
  {
    TrimLeftKeepsLine(s);
    TrimRightNoNewline(TrimLeft(s));
  }

  lemma {:induction false} TrimLeftKeepsLine(s: string)
    requires '\n' !in s
    ensures '\n' !in TrimLeft(s)
  {
    if s != "" { TrimLeftKeepsLine(s[1..]); }
  }

  ghost predicate LineQuote(q: FrozenQuote) {
    '\n' !in q.location && '\n' !in q.rationale
  }

  ghost predicate LineValue(l: QuoteLine) {
    l.Attribute? ==> '\n' !in l.value
  }

  lemma AttributeOnLine(t: string)
    requires '\n' !in t
    ensures LineValue(ClassifyAttribute(t))
  {
    var colon := Index(t, ":");
    if colon != -1 { TrimKeepsLine(t[colon + 1..]); }
  }

  lemma ClassifiedOnLine(line: string)
    requires '\n' !in line
    ensures LineValue(ClassifyQuote(line))
  {
    TrimKeepsLine(line);
    AttributeOnLine(TrimSpace(line));
  }

  ghost predicate LineState(st: QuoteState) {
    && (forall i :: 0 <= i < |st.out| ==> LineQuote(st.out[i]))
    && (st.current.Some? ==> LineQuote(st.current.value))
  }

  lemma {:induction false} RunKeepsLines(nf: NumberFormat, st: QuoteState, lines: seq<QuoteLine>)
    requires LineState(st) && forall i :: 0 <= i < |lines| ==> LineValue(lines[i])
    ensures LineState(st.Run(nf, lines))
    decreases |lines|
  {
    if lines != [] {
      assert LineValue(lines[0]);
      RunKeepsLines(nf, st.Apply(nf, lines[0]), lines[1..]);
    }
  }

  /** Whatever the file holds, a parsed location or rationale is a single line. */
  lemma ParsedFieldsAreLines(nf: NumberFormat, text: string)
    ensures forall i :: 0 <= i < |QuotesOf(nf, text)| ==> LineQuote(QuotesOf(nf, text)[i])
  {
    var lines := Split(text, '\n');
    SplitPieces(text, '\n');
    forall i | 0 <= i < |lines| ensures LineValue(ClassifyQuotes(lines)[i]) {
      ClassifiedOnLine(lines[i]);
    }
    RunKeepsLines(nf, NO_QUOTES, ClassifyQuotes(lines));
  }

  lemma {:induction false} KeptHasAll(qs: seq<Quote>, i: nat) returns (k: nat)
    requires i < |qs| && qs[i].text != ""
    ensures k < |KeptQuotes(qs)|
    ensures KeptQuotes(qs)[k].location == TrimSpace(qs[i].location)
    ensures KeptQuotes(qs)[k].rationale == TrimSpace(qs[i].rationale)
  {
    if i == |qs| - 1 {
      k := |KeptQuotes(qs[..i])|;
    } else {
      k := KeptHasAll(qs[..|qs| - 1], i);
    }
  }

  /** A line before the quotes section starts with its header. */
  ghost predicate PosesAsQuotes(a: Article, res: ExtractionResult) {
    !Absent(BeforeQuotes(a, res), "\n" + QUOTES_HEADER)
  }

  lemma UnshadowedDoesNotPose(a: Article, res: ExtractionResult)
    requires Unshadowed(a, res, QUOTES_HEADER)
    ensures !PosesAsQuotes(a, res)
  {
    UnshadowedAbsent(a, res);
  }

  lemma OwnQuotesSection(nf: NumberFormat, a: Article, res: ExtractionResult)
    requires !PosesAsQuotes(a, res)
    ensures HasSectionHeader(Body(nf, a, res), QUOTES_HEADER)
    ensures SectionBody(Body(nf, a, res), QUOTES_HEADER) == TrimSpace(UpToNextSection(QuotesContent(nf, res.quotes)))
  {
    var before, part := BeforeQuotes(a, res), QuotesPart(nf, res.quotes);
    BodyParts(nf, a, res);
    QuotesHeader();
    ReadOwn(QUOTES_HEADER, QuotesContent(nf, res.quotes));
    assert before + part + "" == before + part;
    ReadFirst(before, part, "", QUOTES_HEADER);
    HeaderIndexMid(before, part, "", QUOTES_HEADER);
    HeaderFound(part, QUOTES_HEADER);
  }

  /** A body starts with a section that is not the one looked for: x, then y. */
  lemma ReadPosing(x: string, y: string, part: string, h: string)
    requires IsHeader(h) && x != "" && Absent(x, "\n" + h) && !Absent(x + y, "\n" + h)
    requires y != "" && y[0] == '\n' && HasPrefix(part, NEXT_SECTION)
    ensures HasSectionHeader((x + y) + part, h)
    ensures SectionBody((x + y) + part, h) == ReadIn(x + y, h)
  {
    HeaderPattern(h);
    AbsentSplit(x, y, "\n" + h);
    ReadFirst(x, y, part, h);
    HeaderIndexMid(x, y, part, h);
    HeaderFound(y, h);
    ReadInAfter(x, y, h);
  }

  lemma IndexAfter(x: string, y: string, h: string)
    requires IsHeader(h) && Absent(x, "\n" + h) && !Absent(y, "\n" + h) && y != "" && y[0] == '\n'
    ensures var n := Index(y, "\n" + h);
      Index(x + y, "\n" + h) == |x| + n && 0 <= n && n + |h| + 1 <= |y|
  {
    assert x + y + "" == x + y;
    HeaderIndexMid(x, y, "", h);
    HeaderFound(y, h);
  }

  lemma ReadInSame(t: string, y: string, h: string, m: nat, n: nat, rest: string)
    requires Index(t, "\n" + h) == m && m + |h| + 1 <= |t| && t[m + |h| + 1..] == rest
    requires Index(y, "\n" + h) == n && n + |h| + 1 <= |y| && y[n + |h| + 1..] == rest
    ensures ReadIn(t, h) == ReadIn(y, h)
  {
    ReadInIs(t, h, m, rest);
    ReadInIs(y, h, n, rest);
  }

  lemma ReadInAfter(x: string, y: string, h: string)
    requires IsHeader(h) && Absent(x, "\n" + h) && !Absent(y, "\n" + h) && y != "" && y[0] == '\n'
    ensures ReadIn(x + y, h) == ReadIn(y, h)
  {
    IndexAfter(x, y, h);
    var n := Index(y, "\n" + h);
    DropPast(x, y, n + |h| + 1);
    ReadInSame(x + y, y, h, |x| + n, n, y[n + |h| + 1..]);
  }

  /** Section headers on their own line are not the quotes header. */
  lemma NotQuotesHeader()
    ensures Absent("\n" + TLDR_HEADER, "\n" + QUOTES_HEADER) && Absent("\n" + ABSTRACT_HEADER, "\n" + QUOTES_HEADER)
  {
    OtherHeaders();
    QuotesHeader();
    AbstractHeader();
    LineAbsent(ABSTRACT_HEADER, QUOTES_HEADER);
    LineAbsent(TLDR_HEADER, QUOTES_HEADER);
  }

  lemma StartsWithAbstract(a: Article, res: ExtractionResult)
    requires res.tldr == ""
    ensures BeforeQuotes(a, res) == ("\n" + ABSTRACT_HEADER)
              + (Wrapped(TrimSpace(a.abstract_)) + (FullTextPart(TrimSpace(a.fullText)) + AfterFullText(res)))
  {
    EmptyBefore("\n" + ABSTRACT_HEADER + Wrapped(TrimSpace(a.abstract_)));
    RegroupStart("\n" + ABSTRACT_HEADER, Wrapped(TrimSpace(a.abstract_)), FullTextPart(TrimSpace(a.fullText)),
                 AfterFullText(res));
  }

  lemma StartsWithTldr(a: Article, res: ExtractionResult)
    requires res.tldr != ""
    ensures BeforeQuotes(a, res) == ("\n" + TLDR_HEADER)
              + (Wrapped(CollapseWhitespace(res.tldr))
                 + (AbstractPart(TrimSpace(a.abstract_)) + (FullTextPart(TrimSpace(a.fullText)) + AfterFullText(res))))
  {
    RegroupTldr("\n" + TLDR_HEADER, Wrapped(CollapseWhitespace(res.tldr)), AbstractPart(TrimSpace(a.abstract_)),
                FullTextPart(TrimSpace(a.fullText)), AfterFullText(res));
  }

  lemma WrappedFirst(text: string, rest: string)
    ensures Wrapped(text) + rest != "" && (Wrapped(text) + rest)[0] == '\n'
  {
  }

  /** The text before the quotes section starts with another section's header. */
  lemma BeforeQuotesStarts(a: Article, res: ExtractionResult) returns (x: string, y: string)
    ensures BeforeQuotes(a, res) == x + y && x != "" && Absent(x, "\n" + QUOTES_HEADER)
    ensures y != "" && y[0] == '\n'
  {
    NotQuotesHeader();
    var text, tail := TrimSpace(a.abstract_), FullTextPart(TrimSpace(a.fullText)) + AfterFullText(res);
    x := "\n" + ABSTRACT_HEADER;
    if res.tldr == "" {
      StartsWithAbstract(a, res);
    } else {
      StartsWithTldr(a, res);
      tail := AbstractPart(text) + tail;
      text := CollapseWhitespace(res.tldr);
      x := "\n" + TLDR_HEADER;
    }
    y := Wrapped(text) + tail;
    WrappedFirst(text, tail);
  }

  lemma RegroupStart(x: string, w: string, f: string, t: string)
    ensures (x + w) + f + t == x + (w + (f + t))
  {
  }

  lemma RegroupTldr(x: string, w: string, p: string, f: string, t: string)
    ensures (x + w) + p + f + t == x + (w + (p + (f + t)))
  {
  }

  /** A line that poses as the quotes header is read in place of the quotes. */
  lemma PosingQuotesSection(nf: NumberFormat, a: Article, res: ExtractionResult)
    requires PosesAsQuotes(a, res)
    ensures HasSectionHeader(Body(nf, a, res), QUOTES_HEADER)
    ensures SectionBody(Body(nf, a, res), QUOTES_HEADER) == ReadIn(BeforeQuotes(a, res), QUOTES_HEADER)
  {
    var x, y := BeforeQuotesStarts(a, res);
    BodyParts(nf, a, res);
    QuotesHeader();
    SectionStarts(QUOTES_HEADER, QuotesContent(nf, res.quotes));
    ReadPosing(x, y, QuotesPart(nf, res.quotes), QUOTES_HEADER);
  }

  /** What a reader takes for the quotes of any rendered record. */
  lemma ReadQuotesOfRender(nf: NumberFormat, r: Record, res: ExtractionResult)
    requires r.article.doi != ""
    ensures ReadQuotes(nf, r.article.doi, Some(Render(nf, r, res))) == Some(QuotesOf(nf,
              if PosesAsQuotes(r.article, res) then ReadIn(BeforeQuotes(r.article, res), QUOTES_HEADER)
              else TrimSpace(UpToNextSection(QuotesContent(nf, res.quotes)))))
  {
    ParseOfRender(nf, r, res);
    if PosesAsQuotes(r.article, res) {
      PosingQuotesSection(nf, r.article, res);
    } else {
      OwnQuotesSection(nf, r.article, res);
    }
  }

  /** No white space before the value: trimmed, and then perhaps cut, as the extractor leaves it. */
  predicate LeftTrimmed(value: string) {
    value == "" || !IsSpace(value[0])
  }

  ghost predicate AllSingleLine(qs: seq<Quote>) {
    forall i :: 0 <= i < |qs| && qs[i].text != "" ==> SingleLine(qs[i])
  }

  ghost predicate AllLeftTrimmed(qs: seq<Quote>) {
    forall i :: 0 <= i < |qs| && qs[i].text != "" ==> LeftTrimmed(qs[i].location) && LeftTrimmed(qs[i].rationale)
  }

  lemma OneLineTrimmed(value: string)
    requires LeftTrimmed(value)
    ensures OneLine(value) <==> '\n' !in TrimSpace(value)
  {
    assert TrimLeft(value) == value;
  }

  /** Fields that span lines are never read back. */
  lemma SpanningQuotesLost(nf: NumberFormat, text: string, qs: seq<Quote>)
    requires AllLeftTrimmed(qs) && !AllSingleLine(qs)
    ensures QuotesOf(nf, text) != KeptQuotes(qs)
  {
    var i :| 0 <= i < |qs| && qs[i].text != "" && !SingleLine(qs[i]);
    var k := KeptHasAll(qs, i);
    OneLineTrimmed(qs[i].location);
    OneLineTrimmed(qs[i].rationale);
    ParsedFieldsAreLines(nf, text);
    assert !LineQuote(KeptQuotes(qs)[k]);
  }

  /** All written quotes come back in order if no line before them poses as their
      header and no location or rationale spans lines. With fields as the extractor
      leaves them that is exactly when they do, unless the posing line happens to
      introduce the same quotes. */
  lemma QuotesReadBack(nf: NumberFormat, r: Record, res: ExtractionResult)
    requires Sound(nf, res.quotes) && r.article.doi != ""
    ensures !PosesAsQuotes(r.article, res) && AllSingleLine(res.quotes) ==>
              ReadQuotes(nf, r.article.doi, Some(Render(nf, r, res))) == Some(KeptQuotes(res.quotes))
    ensures AllLeftTrimmed(res.quotes) ==>
              (ReadQuotes(nf, r.article.doi, Some(Render(nf, r, res))) == Some(KeptQuotes(res.quotes))
               <==> if PosesAsQuotes(r.article, res)
                    then QuotesOf(nf, ReadIn(BeforeQuotes(r.article, res), QUOTES_HEADER)) == KeptQuotes(res.quotes)
                    else AllSingleLine(res.quotes))
  {
    ReadQuotesOfRender(nf, r, res);
    if AllSingleLine(res.quotes) {
      QuotesPartReadsBack(nf, res.quotes);
    } else if AllLeftTrimmed(res.quotes) {
      SpanningQuotesLost(nf, TrimSpace(UpToNextSection(QuotesContent(nf, res.quotes))), res.quotes);
    }
  }

  // ----- number formats

  /** Relevance in whole percent. */
  function Percent(n: nat): real {
    n as real / 100.0
  }

  const PERCENTS := NumberFormat(
    r => Decimal.IntToString((100.0 * r).Floor),
    s => match Decimal.Atoi(s) case None => None case Some(n) => Some(n as real / 100.0))

  /** There is a format that prints every number of whole percent. */
  lemma PercentsPrint(n: nat)
    requires n <= 100
    ensures Prints(PERCENTS, Percent(n))
  {
    assert (100.0 * Percent(n)).Floor == n;
    Decimal.AtoiOfIntToString(n);
    IntToStringWord(n);
  }

  // ----- the metadata

  /** The key is mapped to the value, or to nothing when the value is blank. */
  ghost predicate Holds(m: map<string, string>, key: string, value: string) {
    (key in m <==> value != "") && (key in m ==> m[key] == value)
  }

  lemma PutHolds(m: map<string, string>, key: string, value: string)
    requires key !in m
    ensures Holds(Put(m, key, value), key, value)
    ensures forall k :: k != key ==> (k in Put(m, key, value) <==> k in m)
    ensures forall k :: k != key && k in m ==> Put(m, key, value)[k] == m[k]
  {
  }

  lemma DistinctKeys()
    ensures |["title", "authors", "year", "journal", "doi", "url", "source_key", "is_preprint"]| == 8
    ensures "title" != "doi" && "title" != "url" && "journal" != "doi" && "journal" != "url" && "doi" != "url"
    ensures "title"[0] == 't' && "authors"[0] == 'a' && "year"[0] == 'y' && "journal"[0] == 'j' && "doi"[0] == 'd'
    ensures "url"[0] == 'u' && "source_key"[0] == 's' && "is_preprint"[0] == 'i'
  {
  }

  lemma CardHolds(m: map<string, string>, r: Record)
    requires "journal" !in m && "doi" !in m && "url" !in m && "source_key" !in m
    ensures var c := ExpectedCard(m, r);
            && Holds(c, "journal", CollapseWhitespace(r.journal)) && Holds(c, "doi", CollapseWhitespace(r.article.doi))
            && Holds(c, "url", CollapseWhitespace(r.article.url)) && Holds(c, "source_key", CollapseWhitespace(r.sourceKey))
            && ("title" in c <==> "title" in m) && ("title" in m ==> c["title"] == m["title"])
  {
    DistinctKeys();
    var m3 := Put(m, "journal", CollapseWhitespace(r.journal));
    PutHolds(m, "journal", CollapseWhitespace(r.journal));
    var m4 := Put(m3, "doi", CollapseWhitespace(r.article.doi));
    PutHolds(m3, "doi", CollapseWhitespace(r.article.doi));
    var m5 := Put(m4, "url", CollapseWhitespace(r.article.url));
    PutHolds(m4, "url", CollapseWhitespace(r.article.url));
    PutHolds(m5, "source_key", CollapseWhitespace(r.sourceKey));
  }

  lemma TitleFirst(r: Record)
    ensures var m0 := Put(map[], "title", CollapseWhitespace(r.article.title));
            var m1 := if r.authors == [] then m0 else m0["authors" := Join(AuthorNames(r.authors), [NUL])];
            var m2 := if r.article.pubYear.None? then m1
                      else m1["year" := Decimal.IntToString(r.article.pubYear.value)];
            && Holds(m2, "title", CollapseWhitespace(r.article.title))
            && "journal" !in m2 && "doi" !in m2 && "url" !in m2 && "source_key" !in m2
  {
    DistinctKeys();
  }

  lemma LastEntry(c: map<string, string>, key: string, value: string)
    requires key != "is_preprint"
    ensures Holds(c["is_preprint" := "false"], key, value) <==> Holds(c, key, value)
  {
  }

  /** Every text field of the record is in the front matter, on one line,
      unless it is blank. */
  lemma ExpectedFields(r: Record)
    ensures var m := ExpectedFront(r);
            && Holds(m, "title", CollapseWhitespace(r.article.title)) && Holds(m, "journal", CollapseWhitespace(r.journal))
            && Holds(m, "doi", CollapseWhitespace(r.article.doi)) && Holds(m, "url", CollapseWhitespace(r.article.url))
            && Holds(m, "source_key", CollapseWhitespace(r.sourceKey))
  {
    var m0 := Put(map[], "title", CollapseWhitespace(r.article.title));
    var m1 := if r.authors == [] then m0 else m0["authors" := Join(AuthorNames(r.authors), [NUL])];
    var m2 := if r.article.pubYear.None? then m1 else m1["year" := Decimal.IntToString(r.article.pubYear.value)];
    TitleFirst(r);
    CardHolds(m2, r);
    DistinctKeys();
    var c := ExpectedCard(m2, r);
    LastEntry(c, "title", CollapseWhitespace(r.article.title));
    LastEntry(c, "journal", CollapseWhitespace(r.journal));
    LastEntry(c, "doi", CollapseWhitespace(r.article.doi));
    LastEntry(c, "url", CollapseWhitespace(r.article.url));
    LastEntry(c, "source_key", CollapseWhitespace(r.sourceKey));
  }

  lemma HeldField(m: map<string, string>, key: string, value: string, fallback: string)
    requires Holds(m, key, value)
    ensures Field(m, key, fallback) == OrElse(value, fallback)
  {
  }

  lemma ExpectedYear(r: Record, fallback: Option<int>)
    requires r.article.pubYear.Some? ==> Decimal.MIN_INT <= r.article.pubYear.value <= Decimal.MAX_INT
    ensures YearField(ExpectedFront(r), fallback)
            == if r.article.pubYear.Some? then r.article.pubYear else fallback
  {
    if r.article.pubYear.Some? { Decimal.AtoiOfIntToString(r.article.pubYear.value); }
  }

  lemma ExpectedAuthors(r: Record)
    ensures var m := ExpectedFront(r);
            if r.authors == [] then "authors" !in m
            else "authors" in m && m["authors"] == Join(AuthorNames(r.authors), [NUL])
  {
    DistinctKeys();
    var m0 := Put(map[], "title", CollapseWhitespace(r.article.title));
    var m1 := if r.authors == [] then m0 else m0["authors" := Join(AuthorNames(r.authors), [NUL])];
    TailElsewhere(m1, r, "authors");
  }

  lemma TailElsewhere(m: map<string, string>, r: Record, key: string)
    requires key != "" && key[0] !in ['j', 'd', 'u', 's', 'y', 'i']
    ensures key in ExpectedTail(m, r) <==> key in m
    ensures key in m ==> ExpectedTail(m, r)[key] == m[key]
  {
    DistinctKeys();
  }

  lemma {:induction false} NonEmptyId(parts: seq<string>)
    requires forall i :: 0 <= i < |parts| ==> parts[i] != ""
    ensures NonEmpty(parts) == parts
  {
    if parts != [] {
      assert forall i :: 0 <= i < |parts[1..]| ==> parts[1..][i] == parts[i + 1];
      NonEmptyId(parts[1..]);
      assert parts == [parts[0]] + parts[1..];
    }
  }

  lemma {:induction false} NonEmptyKeeps(parts: seq<string>, c: char)
    requires forall i :: 0 <= i < |parts| ==> c !in parts[i]
    ensures forall i :: 0 <= i < |NonEmpty(parts)| ==> c !in NonEmpty(parts)[i]
  {
    if parts != [] { NonEmptyKeeps(parts[1..], c); }
  }

  lemma JoinNotEmpty(names: seq<string>)
    requires names != [] && names[0] != ""
    ensures Join(names, [NUL]) != ""
  {
  }

  lemma SplitNames(names: seq<string>)
    requires names != [] && AllNames(names)
    ensures NonEmpty(Split(Join(names, [NUL]), NUL)) == names
            <==> forall i :: 0 <= i < |names| ==> NUL !in names[i]
  {
    var parts := Split(Join(names, [NUL]), NUL);
    if forall i :: 0 <= i < |names| ==> NUL !in names[i] {
      SplitJoin(names, NUL);
      assert forall i :: 0 <= i < |names| ==> IsName(names[i]);
      NonEmptyId(names);
    } else {
      SplitPieces(Join(names, [NUL]), NUL);
      NonEmptyKeeps(parts, NUL);
    }
  }

  /** The authors come back in order exactly when none of them contains the
      separator; a record without names leaves the caller's authors. */
  lemma AuthorsReadBack(r: Record, fallback: seq<string>)
    ensures var names := AuthorNames(r.authors);
            ListedAuthors(ExpectedFront(r)) == names <==> forall i :: 0 <= i < |names| ==> NUL !in names[i]
    ensures var names := AuthorNames(r.authors);
            (forall i :: 0 <= i < |names| ==> NUL !in names[i]) ==>
              AuthorsField(ExpectedFront(r), fallback) == if names == [] then fallback else names
  {
    var names := AuthorNames(r.authors);
    ExpectedAuthors(r);
    AuthorNamesFlat(r.authors);
    if names != [] {
      assert IsName(names[0]);
      JoinNotEmpty(names);
      SplitNames(names);
    }
  }

  // ----- the record

  /** What a reader of the file should get, with the caller's values for the
      fields that are blank. */
  function ExpectedRaw(r: Record, fallback: RawArticle): RawArticle {
    var names := AuthorNames(r.authors);
    RawArticle(
      OrElse(CollapseWhitespace(r.article.title), fallback.title),
      OrElse(TrimSpace(r.article.abstract_), fallback.abstract_),
      OrElse(TrimSpace(r.article.fullText), fallback.fullText),
      if r.article.pubYear.Some? then r.article.pubYear else fallback.year,
      if names == [] then fallback.authors else names,
      OrElse(CollapseWhitespace(r.journal), fallback.journal),
      OrElse(CollapseWhitespace(r.article.doi), fallback.doi),
      OrElse(CollapseWhitespace(r.article.url), fallback.url),
      OrElse(CollapseWhitespace(r.sourceKey), fallback.sourceKey))
  }

  lemma ToRawOf(file: string, front: map<string, string>, body: string, doi: string, fallback: RawArticle)
    requires ParseFrozenMD(file) == Parsed(front, body) && doi != ""
    ensures ToRaw(doi, Some(file), fallback) == Some(RawFrom(front, SectionBody(body, ABSTRACT_HEADER),
                                                             SectionBody(body, FULL_TEXT_HEADER), fallback))
  {
  }

  /** Reading a frozen record returns every field that was written. */
  lemma RecordReadsBack(nf: NumberFormat, r: Record, res: ExtractionResult, fallback: RawArticle)
    requires r.article.doi != ""
    requires r.article.pubYear.Some? ==> Decimal.MIN_INT <= r.article.pubYear.value <= Decimal.MAX_INT
    requires forall i :: 0 <= i < |AuthorNames(r.authors)| ==> NUL !in AuthorNames(r.authors)[i]
    requires FirstSectionSurvives(res.tldr, ABSTRACT_HEADER, TrimSpace(r.article.abstract_))
    requires LaterSectionSurvives(res.tldr, TrimSpace(r.article.abstract_), FULL_TEXT_HEADER, TrimSpace(r.article.fullText))
    ensures ToRaw(r.article.doi, Some(Render(nf, r, res)), fallback) == Some(ExpectedRaw(r, fallback))
  {
    ParseOfRender(nf, r, res);
    AbstractReadsBack(nf, r.article, res);
    FullTextReadsBack(nf, r.article, res);
    ToRawOf(Render(nf, r, res), ExpectedFront(r), Body(nf, r.article, res), r.article.doi, fallback);
    RawFromExpected(r, fallback);
  }

  lemma RawFromExpected(r: Record, fallback: RawArticle)
    requires r.article.pubYear.Some? ==> Decimal.MIN_INT <= r.article.pubYear.value <= Decimal.MAX_INT
    requires forall i :: 0 <= i < |AuthorNames(r.authors)| ==> NUL !in AuthorNames(r.authors)[i]
    ensures RawFrom(ExpectedFront(r), TrimSpace(r.article.abstract_), TrimSpace(r.article.fullText), fallback)
            == ExpectedRaw(r, fallback)
  {
    var m := ExpectedFront(r);
    ExpectedFields(r);
    ExpectedYear(r, fallback.year);
    AuthorsReadBack(r, fallback.authors);
    HeldField(m, "title", CollapseWhitespace(r.article.title), fallback.title);
    HeldField(m, "journal", CollapseWhitespace(r.journal), fallback.journal);
    HeldField(m, "doi", CollapseWhitespace(r.article.doi), fallback.doi);
    HeldField(m, "url", CollapseWhitespace(r.article.url), fallback.url);
    HeldField(m, "source_key", CollapseWhitespace(r.sourceKey), fallback.sourceKey);
  }
}
