/** What comes back from a frozen file: exactly when each section survives the
    round trip, and the whole record when all of them do. */
module FrozenRoundTrip {
  import opened Sequences
  import opened Text
  import opened FrozenMarkdown
  import opened FrozenFrontMatter
  import opened FrozenSections
  import opened FrozenQuotes

  // ----- headers

  ghost predicate IsHeader(h: string) {
    |h| > 3 && h[..3] == "## " && '\n' !in h && !IsSpace(h[|h| - 1])
  }

  lemma AbstractHeader()
    ensures IsHeader(ABSTRACT_HEADER)
  {
    HeaderShape("Аннотация");
    assert ABSTRACT_HEADER == "## " + "Аннотация";
  }

  lemma FullTextHeader()
    ensures IsHeader(FULL_TEXT_HEADER)
  {
    HeaderShape("Полный текст");
    assert FULL_TEXT_HEADER == "## " + "Полный текст";
  }

  lemma QuotesHeader()
    ensures IsHeader(QUOTES_HEADER)
  {
    assert QUOTES_HEADER[..3] == "## ";
  }

  lemma HeaderShape(name: string)
    requires name != "" && '\n' !in name && !IsSpace(name[|name| - 1])
    ensures IsHeader("## " + name)
  {
    var h := "## " + name;
    assert h[..3] == "## ";
    assert h[|h| - 1] == name[|name| - 1];
  }

  lemma SectionStarts(h: string, rest: string)
    requires IsHeader(h)
    ensures HasPrefix("\n" + h + rest, NEXT_SECTION)
  {
    var s := "\n" + h + rest;
    assert s[..4] == "\n" + h[..3];
  }

  lemma DifferentHeader(x: string, h: string, k: nat)
    requires k < |x| && k < |h| && x[k] != h[k]
    ensures !HasPrefix(x, h)
  {
    if |h| <= |x| { assert x[..|h|][k] == x[k]; }
  }

  lemma OtherHeaders()
    ensures !HasPrefix(TLDR_HEADER, ABSTRACT_HEADER) && !HasPrefix(TLDR_HEADER, FULL_TEXT_HEADER)
    ensures !HasPrefix(TLDR_HEADER, QUOTES_HEADER)
    ensures !HasPrefix(ABSTRACT_HEADER, FULL_TEXT_HEADER) && !HasPrefix(ABSTRACT_HEADER, QUOTES_HEADER)
    ensures !HasPrefix(FULL_TEXT_HEADER, QUOTES_HEADER)
    ensures !HasPrefix(FORMULAS_HEADER, QUOTES_HEADER) && !HasPrefix(FIGURES_HEADER, QUOTES_HEADER)
  {
    DifferentHeader(TLDR_HEADER, ABSTRACT_HEADER, 3);
    DifferentHeader(TLDR_HEADER, FULL_TEXT_HEADER, 3);
    DifferentHeader(TLDR_HEADER, QUOTES_HEADER, 3);
    DifferentHeader(ABSTRACT_HEADER, FULL_TEXT_HEADER, 3);
    DifferentHeader(ABSTRACT_HEADER, QUOTES_HEADER, 3);
    DifferentHeader(FULL_TEXT_HEADER, QUOTES_HEADER, 3);
    DifferentHeader(FORMULAS_HEADER, QUOTES_HEADER, 3);
    DifferentHeader(FIGURES_HEADER, QUOTES_HEADER, 3);
  }

  // ----- the TLDR line

  lemma TldrLine(tldr: string, h: string)
    requires '\n' !in h && h != ""
    ensures HasLine(CollapseWhitespace(tldr), h) <==> HasPrefix(CollapseWhitespace(tldr), h)
  {
    CollapseFlat(tldr);
    HeaderPattern(h);
    AbsentOneLine(CollapseWhitespace(tldr), "\n" + h);
  }

  /** A TLDR that starts with a header shadows that section. */
  lemma TldrShadows(t: string, h: string)
    requires IsHeader(h) && '\n' !in t && HasPrefix(t, h)
    ensures !Absent(Wrapped(t), "\n" + h)
    ensures ReadIn(Wrapped(t), h) == TrimSpace(t[|h|..])
  {
    var rest := t[|h|..] + "\n";
    assert t == h + t[|h|..];
    assert Wrapped(t) == "\n" + ("\n" + h + rest);
    IndexAfterNewline(h, rest);
    assert Wrapped(t)[1 + |h| + 1..] == rest;
    NoCutInLine(t[|h|..]);
    TrimBeforeSpaces(t[|h|..], "\n");
  }

  lemma IndexAfterNewline(h: string, rest: string)
    requires IsHeader(h)
    ensures Index("\n" + ("\n" + h + rest), "\n" + h) == 1
    ensures !Absent("\n" + ("\n" + h + rest), "\n" + h)
  {
    var p := "\n" + h;
    var s := "\n" + ("\n" + h + rest);
    HeaderPattern(h);
    OwnHeaderFirst(h, rest);
    OccursShift("\n", "\n" + h + rest, p, 1);
    assert Occurs("\n" + h + rest, p, 0) by { IndexSpec("\n" + h + rest, p); }
    assert !Occurs(s, p, 0) by { assert s[0 + 1] == '\n' && p[1] == h[0] && h[..3][0] == h[0]; }
    IndexIs(s, p, 1);
  }

  lemma NoCutInLine(t: string)
    requires '\n' !in t
    ensures UpToNextSection(t + "\n") == t + "\n"
  {
    HeaderPattern("## ");
    AbsentNoNewline(t, "\n" + "## ");
    NewlineAbsent("## ");
    Both(t, "\n", "## ");
    assert "\n" + "## " == NEXT_SECTION;
    NotCut(t + "\n");
  }

  // ----- the body as stretches

  function AbstractPart(abs: string): string {
    "\n" + ABSTRACT_HEADER + Wrapped(abs)
  }

  function FullTextPart(ft: string): string {
    "\n" + FULL_TEXT_HEADER + Wrapped(ft)
  }

  function FromFormulas(nf: NumberFormat, res: ExtractionResult): string {
    AfterFullText(res) + QuotesPart(nf, res.quotes)
  }

  function FromFullText(nf: NumberFormat, a: Article, res: ExtractionResult): string {
    FullTextPart(TrimSpace(a.fullText)) + FromFormulas(nf, res)
  }

  lemma RegroupSections(b: string, p1: string, p2: string, p3: string, q: string)
    ensures (b + p1 + p2 + p3) + q == b + p1 + (p2 + (p3 + q))
    ensures (b + p1 + p2 + p3) + q == (b + p1) + p2 + (p3 + q)
  {
  }

  lemma BodyStretches(nf: NumberFormat, a: Article, res: ExtractionResult)
    ensures var before, abs, ft := BeforeAbstract(res.tldr), AbstractPart(TrimSpace(a.abstract_)), FullTextPart(TrimSpace(a.fullText));
            && Body(nf, a, res) == before + abs + FromFullText(nf, a, res)
            && Body(nf, a, res) == (before + abs) + ft + FromFormulas(nf, res)
  {
    BodyParts(nf, a, res);
    RegroupSections(BeforeAbstract(res.tldr), AbstractPart(TrimSpace(a.abstract_)),
                    FullTextPart(TrimSpace(a.fullText)), AfterFullText(res), QuotesPart(nf, res.quotes));
  }

  lemma StretchesStartSections(nf: NumberFormat, a: Article, res: ExtractionResult)
    ensures HasPrefix(FromFullText(nf, a, res), NEXT_SECTION)
    ensures HasPrefix(FromFormulas(nf, res), NEXT_SECTION)
  {
    FullTextHeader();
    HeaderStarts(FULL_TEXT_HEADER, Wrapped(TrimSpace(a.fullText)), FromFormulas(nf, res));
    FormulasStart(FormulasAndFigures(res), QuotesPart(nf, res.quotes));
  }

  lemma HeaderStarts(h: string, x: string, y: string)
    requires IsHeader(h)
    ensures HasPrefix(("\n" + h + x) + y, NEXT_SECTION)
  {
    SectionStarts(h, x + y);
    assert ("\n" + h + x) + y == "\n" + h + (x + y);
  }

  lemma FormulasStart(f: string, q: string)
    requires HasPrefix(f, "## ")
    ensures HasPrefix("\n" + f + q, NEXT_SECTION)
  {
    assert ("\n" + f + q)[..4] == "\n" + f[..3];
  }

  // ----- the abstract

  lemma BeforeAbstractAbsent(tldr: string, h: string)
    requires IsHeader(h) && !HasPrefix(TLDR_HEADER, h)
    ensures Absent(BeforeAbstract(tldr), "\n" + h)
            <==> tldr == "" || !HasPrefix(CollapseWhitespace(tldr), h)
  {
    NewlineAbsent(h);
    if tldr != "" {
      var t := CollapseWhitespace(tldr);
      LineAbsent(TLDR_HEADER, h);
      WrappedAbsent(t, h);
      TldrLine(tldr, h);
      Both("\n" + TLDR_HEADER, Wrapped(t), h);
    }
  }

  /** When the TLDR starts with a header, every reader of that section gets the
      rest of the TLDR. */
  lemma ShadowedByTldr(tldr: string, rest: string, h: string)
    requires IsHeader(h) && !HasPrefix(TLDR_HEADER, h) && HasPrefix(rest, NEXT_SECTION)
    requires tldr != "" && HasPrefix(CollapseWhitespace(tldr), h)
    ensures SectionBody(BeforeAbstract(tldr) + rest, h) == TrimSpace(CollapseWhitespace(tldr)[|h|..])
  {
    var t := CollapseWhitespace(tldr);
    CollapseFlat(tldr);
    TldrShadows(t, h);
    LineAbsent(TLDR_HEADER, h);
    ReadFirst("\n" + TLDR_HEADER, Wrapped(t), rest, h);
  }

  lemma OwnPartRead(pre: string, h: string, text: string, rest: string)
    requires IsHeader(h) && pre != "" && Absent(pre, "\n" + h) && HasPrefix(rest, NEXT_SECTION)
    requires Trimmed(text)
    ensures SectionBody(pre + ("\n" + h + Wrapped(text)) + rest, h) == text <==> !HasLine(text, "## ")
  {
    ReadOwn(h, Wrapped(text));
    ReadFirst(pre, "\n" + h + Wrapped(text), rest, h);
    WrappedReadsBack(text);
  }

  /** Found at index 0, the section keeps the last character of its header and
      is never the text that was written. */
  lemma AtStartNeverReadsBack(h: string, text: string, rest: string)
    requires IsHeader(h) && HasPrefix(rest, NEXT_SECTION) && Trimmed(text)
    ensures SectionBody("\n" + h + Wrapped(text) + rest, h) != text
  {
    var c := h[|h| - 1];
    ConcatAssoc("\n" + h, Wrapped(text), rest);
    ReadAtStart(h, Wrapped(text) + rest);
    ConcatAssoc([c], Wrapped(text), rest);
    CutBefore([c] + Wrapped(text), rest);
    LeftoverDiffers(c, text);
  }

  lemma LeftoverDiffers(c: char, text: string)
    requires !IsSpace(c) && Trimmed(text)
    ensures TrimSpace(UpToNextSection([c] + Wrapped(text))) != text
  {
    var content := [c] + Wrapped(text);
    if Absent(content, NEXT_SECTION) {
      NotCut(content);
      LeftoverStays(c, text);
    } else {
      WrappedEnds(c, text);
      CutIsShorter(content);
    }
  }

  lemma WrappedEnds(c: char, text: string)
    ensures var content := [c] + Wrapped(text); content[|content| - 1] == '\n' && |content| == |text| + 4
  {
  }

  lemma LeftoverStays(c: char, text: string)
    requires !IsSpace(c) && Trimmed(text)
    ensures |TrimSpace([c] + Wrapped(text))| > |text|
  {
    var content := [c] + Wrapped(text);
    assert TrimLeft(content) == content;
    if text == "" {
      TrimRightNonBlank(content);
    } else {
      assert content == ([c] + "\n\n") + (text + "\n");
      TrimRightPad(text, "\n");
      TrimRightTail([c] + "\n\n", text + "\n");
    }
  }

  /** When the section after the TLDR is read back as the text that was written. */
  ghost predicate FirstSectionSurvives(tldr: string, h: string, text: string) {
    tldr != ""
    && if HasPrefix(CollapseWhitespace(tldr), h) then TrimSpace(CollapseWhitespace(tldr)[|h|..]) == text
       else !HasLine(text, "## ")
  }

  lemma WithoutTldr(h: string, text: string, rest: string)
    requires IsHeader(h) && HasPrefix(rest, NEXT_SECTION) && Trimmed(text)
    ensures SectionBody(BeforeAbstract("") + ("\n" + h + Wrapped(text)) + rest, h) != text
  {
    AtStartNeverReadsBack(h, text, rest);
    EmptyBefore("\n" + h + Wrapped(text));
  }

  lemma EmptyBefore(x: string)
    ensures BeforeAbstract("") + x == x
  {
  }

  lemma WithPosingTldr(tldr: string, h: string, text: string, rest: string)
    requires IsHeader(h) && !HasPrefix(TLDR_HEADER, h)
    requires tldr != "" && HasPrefix(CollapseWhitespace(tldr), h)
    ensures SectionBody(BeforeAbstract(tldr) + ("\n" + h + Wrapped(text)) + rest, h)
            == TrimSpace(CollapseWhitespace(tldr)[|h|..])
  {
    SectionStarts(h, Wrapped(text) + rest);
    ShadowedByTldr(tldr, "\n" + h + (Wrapped(text) + rest), h);
    Regroup(BeforeAbstract(tldr), "\n" + h, Wrapped(text), rest);
  }

  lemma Regroup(a: string, b: string, c: string, d: string)
    ensures a + (b + c) + d == a + (b + (c + d))
  {
  }

  lemma FirstSection(tldr: string, h: string, text: string, rest: string)
    requires IsHeader(h) && !HasPrefix(TLDR_HEADER, h) && HasPrefix(rest, NEXT_SECTION) && Trimmed(text)
    ensures SectionBody(BeforeAbstract(tldr) + ("\n" + h + Wrapped(text)) + rest, h) == text
            <==> FirstSectionSurvives(tldr, h, text)
  {
    BeforeAbstractAbsent(tldr, h);
    if tldr == "" {
      WithoutTldr(h, text, rest);
    } else if HasPrefix(CollapseWhitespace(tldr), h) {
      WithPosingTldr(tldr, h, text, rest);
    } else {
      OwnPartRead(BeforeAbstract(tldr), h, text, rest);
    }
  }

  /** The abstract survives the round trip exactly when there is a TLDR, the TLDR
      does not pose as the abstract section, and no line of the abstract looks
      like a section header. */
  lemma AbstractReadsBack(nf: NumberFormat, a: Article, res: ExtractionResult)
    ensures SectionBody(Body(nf, a, res), ABSTRACT_HEADER) == TrimSpace(a.abstract_)
            <==> FirstSectionSurvives(res.tldr, ABSTRACT_HEADER, TrimSpace(a.abstract_))
  {
    BodyStretches(nf, a, res);
    StretchesStartSections(nf, a, res);
    AbstractHeader();
    OtherHeaders();
    FirstSection(res.tldr, ABSTRACT_HEADER, TrimSpace(a.abstract_), FromFullText(nf, a, res));
  }

  // ----- the full text

  /** When a later section is read back as the text that was written: no line
      of the TLDR or of the abstract poses as its header (or what such a line
      introduces happens to be the same), and no line of it looks like one. */
  ghost predicate LaterSectionSurvives(tldr: string, abs: string, h: string, text: string) {
    if tldr != "" && HasPrefix(CollapseWhitespace(tldr), h) then TrimSpace(CollapseWhitespace(tldr)[|h|..]) == text
    else if HasLine(abs, h) then ReadIn(Wrapped(abs), h) == text
    else !HasLine(text, "## ")
  }

  lemma PosingTldrLater(tldr: string, abs: string, h: string, part: string, rest: string)
    requires IsHeader(ABSTRACT_HEADER) && IsHeader(h) && !HasPrefix(TLDR_HEADER, h)
    requires tldr != "" && HasPrefix(CollapseWhitespace(tldr), h)
    ensures SectionBody((BeforeAbstract(tldr) + AbstractPart(abs)) + part + rest, h)
            == TrimSpace(CollapseWhitespace(tldr)[|h|..])
  {
    SectionStarts(ABSTRACT_HEADER, Wrapped(abs) + (part + rest));
    ShadowedByTldr(tldr, "\n" + ABSTRACT_HEADER + (Wrapped(abs) + (part + rest)), h);
    Regroup(BeforeAbstract(tldr), "\n" + ABSTRACT_HEADER, Wrapped(abs), part + rest);
    assert (BeforeAbstract(tldr) + AbstractPart(abs)) + part + rest
        == BeforeAbstract(tldr) + AbstractPart(abs) + (part + rest);
  }

  lemma PosingAbstract(tldr: string, abs: string, h: string, part: string, rest: string)
    requires IsHeader(h) && !HasPrefix(TLDR_HEADER, h) && !HasPrefix(ABSTRACT_HEADER, h) && '\n' !in ABSTRACT_HEADER
    requires tldr == "" || !HasPrefix(CollapseWhitespace(tldr), h)
    requires HasLine(abs, h) && HasPrefix(part + rest, NEXT_SECTION)
    ensures SectionBody((BeforeAbstract(tldr) + AbstractPart(abs)) + part + rest, h) == ReadIn(Wrapped(abs), h)
  {
    var pre := BeforeAbstract(tldr) + ("\n" + ABSTRACT_HEADER);
    BeforeAbstractAbsent(tldr, h);
    LineAbsent(ABSTRACT_HEADER, h);
    Both(BeforeAbstract(tldr), "\n" + ABSTRACT_HEADER, h);
    WrappedAbsent(abs, h);
    ReadFirst(pre, Wrapped(abs), part + rest, h);
    RegroupAbstract(BeforeAbstract(tldr), "\n" + ABSTRACT_HEADER, Wrapped(abs), part, rest);
  }

  lemma RegroupAbstract(a: string, b: string, c: string, d: string, e: string)
    ensures (a + (b + c)) + d + e == (a + b) + c + (d + e)
  {
  }

  lemma AbstractPartAbsent(tldr: string, abs: string, h: string)
    requires IsHeader(h) && !HasPrefix(TLDR_HEADER, h) && !HasPrefix(ABSTRACT_HEADER, h) && '\n' !in ABSTRACT_HEADER
    requires tldr == "" || !HasPrefix(CollapseWhitespace(tldr), h)
    requires !HasLine(abs, h)
    ensures Absent(BeforeAbstract(tldr) + AbstractPart(abs), "\n" + h)
  {
    BeforeAbstractAbsent(tldr, h);
    LineAbsent(ABSTRACT_HEADER, h);
    WrappedAbsent(abs, h);
    Both("\n" + ABSTRACT_HEADER, Wrapped(abs), h);
    Both(BeforeAbstract(tldr), AbstractPart(abs), h);
  }

  lemma LaterSection(tldr: string, abs: string, h: string, text: string, rest: string)
    requires IsHeader(ABSTRACT_HEADER) && IsHeader(h) && !HasPrefix(TLDR_HEADER, h) && !HasPrefix(ABSTRACT_HEADER, h)
    requires HasPrefix(rest, NEXT_SECTION) && Trimmed(text)
    ensures SectionBody((BeforeAbstract(tldr) + AbstractPart(abs)) + ("\n" + h + Wrapped(text)) + rest, h) == text
            <==> LaterSectionSurvives(tldr, abs, h, text)
  {
    var part := "\n" + h + Wrapped(text);
    if tldr != "" && HasPrefix(CollapseWhitespace(tldr), h) {
      PosingTldrLater(tldr, abs, h, part, rest);
    } else if HasLine(abs, h) {
      SectionStarts(h, Wrapped(text) + rest);
      assert part + rest == "\n" + h + (Wrapped(text) + rest);
      PosingAbstract(tldr, abs, h, part, rest);
    } else {
      AbstractPartAbsent(tldr, abs, h);
      OwnPartRead(BeforeAbstract(tldr) + AbstractPart(abs), h, text, rest);
    }
  }

  /** The full text survives the round trip exactly when it is not shadowed by a
      header line in the TLDR or the abstract and has no such line itself. */
  lemma FullTextReadsBack(nf: NumberFormat, a: Article, res: ExtractionResult)
    ensures SectionBody(Body(nf, a, res), FULL_TEXT_HEADER) == TrimSpace(a.fullText)
            <==> LaterSectionSurvives(res.tldr, TrimSpace(a.abstract_), FULL_TEXT_HEADER, TrimSpace(a.fullText))
  {
    BodyStretches(nf, a, res);
    StretchesStartSections(nf, a, res);
    AbstractHeader();
    FullTextHeader();
    OtherHeaders();
    LaterSection(res.tldr, TrimSpace(a.abstract_), FULL_TEXT_HEADER, TrimSpace(a.fullText), FromFormulas(nf, res));
  }
}
