/** Which text each section of a frozen file is read back as. */
module FrozenSections {
  import opened Text
  import opened FrozenMarkdown
  import opened FrozenFrontMatter

  /** Some line of the text starts with the given prefix. */
  ghost predicate HasLine(text: string, prefix: string) {
    !Absent("\n" + text, "\n" + prefix)
  }

  // ----- reading one section

  lemma HeaderPattern(h: string)
    requires '\n' !in h
    ensures ("\n" + h)[1..] == h
  {
  }

  /** A following section does not change where the text is cut. */
  lemma CutBefore(text: string, post: string)
    requires post == "" || HasPrefix(post, NEXT_SECTION)
    ensures UpToNextSection(text + post) == UpToNextSection(text)
  {
    if post == "" {
      assert text + post == text;
    } else {
      CutBeforeSection(text, post);
    }
  }

  lemma CutBeforeSection(text: string, post: string)
    requires HasPrefix(post, NEXT_SECTION)
    ensures UpToNextSection(text + post) == UpToNextSection(text)
  {
    var s := text + post;
    IndexSpec(s, NEXT_SECTION);
    IndexSpec(text, NEXT_SECTION);
    PrefixOccurs(post, NEXT_SECTION);
    OccursSplit(text, post, NEXT_SECTION, |text|);
    var i, j := Index(s, NEXT_SECTION), Index(text, NEXT_SECTION);
    OccursSplit(text, post, NEXT_SECTION, i);
    if j != -1 {
      OccursSplit(text, post, NEXT_SECTION, j);
      assert i == j;
      assert s[..i] == text[..i];
    } else {
      assert i == |text|;
      assert s[..i] == text;
    }
  }

  /** What a reader takes from a stretch of text: the trimmed text after its
      first header line, up to the next section. */
  function ReadIn(text: string, h: string): string {
    var n := Index(text, "\n" + h);
    if n == -1 then "" else SectionIn(text[n + |h| + 1..])
  }

  /** The section at the start of a text. */
  function SectionIn(text: string): string {
    TrimSpace(UpToNextSection(text))
  }

  lemma OccursMid(pre: string, text: string, rest: string, p: string, i: int)
    requires p != "" && p[0] == '\n' && '\n' !in p[1..]
    requires text != "" && text[0] == '\n' && (rest == "" || rest[0] == '\n')
    ensures i < |pre| ==> (Occurs(pre + text + rest, p, i) <==> Occurs(pre, p, i))
    ensures |pre| <= i < |pre| + |text| ==> (Occurs(pre + text + rest, p, i) <==> Occurs(text, p, i - |pre|))
  {
    OccursSplit(pre + text, rest, p, i);
    OccursSplit(pre, text, p, i);
  }

  lemma NotBefore(pre: string, text: string, rest: string, p: string, i: int)
    requires p != "" && p[0] == '\n' && '\n' !in p[1..]
    requires text != "" && text[0] == '\n' && (rest == "" || rest[0] == '\n')
    requires Absent(pre, p) && Index(text, p) != -1 && i < |pre| + Index(text, p)
    ensures !Occurs(pre + text + rest, p, i)
  {
    OccursMid(pre, text, rest, p, i);
    if i < |pre| {
      assert !Occurs(pre, p, i);
    } else {
      IndexSpec(text, p);
      assert !Occurs(text, p, i - |pre|);
    }
  }

  lemma FoundMid(pre: string, text: string, rest: string, p: string)
    requires p != "" && p[0] == '\n' && '\n' !in p[1..]
    requires text != "" && text[0] == '\n' && (rest == "" || rest[0] == '\n')
    requires !Absent(text, p)
    ensures 0 <= Index(text, p) && Occurs(pre + text + rest, p, |pre| + Index(text, p))
  {
    IndexSpec(text, p);
    OccursMid(pre, text, rest, p, |pre| + Index(text, p));
  }

  lemma IndexMid(pre: string, text: string, rest: string, p: string)
    requires p != "" && p[0] == '\n' && '\n' !in p[1..]
    requires text != "" && text[0] == '\n' && (rest == "" || rest[0] == '\n')
    requires Absent(pre, p) && !Absent(text, p)
    ensures 0 <= Index(text, p) && Index(pre + text + rest, p) == |pre| + Index(text, p)
  {
    var s := pre + text + rest;
    FoundMid(pre, text, rest, p);
    var k := |pre| + Index(text, p);
    forall i | i < k ensures !Occurs(s, p, i) { NotBefore(pre, text, rest, p, i); }
    IndexIs(s, p, k);
  }

  lemma StartMid(body: string, h: string, n: nat)
    requires Index(body, "\n" + h) == n > 0
    ensures SectionStart(body, h) == n + |h| + 1
  {
  }

  lemma SectionFrom(body: string, h: string, start: nat, rest: string)
    requires SectionStart(body, h) == start && body[start..] == rest
    ensures SectionBody(body, h) == TrimSpace(UpToNextSection(rest))
  {
  }

  lemma NewlineFirst(post: string)
    requires post == "" || HasPrefix(post, NEXT_SECTION)
    ensures post == "" || post[0] == '\n'
  {
    if post != "" { assert post[..4][0] == post[0]; }
  }

  lemma HeaderFound(text: string, h: string)
    requires !Absent(text, "\n" + h)
    ensures 0 <= Index(text, "\n" + h) && Index(text, "\n" + h) + |h| + 1 <= |text|
  {
    IndexSpec(text, "\n" + h);
  }

  lemma HeaderIndexMid(pre: string, text: string, post: string, h: string)
    requires '\n' !in h && text != "" && text[0] == '\n'
    requires post == "" || HasPrefix(post, NEXT_SECTION)
    requires Absent(pre, "\n" + h) && !Absent(text, "\n" + h)
    ensures Index(pre + text + post, "\n" + h) == |pre| + Index(text, "\n" + h)
  {
    HeaderPattern(h);
    NewlineFirst(post);
    IndexMid(pre, text, post, "\n" + h);
  }

  lemma FoundBody(body: string, h: string, at: nat, rest: string)
    requires Index(body, "\n" + h) == at > 0 && at + |h| + 1 <= |body| && body[at + |h| + 1..] == rest
    ensures SectionBody(body, h) == TrimSpace(UpToNextSection(rest))
  {
    StartMid(body, h, at);
    SectionFrom(body, h, at + |h| + 1, rest);
  }

  lemma FoundBodyCut(body: string, h: string, at: nat, rest: string, post: string)
    requires post == "" || HasPrefix(post, NEXT_SECTION)
    requires Index(body, "\n" + h) == at > 0 && at + |h| + 1 <= |body| && body[at + |h| + 1..] == rest + post
    ensures SectionBody(body, h) == TrimSpace(UpToNextSection(rest))
  {
    FoundBody(body, h, at, rest + post);
    CutBefore(rest, post);
  }

  lemma ReadInIs(text: string, h: string, n: nat, rest: string)
    requires Index(text, "\n" + h) == n && n + |h| + 1 <= |text| && text[n + |h| + 1..] == rest
    ensures ReadIn(text, h) == SectionIn(rest)
  {
  }

  lemma ReadFound(pre: string, text: string, post: string, h: string, n: nat)
    requires post == "" || HasPrefix(post, NEXT_SECTION)
    requires pre != "" && n + |h| + 1 <= |text| && Index(text, "\n" + h) == n
    requires Index(pre + text + post, "\n" + h) == |pre| + n
    ensures SectionBody(pre + text + post, h) == ReadIn(text, h)
  {
    DropMid(pre, text, post, n + |h| + 1);
    FoundBodyCut(pre + text + post, h, |pre| + n, text[n + |h| + 1..], post);
    ReadInIs(text, h, n, text[n + |h| + 1..]);
  }

  /** The general reading rule: the first stretch with a header line decides,
      unless that line is the very start of the body. */
  lemma ReadFirst(pre: string, text: string, post: string, h: string)
    requires '\n' !in h && text != "" && text[0] == '\n'
    requires post == "" || HasPrefix(post, NEXT_SECTION)
    requires Absent(pre, "\n" + h) && !Absent(text, "\n" + h) && pre != ""
    ensures SectionBody(pre + text + post, h) == ReadIn(text, h)
  {
    HeaderIndexMid(pre, text, post, h);
    HeaderFound(text, h);
    ReadFound(pre, text, post, h, Index(text, "\n" + h));
  }

  lemma DropMid(pre: string, text: string, post: string, k: nat)
    requires k <= |text|
    ensures (pre + text + post)[|pre| + k..] == text[k..] + post
  {
  }

  lemma OwnHeaderFirst(h: string, rest: string)
    ensures !Absent("\n" + h + rest, "\n" + h)
    ensures Index("\n" + h + rest, "\n" + h) == 0
  {
    assert Occurs("\n" + h + rest, "\n" + h, 0);
    IndexSpec("\n" + h + rest, "\n" + h);
  }

  lemma ReadOwn(h: string, rest: string)
    ensures !Absent("\n" + h + rest, "\n" + h)
    ensures ReadIn("\n" + h + rest, h) == TrimSpace(UpToNextSection(rest))
  {
    OwnHeaderFirst(h, rest);
    assert ("\n" + h + rest)[|h| + 1..] == rest;
  }

  /** At index 0 the code starts one character early: the section then begins
      with the last character of its own header. */
  lemma ReadAtStart(h: string, rest: string)
    requires h != ""
    ensures SectionBody("\n" + h + rest, h) == TrimSpace(UpToNextSection([h[|h| - 1]] + rest))
  {
    OwnHeaderFirst(h, rest);
    assert ("\n" + h + rest)[|h|..] == [h[|h| - 1]] + rest;
  }

  // ----- absence, segment by segment

  lemma AbsentPadded(s: string, b: string, p: string)
    requires p != "" && Absent(s, p) && p[|p| - 1] !in b
    ensures Absent(s + b, p)
  {
    forall i ensures !Occurs(s + b, p, i) {
      assert !Occurs(s, p, i);
      if 0 <= i && i + |p| <= |s| {
        assert forall k {:trigger p[k]} :: 0 <= k < |p| ==> (s + b)[i + k] == s[i + k];
      } else if 0 <= i && i + |p| <= |s + b| {
        var k := |p| - 1;
        assert (s + b)[i + k] == b[i + k - |s|] && b[i + k - |s|] in b;
      }
    }
  }

  /** Text written after a tag that is not itself a header. */
  lemma AbsentLabelled(tag: string, text: string, h: string, k: nat)
    requires '\n' !in tag && '\n' !in h
    requires k < |tag| && k < |h| && tag[k] != h[k]
    requires !HasLine(text, h)
    ensures Absent("\n" + tag + text, "\n" + h)
  {
    var p := "\n" + h;
    var s := "\n" + tag + text;
    assert p[0] == '\n';
    forall i ensures !Occurs(s, p, i) {
      assert !Occurs("\n" + text, p, i - |tag|);
      if i == 0 {
        assert s[i + (k + 1)] == tag[k] && p[k + 1] == h[k];
      } else if 0 < i <= |tag| {
        assert s[i + 0] == tag[i - 1] && tag[i - 1] in tag;
      } else if i > |tag| {
        assert s == ("\n" + tag) + text;
        OccursShift("\n" + tag, text, p, i);
        OccursShift("\n", text, p, i - |tag|);
      }
    }
  }

  lemma LineAbsent(line: string, h: string)
    requires '\n' !in line && '\n' !in h && !HasPrefix(line, h)
    ensures Absent("\n" + line, "\n" + h)
  {
    HeaderPattern(h);
    AbsentOneLine(line, "\n" + h);
  }

  lemma Both(x: string, y: string, h: string)
    requires '\n' !in h && (y == "" || y[0] == '\n')
    ensures Absent(x + y, "\n" + h) <==> Absent(x, "\n" + h) && Absent(y, "\n" + h)
  {
    HeaderPattern(h);
    AbsentSplit(x, y, "\n" + h);
  }

  lemma NewlineAbsent(h: string)
    requires h != "" && '\n' !in h
    ensures Absent("\n", "\n" + h) && Absent("", "\n" + h)
  {
  }

  /** The block `\n\n text \n` that every section wraps its text in. */
  function Wrapped(text: string): string {
    "\n" + ("\n" + text) + "\n"
  }

  lemma WrappedAbsent(text: string, h: string)
    requires h != "" && '\n' !in h
    ensures Absent(Wrapped(text), "\n" + h) <==> !HasLine(text, h)
  {
    NewlineAbsent(h);
    Both("\n", "\n" + text, h);
    Both("\n" + ("\n" + text), "\n", h);
  }

  /** Cutting at a `## ` line inside the text always loses some of it. */
  lemma CutIsShorter(content: string)
    requires content != "" && content[|content| - 1] == '\n'
    requires !Absent(content, NEXT_SECTION)
    ensures |TrimSpace(UpToNextSection(content))| + |NEXT_SECTION| < |content|
  {
    IndexSpec(content, NEXT_SECTION);
    var i := Index(content, NEXT_SECTION);
    assert NEXT_SECTION[3] == ' ' && content[i + 3] == NEXT_SECTION[3];
  }

  lemma NotCut(content: string)
    requires Absent(content, NEXT_SECTION)
    ensures UpToNextSection(content) == content
  {
    IndexSpec(content, NEXT_SECTION);
  }

  /** A wrapped text is read back exactly when no line of it looks like the
      start of the next section. */
  lemma WrappedReadsBack(text: string)
    requires Trimmed(text)
    ensures TrimSpace(UpToNextSection(Wrapped(text))) == text <==> !HasLine(text, "## ")
  {
    WrappedAbsent(text, "## ");
    assert "\n" + "## " == NEXT_SECTION;
    if HasLine(text, "## ") {
      CutIsShorter(Wrapped(text));
    } else {
      NotCut(Wrapped(text));
      TrimPad("\n\n", text, "\n");
      TrimOfTrimmed(text);
      assert Wrapped(text) == "\n\n" + text + "\n";
    }
  }

  // ----- the body as pre + header + content + post

  /** Everything before the abstract's header line. */
  function BeforeAbstract(tldr: string): string {
    if tldr == "" then "" else "\n" + TLDR_HEADER + Wrapped(CollapseWhitespace(tldr))
  }

  function BeforeFullText(tldr: string, abstract_: string): string {
    BeforeAbstract(tldr) + ("\n" + ABSTRACT_HEADER + Wrapped(abstract_))
  }

  function AfterFullText(res: ExtractionResult): string {
    "\n" + FormulasAndFigures(res)
  }

  function QuotesContent(nf: NumberFormat, qs: seq<Quote>): string {
    TrimRightNewlines("\n" + LinesText(AllQuoteLines(nf, qs))) + "\n"
  }

  function QuotesPart(nf: NumberFormat, qs: seq<Quote>): string {
    "\n" + QUOTES_HEADER + QuotesContent(nf, qs)
  }

  function BeforeQuotes(a: Article, res: ExtractionResult): string {
    BeforeFullText(res.tldr, TrimSpace(a.abstract_))
    + ("\n" + FULL_TEXT_HEADER + Wrapped(TrimSpace(a.fullText))) + AfterFullText(res)
  }

  lemma BlockWrapped(h: string, text: string)
    ensures "\n" + Block(h, text) == "\n" + h + Wrapped(text) + "\n"
  {
    assert "\n\n" + text + "\n\n" == Wrapped(text) + "\n";
    assert h + "\n\n" + text + "\n\n" == h + ("\n\n" + text + "\n\n");
  }

  lemma MiddleAssoc(b1: string, p1: string, b2: string, p2: string, f: string)
    requires "\n" + b1 == p1 + "\n" && "\n" + b2 == p2 + "\n"
    ensures "\n" + (b1 + b2 + f) == p1 + p2 + ("\n" + f)
  {
    calc {
      "\n" + (b1 + b2 + f);
      ("\n" + b1) + b2 + f;
      (p1 + "\n") + b2 + f;
      p1 + ("\n" + b2) + f;
      p1 + (p2 + "\n") + f;
      p1 + p2 + ("\n" + f);
    }
  }

  lemma MiddleParts(a: Article, res: ExtractionResult)
    ensures "\n" + MiddleSections(a, res)
            == ("\n" + ABSTRACT_HEADER + Wrapped(TrimSpace(a.abstract_)))
               + ("\n" + FULL_TEXT_HEADER + Wrapped(TrimSpace(a.fullText))) + AfterFullText(res)
  {
    var abs, ft := TrimSpace(a.abstract_), TrimSpace(a.fullText);
    BlockWrapped(ABSTRACT_HEADER, abs);
    BlockWrapped(FULL_TEXT_HEADER, ft);
    MiddleAssoc(Block(ABSTRACT_HEADER, abs), "\n" + ABSTRACT_HEADER + Wrapped(abs),
                Block(FULL_TEXT_HEADER, ft), "\n" + FULL_TEXT_HEADER + Wrapped(ft), FormulasAndFigures(res));
  }

  lemma TldrParts(tldr: string)
    ensures "\n" + TldrSection(tldr) == BeforeAbstract(tldr) + "\n"
  {
    if tldr != "" { BlockWrapped(TLDR_HEADER, CollapseWhitespace(tldr)); }
  }

  lemma BodyAssoc(tl: string, m: string, before: string, m1: string, h: string, tail: string)
    requires "\n" + tl == before + "\n" && "\n" + m == m1
    ensures "\n" + ((tl + m + "\n" + h) + tail + "\n") == (before + m1) + ("\n" + h + (tail + "\n"))
  {
    calc {
      "\n" + ((tl + m + "\n" + h) + tail + "\n");
      ("\n" + tl) + m + ("\n" + h + (tail + "\n"));
      (before + "\n") + m + ("\n" + h + (tail + "\n"));
      (before + ("\n" + m)) + ("\n" + h + (tail + "\n"));
    }
  }

  lemma BeforeQuotesAssoc(before: string, p1: string, p2: string, p3: string)
    ensures (before + p1) + p2 + p3 == before + (p1 + p2 + p3)
  {
  }

  lemma BeforeQuotesParts(a: Article, res: ExtractionResult)
    ensures BeforeQuotes(a, res) == BeforeAbstract(res.tldr) + ("\n" + MiddleSections(a, res))
  {
    MiddleParts(a, res);
    BeforeQuotesAssoc(BeforeAbstract(res.tldr), "\n" + ABSTRACT_HEADER + Wrapped(TrimSpace(a.abstract_)),
                      "\n" + FULL_TEXT_HEADER + Wrapped(TrimSpace(a.fullText)), AfterFullText(res));
  }

  lemma BodyOf(nf: NumberFormat, a: Article, res: ExtractionResult, m1: string)
    requires m1 == "\n" + MiddleSections(a, res)
    ensures Body(nf, a, res) == (BeforeAbstract(res.tldr) + m1) + QuotesPart(nf, res.quotes)
  {
    TldrParts(res.tldr);
    BodyAssoc(TldrSection(res.tldr), MiddleSections(a, res), BeforeAbstract(res.tldr), m1, QUOTES_HEADER,
              TrimRightNewlines("\n" + LinesText(AllQuoteLines(nf, res.quotes))));
  }

  lemma BodyParts(nf: NumberFormat, a: Article, res: ExtractionResult)
    ensures Body(nf, a, res) == BeforeQuotes(a, res) + QuotesPart(nf, res.quotes)
  {
    BeforeQuotesParts(a, res);
    BodyOf(nf, a, res, "\n" + MiddleSections(a, res));
  }
}
