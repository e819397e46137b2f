/** The quotes section of a frozen file is read back as it was written. */
module FrozenQuotes {
  import opened Wrappers
  import opened Sequences
  import opened Text
  import opened FrozenMarkdown
  import opened FrozenFrontMatter
  import opened FrozenSections

  // ----- what a reader should see

  /** The quotes that are written, with their text on one line and their other
      fields trimmed. */
  function KeptQuotes(qs: seq<Quote>): seq<FrozenQuote> {
    if qs == [] then []
    else KeptQuotes(qs[..|qs| - 1]) + Kept(qs[|qs| - 1])
  }

  function Kept(q: Quote): seq<FrozenQuote> {
    if q.text == "" then []
    else [FrozenQuote(CollapseWhitespace(q.text), TrimSpace(q.location), q.relevance, TrimSpace(q.rationale))]
  }

  /** One line of text, whatever white space follows it. */
  predicate OneLine(value: string) {
    '\n' !in TrimRight(value)
  }

  predicate SingleLine(q: Quote) {
    OneLine(q.location) && OneLine(q.rationale)
  }

  // ----- single lines

  lemma TrimAfterSpaces(b: string, s: string)
    requires AllSpace(b)
    ensures TrimSpace(b + s) == TrimSpace(s)
  {
    TrimPad(b, s, "");
    assert b + s + "" == b + s;
  }

  lemma TrimBeforeSpaces(s: string, b: string)
    requires AllSpace(b)
    ensures TrimSpace(s + b) == TrimSpace(s)
  {
    TrimPad("", s, b);
    assert "" + s + b == s + b;
  }

  lemma TrimOfTrimRight(s: string)
    ensures TrimSpace(TrimRight(s)) == TrimSpace(s)
  {
    var b := TrimRightParts(s);
    TrimBeforeSpaces(TrimRight(s), b);
  }

  lemma AttributeBy(line: string, key: string, value: string)
    requires Index(line, ":") == |key| < |line|
    requires TrimSpace(line[..|key|]) == key && TrimSpace(line[|key| + 1..]) == value
    ensures ClassifyAttribute(line) == Attribute(key, value)
  {
  }

  lemma TrimKeyed(key: string, value: string)
    requires IsKey(key)
    ensures TrimSpace(key + ":" + (" " + value)) == key + ":" + TrimRight(" " + value)
  {
    var s := key + ":" + (" " + value);
    assert s[0] == key[0];
    assert TrimLeft(s) == s;
    if TrimRight(" " + value) != "" {
      TrimRightTail(key + ":", " " + value);
    } else {
      var b := TrimRightParts(" " + value);
      assert " " + value == b;
      TrimRightPad(key + ":", b);
      assert key + ":" + "" == key + ":";
      assert TrimRight(key + ":") == key + ":";
    }
  }

  lemma AttributeLine(key: string, value: string)
    requires IsKey(key)
    ensures ClassifyAttribute(TrimSpace(key + ":" + (" " + value))) == Attribute(key, TrimSpace(value))
  {
    TrimKeyed(key, value);
    var rest := TrimRight(" " + value);
    ColonSplit(key, rest);
    TrimOfTrimRight(" " + value);
    TrimAfterSpaces(" ", value);
    AttributeBy(key + ":" + rest, key, TrimSpace(value));
  }

  lemma AttributeNotBlank(key: string, value: string)
    requires IsKey(key)
    ensures TrimSpace(key + ":" + (" " + value)) != ""
  {
    TrimKeyed(key, value);
  }

  lemma Indented(line: string, rest: string)
    requires line == "  " + rest && TrimSpace(line) != ""
    ensures ClassifyQuote(line) == ClassifyAttribute(TrimSpace(line))
  {
    assert line[..2] == "  ";
    assert line[..2] != "- " by { assert line[..2][0] == ' '; }
  }

  /** A printed attribute line is read as that attribute with a trimmed value. */
  lemma ClassifyAttributeLine(line: string, key: string, value: string)
    requires IsKey(key) && line == "  " + (key + ": " + value)
    ensures ClassifyQuote(line) == Attribute(key, TrimSpace(value))
  {
    var s := key + ":" + (" " + value);
    assert key + ": " + value == s;
    TrimAfterSpaces("  ", s);
    AttributeNotBlank(key, value);
    AttributeLine(key, value);
    Indented(line, s);
  }

  lemma StartBy(line: string, item: string)
    requires HasPrefix(line, "- ") && TrimSpace(line) != "" && TrimSpace(line[2..]) == item
    ensures ClassifyQuote(line) == Start(QuoteText(item))
  {
  }

  lemma StartItem(text: string)
    requires Trimmed(text)
    ensures var item := TrimSpace("text: " + text); QuoteText(item) == text
  {
    var s := "text: " + text;
    if text == "" {
      TrimBeforeSpaces("text:", " ");
      TrimOfTrimmed("text:");
      assert s == "text:" + " ";
      assert "text:"[5..] == "";
    } else {
      assert s[|s| - 1] == text[|text| - 1];
      TrimOfTrimmed(s);
      assert s[..5] == "text:" && s[5..] == " " + text;
      TrimAfterBlank(text);
    }
  }

  lemma ClassifyStartLine(line: string, text: string)
    requires Trimmed(text) && line == "- " + ("text: " + text)
    ensures ClassifyQuote(line) == Start(text)
  {
    assert line[..2] == "- " && line[2..] == "text: " + text;
    NotBlank(line);
    StartItem(text);
    StartBy(line, TrimSpace("text: " + text));
  }

  lemma NotBlank(line: string)
    requires line != "" && !IsSpace(line[0])
    ensures TrimSpace(line) != ""
  {
    assert TrimLeft(line) == line;
    TrimRightNonBlank(line);
  }

  /** Losing the white space at its end does not change what a line is. */
  lemma ClassifyOfTrimRight(line: string)
    requires |line| > 2 && line[0] == ' ' && line[1] == ' ' && !IsSpace(line[2])
    ensures ClassifyQuote(TrimRight(line)) == ClassifyQuote(line)
    ensures TrimRight(line) != ""
  {
    TrimRightOfIndented(line);
    var t := TrimRight(line);
    TrimOfTrimRight(line);
    TrimAfterSpaces("  ", line[2..]);
    NotBlank(line[2..]);
    Indented(line, line[2..]);
    Indented(t, TrimRight(line[2..]));
  }

  lemma TrimRightOfIndented(line: string)
    requires |line| > 2 && line[0] == ' ' && line[1] == ' ' && !IsSpace(line[2])
    ensures line == "  " + line[2..] && TrimRight(line) == "  " + TrimRight(line[2..]) && TrimRight(line[2..]) != ""
  {
    TrimRightNonBlank(line[2..]);
    assert line[..2] == "  ";
    assert line == line[..2] + line[2..];
    TrimRightTail(line[..2], line[2..]);
  }

  // ----- the lines that are really written

  /** A printed line whose value holds line breaks is several lines of the file. */
  function RealLines(lines: seq<string>): seq<string> {
    if lines == [] then [] else Split(lines[0], '\n') + RealLines(lines[1..])
  }

  lemma {:induction false} RealConcat(a: seq<string>, b: seq<string>)
    ensures RealLines(a + b) == RealLines(a) + RealLines(b)
  {
    if a == [] {
      assert a + b == b;
    } else {
      assert (a + b)[1..] == a[1..] + b;
      RealConcat(a[1..], b);
    }
  }

  lemma RealOne(l: string)
    ensures RealLines([l]) == Split(l, '\n')
  {
    assert RealLines([l][1..]) == [];
  }

  lemma {:induction false} RealOneLiners(lines: seq<string>)
    ensures OneLiners(RealLines(lines))
  {
    if lines != [] {
      SplitPieces(lines[0], '\n');
      RealOneLiners(lines[1..]);
    }
  }

  lemma {:induction false} SplitText(l: string)
    ensures LinesText(Split(l, '\n')) == l + "\n"
  {
    if l == "" {
      assert LinesText([""]) == "" + "\n" + "";
    } else {
      SplitText(l[1..]);
      var r := Split(l[1..], '\n');
      assert l == [l[0]] + l[1..];
      if l[0] == '\n' {
        assert ([""] + r)[1..] == r;
      } else {
        assert ([[l[0]] + r[0]] + r[1..])[1..] == r[1..];
        SameStart([l[0]], r[0], LinesText(r[1..]));
      }
    }
  }

  lemma SameStart(c: string, x: string, rest: string)
    ensures (c + x) + "\n" + rest == c + (x + "\n" + rest)
  {
  }

  lemma {:induction false} RealText(lines: seq<string>)
    ensures LinesText(RealLines(lines)) == LinesText(lines)
  {
    if lines != [] {
      SplitText(lines[0]);
      RealText(lines[1..]);
      LinesTextConcat(Split(lines[0], '\n'), RealLines(lines[1..]));
    }
  }

  ghost predicate AllBlank(lines: seq<string>) {
    forall i :: 0 <= i < |lines| ==> AllSpace(lines[i])
  }

  lemma {:induction false} SplitBlank(b: string)
    requires AllSpace(b)
    ensures AllBlank(Split(b, '\n'))
  {
    if b != "" {
      SplitBlank(b[1..]);
    }
  }

  lemma {:induction false} SplitAfter(t: string, b: string)
    requires '\n' !in t
    ensures Split(t + b, '\n') == [t + Split(b, '\n')[0]] + Split(b, '\n')[1..]
  {
    var r := Split(b, '\n');
    if t == "" {
      assert t + b == b && t + r[0] == r[0] && r == [r[0]] + r[1..];
    } else {
      assert (t + b)[1..] == t[1..] + b;
      SplitAfter(t[1..], b);
      assert [t[0]] + (t[1..] + r[0]) == t + r[0];
    }
  }

  /** A value on one line is written as one line, with blank lines behind it. */
  lemma FieldLines(prefix: string, value: string) returns (padding: string, blanks: seq<string>)
    requires '\n' !in prefix && OneLine(value)
    ensures Split(prefix + value, '\n') == [prefix + (TrimRight(value) + padding)] + blanks
    ensures AllSpace(padding) && AllBlank(blanks) && '\n' !in padding
  {
    var b := TrimRightParts(value);
    var r := Split(b, '\n');
    SplitBlank(b);
    SplitPieces(b, '\n');
    padding, blanks := r[0], r[1..];
    SplitAfter(prefix + TrimRight(value), b);
    assert prefix + value == (prefix + TrimRight(value)) + b;
    assert prefix + (TrimRight(value) + padding) == (prefix + TrimRight(value)) + padding;
  }

  // ----- what the lines are read as

  /** The lines that say something. */
  function Significant(cs: seq<QuoteLine>): seq<QuoteLine> {
    if cs == [] then [] else (if cs[0].Ignored? then [] else [cs[0]]) + Significant(cs[1..])
  }

  lemma {:induction false} SignificantConcat(a: seq<QuoteLine>, b: seq<QuoteLine>)
    ensures Significant(a + b) == Significant(a) + Significant(b)
  {
    if a == [] {
      assert a + b == b;
    } else {
      assert (a + b)[1..] == a[1..] + b;
      SignificantConcat(a[1..], b);
    }
  }

  lemma {:induction false} RunSignificant(nf: NumberFormat, st: QuoteState, cs: seq<QuoteLine>)
    ensures st.Run(nf, Significant(cs)) == st.Run(nf, cs)
    decreases |cs|
  {
    if cs != [] {
      RunSignificant(nf, st.Apply(nf, cs[0]), cs[1..]);
      var rest := Significant(cs[1..]);
      assert [] + rest == rest && ([cs[0]] + rest)[1..] == rest;
    }
  }

  /** The lines of the file are read as these, blank lines apart. */
  predicate ReadAs(lines: seq<string>, cs: seq<QuoteLine>) {
    Significant(ClassifyQuotes(lines)) == cs
  }

  lemma ClassifyQuotesConcat(a: seq<string>, b: seq<string>)
    ensures ClassifyQuotes(a + b) == ClassifyQuotes(a) + ClassifyQuotes(b)
  {
  }

  lemma ReadConcat(a: seq<string>, b: seq<string>, x: seq<QuoteLine>, y: seq<QuoteLine>)
    requires ReadAs(RealLines(a), x) && ReadAs(RealLines(b), y)
    ensures ReadAs(RealLines(a + b), x + y)
  {
    RealConcat(a, b);
    ClassifyQuotesConcat(RealLines(a), RealLines(b));
    SignificantConcat(ClassifyQuotes(RealLines(a)), ClassifyQuotes(RealLines(b)));
  }

  lemma TrimBlank(b: string)
    requires AllSpace(b)
    ensures TrimSpace(b) == ""
  {
    TrimLeftAllSpace(b);
  }

  lemma {:induction false} BlanksIgnored(lines: seq<string>)
    requires AllBlank(lines)
    ensures ReadAs(lines, [])
    decreases |lines|
  {
    if lines != [] {
      TrimBlank(lines[0]);
      BlanksIgnored(lines[1..]);
      assert ClassifyQuotes(lines)[1..] == ClassifyQuotes(lines[1..]);
    }
  }

  lemma ReadFirstThen(line: string, blanks: seq<string>, c: QuoteLine)
    requires ClassifyQuote(line) == c && !c.Ignored? && AllBlank(blanks)
    ensures ReadAs([line] + blanks, [c])
  {
    BlanksIgnored(blanks);
    ClassifyQuotesConcat([line], blanks);
    SignificantConcat(ClassifyQuotes([line]), ClassifyQuotes(blanks));
    SignificantOne(line);
  }

  lemma SignificantOne(line: string)
    ensures Significant(ClassifyQuotes([line])) == if ClassifyQuote(line).Ignored? then [] else [ClassifyQuote(line)]
  {
    assert ClassifyQuotes([line])[1..] == [];
  }

  function OptionalClass(key: string, value: string): seq<QuoteLine> {
    if value == "" then [] else [Attribute(key, TrimSpace(value))]
  }

  function AttributeClasses(nf: NumberFormat, q: Quote): seq<QuoteLine> {
    OptionalClass("location", q.location)
    + ([Attribute("relevance", nf.print_(q.relevance))] + OptionalClass("rationale", q.rationale))
  }

  function QuoteClasses(nf: NumberFormat, q: Quote): seq<QuoteLine> {
    if q.text == "" then [] else [Start(CollapseWhitespace(q.text))] + AttributeClasses(nf, q)
  }

  function AllQuoteClasses(nf: NumberFormat, qs: seq<Quote>): seq<QuoteLine> {
    if qs == [] then [] else AllQuoteClasses(nf, qs[..|qs| - 1]) + QuoteClasses(nf, qs[|qs| - 1])
  }

  lemma TrimPaddedValue(value: string, padding: string)
    requires AllSpace(padding)
    ensures TrimSpace(TrimRight(value) + padding) == TrimSpace(value)
  {
    TrimBeforeSpaces(TrimRight(value), padding);
    TrimOfTrimRight(value);
  }

  lemma ReadOptional(prefix: string, key: string, value: string)
    requires IsKey(key) && prefix == "  " + (key + ": ") && '\n' !in prefix && OneLine(value)
    ensures ReadAs(RealLines(OptionalLine(prefix, value)), OptionalClass(key, value))
  {
    if value != "" {
      var padding, blanks := FieldLines(prefix, value);
      var written := TrimRight(value) + padding;
      RealOne(prefix + value);
      assert prefix + written == "  " + (key + ": " + written);
      ClassifyAttributeLine(prefix + written, key, written);
      TrimPaddedValue(value, padding);
      ReadFirstThen(prefix + written, blanks, Attribute(key, TrimSpace(value)));
    }
  }

  /** A single line is one line of the file. */
  lemma ReadLine(line: string, c: QuoteLine)
    requires '\n' !in line && ClassifyQuote(line) == c && !c.Ignored?
    ensures ReadAs(RealLines([line]), [c])
  {
    RealOne(line);
    SplitOne(line, '\n');
    SignificantOne(line);
  }

  lemma ReadLocation(value: string)
    requires OneLine(value)
    ensures ReadAs(RealLines(OptionalLine("  location: ", value)), OptionalClass("location", value))
  {
    ReadOptional("  location: ", "location", value);
  }

  lemma ReadRationale(value: string)
    requires OneLine(value)
    ensures ReadAs(RealLines(OptionalLine("  rationale: ", value)), OptionalClass("rationale", value))
  {
    ReadOptional("  rationale: ", "rationale", value);
  }

  lemma ReadNumber(line: string, key: string, value: string)
    requires IsKey(key) && IsWord(value) && line == "  " + (key + ": " + value) && '\n' !in line
    ensures ReadAs(RealLines([line]), [Attribute(key, value)])
  {
    ClassifyAttributeLine(line, key, value);
    TrimOfTrimmed(value);
    ReadLine(line, Attribute(key, value));
  }

  lemma ReadRelevance(value: string)
    requires IsWord(value)
    ensures ReadAs(RealLines(["  relevance: " + value]), [Attribute("relevance", value)])
  {
    WordNoNewline(value);
    ReadNumber("  relevance: " + value, "relevance", value);
  }

  lemma WordNoNewline(w: string)
    requires IsWord(w)
    ensures '\n' !in w
  {
  }

  lemma ReadAttributes(nf: NumberFormat, q: Quote)
    requires Prints(nf, q.relevance) && SingleLine(q)
    ensures ReadAs(RealLines(AttributeLines(nf, q)), AttributeClasses(nf, q))
  {
    var n := nf.print_(q.relevance);
    var rationale := OptionalLine("  rationale: ", q.rationale);
    ReadLocation(q.location);
    ReadRationale(q.rationale);
    ReadRelevance(n);
    ReadConcat(["  relevance: " + n], rationale, [Attribute("relevance", n)], OptionalClass("rationale", q.rationale));
    ReadConcat(OptionalLine("  location: ", q.location), ["  relevance: " + n] + rationale,
               OptionalClass("location", q.location),
               [Attribute("relevance", n)] + OptionalClass("rationale", q.rationale));
  }

  lemma ReadPastBlank(lines: seq<string>, cs: seq<QuoteLine>)
    requires ReadAs(RealLines(lines), cs)
    ensures ReadAs(RealLines([""] + lines), cs)
  {
    RealOne("");
    BlanksIgnored([""]);
    ReadConcat([""], lines, [], cs);
    assert [] + cs == cs;
  }

  lemma ReadStart(line: string, text: string)
    requires Trimmed(text) && '\n' !in text && '\n' !in line && line == "- " + ("text: " + text)
    ensures ReadAs(RealLines([line]), [Start(text)])
  {
    ClassifyStartLine(line, text);
    ReadLine(line, Start(text));
  }

  lemma StartLine(text: string)
    requires '\n' !in text
    ensures "- text: " + text == "- " + ("text: " + text) && '\n' !in "- text: " + text
  {
  }

  lemma ReadHead(line: string, text: string)
    requires Trimmed(text) && '\n' !in text && line == "- text: " + text
    ensures ReadAs(RealLines(["", line]), [Start(text)])
  {
    StartLine(text);
    ReadStart(line, text);
    ReadPastBlank([line], [Start(text)]);
    assert [""] + [line] == ["", line];
  }

  lemma ReadOneQuote(nf: NumberFormat, q: Quote)
    requires q.text != "" ==> Prints(nf, q.relevance) && SingleLine(q)
    ensures ReadAs(RealLines(QuoteLines(nf, q)), QuoteClasses(nf, q))
  {
    if q.text != "" {
      var c := CollapseWhitespace(q.text);
      CollapseFlat(q.text);
      ReadHead("- text: " + c, c);
      ReadAttributes(nf, q);
      ReadConcat(["", "- text: " + c], AttributeLines(nf, q), [Start(c)], AttributeClasses(nf, q));
    }
  }

  lemma {:induction false} ReadAllQuotes(nf: NumberFormat, qs: seq<Quote>)
    requires Sound(nf, qs) && forall i :: 0 <= i < |qs| && qs[i].text != "" ==> SingleLine(qs[i])
    ensures ReadAs(RealLines(AllQuoteLines(nf, qs)), AllQuoteClasses(nf, qs))
  {
    if qs != [] {
      var k := |qs| - 1;
      ReadAllQuotes(nf, qs[..k]);
      ReadOneQuote(nf, qs[k]);
      ReadConcat(AllQuoteLines(nf, qs[..k]), QuoteLines(nf, qs[k]),
                 AllQuoteClasses(nf, qs[..k]), QuoteClasses(nf, qs[k]));
    }
  }

  // ----- running over the classified lines

  lemma {:induction false} RunQuotesConcat(nf: NumberFormat, st: QuoteState, a: seq<QuoteLine>, b: seq<QuoteLine>)
    ensures st.Run(nf, a + b) == st.Run(nf, a).Run(nf, b)
    decreases |a|
  {
    if a == [] {
      assert a + b == b;
    } else {
      assert (a + b)[1..] == a[1..] + b;
      RunQuotesConcat(nf, st.Apply(nf, a[0]), a[1..], b);
    }
  }

  lemma RunOneQuoteLine(nf: NumberFormat, st: QuoteState, line: QuoteLine)
    ensures st.Run(nf, [line]) == st.Apply(nf, line)
  {
  }

  lemma RunOptional(nf: NumberFormat, st: QuoteState, key: string, value: string)
    requires st.current.Some?
    ensures st.Run(nf, OptionalClass(key, value))
            == if value == "" then st
               else st.(current := Some(ApplyQuoteField(nf, st.current.value, key, TrimSpace(value))))
  {
    if value != "" { RunOneQuoteLine(nf, st, Attribute(key, TrimSpace(value))); }
  }

  lemma RunAttributes(nf: NumberFormat, st: QuoteState, q: Quote, text: string)
    requires Prints(nf, q.relevance)
    requires st.current == Some(FrozenQuote(text, "", 0.0, ""))
    ensures st.Run(nf, AttributeClasses(nf, q))
            == QuoteState(st.out, Some(FrozenQuote(text, TrimSpace(q.location), q.relevance, TrimSpace(q.rationale))))
  {
    var c1, c3 := OptionalClass("location", q.location), OptionalClass("rationale", q.rationale);
    var c2 := [Attribute("relevance", nf.print_(q.relevance))];
    RunQuotesConcat(nf, st, c1, c2 + c3);
    RunOptional(nf, st, "location", q.location);
    var s1 := st.Run(nf, c1);
    RunQuotesConcat(nf, s1, c2, c3);
    RunOneQuoteLine(nf, s1, c2[0]);
    RunOptional(nf, s1.Run(nf, c2), "rationale", q.rationale);
  }

  lemma RunOneQuote(nf: NumberFormat, st: QuoteState, q: Quote)
    requires q.text != "" ==> Prints(nf, q.relevance)
    ensures st.Run(nf, QuoteClasses(nf, q)).Flushed() == st.Flushed() + Kept(q)
  {
    if q.text == "" {
      assert st.Flushed() + [] == st.Flushed();
    } else {
      var c := CollapseWhitespace(q.text);
      RunQuotesConcat(nf, st, [Start(c)], AttributeClasses(nf, q));
      RunOneQuoteLine(nf, st, Start(c));
      RunAttributes(nf, st.Apply(nf, Start(c)), q, c);
    }
  }

  lemma {:induction false} RunAllQuotes(nf: NumberFormat, qs: seq<Quote>)
    requires Sound(nf, qs)
    ensures NO_QUOTES.Run(nf, AllQuoteClasses(nf, qs)).Flushed() == KeptQuotes(qs)
  {
    if qs != [] {
      var k := |qs| - 1;
      RunAllQuotes(nf, qs[..k]);
      RunQuotesConcat(nf, NO_QUOTES, AllQuoteClasses(nf, qs[..k]), QuoteClasses(nf, qs[k]));
      RunOneQuote(nf, NO_QUOTES.Run(nf, AllQuoteClasses(nf, qs[..k])), qs[k]);
    }
  }

  // ----- the lines as the section's text

  /** A line of the file: never the start of a section. */
  ghost predicate QuoteSafe(l: string) {
    '\n' !in l && (l == "" || l[0] == '-' || IsSpace(l[0]))
  }

  ghost predicate AllQuoteSafe(lines: seq<string>) {
    forall i :: 0 <= i < |lines| ==> QuoteSafe(lines[i])
  }

  ghost predicate EndsQuote(l: string) {
    |l| > 2 && l[0] == ' ' && l[1] == ' ' && !IsSpace(l[2])
  }

  /** A blank line, a text line, and an attribute line at the end. */
  ghost predicate IsQuoteBlock(lines: seq<string>) {
    && |lines| > 2 && lines[0] == ""
    && lines[1] != "" && !IsSpace(lines[1][0])
    && EndsQuote(lines[|lines| - 1])
  }

  /** The first n lines are a block, and only blank lines follow. */
  ghost predicate BlockUpTo(lines: seq<string>, n: nat) {
    n <= |lines| && IsQuoteBlock(lines[..n]) && AllBlank(lines[n..])
  }

  ghost predicate BlockThenBlanks(lines: seq<string>) {
    AllQuoteSafe(lines) && exists n :: BlockUpTo(lines, n)
  }

  /** The attribute lines: the last that says something, and blank lines. */
  ghost predicate EndsThenBlanks(lines: seq<string>) {
    AllQuoteSafe(lines) && exists n: nat :: n < |lines| && EndsQuote(lines[n]) && AllBlank(lines[n + 1..])
  }

  lemma EndsWith(prefix: string, value: string)
    requires EndsQuote(prefix)
    ensures EndsQuote(prefix + value)
  {
  }

  lemma BlankSafe(l: string)
    requires AllSpace(l) && '\n' !in l
    ensures QuoteSafe(l)
  {
  }

  lemma SafeQuoteConcat(a: seq<string>, b: seq<string>)
    requires AllQuoteSafe(a) && AllQuoteSafe(b)
    ensures AllQuoteSafe(a + b)
  {
  }

  /** A field's lines end a quote, unless it is not written. */
  lemma FieldEnds(prefix: string, value: string)
    requires EndsQuote(prefix) && '\n' !in prefix && OneLine(value) && value != ""
    ensures EndsThenBlanks(RealLines([prefix + value]))
  {
    var padding, blanks := FieldLines(prefix, value);
    var line := prefix + (TrimRight(value) + padding);
    RealOne(prefix + value);
    EndsWith(prefix, TrimRight(value) + padding);
    var lines := [line] + blanks;
    SplitPieces(prefix + value, '\n');
    forall i | 0 <= i < |lines| ensures QuoteSafe(lines[i]) {
      if i > 0 {
        assert lines[i] == blanks[i - 1];
        BlankSafe(lines[i]);
      }
    }
    assert lines[0 + 1..] == blanks;
    assert EndsQuote(lines[0]);
  }

  lemma EndsConcat(a: seq<string>, b: seq<string>)
    requires a == [] || EndsThenBlanks(a)
    requires b == [] || EndsThenBlanks(b)
    ensures a + b == [] || EndsThenBlanks(a + b)
  {
    if b == [] {
      assert a + b == a;
    } else {
      var n: nat :| n < |b| && EndsQuote(b[n]) && AllBlank(b[n + 1..]);
      if a != [] {
        SafeQuoteConcat(a, b);
        assert (a + b)[|a| + n] == b[n] && (a + b)[|a| + n + 1..] == b[n + 1..];
      } else {
        assert a + b == b;
      }
    }
  }

  lemma OptionalEnds(prefix: string, value: string)
    requires EndsQuote(prefix) && '\n' !in prefix && OneLine(value)
    ensures RealLines(OptionalLine(prefix, value)) == [] || EndsThenBlanks(RealLines(OptionalLine(prefix, value)))
  {
    if value != "" {
      FieldEnds(prefix, value);
    }
  }

  lemma WordIsOneLine(w: string)
    requires IsWord(w)
    ensures OneLine(w)
  {
    WordNoNewline(w);
    TrimRightNoNewline(w);
  }

  lemma AttributesEnd(nf: NumberFormat, q: Quote)
    requires Prints(nf, q.relevance) && SingleLine(q)
    ensures EndsThenBlanks(RealLines(AttributeLines(nf, q)))
  {
    var n := nf.print_(q.relevance);
    var location, relevance := OptionalLine("  location: ", q.location), ["  relevance: " + n];
    var rationale := OptionalLine("  rationale: ", q.rationale);
    WordIsOneLine(n);
    OptionalEnds("  location: ", q.location);
    FieldEnds("  relevance: ", n);
    OptionalEnds("  rationale: ", q.rationale);
    RealConcat(relevance, rationale);
    EndsConcat(RealLines(relevance), RealLines(rationale));
    RealConcat(location, relevance + rationale);
    EndsConcat(RealLines(location), RealLines(relevance) + RealLines(rationale));
  }

  lemma HeadAndAttributes(line: string, attributes: seq<string>)
    requires '\n' !in line && line != "" && line[0] == '-' && EndsThenBlanks(attributes)
    ensures BlockThenBlanks(["", line] + attributes)
  {
    var lines := ["", line] + attributes;
    var n: nat :| n < |attributes| && EndsQuote(attributes[n]) && AllBlank(attributes[n + 1..]);
    SafeQuoteConcat(["", line], attributes);
    assert lines[..n + 3][n + 2] == attributes[n] && lines[n + 3..] == attributes[n + 1..];
    assert BlockUpTo(lines, n + 3);
  }

  lemma OneQuoteBlock(nf: NumberFormat, q: Quote)
    requires q.text != "" ==> SingleLine(q) && Prints(nf, q.relevance)
    ensures var lines := RealLines(QuoteLines(nf, q)); lines == [] || BlockThenBlanks(lines)
  {
    if q.text != "" {
      var c := CollapseWhitespace(q.text);
      var line := "- text: " + c;
      CollapseFlat(q.text);
      AttributesEnd(nf, q);
      RealConcat(["", line], AttributeLines(nf, q));
      RealConcat([""], [line]);
      RealOne("");
      RealOne(line);
      SplitOne(line, '\n');
      assert ["", line] == [""] + [line];
      HeadAndAttributes(line, RealLines(AttributeLines(nf, q)));
    }
  }

  lemma BlocksConcat(a: seq<string>, b: seq<string>)
    requires a == [] || BlockThenBlanks(a)
    requires b == [] || BlockThenBlanks(b)
    ensures a + b == [] || BlockThenBlanks(a + b)
  {
    if b == [] {
      assert a + b == a;
    } else if a == [] {
      assert a + b == b;
    } else {
      SafeQuoteConcat(a, b);
      var m: nat :| BlockUpTo(a, m);
      var n: nat :| BlockUpTo(b, n);
      BlockJoin(a, m, b, n);
    }
  }

  lemma BlockJoin(a: seq<string>, m: nat, b: seq<string>, n: nat)
    requires BlockUpTo(a, m) && BlockUpTo(b, n)
    ensures BlockUpTo(a + b, |a| + n)
  {
    var lines := a + b;
    assert lines[..|a| + n] == a + b[..n] && lines[|a| + n..] == b[n..];
    assert a[..m][0] == a[0] && a[..m][1] == a[1];
    assert (a + b[..n])[|a| + n - 1] == b[..n][n - 1];
  }

  lemma {:induction false} QuoteBlocks(nf: NumberFormat, qs: seq<Quote>)
    requires Sound(nf, qs) && forall i :: 0 <= i < |qs| && qs[i].text != "" ==> SingleLine(qs[i])
    ensures var lines := RealLines(AllQuoteLines(nf, qs)); lines == [] || BlockThenBlanks(lines)
  {
    if qs != [] {
      var k := |qs| - 1;
      QuoteBlocks(nf, qs[..k]);
      OneQuoteBlock(nf, qs[k]);
      RealConcat(AllQuoteLines(nf, qs[..k]), QuoteLines(nf, qs[k]));
      BlocksConcat(RealLines(AllQuoteLines(nf, qs[..k])), RealLines(QuoteLines(nf, qs[k])));
    }
  }

  lemma {:induction false} LedConcat(a: seq<string>, b: seq<string>)
    ensures Led(a + b) == Led(a) + Led(b)
  {
    if a == [] {
      assert a + b == b;
    } else {
      assert (a + b)[1..] == a[1..] + b;
      LedConcat(a[1..], b);
    }
  }

  lemma LedOne(l: string)
    ensures Led([l]) == "\n" + l
  {
    assert Led([l][1..]) == "";
    assert "\n" + l + "" == "\n" + l;
  }

  /** Trimming the section's text only strips its last line. */
  lemma TrimOfBlock(first: string, mid: seq<string>, last: string)
    requires first != "" && !IsSpace(first[0]) && EndsQuote(last)
    ensures "\n" + TrimSpace(Led([""] + ([first] + mid) + [last]) + "\n") == Led([first] + mid + [TrimRight(last)])
  {
    var y := first + Led(mid) + "\n";
    BlockText(first, mid, TrimRight(last));
    PaddedBlock(first, mid, last);
    TrimLastLine(y, last);
    AfterNewline(y, TrimRight(last));
  }

  lemma AfterNewline(y: string, r: string)
    ensures "\n" + (y + r) == "\n" + y + r
  {
  }

  lemma PaddedBlock(first: string, mid: seq<string>, last: string)
    ensures Led([""] + ([first] + mid) + [last]) + "\n" == "\n\n" + (first + Led(mid) + "\n" + last) + "\n"
  {
    BlockText(first, mid, last);
    LedConcat([""], [first] + mid + [last]);
    assert [""] + ([first] + mid) + [last] == [""] + ([first] + mid + [last]);
    LedOne("");
  }

  lemma TrimLastLine(y: string, last: string)
    requires y != "" && !IsSpace(y[0]) && EndsQuote(last)
    ensures TrimSpace("\n\n" + (y + last) + "\n") == y + TrimRight(last)
  {
    TrimRightOfIndented(last);
    TrimPad("\n\n", y + last, "\n");
    TrimJoined(y, last);
  }

  lemma TrimJoined(y: string, last: string)
    requires y != "" && !IsSpace(y[0]) && TrimRight(last) != ""
    ensures TrimSpace(y + last) == y + TrimRight(last)
  {
    assert (y + last)[0] == y[0];
    TrimRightTail(y, last);
  }

  lemma BlockText(first: string, mid: seq<string>, last: string)
    ensures Led([first] + mid + [last]) == "\n" + (first + Led(mid) + "\n") + last
  {
    LedConcat([first] + mid, [last]);
    LedConcat([first], mid);
    LedOne(first);
    LedOne(last);
  }

  lemma SplitAfterNewline(t: string, lines: seq<string>)
    requires "\n" + t == Led(lines) && OneLiners(lines)
    ensures Split(t, '\n') == lines
  {
    SplitLed(lines);
    SplitFirst("", '\n', t);
    assert "" + ['\n'] + t == "\n" + t;
    assert ([""] + lines)[1..] == lines && ([""] + Split(t, '\n'))[1..] == Split(t, '\n');
  }

  lemma OneLinersOfSafe(lines: seq<string>)
    requires AllQuoteSafe(lines)
    ensures OneLiners(lines)
    ensures forall l :: l in lines ==> !HasPrefix(l, "## ")
  {
    forall l | l in lines ensures '\n' !in l && !HasPrefix(l, "## ") {
      var i :| 0 <= i < |lines| && lines[i] == l;
      assert QuoteSafe(lines[i]);
      if |l| >= 3 { assert l[..3][0] == l[0]; }
    }
  }

  lemma TrimRightNoNewline(l: string)
    requires '\n' !in l
    ensures '\n' !in TrimRight(l)
  {
    var b := TrimRightParts(l);
  }

  lemma QuotesOfBlock(nf: NumberFormat, first: string, mid: seq<string>, last: string)
    requires AllQuoteSafe([first] + mid + [last])
    requires first != "" && !IsSpace(first[0]) && EndsQuote(last)
    ensures QuotesOf(nf, TrimSpace(Led([""] + ([first] + mid) + [last]) + "\n"))
            == NO_QUOTES.Run(nf, ClassifyQuotes([first] + mid + [last])).Flushed()
  {
    var t := TrimSpace(Led([""] + ([first] + mid) + [last]) + "\n");
    var stripped := [first] + mid + [TrimRight(last)];
    TrimOfBlock(first, mid, last);
    assert OneLiners(stripped) by {
      OneLinersOfSafe([first] + mid + [last]);
      assert last in [first] + mid + [last];
      TrimRightNoNewline(last);
      assert forall l :: l in stripped ==> l in [first] + mid + [last] || l == TrimRight(last);
    }
    SplitAfterNewline(t, stripped);
    ClassifyQuotesConcat([first] + mid, [last]);
    ClassifyQuotesConcat([first] + mid, [TrimRight(last)]);
    ClassifyOfTrimRight(last);
    assert ClassifyQuotes([last]) == ClassifyQuotes([TrimRight(last)]);
    assert ClassifyQuotes(stripped) == ClassifyQuotes([first] + mid + [last]);
  }

  lemma RunIgnoredFirst(nf: NumberFormat, lines: seq<string>)
    ensures NO_QUOTES.Run(nf, ClassifyQuotes([""] + lines)) == NO_QUOTES.Run(nf, ClassifyQuotes(lines))
  {
    ClassifyQuotesConcat([""], lines);
    RunQuotesConcat(nf, NO_QUOTES, ClassifyQuotes([""]), ClassifyQuotes(lines));
    RunOneQuoteLine(nf, NO_QUOTES, Ignored);
    BlankIgnored();
  }

  lemma BlankIgnored()
    ensures ClassifyQuotes([""]) == [Ignored]
  {
  }

  lemma QuotesOfCore(nf: NumberFormat, lines: seq<string>)
    requires AllQuoteSafe(lines) && IsQuoteBlock(lines)
    ensures QuotesOf(nf, TrimSpace(Led(lines) + "\n")) == NO_QUOTES.Run(nf, ClassifyQuotes(lines)).Flushed()
  {
    var first, mid, last := lines[1], lines[2..|lines| - 1], lines[|lines| - 1];
    assert lines == [""] + ([first] + mid) + [last];
    assert AllQuoteSafe([first] + mid + [last]) by { assert [first] + mid + [last] == lines[1..]; }
    QuotesOfBlock(nf, first, mid, last);
    RunIgnoredFirst(nf, [first] + mid + [last]);
    assert [""] + ([first] + mid + [last]) == lines;
  }

  lemma {:induction false} LedBlank(lines: seq<string>)
    requires AllBlank(lines)
    ensures AllSpace(Led(lines))
    decreases |lines|
  {
    if lines != [] {
      LedBlank(lines[1..]);
    }
  }

  /** Blank lines at the end of the section are trimmed. */
  lemma TrimBlankLines(core: seq<string>, blanks: seq<string>)
    requires AllBlank(blanks)
    ensures TrimSpace(Led(core + blanks) + "\n") == TrimSpace(Led(core) + "\n")
  {
    LedConcat(core, blanks);
    LedBlank(blanks);
    TrimBeforeSpaces(Led(core), Led(blanks) + "\n");
    TrimBeforeSpaces(Led(core), "\n");
    ConcatAssoc(Led(core), Led(blanks), "\n");
  }

  lemma RunBlanks(nf: NumberFormat, core: seq<string>, blanks: seq<string>)
    requires AllBlank(blanks)
    ensures NO_QUOTES.Run(nf, ClassifyQuotes(core + blanks)) == NO_QUOTES.Run(nf, ClassifyQuotes(core))
  {
    ClassifyQuotesConcat(core, blanks);
    RunQuotesConcat(nf, NO_QUOTES, ClassifyQuotes(core), ClassifyQuotes(blanks));
    BlanksIgnored(blanks);
    RunSignificant(nf, NO_QUOTES.Run(nf, ClassifyQuotes(core)), ClassifyQuotes(blanks));
  }

  lemma QuotesOfLines(nf: NumberFormat, lines: seq<string>)
    requires lines == [] || BlockThenBlanks(lines)
    ensures QuotesOf(nf, TrimSpace(Led(lines) + "\n")) == NO_QUOTES.Run(nf, ClassifyQuotes(lines)).Flushed()
  {
    if lines == [] {
      EmptyQuotes(nf);
    } else {
      var n: nat :| BlockUpTo(lines, n);
      assert lines == lines[..n] + lines[n..];
      QuotesOfCore(nf, lines[..n]);
      TrimBlankLines(lines[..n], lines[n..]);
      RunBlanks(nf, lines[..n], lines[n..]);
    }
  }

  lemma EmptyQuotes(nf: NumberFormat)
    ensures QuotesOf(nf, TrimSpace(Led([]) + "\n")) == []
  {
    TrimPad("\n", "", "");
    assert Led([]) + "\n" == "\n" + "" + "";
    TrimOfTrimmed("");
    assert Split("", '\n') == [""];
    BlankIgnored();
    RunOneQuoteLine(nf, NO_QUOTES, Ignored);
  }

  lemma QuotesNotCut(lines: seq<string>)
    requires AllQuoteSafe(lines)
    ensures Absent(Led(lines) + "\n", NEXT_SECTION)
  {
    OneLinersOfSafe(lines);
    HeaderPattern("## ");
    LedAbsent(lines, "\n" + "## ");
    NewlineAbsent("## ");
    Both(Led(lines), "\n", "## ");
    assert "\n" + "## " == NEXT_SECTION;
  }

  lemma {:induction false} TrimNewlinesParts(s: string) returns (b: string)
    ensures s == TrimRightNewlines(s) + b && AllSpace(b)
    ensures s != "" && s[|s| - 1] == '\n' ==> b != ""
    ensures forall i :: 0 <= i < |b| ==> b[i] == '\n'
  {
    if s != "" && s[|s| - 1] == '\n' {
      var init := s[..|s| - 1];
      b := TrimNewlinesParts(init);
      assert s == init + "\n";
      ConcatAssoc(TrimRightNewlines(init), b, "\n");
      b := b + "\n";
    } else {
      b := "";
    }
  }

  lemma AbsentPrefix(x: string, y: string, p: string)
    requires Absent(x + y, p)
    ensures Absent(x, p)
  {
    forall i ensures !Occurs(x, p, i) {
      assert !Occurs(x + y, p, i);
      if 0 <= i && i + |p| <= |x| {
        assert forall k {:trigger p[k]} :: 0 <= k < |p| ==> (x + y)[i + k] == x[i + k];
      }
    }
  }

  /** Cutting the line breaks at the end of the file does not change the trimmed section. */
  lemma CutEnd(x: string)
    requires x != "" && x[|x| - 1] == '\n' && Absent(x, NEXT_SECTION)
    ensures TrimSpace(UpToNextSection(TrimRightNewlines(x) + "\n")) == TrimSpace(x)
  {
    var b := TrimNewlinesParts(x);
    CutNewlines(TrimRightNewlines(x), b);
  }

  lemma CutNewlines(t: string, b: string)
    requires b != "" && b[0] == '\n' && AllSpace(b) && Absent(t + b, NEXT_SECTION)
    ensures TrimSpace(UpToNextSection(t + "\n")) == TrimSpace(t + b)
  {
    ConcatAssoc(t, "\n", b[1..]);
    assert "\n" + b[1..] == b;
    AbsentPrefix(t + "\n", b[1..], NEXT_SECTION);
    NotCut(t + "\n");
    TrimBeforeSpaces(t, "\n");
    TrimBeforeSpaces(t, b);
  }

  /** The text under the quotes header, as a reader takes it. */
  lemma QuotesContentIs(nf: NumberFormat, qs: seq<Quote>, lines: seq<string>)
    requires lines == RealLines(AllQuoteLines(nf, qs)) && AllQuoteSafe(lines)
    ensures TrimSpace(UpToNextSection(QuotesContent(nf, qs))) == TrimSpace(Led(lines) + "\n")
  {
    RealText(AllQuoteLines(nf, qs));
    LedIsLinesText(lines);
    QuotesNotCut(lines);
    CutEnd(Led(lines) + "\n");
  }

  /** Under the first quotes header, the written quotes are read in order. */
  lemma QuotesPartReadsBack(nf: NumberFormat, qs: seq<Quote>)
    requires Sound(nf, qs) && forall i :: 0 <= i < |qs| && qs[i].text != "" ==> SingleLine(qs[i])
    ensures QuotesOf(nf, TrimSpace(UpToNextSection(QuotesContent(nf, qs)))) == KeptQuotes(qs)
  {
    var lines := RealLines(AllQuoteLines(nf, qs));
    QuoteBlocks(nf, qs);
    QuotesContentIs(nf, qs, lines);
    QuotesOfLines(nf, lines);
    ReadAllQuotes(nf, qs);
    RunSignificant(nf, NO_QUOTES, ClassifyQuotes(lines));
    RunAllQuotes(nf, qs);
  }
}
