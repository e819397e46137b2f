/** The frozen-markdown format: the printer that freezes an extraction result
    and the parsers that read it back. */
module FrozenMarkdown {
  import opened Wrappers
  import opened Text
  import Decimal

  const TLDR_HEADER := "## TLDR"
  const ABSTRACT_HEADER := "## Аннотация"
  const FULL_TEXT_HEADER := "## Полный текст"
  const FORMULAS_HEADER := "## Формулы"
  const FIGURES_HEADER := "## Графики и рисунки"
  const QUOTES_HEADER := "## Извлечённые цитаты"
  const NEXT_SECTION := "\n## "
  const NUL: char := '\0'

  datatype Article = Article(
    title: string, abstract_: string, fullText: string, pubYear: Option<int>, doi: string, url: string)
  datatype Quote = Quote(text: string, location: string, relevance: real, rationale: string)
  datatype Formula = Formula(latex: string, location: string, caption: string)
  datatype Figure = Figure(markdown: string, location: string, caption: string, kind: string)
  datatype ExtractionResult = ExtractionResult(
    quotes: seq<Quote>, formulas: seq<Formula>, figures: seq<Figure>, tldr: string)

  /** What the caller of Save passes besides the extraction result. */
  datatype Record = Record(article: Article, sourceKey: string, journal: string, authors: seq<string>)

  datatype RawArticle = RawArticle(
    title: string, abstract_: string, fullText: string, year: Option<int>, authors: seq<string>,
    journal: string, doi: string, url: string, sourceKey: string)

  /** How relevance numbers are printed and parsed (`%g` and ParseFloat). */
  datatype NumberFormat = NumberFormat(print_: real -> string, parse: string -> Option<real>)

  /** The number is printed as a word that parses back to it. */
  predicate Prints(nf: NumberFormat, r: real) {
    IsWord(nf.print_(r)) && nf.parse(nf.print_(r)) == Some(r)
  }

  /** The format prints the relevance of every quote that is written. */
  ghost predicate Sound(nf: NumberFormat, qs: seq<Quote>) {
    forall i :: 0 <= i < |qs| && qs[i].text != "" ==> Prints(nf, qs[i].relevance)
  }

  // ----- the printer

  function FrontValue(key: string, value: string): seq<string> {
    var v := CollapseWhitespace(value);
    if v == "" then [] else [key + ": " + v]
  }

  /** The authors that are not blank, each on one line. */
  function AuthorNames(authors: seq<string>): seq<string> {
    if authors == [] then []
    else
      var name := TrimSpace(authors[0]);
      (if name == "" then [] else [CollapseWhitespace(name)]) + AuthorNames(authors[1..])
  }

  function ListItems(names: seq<string>): seq<string> {
    if names == [] then [] else ["  - " + names[0]] + ListItems(names[1..])
  }

  function AuthorLines(authors: seq<string>): seq<string> {
    if authors == [] then [] else ["authors:"] + ListItems(AuthorNames(authors))
  }

  function YearLines(year: Option<int>): seq<string> {
    match year
    case None => []
    case Some(y) => ["year: " + Decimal.IntToString(y)]
  }

  function CardLines(r: Record): seq<string> {
    FrontValue("journal", r.journal) + FrontValue("doi", r.article.doi)
    + (FrontValue("url", r.article.url) + FrontValue("source_key", r.sourceKey))
  }

  function TailLines(r: Record): seq<string> {
    YearLines(r.article.pubYear) + (CardLines(r) + ["is_preprint: false"])
  }

  function FrontLines(r: Record): seq<string> {
    FrontValue("title", r.article.title) + (AuthorLines(r.authors) + TailLines(r))
  }

  function Block(header: string, text: string): string {
    header + "\n\n" + text + "\n\n"
  }

  function TldrSection(tldr: string): string {
    if tldr == "" then "" else Block(TLDR_HEADER, CollapseWhitespace(tldr))
  }

  function Detail(tag: string, value: string): string {
    if value == "" then "" else "  \n" + tag + value
  }

  function FormulaText(f: Formula): string {
    if f.latex == "" then ""
    else "\n- " + f.latex + Detail("  — location: ", f.location) + Detail("  — caption: ", f.caption) + "\n"
  }

  function FormulasText(fs: seq<Formula>): string {
    if fs == [] then "" else FormulasText(fs[..|fs| - 1]) + FormulaText(fs[|fs| - 1])
  }

  function FigureText(f: Figure): string {
    if f.markdown == "" then ""
    else
      "\n### " + (if f.kind == "" then "figure" else f.kind) + "\n"
      + (if f.location == "" then "" else "*location: " + f.location + "*\n")
      + f.markdown + "\n"
      + (if f.caption == "" then "" else "\n*" + f.caption + "*\n")
  }

  function FiguresText(fs: seq<Figure>): string {
    if fs == [] then "" else FiguresText(fs[..|fs| - 1]) + FigureText(fs[|fs| - 1])
  }

  function OptionalLine(prefix: string, value: string): seq<string> {
    if value == "" then [] else [prefix + value]
  }

  function AttributeLines(nf: NumberFormat, q: Quote): seq<string> {
    OptionalLine("  location: ", q.location)
    + (["  relevance: " + nf.print_(q.relevance)] + OptionalLine("  rationale: ", q.rationale))
  }

  function QuoteLines(nf: NumberFormat, q: Quote): seq<string> {
    if q.text == "" then []
    else ["", "- text: " + CollapseWhitespace(q.text)] + AttributeLines(nf, q)
  }

  function AllQuoteLines(nf: NumberFormat, qs: seq<Quote>): seq<string> {
    if qs == [] then [] else AllQuoteLines(nf, qs[..|qs| - 1]) + QuoteLines(nf, qs[|qs| - 1])
  }

  function FormulasAndFigures(res: ExtractionResult): string {
    FORMULAS_HEADER + "\n" + FormulasText(res.formulas) + "\n" + FIGURES_HEADER + "\n" + FiguresText(res.figures)
  }

  /** Everything between the TLDR section and the quotes header. */
  function MiddleSections(a: Article, res: ExtractionResult): string {
    Block(ABSTRACT_HEADER, TrimSpace(a.abstract_)) + Block(FULL_TEXT_HEADER, TrimSpace(a.fullText))
    + FormulasAndFigures(res)
  }

  function Sections(nf: NumberFormat, a: Article, res: ExtractionResult): string {
    TldrSection(res.tldr) + MiddleSections(a, res)
    + "\n" + QUOTES_HEADER + "\n" + LinesText(AllQuoteLines(nf, res.quotes))
  }

  /** `renderFrozenMD` as one expression. */
  function Render(nf: NumberFormat, r: Record, res: ExtractionResult): string {
    TrimRightNewlines("---\n" + LinesText(FrontLines(r)) + "---\n\n" + Sections(nf, r.article, res)) + "\n"
  }

  // ----- the parsers

  datatype FrozenQuote = FrozenQuote(text: string, location: string, relevance: real, rationale: string)

  datatype Parsed = Malformed | Parsed(front: map<string, string>, body: string)

  function SkipBlanks(text: string, i: nat): (e: nat)
    requires i <= |text|
    ensures i <= e <= |text|
    decreases |text| - i
  {
    if i < |text| && text[i] in {' ', '\t', '\r'} then SkipBlanks(text, i + 1) else i
  }

  /** The first match of `\n---[ \t\r]*\n` at or after i, as a pair of offsets. */
  function FindClose(text: string, i: nat): (r: Option<(nat, nat)>)
    requires i <= |text|
    ensures r.Some? ==> i <= r.value.0 < r.value.1 <= |text| && text[r.value.0] == '\n'
    decreases |text| - i
  {
    if HasPrefix(text[i..], "\n---") && SkipBlanks(text, i + 4) < |text| && text[SkipBlanks(text, i + 4)] == '\n'
    then Some((i, SkipBlanks(text, i + 4) + 1))
    else if i == |text| then None
    else FindClose(text, i + 1)
  }

  /** What a line of the front matter is: the branches of the parser's loop. */
  datatype FrontLine = Blank | Item(text: string) | NoColon | KeyValue(key: string, value: string)

  function ClassifyFront(rawLine: string): FrontLine {
    var line := TrimRightReturns(rawLine);
    var stripped := TrimSpace(line);
    if stripped == "" then Blank
    else if HasPrefix(stripped, "- ") then Item(TrimSpace(stripped[2..]))
    else
      var colon := Index(line, ":");
      if colon == -1 then NoColon
      else KeyValue(TrimSpace(line[..colon]), TrimSpace(line[colon + 1..]))
  }

  function ClassifyAll(lines: seq<string>): (r: seq<FrontLine>)
    ensures |r| == |lines|
    ensures forall i :: 0 <= i < |lines| ==> r[i] == ClassifyFront(lines[i])
  {
    seq(|lines|, i requires 0 <= i < |lines| => ClassifyFront(lines[i]))
  }

  datatype FrontState = FrontState(out: map<string, string>, list: string, items: seq<string>) {
    function Flushed(): map<string, string> {
      if list != "" && items != [] then out[list := Join(items, [NUL])] else out
    }

    function CloseList(): FrontState {
      FrontState(Flushed(), "", if list != "" then [] else items)
    }

    function Apply(line: FrontLine): FrontState {
      match line
      case Blank => CloseList()
      case Item(text) => if list != "" then this.(items := items + [text]) else this
      case NoColon => this
      case KeyValue(key, value) =>
        if value == "" then FrontState(Flushed()[key := ""], key, [])
        else CloseList().(out := CloseList().out[key := value])
    }

    function Run(lines: seq<FrontLine>): FrontState
      decreases |lines|
    {
      if lines == [] then this else Apply(lines[0]).Run(lines[1..])
    }
  }

  function TrimRightReturns(s: string): string {
    if s != "" && s[|s| - 1] == '\r' then TrimRightReturns(s[..|s| - 1]) else s
  }

  const NO_FRONT := FrontState(map[], "", [])

  function FrontMatter(text: string): map<string, string> {
    NO_FRONT.Run(ClassifyAll(Split(text, '\n'))).Flushed()
  }

  function ParseFrozenMD(text: string): Parsed {
    if !HasPrefix(text, "---") then Parsed(map[], text)
    else
      match FindClose(text, 0)
      case None => Malformed
      case Some((from, to)) =>
        Parsed(FrontMatter(text[3..from]), text[to..])
  }

  function UpToNextSection(text: string): string {
    var next := Index(text, NEXT_SECTION);
    if next != -1 then text[..next] else text
  }

  /** Where the text under a header starts, or -1. When the header line is
      found at index 0 the offset does not step over the leading newline. */
  function SectionStart(body: string, header: string): (start: int)
    ensures -1 <= start <= |body|
  {
    var found := Index(body, "\n" + header);
    if found == -1 && !HasPrefix(body, header) then -1
    else
      var idx := if found == -1 then 0 else found;
      if idx == 0 then |header| else idx + |header| + 1
  }

  /** `sectionBody`: the text under header up to the next `## ` section. */
  function SectionBody(body: string, header: string): string {
    var start := SectionStart(body, header);
    if start == -1 then "" else TrimSpace(UpToNextSection(body[start..]))
  }

  function ApplyQuoteField(nf: NumberFormat, q: FrozenQuote, key: string, value: string): FrozenQuote {
    if key == "location" then q.(location := value)
    else if key == "rationale" then q.(rationale := value)
    else if key == "relevance" then q.(relevance := nf.parse(value).GetOr(q.relevance))
    else q
  }

  /** What a line of the quotes section is: the branches of the parser's loop. */
  datatype QuoteLine = Ignored | Start(text: string) | Attribute(key: string, value: string)

  function ClassifyAttribute(line: string): QuoteLine {
    var colon := Index(line, ":");
    if colon == -1 then Ignored
    else Attribute(TrimSpace(line[..colon]), TrimSpace(line[colon + 1..]))
  }

  function QuoteText(item: string): string {
    TrimSpace(if HasPrefix(item, "text:") then item[5..] else item)
  }

  function ClassifyQuote(line: string): QuoteLine {
    if TrimSpace(line) == "" then Ignored
    else if HasPrefix(line, "- ") then Start(QuoteText(TrimSpace(line[2..])))
    else if HasPrefix(line, "  ") then ClassifyAttribute(TrimSpace(line))
    else Ignored
  }

  function ClassifyQuotes(lines: seq<string>): (r: seq<QuoteLine>)
    ensures |r| == |lines|
    ensures forall i :: 0 <= i < |lines| ==> r[i] == ClassifyQuote(lines[i])
  {
    seq(|lines|, i requires 0 <= i < |lines| => ClassifyQuote(lines[i]))
  }

  datatype QuoteState = QuoteState(out: seq<FrozenQuote>, current: Option<FrozenQuote>) {
    function Flushed(): seq<FrozenQuote> {
      if current.Some? then out + [current.value] else out
    }

    function Apply(nf: NumberFormat, line: QuoteLine): QuoteState {
      match line
      case Ignored => this
      case Start(text) => QuoteState(Flushed(), Some(FrozenQuote(text, "", 0.0, "")))
      case Attribute(key, value) =>
        if current.Some? then this.(current := Some(ApplyQuoteField(nf, current.value, key, value))) else this
    }

    function Run(nf: NumberFormat, lines: seq<QuoteLine>): QuoteState
      decreases |lines|
    {
      if lines == [] then this else Apply(nf, lines[0]).Run(nf, lines[1..])
    }
  }

  const NO_QUOTES := QuoteState([], None)

  function QuotesOf(nf: NumberFormat, text: string): seq<FrozenQuote> {
    NO_QUOTES.Run(nf, ClassifyQuotes(Split(text, '\n'))).Flushed()
  }

  predicate HasSectionHeader(body: string, header: string) {
    HasPrefix(body, header) || Index(body, "\n" + header) != -1
  }

  /** `ReadQuotes` over the file's content; a missing or malformed file is a
      cache miss. */
  function ReadQuotes(nf: NumberFormat, doi: string, file: Option<string>): Option<seq<FrozenQuote>> {
    if doi == "" || file.None? then None
    else
      match ParseFrozenMD(file.value)
      case Malformed => None
      case Parsed(_, body) =>
        if !HasSectionHeader(body, QUOTES_HEADER) then Some([])
        else Some(QuotesOf(nf, SectionBody(body, QUOTES_HEADER)))
  }

  function OrElse(value: string, fallback: string): string {
    if value == "" then fallback else value
  }

  function Field(front: map<string, string>, key: string, fallback: string): string {
    if key in front then OrElse(front[key], fallback) else fallback
  }

  function NonEmpty(parts: seq<string>): seq<string> {
    if parts == [] then []
    else (if parts[0] == "" then [] else [parts[0]]) + NonEmpty(parts[1..])
  }

  function ListedAuthors(front: map<string, string>): seq<string> {
    if "authors" !in front || front["authors"] == "" then []
    else NonEmpty(Split(front["authors"], NUL))
  }

  function AuthorsField(front: map<string, string>, fallback: seq<string>): seq<string> {
    if ListedAuthors(front) == [] then fallback else ListedAuthors(front)
  }

  function YearField(front: map<string, string>, fallback: Option<int>): Option<int> {
    if "year" in front && Decimal.Atoi(front["year"]).Some? then Decimal.Atoi(front["year"]) else fallback
  }

  function RawFrom(front: map<string, string>, abs: string, fullText: string, fallback: RawArticle): RawArticle {
    RawArticle(
      Field(front, "title", fallback.title),
      OrElse(abs, fallback.abstract_),
      OrElse(fullText, fallback.fullText),
      YearField(front, fallback.year),
      AuthorsField(front, fallback.authors),
      Field(front, "journal", fallback.journal),
      Field(front, "doi", fallback.doi),
      Field(front, "url", fallback.url),
      Field(front, "source_key", fallback.sourceKey))
  }

  /** `ToRaw` over the file's content. */
  function ToRaw(doi: string, file: Option<string>, fallback: RawArticle): Option<RawArticle> {
    if doi == "" || file.None? then None
    else
      match ParseFrozenMD(file.value)
      case Malformed => None
      case Parsed(front, body) =>
        Some(RawFrom(front, SectionBody(body, ABSTRACT_HEADER), SectionBody(body, FULL_TEXT_HEADER), fallback))
  }
}
