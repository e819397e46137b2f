/** The front matter of a frozen file is read back as it was written. */
module FrozenFrontMatter {
  import opened Wrappers
  import opened Sequences
  import opened Text
  import opened FrozenMarkdown

  // ----- what the front matter should say

  function Put(m: map<string, string>, key: string, value: string): map<string, string> {
    if value == "" then m else m[key := value]
  }

  function ExpectedCard(m: map<string, string>, r: Record): map<string, string> {
    var m3 := Put(m, "journal", CollapseWhitespace(r.journal));
    var m4 := Put(m3, "doi", CollapseWhitespace(r.article.doi));
    var m5 := Put(m4, "url", CollapseWhitespace(r.article.url));
    Put(m5, "source_key", CollapseWhitespace(r.sourceKey))
  }

  function ExpectedTail(m: map<string, string>, r: Record): map<string, string> {
    var m2 := if r.article.pubYear.None? then m
              else m["year" := Decimal.IntToString(r.article.pubYear.value)];
    ExpectedCard(m2, r)["is_preprint" := "false"]
  }

  /** The map a reader should see: one entry for every field that is not blank. */
  function ExpectedFront(r: Record): map<string, string> {
    var m0 := Put(map[], "title", CollapseWhitespace(r.article.title));
    var m1 := if r.authors == [] then m0 else m0["authors" := Join(AuthorNames(r.authors), [NUL])];
    ExpectedTail(m1, r)
  }

  // ----- single lines

  lemma IndexColon(key: string, rest: string)
    requires ':' !in key
    ensures Index(key + ":" + rest, ":") == |key|
  {
    var s := key + ":" + rest;
    IndexSpec(s, ":");
    assert Occurs(s, ":", |key|);
    forall i | 0 <= i < |key| ensures !Occurs(s, ":", i) {
      assert s[i] == key[i] && key[i] in key;
      assert s[i + 0] != ":"[0];
    }
  }

  ghost predicate IsKey(key: string) {
    IsWord(key) && ':' !in key && key[0] != '-'
  }

  lemma NotItem(line: string)
    requires line != "" && line[0] != '-'
    ensures !HasPrefix(line, "- ")
  {
    if |line| >= 2 { assert line[..2][0] == line[0]; }
  }

  /** The loop's branches for a line that is neither blank nor a list item. */
  lemma ClassifyBy(line: string, stripped: string, key: string, value: string)
    requires TrimRightReturns(line) == line
    requires TrimSpace(line) == stripped && stripped != "" && !HasPrefix(stripped, "- ")
    requires Index(line, ":") == |key| < |line|
    requires TrimSpace(line[..|key|]) == key && TrimSpace(line[|key| + 1..]) == value
    ensures ClassifyFront(line) == KeyValue(key, value)
  {
  }

  lemma TrimAfterBlank(value: string)
    requires Trimmed(value)
    ensures TrimSpace(" " + value) == value
  {
    TrimPad(" ", value, "");
    TrimOfTrimmed(value);
    assert " " + value + "" == " " + value;
  }

  lemma PlainLine(line: string)
    requires line != "" && Trimmed(line) && line[0] != '-'
    ensures TrimRightReturns(line) == line && TrimSpace(line) == line && !HasPrefix(line, "- ")
  {
    TrimOfTrimmed(line);
    NotItem(line);
  }

  lemma ColonSplit(key: string, rest: string)
    requires ':' !in key && Trimmed(key)
    ensures var line := key + ":" + rest;
            Index(line, ":") == |key| && TrimSpace(line[..|key|]) == key && line[|key| + 1..] == rest
  {
    var line := key + ":" + rest;
    IndexColon(key, rest);
    assert line[..|key|] == key;
    TrimOfTrimmed(key);
  }

  lemma ClassifyColon(key: string, rest: string)
    requires IsKey(key) && Trimmed(key + ":" + rest)
    ensures ClassifyFront(key + ":" + rest) == KeyValue(key, TrimSpace(rest))
  {
    var line := key + ":" + rest;
    assert line[0] == key[0];
    PlainLine(line);
    ColonSplit(key, rest);
    ClassifyBy(line, line, key, TrimSpace(rest));
  }

  lemma ClassifyValue(key: string, value: string)
    requires IsKey(key) && Trimmed(value) && value != ""
    ensures ClassifyFront(key + ": " + value) == KeyValue(key, value)
  {
    var line := key + ":" + (" " + value);
    assert key + ": " + value == line;
    assert line[0] == key[0] && line[|line| - 1] == value[|value| - 1];
    ClassifyColon(key, " " + value);
    TrimAfterBlank(value);
  }

  lemma ClassifyItemBy(line: string, stripped: string, text: string)
    requires TrimRightReturns(line) == line
    requires TrimSpace(line) == stripped && HasPrefix(stripped, "- ") && TrimSpace(stripped[2..]) == text
    ensures ClassifyFront(line) == Item(text)
  {
  }

  lemma ItemText(name: string)
    requires Trimmed(name) && name != ""
    ensures TrimSpace("  - " + name) == "- " + name && TrimRightReturns("  - " + name) == "  - " + name
  {
    var line := "  - " + name;
    var stripped := "- " + name;
    assert line[|line| - 1] == name[|name| - 1];
    TrimPad("  ", stripped, "");
    TrimOfTrimmed(stripped);
    assert line == "  " + stripped + "";
  }

  lemma ClassifyItem(name: string)
    requires Trimmed(name) && name != ""
    ensures ClassifyFront("  - " + name) == Item(name)
  {
    ItemText(name);
    var stripped := "- " + name;
    assert stripped[2..] == name;
    TrimOfTrimmed(name);
    ClassifyItemBy("  - " + name, stripped, name);
  }

  ghost predicate IsName(n: string) {
    Flat(n) && n != "" && '\n' !in n
  }

  ghost predicate AllNames(names: seq<string>) {
    forall i :: 0 <= i < |names| ==> IsName(names[i])
  }

  // ----- what the printed lines are classified as

  function Items(names: seq<string>): seq<FrontLine> {
    if names == [] then [] else [Item(names[0])] + Items(names[1..])
  }

  function ValueClass(key: string, value: string): seq<FrontLine> {
    if value == "" then [] else [KeyValue(key, value)]
  }

  function AuthorClasses(authors: seq<string>): seq<FrontLine> {
    if authors == [] then [] else [KeyValue("authors", "")] + Items(AuthorNames(authors))
  }

  function CardClasses(r: Record): seq<FrontLine> {
    ValueClass("journal", CollapseWhitespace(r.journal)) + ValueClass("doi", CollapseWhitespace(r.article.doi))
    + (ValueClass("url", CollapseWhitespace(r.article.url)) + ValueClass("source_key", CollapseWhitespace(r.sourceKey)))
  }

  function YearClasses(year: Option<int>): seq<FrontLine> {
    if year.None? then [] else [KeyValue("year", Decimal.IntToString(year.value))]
  }

  function TailClasses(r: Record): seq<FrontLine> {
    YearClasses(r.article.pubYear) + (CardClasses(r) + [KeyValue("is_preprint", "false")])
  }

  lemma ClassifyConcat(a: seq<string>, b: seq<string>)
    ensures ClassifyAll(a + b) == ClassifyAll(a) + ClassifyAll(b)
  {
  }

  lemma {:induction false} ClassifyItems(names: seq<string>)
    requires AllNames(names)
    ensures ClassifyAll(ListItems(names)) == Items(names)
  {
    if names != [] {
      assert IsName(names[0]);
      ClassifyItem(names[0]);
      ClassifyItems(names[1..]);
      ClassifyConcat(["  - " + names[0]], ListItems(names[1..]));
    }
  }

  lemma CollapsedName(s: string)
    requires TrimSpace(s) != ""
    ensures IsName(CollapseWhitespace(TrimSpace(s)))
  {
    CollapseFlat(TrimSpace(s));
    TrimOfTrimmed(TrimSpace(s));
  }

  lemma {:induction false} AuthorNamesFlat(authors: seq<string>)
    ensures AllNames(AuthorNames(authors))
  {
    if authors != [] {
      AuthorNamesFlat(authors[1..]);
      if TrimSpace(authors[0]) != "" { CollapsedName(authors[0]); }
    }
  }

  lemma ClassifyOne(line: string, key: string, rest: string)
    requires IsKey(key) && line == key + ":" + rest && Trimmed(line)
    ensures ClassifyAll([line]) == [KeyValue(key, TrimSpace(rest))]
  {
    ClassifyColon(key, rest);
  }

  lemma ClassifyAuthors(authors: seq<string>)
    ensures ClassifyAll(AuthorLines(authors)) == AuthorClasses(authors)
  {
    if authors != [] {
      var names := AuthorNames(authors);
      ClassifyOne("authors:", "authors", "");
      AuthorNamesFlat(authors);
      ClassifyItems(names);
      ClassifyConcat(["authors:"], ListItems(names));
    }
  }

  lemma ClassifyFrontValue(key: string, value: string)
    requires IsKey(key)
    ensures ClassifyAll(FrontValue(key, value)) == ValueClass(key, CollapseWhitespace(value))
  {
    CollapseFlat(value);
    if CollapseWhitespace(value) != "" { ClassifyValue(key, CollapseWhitespace(value)); }
  }

  lemma IntToStringWord(n: int)
    ensures IsWord(Decimal.IntToString(n))
    ensures '\n' !in Decimal.IntToString(n)
  {
    var s := Decimal.IntToString(n);
    if n < 0 {
      assert forall i :: 0 < i < |s| ==> s[i] == Decimal.NatToString(-n)[i - 1];
    }
  }

  lemma ClassifyOneValue(line: string, key: string, value: string)
    requires IsKey(key) && Trimmed(value) && value != "" && line == key + ": " + value
    ensures ClassifyAll([line]) == [KeyValue(key, value)]
  {
    ClassifyValue(key, value);
  }

  lemma ClassifyYear(year: Option<int>)
    ensures ClassifyAll(YearLines(year)) == YearClasses(year)
  {
    if year.Some? {
      var v := Decimal.IntToString(year.value);
      IntToStringWord(year.value);
      ClassifyOneValue("year: " + v, "year", v);
    }
  }

  lemma ClassifyCard(r: Record)
    ensures ClassifyAll(CardLines(r)) == CardClasses(r)
  {
    var b4, b5 := FrontValue("journal", r.journal), FrontValue("doi", r.article.doi);
    var b6, b7 := FrontValue("url", r.article.url), FrontValue("source_key", r.sourceKey);
    ClassifyConcat(b4 + b5, b6 + b7);
    ClassifyConcat(b4, b5);
    ClassifyConcat(b6, b7);
    ClassifyFrontValue("journal", r.journal);
    ClassifyFrontValue("doi", r.article.doi);
    ClassifyFrontValue("url", r.article.url);
    ClassifyFrontValue("source_key", r.sourceKey);
  }

  lemma ClassifyTail(r: Record)
    ensures ClassifyAll(TailLines(r)) == TailClasses(r)
  {
    var last := ["is_preprint: false"];
    ClassifyConcat(YearLines(r.article.pubYear), CardLines(r) + last);
    ClassifyConcat(CardLines(r), last);
    ClassifyYear(r.article.pubYear);
    ClassifyCard(r);
    ClassifyLast();
  }

  lemma ClassifyLast()
    ensures ClassifyAll(["is_preprint: false"]) == [KeyValue("is_preprint", "false")]
  {
    ClassifyOne("is_preprint: false", "is_preprint", " false");
    TrimAfterBlank("false");
  }

  // ----- running over the classified lines

  lemma {:induction false} RunConcat(st: FrontState, a: seq<FrontLine>, b: seq<FrontLine>)
    ensures st.Run(a + b) == st.Run(a).Run(b)
    decreases |a|
  {
    if a == [] {
      assert a + b == b;
    } else {
      assert (a + b)[1..] == a[1..] + b;
      RunConcat(st.Apply(a[0]), a[1..], b);
    }
  }

  lemma RunFirstItem(st: FrontState, names: seq<string>)
    requires st.list != "" && names != []
    ensures st.Run(Items(names)) == FrontState(st.out, st.list, st.items + [names[0]]).Run(Items(names[1..]))
  {
    assert Items(names)[1..] == Items(names[1..]);
  }

  lemma {:induction false} RunItems(st: FrontState, names: seq<string>)
    requires st.list != ""
    ensures st.Run(Items(names)) == st.(items := st.items + names)
    decreases names
  {
    if names == [] {
      assert st.items + [] == st.items;
    } else {
      var next := FrontState(st.out, st.list, st.items + [names[0]]);
      RunFirstItem(st, names);
      RunItems(next, names[1..]);
      assert next.items + names[1..] == st.items + names;
    }
  }

  lemma RunOne(st: FrontState, line: FrontLine)
    ensures st.Run([line]) == st.Apply(line)
  {
  }

  ghost predicate Idle(st: FrontState) {
    st.list == "" && st.items == []
  }

  lemma RunValue(st: FrontState, key: string, value: string)
    requires Idle(st)
    ensures st.Run(ValueClass(key, value)) == FrontState(Put(st.out, key, value), "", [])
  {
    if value != "" { RunOne(st, KeyValue(key, value)); }
  }

  lemma RunAuthors(st: FrontState, authors: seq<string>)
    requires Idle(st)
    ensures var m := if authors == [] then st.out else st.out["authors" := Join(AuthorNames(authors), [NUL])];
            st.Run(AuthorClasses(authors)).CloseList() == FrontState(m, "", [])
  {
    if authors != [] {
      var names := AuthorNames(authors);
      RunOne(st, KeyValue("authors", ""));
      RunConcat(st, [KeyValue("authors", "")], Items(names));
      RunItems(FrontState(st.out["authors" := ""], "authors", []), names);
      assert [] + names == names;
    }
  }

  /** A list still open is closed by the first line that carries a value. */
  lemma RunFromOpenList(st: FrontState, lines: seq<FrontLine>)
    requires lines != [] && lines[0].KeyValue? && lines[0].value != ""
    requires Idle(st.CloseList())
    ensures st.Run(lines) == st.CloseList().Run(lines)
  {
    assert st.CloseList().CloseList() == st.CloseList();
  }

  lemma RunCard(st: FrontState, r: Record)
    requires Idle(st)
    ensures st.Run(CardClasses(r)) == FrontState(ExpectedCard(st.out, r), "", [])
  {
    var b4, b5 := ValueClass("journal", CollapseWhitespace(r.journal)), ValueClass("doi", CollapseWhitespace(r.article.doi));
    var b6, b7 := ValueClass("url", CollapseWhitespace(r.article.url)), ValueClass("source_key", CollapseWhitespace(r.sourceKey));
    RunConcat(st, b4 + b5, b6 + b7);
    RunConcat(st, b4, b5);
    RunValue(st, "journal", CollapseWhitespace(r.journal));
    var s4 := st.Run(b4);
    RunValue(s4, "doi", CollapseWhitespace(r.article.doi));
    var s5 := s4.Run(b5);
    RunConcat(s5, b6, b7);
    RunValue(s5, "url", CollapseWhitespace(r.article.url));
    RunValue(s5.Run(b6), "source_key", CollapseWhitespace(r.sourceKey));
  }

  lemma RunTail(st: FrontState, r: Record)
    requires Idle(st)
    ensures st.Run(TailClasses(r)) == FrontState(ExpectedTail(st.out, r), "", [])
  {
    var b3 := YearClasses(r.article.pubYear);
    var last := [KeyValue("is_preprint", "false")];
    RunConcat(st, b3, CardClasses(r) + last);
    if r.article.pubYear.Some? {
      IntToStringWord(r.article.pubYear.value);
      RunOne(st, b3[0]);
    }
    var s3 := st.Run(b3);
    RunConcat(s3, CardClasses(r), last);
    RunCard(s3, r);
    RunOne(s3.Run(CardClasses(r)), last[0]);
  }

  lemma TailStartsWithValue(r: Record)
    ensures TailClasses(r) != [] && TailClasses(r)[0].KeyValue? && TailClasses(r)[0].value != ""
  {
    if r.article.pubYear.Some? { IntToStringWord(r.article.pubYear.value); }
  }

  lemma ClassifyFrontLines(r: Record)
    ensures ClassifyAll(FrontLines(r))
            == ValueClass("title", CollapseWhitespace(r.article.title)) + (AuthorClasses(r.authors) + TailClasses(r))
  {
    var b1, b2, b3 := FrontValue("title", r.article.title), AuthorLines(r.authors), TailLines(r);
    ClassifyConcat(b1, b2 + b3);
    ClassifyConcat(b2, b3);
    ClassifyFrontValue("title", r.article.title);
    ClassifyAuthors(r.authors);
    ClassifyTail(r);
  }

  lemma RunBlocks(title: string, r: Record)
    ensures var m0 := Put(map[], "title", title);
            var m1 := if r.authors == [] then m0 else m0["authors" := Join(AuthorNames(r.authors), [NUL])];
            NO_FRONT.Run(ValueClass("title", title) + (AuthorClasses(r.authors) + TailClasses(r)))
            == FrontState(ExpectedTail(m1, r), "", [])
  {
    var c1, c2, c3 := ValueClass("title", title), AuthorClasses(r.authors), TailClasses(r);
    RunConcat(NO_FRONT, c1, c2 + c3);
    RunValue(NO_FRONT, "title", title);
    var s1 := NO_FRONT.Run(c1);
    RunConcat(s1, c2, c3);
    RunAuthors(s1, r.authors);
    TailStartsWithValue(r);
    RunFromOpenList(s1.Run(c2), c3);
    RunTail(s1.Run(c2).CloseList(), r);
  }

  // ----- the lines as text

  /** The given lines, each preceded by a newline. */
  function Led(lines: seq<string>): string {
    if lines == [] then "" else "\n" + lines[0] + Led(lines[1..])
  }

  lemma {:induction false} LedIsLinesText(lines: seq<string>)
    ensures "\n" + LinesText(lines) == Led(lines) + "\n"
  {
    if lines != [] {
      LedIsLinesText(lines[1..]);
      calc {
        "\n" + LinesText(lines);
        "\n" + (lines[0] + "\n" + LinesText(lines[1..]));
        "\n" + lines[0] + ("\n" + LinesText(lines[1..]));
        "\n" + lines[0] + (Led(lines[1..]) + "\n");
        Led(lines) + "\n";
      }
    }
  }

  lemma {:induction false} SplitLed(lines: seq<string>)
    requires OneLiners(lines)
    ensures Split(Led(lines), '\n') == [""] + lines
  {
    if lines != [] {
      LedFirst(lines);
      SplitFirst("", '\n', lines[0] + Led(lines[1..]));
      SplitLines(lines);
    }
  }

  lemma LedFirst(lines: seq<string>)
    requires lines != []
    ensures Led(lines) == "" + ['\n'] + (lines[0] + Led(lines[1..]))
  {
  }

  /** Splitting lines that are joined by line breaks gives the lines. */
  lemma {:induction false} SplitLines(lines: seq<string>)
    requires lines != [] && OneLiners(lines)
    ensures Split(lines[0] + Led(lines[1..]), '\n') == lines
    decreases |lines|
  {
    var rest := lines[1..];
    if rest == [] {
      assert lines[0] + "" == lines[0] && lines == [lines[0]];
      SplitOne(lines[0], '\n');
    } else {
      var u := rest[0] + Led(rest[1..]);
      SplitLines(rest);
      LedFirst(rest);
      assert lines[0] + ("" + ['\n'] + u) == lines[0] + ['\n'] + u;
      SplitFirst(lines[0], '\n', u);
      assert lines == [lines[0]] + rest;
    }
  }

  lemma {:induction false} LedAbsent(lines: seq<string>, p: string)
    requires p != "" && p[0] == '\n' && '\n' !in p[1..]
    requires OneLiners(lines)
    ensures Absent(Led(lines), p) <==> forall l :: l in lines ==> !HasPrefix(l, p[1..])
  {
    if lines != [] {
      var x := "\n" + lines[0];
      assert lines[0] in lines;
      AbsentOneLine(lines[0], p);
      LedAbsent(lines[1..], p);
      AbsentSplit(x, Led(lines[1..]), p);
      assert lines == [lines[0]] + lines[1..];
    }
  }

  /** A line that cannot be taken for the end of the front matter. */
  ghost predicate FrontSafe(l: string) {
    '\n' !in l && l != "" && l[0] != '-'
  }

  ghost predicate AllFrontSafe(lines: seq<string>) {
    forall i :: 0 <= i < |lines| ==> FrontSafe(lines[i])
  }

  lemma FrontValueSafe(key: string, value: string)
    requires IsKey(key)
    ensures AllFrontSafe(FrontValue(key, value))
  {
    CollapseFlat(value);
    var line := key + ": " + CollapseWhitespace(value);
    assert line[0] == key[0];
  }

  lemma {:induction false} ListItemsSafe(names: seq<string>)
    requires AllNames(names)
    ensures AllFrontSafe(ListItems(names))
  {
    if names != [] {
      assert IsName(names[0]);
      assert ("  - " + names[0])[0] == ' ';
      ListItemsSafe(names[1..]);
    }
  }

  lemma SafeConcat(a: seq<string>, b: seq<string>)
    requires AllFrontSafe(a) && AllFrontSafe(b)
    ensures AllFrontSafe(a + b)
  {
  }

  lemma CardLinesSafe(r: Record)
    ensures AllFrontSafe(CardLines(r))
  {
    FrontValueSafe("journal", r.journal);
    FrontValueSafe("doi", r.article.doi);
    FrontValueSafe("url", r.article.url);
    FrontValueSafe("source_key", r.sourceKey);
    SafeConcat(FrontValue("journal", r.journal), FrontValue("doi", r.article.doi));
    SafeConcat(FrontValue("url", r.article.url), FrontValue("source_key", r.sourceKey));
  }

  lemma TailLinesSafe(r: Record)
    ensures AllFrontSafe(TailLines(r))
  {
    if r.article.pubYear.Some? { IntToStringWord(r.article.pubYear.value); }
    CardLinesSafe(r);
    SafeConcat(CardLines(r), ["is_preprint: false"]);
    SafeConcat(YearLines(r.article.pubYear), CardLines(r) + ["is_preprint: false"]);
  }

  lemma FrontLinesSafe(r: Record)
    ensures AllFrontSafe(FrontLines(r))
  {
    var names := AuthorNames(r.authors);
    FrontValueSafe("title", r.article.title);
    AuthorNamesFlat(r.authors);
    ListItemsSafe(names);
    SafeConcat(["authors:"], ListItems(names));
    TailLinesSafe(r);
    SafeConcat(AuthorLines(r.authors), TailLines(r));
    SafeConcat(FrontValue("title", r.article.title), AuthorLines(r.authors) + TailLines(r));
  }

  lemma {:induction false} SafeLedAbsent(lines: seq<string>)
    requires AllFrontSafe(lines)
    ensures OneLiners(lines) && Absent(Led(lines), "\n---")
  {
    forall l | l in lines ensures '\n' !in l && !HasPrefix(l, "---") {
      var i :| 0 <= i < |lines| && lines[i] == l;
      assert FrontSafe(lines[i]);
      if |l| >= 3 { assert l[..3][0] == l[0]; }
    }
    LedAbsent(lines, "\n---");
    assert "\n---"[1..] == "---";
  }

  // ----- the whole file

  lemma {:induction false} FindCloseAt(text: string, i: nat, from: nat)
    requires i <= from && from + 5 <= |text|
    requires Occurs(text, "\n---", from) && text[from + 4] == '\n'
    requires forall j :: j < from ==> !Occurs(text, "\n---", j)
    ensures FindClose(text, i) == Some((from, from + 5))
    decreases from - i
  {
    OccursShift(text[..i], text[i..], "\n---", i);
    assert text[..i] + text[i..] == text;
    assert Occurs(text, "\n---", i) <==> HasPrefix(text[i..], "\n---");
    if i < from { FindCloseAt(text, i + 1, from); }
  }

  /** What follows the front matter: the sections without their trailing
      newlines, and one newline. */
  function Body(nf: NumberFormat, a: Article, res: ExtractionResult): string {
    "\n" + (UpToQuotes(a, res) + TrimRightNewlines("\n" + LinesText(AllQuoteLines(nf, res.quotes))) + "\n")
  }

  lemma TrailingTrim(head: string, upToQuotes: string, tail: string)
    requires upToQuotes != "" && upToQuotes[|upToQuotes| - 1] != '\n'
    ensures TrimRightNewlines(head + (upToQuotes + tail)) == head + (upToQuotes + TrimRightNewlines(tail))
  {
    assert head + (upToQuotes + tail) == (head + upToQuotes) + tail;
    TrimRightNewlinesSplit(head + upToQuotes, tail);
    assert (head + upToQuotes) + TrimRightNewlines(tail) == head + (upToQuotes + TrimRightNewlines(tail));
  }

  function UpToQuotes(a: Article, res: ExtractionResult): string {
    TldrSection(res.tldr) + MiddleSections(a, res) + "\n" + QUOTES_HEADER
  }

  lemma SectionsSplit(nf: NumberFormat, a: Article, res: ExtractionResult)
    ensures Sections(nf, a, res) == UpToQuotes(a, res) + ("\n" + LinesText(AllQuoteLines(nf, res.quotes)))
  {
    var m := TldrSection(res.tldr) + MiddleSections(a, res);
    var q := LinesText(AllQuoteLines(nf, res.quotes));
    assert m + "\n" + QUOTES_HEADER + "\n" + q == (m + "\n" + QUOTES_HEADER) + ("\n" + q);
  }

  lemma FrontText(lines: seq<string>, rest: string)
    ensures "---\n" + LinesText(lines) + "---\n\n" + rest == "---" + Led(lines) + ("\n---\n" + ("\n" + rest))
  {
    LedIsLinesText(lines);
    calc {
      "---\n" + LinesText(lines) + "---\n\n" + rest;
      "---" + ("\n" + LinesText(lines)) + ("---\n" + ("\n" + rest));
      "---" + (Led(lines) + "\n") + ("---\n" + ("\n" + rest));
      "---" + Led(lines) + ("\n---\n" + ("\n" + rest));
    }
  }

  lemma RenderShape(nf: NumberFormat, r: Record, res: ExtractionResult)
    ensures Render(nf, r, res) == "---" + Led(FrontLines(r)) + ("\n---\n" + Body(nf, r.article, res))
  {
    var lines := FrontLines(r);
    var head := "---\n" + LinesText(lines) + "---\n\n";
    var up := UpToQuotes(r.article, res);
    var tail := "\n" + LinesText(AllQuoteLines(nf, res.quotes));
    SectionsSplit(nf, r.article, res);
    TrailingTrim(head, up, tail);
    var rest := up + TrimRightNewlines(tail) + "\n";
    assert head + (up + TrimRightNewlines(tail)) + "\n" == head + rest;
    FrontText(lines, rest);
    assert "\n" + rest == Body(nf, r.article, res);
  }

  /** Parsing a rendered file splits it exactly where the printer ended the
      front matter, and the front matter holds exactly the non-blank fields. */
  lemma ParseOfRender(nf: NumberFormat, r: Record, res: ExtractionResult)
    ensures ParseFrozenMD(Render(nf, r, res)) == Parsed(ExpectedFront(r), Body(nf, r.article, res))
  {
    var lines := FrontLines(r);
    RenderShape(nf, r, res);
    FrontLinesSafe(r);
    ParseSplits(lines, Body(nf, r.article, res));
    FrontMatterOfLed(lines);
    ClassifyFrontLines(r);
    RunBlocks(CollapseWhitespace(r.article.title), r);
  }

  lemma FrontMatterOfLed(lines: seq<string>)
    requires OneLiners(lines)
    ensures FrontMatter(Led(lines)) == NO_FRONT.Run(ClassifyAll(lines)).Flushed()
  {
    SplitLed(lines);
    ClassifyConcat([""], lines);
    RunConcat(NO_FRONT, ClassifyAll([""]), ClassifyAll(lines));
    RunOne(NO_FRONT, Blank);
    ClassifyBlank();
  }

  lemma ClassifyBlank()
    ensures ClassifyAll([""]) == [Blank]
  {
  }

  lemma NoneBefore(x: string, y: string, p: string)
    requires p != "" && p[0] == '\n' && '\n' !in p[1..] && (y == "" || y[0] == '\n') && Absent(x, p)
    ensures forall j :: j < |x| ==> !Occurs(x + y, p, j)
  {
    forall j | j < |x| ensures !Occurs(x + y, p, j) { OccursSplit(x, y, p, j); }
  }

  lemma CloseStarts(y: string, body: string)
    requires y == "\n---\n" + body
    ensures |y| >= 5 && y[0] == '\n' && y[4] == '\n' && Occurs(y, "\n---", 0) && y[5..] == body
  {
  }

  lemma CloseFound(x: string, y: string, text: string)
    requires text == x + y && |y| >= 5 && y[4] == '\n' && Occurs(y, "\n---", 0)
    requires forall j :: j < |x| ==> !Occurs(text, "\n---", j)
    ensures FindClose(text, 0) == Some((|x|, |x| + 5))
  {
    OccursShift(x, y, "\n---", |x|);
    assert text[|x| + 4] == y[4];
    FindCloseAt(text, 0, |x|);
  }

  lemma CloseIsFirst(x: string, y: string, body: string)
    requires Absent(x, "\n---") && y == "\n---\n" + body
    ensures FindClose(x + y, 0) == Some((|x|, |x| + 5)) && (x + y)[|x| + 5..] == body
  {
    CloseStarts(y, body);
    NoneBefore(x, y, "\n---");
    CloseFound(x, y, x + y);
    DropPast(x, y, 5);
  }

  /** The text in front of the first closing line, behind the opening one, is the front matter. */
  lemma ParseWhole(text: string, front: string, body: string)
    requires text == ("---" + front) + ("\n---\n" + body) && FindClose(text, 0) == Some((|front| + 3, |front| + 8))
    requires text[|front| + 8..] == body
    ensures ParseFrozenMD(text) == Parsed(FrontMatter(front), body)
  {
    assert text[3..|front| + 3] == front;
    assert text[..3] == "---";
  }

  lemma ParseSplits(lines: seq<string>, body: string)
    requires AllFrontSafe(lines)
    ensures OneLiners(lines)
    ensures ParseFrozenMD("---" + Led(lines) + ("\n---\n" + body)) == Parsed(FrontMatter(Led(lines)), body)
  {
    var x := "---" + Led(lines);
    SafeLedAbsent(lines);
    AbsentNoNewline("---", "\n---");
    AbsentSplit("---", Led(lines), "\n---");
    CloseIsFirst(x, "\n---\n" + body, body);
    ParseWhole(x + ("\n---\n" + body), Led(lines), body);
  }
}
