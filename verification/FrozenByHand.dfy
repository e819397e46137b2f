/** What the parsers make of any file, also one that was edited by hand: the order of
    lines, repetitions, indentation, line ends and lines that mean nothing. */
module FrozenByHand {
  import opened Wrappers
  import opened Sequences
  import opened Text
  import opened FrozenMarkdown
  import opened FrozenFrontMatter
  import Decimal
  import FrozenQuotes

  // ----- front matter: the last line of a key decides

  predicate Names(l: FrontLine, key: string) {
    l.KeyValue? && l.key == key
  }

  ghost predicate Named(lines: seq<FrontLine>, key: string) {
    exists l :: l in lines && Names(l, key)
  }

  /** The items up to the next blank line or key; lines without a colon are passed over. */
  function ItemsBehind(lines: seq<FrontLine>): seq<string> {
    if lines == [] || lines[0].Blank? || lines[0].KeyValue? then []
    else (if lines[0].Item? then [lines[0].text] else []) + ItemsBehind(lines[1..])
  }

  lemma NamedRest(lines: seq<FrontLine>, key: string)
    requires lines != []
    ensures Named(lines, key) <==> Names(lines[0], key) || Named(lines[1..], key)
  {
    assert lines == [lines[0]] + lines[1..];
  }

  /** Another key's lines leave an entry alone. */
  lemma OtherKeeps(st: FrontState, l: FrontLine, key: string)
    requires key != "" && st.list != key && !Names(l, key)
    ensures var next := st.Apply(l);
      next.list != key && (key in next.out <==> key in st.out) && (key in next.out ==> next.out[key] == st.out[key])
  {
  }

  lemma {:induction false} OthersKeep(st: FrontState, lines: seq<FrontLine>, key: string)
    requires key != "" && st.list != key && !Named(lines, key)
    ensures var m := st.Run(lines).Flushed();
      (key in m <==> key in st.out) && (key in m ==> m[key] == st.out[key])
    decreases |lines|
  {
    if lines != [] {
      NamedRest(lines, key);
      OtherKeeps(st, lines[0], key);
      OthersKeep(st.Apply(lines[0]), lines[1..], key);
    }
  }

  /** An open list takes the items behind it. */
  lemma {:induction false} ListTakes(st: FrontState, lines: seq<FrontLine>, key: string)
    requires key != "" && st.list == key && key in st.out && st.out[key] == "" && !Named(lines, key)
    ensures var m := st.Run(lines).Flushed(); key in m && m[key] == Join(st.items + ItemsBehind(lines), [NUL])
    decreases |lines|
  {
    if lines == [] {
      assert st.items + [] == st.items;
    } else {
      NamedRest(lines, key);
      var l := lines[0];
      match l
      case Blank =>
        ListCloses(st, l, key);
        OthersKeep(st.Apply(l), lines[1..], key);
      case KeyValue(_, _) =>
        ListCloses(st, l, key);
        OthersKeep(st.Apply(l), lines[1..], key);
      case Item(text) =>
        ListTakes(st.Apply(l), lines[1..], key);
        ConcatAssoc(st.items, [text], ItemsBehind(lines[1..]));
      case NoColon =>
        ListTakes(st, lines[1..], key);
        assert [] + ItemsBehind(lines[1..]) == ItemsBehind(lines[1..]);
    }
  }

  lemma ListCloses(st: FrontState, l: FrontLine, key: string)
    requires key != "" && st.list == key && key in st.out && st.out[key] == "" && !Names(l, key)
    requires l.Blank? || l.KeyValue?
    ensures var next := st.Apply(l);
      next.list != key && key in next.out && next.out[key] == Join(st.items + [], [NUL])
  {
    assert st.items + [] == st.items;
  }

  /** The value a line gives its key: its own, or the items behind it. */
  function Given(value: string, behind: seq<FrontLine>): string {
    if value != "" then value else Join(ItemsBehind(behind), [NUL])
  }

  /** Whatever the lines are, a key has the value its last line gives it. */
  lemma LastLineDecides(before: seq<FrontLine>, key: string, value: string, behind: seq<FrontLine>)
    requires key != "" && !Named(behind, key)
    ensures var m := NO_FRONT.Run(before + ([KeyValue(key, value)] + behind)).Flushed();
      key in m && m[key] == Given(value, behind)
  {
    var line := KeyValue(key, value);
    var st := NO_FRONT.Run(before);
    RunConcat(NO_FRONT, before, [line] + behind);
    RunConcat(st, [line], behind);
    assert [line][1..] == [] && st.Run([line]) == st.Apply(line);
    if value != "" {
      OthersKeep(st.Apply(line), behind, key);
    } else {
      assert [] + ItemsBehind(behind) == ItemsBehind(behind);
      ListTakes(st.Apply(line), behind, key);
    }
  }

  /** And a key without a line has none. */
  lemma NoLineNoEntry(lines: seq<FrontLine>, key: string)
    requires key != "" && !Named(lines, key)
    ensures key !in NO_FRONT.Run(lines).Flushed()
  {
    OthersKeep(NO_FRONT, lines, key);
  }

  // ----- front matter: indentation and line ends

  /** A carriage return behind a line does not matter. */
  lemma FrontLineEnds(line: string)
    ensures ClassifyFront(line + "\r") == ClassifyFront(line)
  {
    assert (line + "\r")[..|line|] == line;
  }

  /** White space in front of a line does not matter. */
  lemma FrontLineIndented(a: string, line: string)
    requires AllSpace(a)
    ensures ClassifyFront(a + line) == ClassifyFront(line)
  {
    ReturnsBehind(a, line);
    var x, y := TrimRightReturns(a + line), TrimRightReturns(line);
    if x == a + y {
      TrimLeading(a, y);
      ColonBehind(a, y);
      if Index(y, ":") == -1 {
        SameNoColon(a + line, line);
      } else {
        IndentedColon(a, line, y, Index(y, ":"));
      }
    } else {
      TrimLeading(x, "");
      assert x + "" == x;
    }
  }

  lemma SameNoColon(l: string, line: string)
    requires TrimSpace(TrimRightReturns(l)) == TrimSpace(TrimRightReturns(line))
    requires Index(TrimRightReturns(l), ":") == Index(TrimRightReturns(line), ":") == -1
    ensures ClassifyFront(l) == ClassifyFront(line)
  {
  }

  lemma IndentedColon(a: string, line: string, y: string, i: nat)
    requires AllSpace(a) && TrimRightReturns(line) == y && TrimRightReturns(a + line) == a + y
    requires Index(y, ":") == i < |y| && Index(a + y, ":") == |a| + i
    ensures ClassifyFront(a + line) == ClassifyFront(line)
  {
    TrimLeading(a, y);
    if TrimSpace(y) != "" && !HasPrefix(TrimSpace(y), "- ") {
      ColonParts(a, y, i);
      ColonLine(line, y, i, TrimSpace(y[..i]), y[i + 1..]);
      ColonLine(a + line, a + y, |a| + i, TrimSpace(y[..i]), y[i + 1..]);
    }
  }

  lemma ColonLine(line: string, x: string, i: nat, key: string, rest: string)
    requires TrimRightReturns(line) == x && TrimSpace(x) != "" && !HasPrefix(TrimSpace(x), "- ")
    requires Index(x, ":") == i < |x| && TrimSpace(x[..i]) == key && x[i + 1..] == rest
    ensures ClassifyFront(line) == KeyValue(key, TrimSpace(rest))
  {
  }

  lemma TrimLeading(a: string, s: string)
    requires AllSpace(a)
    ensures TrimSpace(a + s) == TrimSpace(s)
  {
    TrimPad(a, s, "");
    assert a + s + "" == a + s;
  }

  lemma {:induction false} ReturnsBehind(a: string, line: string)
    requires AllSpace(a)
    ensures TrimRightReturns(a + line) == a + TrimRightReturns(line) ||
            (AllSpace(TrimRightReturns(a + line)) && TrimRightReturns(line) == "")
  {
    if line != "" && line[|line| - 1] == '\r' {
      assert (a + line)[..|a + line| - 1] == a + line[..|line| - 1];
      ReturnsBehind(a, line[..|line| - 1]);
    } else if line == "" {
      assert a + line == a;
      ReturnsOfSpace(a);
    }
  }

  lemma {:induction false} ReturnsOfSpace(a: string)
    requires AllSpace(a)
    ensures AllSpace(TrimRightReturns(a))
  {
    if a != "" && a[|a| - 1] == '\r' {
      ReturnsOfSpace(a[..|a| - 1]);
    }
  }

  lemma ColonBehind(a: string, s: string)
    requires AllSpace(a)
    ensures Index(a + s, ":") == if Index(s, ":") == -1 then -1 else |a| + Index(s, ":")
  {
    forall i | i < |a|
      ensures !Occurs(a + s, ":", i)
    {
      assert 0 <= i ==> IsSpace(a[i]) && (a + s)[i + 0] != ":"[0];
    }
    IndexBehind(a, s, ":");
  }

  lemma IndexBehind(a: string, s: string, p: string)
    requires forall i :: i < |a| ==> !Occurs(a + s, p, i)
    ensures Index(a + s, p) == if Index(s, p) == -1 then -1 else |a| + Index(s, p)
  {
    IndexSpec(s, p);
    IndexSpec(a + s, p);
    var n, m := Index(s, p), Index(a + s, p);
    OccursShift(a, s, p, if n == -1 then |a| else |a| + n);
    if m != -1 {
      OccursShift(a, s, p, m);
    }
    if n != -1 && m != -1 {
      assert !(m < |a| + n) && !(m - |a| > n);
    }
  }

  lemma ColonParts(a: string, s: string, n: nat)
    requires AllSpace(a) && n < |s|
    ensures TrimSpace((a + s)[..|a| + n]) == TrimSpace(s[..n]) && (a + s)[|a| + n + 1..] == s[n + 1..]
  {
    assert (a + s)[..|a| + n] == a + s[..n];
    TrimLeading(a, s[..n]);
  }

  lemma {:induction false} TrimWithoutReturns(line: string)
    ensures TrimSpace(TrimRightReturns(line)) == TrimSpace(line)
  {
    if line != "" && line[|line| - 1] == '\r' {
      var init := line[..|line| - 1];
      assert line == init + "\r";
      TrimPad("", init, "\r");
      assert "" + init + "\r" == init + "\r";
      TrimWithoutReturns(init);
    }
  }

  lemma {:induction false} CharsWithoutReturns(line: string, c: char)
    requires c != '\r'
    ensures c in TrimRightReturns(line) <==> c in line
  {
    if line != "" && line[|line| - 1] == '\r' {
      assert line == line[..|line| - 1] + ['\r'];
      CharsWithoutReturns(line[..|line| - 1], c);
    }
  }

  lemma ColonFound(s: string)
    ensures Index(s, ":") == -1 <==> ':' !in s
    ensures Index(s, ":") != -1 ==> s[Index(s, ":")] == ':' && ':' !in s[..Index(s, ":")]
  {
    IndexSpec(s, ":");
    var n := Index(s, ":");
    forall i | 0 <= i < |s|
      ensures Occurs(s, ":", i) <==> s[i] == ':'
    {
      assert s[i + 0] == s[i] && ":"[0] == ':';
    }
    if n != -1 {
      assert s[n + 0] == ":"[0];
      assert forall i :: 0 <= i < n ==> s[..n][i] == s[i];
    }
  }

  /** What kind of line a line of the front matter is. */
  lemma FrontLineKinds(line: string)
    ensures ClassifyFront(line).Blank? <==> TrimSpace(line) == ""
    ensures ClassifyFront(line).Item? <==> HasPrefix(TrimSpace(line), "- ")
    ensures ClassifyFront(line).NoColon? <==> TrimSpace(line) != "" && !HasPrefix(TrimSpace(line), "- ") && ':' !in line
  {
    TrimWithoutReturns(line);
    CharsWithoutReturns(line, ':');
    ColonFound(TrimRightReturns(line));
  }

  /** And what kind a line of the quotes section is. */
  lemma QuoteLineKinds(line: string)
    ensures ClassifyQuote(line).Start? <==> TrimSpace(line) != "" && HasPrefix(line, "- ")
    ensures ClassifyQuote(line).Attribute? <==> HasPrefix(line, "  ") && ':' in TrimSpace(line)
  {
    ColonFound(TrimSpace(line));
    assert HasPrefix(line, "- ") ==> line[..2][0] == line[0];
    assert HasPrefix(line, "  ") ==> line[..2][0] == line[0];
  }

  /** The first colon of an attribute line ends its key. */
  lemma AttributeParts(line: string, key: string, value: string)
    requires HasPrefix(line, "  ") && TrimSpace(line) == key + ":" + value && ':' !in key
    ensures ClassifyQuote(line) == Attribute(TrimSpace(key), TrimSpace(value))
  {
    IndexColon(key, value);
    var s := TrimSpace(line);
    assert s[..|key|] == key && s[|key| + 1..] == value;
    assert line[..2][0] == line[0];
  }

  // ----- quotes: any attributes in any order

  /** A quote as it stands in a file: its text and its attribute lines. */
  datatype Block = Block(text: string, attributes: seq<(string, string)>)

  function AttributeClassesOf(attributes: seq<(string, string)>): seq<QuoteLine> {
    if attributes == [] then []
    else AttributeClassesOf(attributes[..|attributes| - 1])
         + [Attribute(attributes[|attributes| - 1].0, attributes[|attributes| - 1].1)]
  }

  function ClassesOf(blocks: seq<Block>): seq<QuoteLine> {
    if blocks == [] then []
    else ClassesOf(blocks[..|blocks| - 1])
         + ([Start(blocks[|blocks| - 1].text)] + AttributeClassesOf(blocks[|blocks| - 1].attributes))
  }

  /** The value of the last attribute with the key. */
  function LastValue(attributes: seq<(string, string)>, key: string): string {
    if attributes == [] then ""
    else if attributes[|attributes| - 1].0 == key then attributes[|attributes| - 1].1
    else LastValue(attributes[..|attributes| - 1], key)
  }

  /** The last relevance that is a number. */
  function LastNumber(nf: NumberFormat, attributes: seq<(string, string)>): real {
    if attributes == [] then 0.0
    else
      var (key, value) := attributes[|attributes| - 1];
      if key == "relevance" && nf.parse(value).Some? then nf.parse(value).value
      else LastNumber(nf, attributes[..|attributes| - 1])
  }

  function QuoteOf(nf: NumberFormat, b: Block): FrozenQuote {
    FrozenQuote(b.text, LastValue(b.attributes, "location"), LastNumber(nf, b.attributes), LastValue(b.attributes, "rationale"))
  }

  lemma {:induction false} AttributesRead(nf: NumberFormat, out: seq<FrozenQuote>, b: Block)
    ensures QuoteState(out, Some(FrozenQuote(b.text, "", 0.0, ""))).Run(nf, AttributeClassesOf(b.attributes))
            == QuoteState(out, Some(QuoteOf(nf, b)))
    decreases |b.attributes|
  {
    if b.attributes != [] {
      var k := |b.attributes| - 1;
      var less := Block(b.text, b.attributes[..k]);
      var line := Attribute(b.attributes[k].0, b.attributes[k].1);
      AttributesRead(nf, out, less);
      FrozenQuotes.RunQuotesConcat(nf, QuoteState(out, Some(FrozenQuote(b.text, "", 0.0, ""))), AttributeClassesOf(less.attributes), [line]);
      FrozenQuotes.RunOneQuoteLine(nf, QuoteState(out, Some(QuoteOf(nf, less))), line);
    }
  }

  /** Whatever quotes a file lists, each is read with its last location, its last
      rationale and its last relevance that is a number; other attributes are ignored. */
  lemma {:induction false} BlocksRead(nf: NumberFormat, blocks: seq<Block>)
    ensures NO_QUOTES.Run(nf, ClassesOf(blocks)).Flushed() == seq(|blocks|, i requires 0 <= i < |blocks| => QuoteOf(nf, blocks[i]))
    decreases |blocks|
  {
    if blocks != [] {
      var init, last := blocks[..|blocks| - 1], blocks[|blocks| - 1];
      BlocksRead(nf, init);
      var st := NO_QUOTES.Run(nf, ClassesOf(init));
      FrozenQuotes.RunQuotesConcat(nf, NO_QUOTES, ClassesOf(init), [Start(last.text)] + AttributeClassesOf(last.attributes));
      FrozenQuotes.RunQuotesConcat(nf, st, [Start(last.text)], AttributeClassesOf(last.attributes));
      FrozenQuotes.RunOneQuoteLine(nf, st, Start(last.text));
      AttributesRead(nf, st.Flushed(), last);
    }
  }

  /** Attributes in front of the first quote are ignored. */
  lemma {:induction false} LooseAttributes(nf: NumberFormat, attributes: seq<(string, string)>)
    ensures NO_QUOTES.Run(nf, AttributeClassesOf(attributes)) == NO_QUOTES
  {
    if attributes != [] {
      var init, last := attributes[..|attributes| - 1], attributes[|attributes| - 1];
      LooseAttributes(nf, init);
      FrozenQuotes.RunQuotesConcat(nf, NO_QUOTES, AttributeClassesOf(init), [Attribute(last.0, last.1)]);
      FrozenQuotes.RunOneQuoteLine(nf, NO_QUOTES, Attribute(last.0, last.1));
    }
  }

  // ----- quotes: single lines

  /** A quote is an item at the start of a line, with the label `text:` or without it. */
  lemma QuoteItem(text: string)
    requires text != "" && Trimmed(text) && !HasPrefix(text, "text:")
    ensures ClassifyQuote("- " + text) == ClassifyQuote("- text: " + text) == Start(text)
  {
    PlainItem(text);
    LabelledItem(text);
  }

  lemma PlainItem(text: string)
    requires Trimmed(text) && !HasPrefix(text, "text:")
    ensures ClassifyQuote("- " + text) == Start(text)
  {
    ItemLine("- " + text, text);
    TrimOfTrimmed(text);
  }

  lemma LabelledItem(text: string)
    requires text != "" && Trimmed(text)
    ensures ClassifyQuote("- text: " + text) == Start(text)
  {
    assert "- text: " + text == "- " + ("text: " + text);
    ItemLine("- text: " + text, "text: " + text);
    Labelled(text);
  }

  lemma ItemLine(line: string, item: string)
    requires line == "- " + item
    ensures ClassifyQuote(line) == Start(QuoteText(TrimSpace(item)))
  {
    assert line[..2] == "- " && line[2..] == item;
    NotBlankAt(line);
  }

  lemma Labelled(text: string)
    requires text != "" && Trimmed(text)
    ensures TrimSpace("text: " + text) == "text: " + text && QuoteText("text: " + text) == text
  {
    var item := "text: " + text;
    assert item[|item| - 1] == text[|text| - 1];
    TrimOfTrimmed(item);
    assert item[..5] == "text:" && item[5..] == " " + text;
    TrimLeading(" ", text);
    TrimOfTrimmed(text);
  }

  lemma NotBlankAt(line: string)
    requires line != "" && line[0] == '-'
    ensures TrimSpace(line) != ""
  {
    TrimRightNonBlank(line);
  }

  // ----- sections

  /** A section whose header line is the very start of the body is read, as long as no
      other line starts with the header. */
  lemma HeaderAtStart(h: string, text: string)
    requires h != "" && Absent(h + text, "\n" + h)
    ensures HasSectionHeader(h + text, h) && SectionBody(h + text, h) == TrimSpace(UpToNextSection(text))
  {
    IndexSpec(h + text, "\n" + h);
    assert (h + text)[..|h|] == h && (h + text)[|h|..] == text;
  }

  lemma PrefixBehindNewline(body: string, h: string)
    ensures HasPrefix(body, h) ==> Occurs("\n" + body, "\n" + h, 0)
  {
    assert |h| <= |body| ==> ("\n" + body)[..|h| + 1] == "\n" + body[..|h|];
    PrefixOccurs("\n" + body, "\n" + h);
  }

  /** Without a line that starts with the header there is no section. */
  lemma NoHeaderNoSection(body: string, h: string)
    requires h != "" && Absent("\n" + body, "\n" + h)
    ensures !HasSectionHeader(body, h) && SectionBody(body, h) == ""
  {
    PrefixBehindNewline(body, h);
    forall i
      ensures !Occurs(body, "\n" + h, i)
    {
      if i >= 0 {
        OccursShift("\n", body, "\n" + h, i + 1);
      }
    }
    IndexSpec(body, "\n" + h);
  }

  // ----- the delimiters

  /** A line of three dashes, perhaps with blanks behind, stretches from i to j. */
  ghost predicate Delimits(text: string, i: int, j: int) {
    && Occurs(text, "\n---", i) && i + 4 < j <= |text| && text[j - 1] == '\n'
    && forall k :: i + 4 <= k < j - 1 ==> text[k] in {' ', '\t', '\r'}
  }

  lemma {:induction false} BlanksEnd(text: string, i: nat)
    requires i <= |text|
    ensures forall k :: i <= k < SkipBlanks(text, i) ==> text[k] in {' ', '\t', '\r'}
    ensures SkipBlanks(text, i) < |text| ==> text[SkipBlanks(text, i)] !in {' ', '\t', '\r'}
    decreases |text| - i
  {
    if i < |text| && text[i] in {' ', '\t', '\r'} {
      BlanksEnd(text, i + 1);
    }
  }

  lemma ClosesHere(text: string, i: nat)
    requires i + 4 <= |text|
    ensures var e := SkipBlanks(text, i + 4);
      forall j :: Delimits(text, i, j) <==> Occurs(text, "\n---", i) && e < |text| && text[e] == '\n' && j == e + 1
  {
    var e := SkipBlanks(text, i + 4);
    BlanksEnd(text, i + 4);
    forall j
      ensures Delimits(text, i, j) <==> Occurs(text, "\n---", i) && e < |text| && text[e] == '\n' && j == e + 1
    {
      if Delimits(text, i, j) {
        assert text[j - 1] == '\n' && (e < |text| ==> text[e] !in {' ', '\t', '\r'});
      }
    }
  }

  lemma DashesAt(text: string, i: nat)
    requires i <= |text|
    ensures Occurs(text, "\n---", i) <==> HasPrefix(text[i..], "\n---")
  {
    OccursShift(text[..i], text[i..], "\n---", i);
    assert text[..i] + text[i..] == text;
    PrefixOccurs(text[i..], "\n---");
  }

  /** The first such line at or behind a place. */
  ghost predicate FirstFrom(text: string, from: int, i: int, j: int) {
    i >= from && Delimits(text, i, j) && forall k, l :: from <= k < i ==> !Delimits(text, k, l)
  }

  ghost predicate NoneFrom(text: string, from: int) {
    forall i, j :: i >= from ==> !Delimits(text, i, j)
  }

  lemma NotHere(text: string, from: nat)
    requires forall j :: !Delimits(text, from, j)
    ensures NoneFrom(text, from + 1) ==> NoneFrom(text, from)
    ensures forall i, j :: FirstFrom(text, from + 1, i, j) ==> FirstFrom(text, from, i, j)
  {
  }

  lemma CloseHere(text: string, i: nat)
    requires i <= |text|
    ensures var e := if i + 4 <= |text| then SkipBlanks(text, i + 4) else |text|;
      if HasPrefix(text[i..], "\n---") && e < |text| && text[e] == '\n'
      then FindClose(text, i) == Some((i, e + 1)) && Delimits(text, i, e + 1)
      else forall j :: !Delimits(text, i, j)
  {
    DashesAt(text, i);
    if i + 4 <= |text| {
      ClosesHere(text, i);
    }
  }

  lemma {:induction false} FirstDelimiter(text: string, from: nat)
    requires from <= |text|
    ensures FindClose(text, from).None? ==> NoneFrom(text, from)
    ensures FindClose(text, from).Some? ==> FirstFrom(text, from, FindClose(text, from).value.0, FindClose(text, from).value.1)
    decreases |text| - from
  {
    CloseHere(text, from);
    if forall j :: !Delimits(text, from, j) {
      NotHere(text, from);
      if from < |text| {
        FirstDelimiter(text, from + 1);
      }
    }
  }

  lemma FirstUnique(text: string, from: int, i: int, j: int, k: int, l: int)
    requires FirstFrom(text, from, i, j) && FirstFrom(text, from, k, l)
    ensures i == k && j == l
  {
    assert text[j - 1] == '\n' && text[l - 1] == '\n';
  }

  /** A file is malformed exactly if it starts with dashes and no line of dashes follows. */
  lemma MalformedIff(text: string)
    ensures ParseFrozenMD(text) == Malformed <==> HasPrefix(text, "---") && NoneFrom(text, 0)
  {
    FirstDelimiter(text, 0);
  }

  /** Otherwise the front matter ends at the first such line, and the body starts behind it. */
  lemma FrontEndsFirst(text: string, i: int, j: int)
    requires HasPrefix(text, "---") && FirstFrom(text, 0, i, j)
    ensures 3 <= i && ParseFrozenMD(text) == Parsed(FrontMatter(text[3..i]), text[j..])
  {
    FirstDelimiter(text, 0);
    assert text[..3][0] == text[0] && text[..3][1] == text[1] && text[..3][2] == text[2];
    assert text[i + 0] == "\n---"[0];
    if FindClose(text, 0).Some? {
      FirstUnique(text, 0, i, j, FindClose(text, 0).value.0, FindClose(text, 0).value.1);
    }
  }

  /** The quotes of a file are a miss exactly if there is no file to look for, or none
      found, or it is malformed; a file without the header has none. */
  lemma QuotesMissIff(nf: NumberFormat, doi: string, file: Option<string>)
    ensures ReadQuotes(nf, doi, file).None? <==>
      doi == "" || file.None? || (HasPrefix(file.value, "---") && NoneFrom(file.value, 0))
    ensures ReadQuotes(nf, doi, file).Some? ==>
      ParseFrozenMD(file.value).Parsed? &&
      (Absent("\n" + ParseFrozenMD(file.value).body, "\n" + QUOTES_HEADER) ==> ReadQuotes(nf, doi, file) == Some([]))
  {
    if file.Some? {
      MalformedIff(file.value);
      if ParseFrozenMD(file.value).Parsed? && Absent("\n" + ParseFrozenMD(file.value).body, "\n" + QUOTES_HEADER) {
        NoHeaderNoSection(ParseFrozenMD(file.value).body, QUOTES_HEADER);
      }
    }
  }

  /** What a reader takes from a file that is neither missing nor malformed: a field
      without a line, or with nothing on it, is the caller's. */
  lemma FieldsFallBack(doi: string, text: string, fallback: RawArticle)
    requires doi != "" && ParseFrozenMD(text).Parsed?
    ensures var raw, front := ToRaw(doi, Some(text), fallback), ParseFrozenMD(text).front;
      && raw.Some?
      && (("title" !in front || front["title"] == "") ==> raw.value.title == fallback.title)
      && (("journal" !in front || front["journal"] == "") ==> raw.value.journal == fallback.journal)
      && (("doi" !in front || front["doi"] == "") ==> raw.value.doi == fallback.doi)
      && (("url" !in front || front["url"] == "") ==> raw.value.url == fallback.url)
      && (("source_key" !in front || front["source_key"] == "") ==> raw.value.sourceKey == fallback.sourceKey)
      && (("year" !in front || Decimal.Atoi(front["year"]).None?) ==> raw.value.year == fallback.year)
      && (("authors" !in front || front["authors"] == "") ==> raw.value.authors == fallback.authors)
  {
  }

  /** A section that is missing or blank is the caller's text. */
  lemma SectionsFallBack(doi: string, text: string, fallback: RawArticle)
    requires doi != "" && ParseFrozenMD(text).Parsed?
    ensures var raw, body := ToRaw(doi, Some(text), fallback), ParseFrozenMD(text).body;
      && raw.Some?
      && raw.value.abstract_ == (if SectionBody(body, ABSTRACT_HEADER) == "" then fallback.abstract_ else SectionBody(body, ABSTRACT_HEADER))
      && raw.value.fullText == (if SectionBody(body, FULL_TEXT_HEADER) == "" then fallback.fullText else SectionBody(body, FULL_TEXT_HEADER))
  {
  }

  lemma {:induction false} NonEmptyIs(parts: seq<string>)
    ensures forall p :: p in NonEmpty(parts) <==> p in parts && p != ""
  {
    if parts != [] {
      assert parts == [parts[0]] + parts[1..];
      NonEmptyIs(parts[1..]);
    }
  }

  lemma {:induction false} NonEmptyConcat(a: seq<string>, b: seq<string>)
    ensures NonEmpty(a + b) == NonEmpty(a) + NonEmpty(b)
    decreases |a|
  {
    if a == [] {
      assert a + b == b;
    } else {
      assert (a + b)[1..] == a[1..] + b;
      NonEmptyConcat(a[1..], b);
      ConcatAssoc(if a[0] == "" then [] else [a[0]], NonEmpty(a[1..]), NonEmpty(b));
    }
  }

  /** The authors of a list are its items that are not empty, in order, or the caller's
      if there are none. */
  lemma ListedAuthorsRead(front: map<string, string>, a: seq<string>, name: string, b: seq<string>, fallback: seq<string>)
    requires "authors" in front && front["authors"] == Join(a + ([name] + b), [NUL])
    requires forall n :: n in a + ([name] + b) ==> NUL !in n
    ensures name != "" ==> AuthorsField(front, fallback) == NonEmpty(a) + ([name] + NonEmpty(b))
    ensures (forall n :: n in a + ([name] + b) ==> n == "") ==> AuthorsField(front, fallback) == fallback
  {
    var all := a + ([name] + b);
    SplitJoin(all, NUL);
    NonEmptyIs(all);
    NonEmptyConcat(a, [name] + b);
    NonEmptyConcat([name], b);
    assert [name][1..] == [];
    if name != "" {
      NamedNotEmpty(a, name, b);
    }
    assert |NonEmpty(all)| > 0 ==> NonEmpty(all)[0] in NonEmpty(all);
  }

  lemma {:induction false} NamedNotEmpty(a: seq<string>, name: string, b: seq<string>)
    requires name != ""
    ensures Join(a + ([name] + b), [NUL]) != ""
  {
    var all := a + ([name] + b);
    if a != [] {
      assert all[1..] == a[1..] + ([name] + b);
      NamedNotEmpty(a[1..], name, b);
    }
  }
}
