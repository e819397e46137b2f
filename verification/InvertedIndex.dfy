/** Two ways to rebuild a text from an inverted index, whatever order its map is
    walked in: through a table of positions, and by sorting. */
module InvertedIndex {
  import opened Text

  /** A word with the positions it takes; an index is its entries in iteration order. */
  datatype Entry = Entry(word: string, positions: seq<int>)

  datatype Occurrence = Occurrence(pos: int, word: string)

  function OccurrencesOf(e: Entry): seq<Occurrence> {
    seq(|e.positions|, i requires 0 <= i < |e.positions| => Occurrence(e.positions[i], e.word))
  }

  function Occurrences(index: seq<Entry>): seq<Occurrence> {
    if index == [] then [] else Occurrences(index[..|index| - 1]) + OccurrencesOf(index[|index| - 1])
  }

  ghost predicate DistinctPositions(os: seq<Occurrence>) {
    forall i, j :: 0 <= i < j < |os| ==> os[i].pos != os[j].pos
  }

  /** In strictly increasing order of position. */
  ghost predicate Ordered(os: seq<Occurrence>) {
    forall i, j :: 0 <= i < j < |os| ==> os[i].pos < os[j].pos
  }

  function Words(os: seq<Occurrence>): seq<string> {
    seq(|os|, i requires 0 <= i < |os| => os[i].word)
  }

  /** What a rebuild keeps: the occurrences at non-negative positions, in order. */
  ghost predicate OrderedPart(os: seq<Occurrence>, part: seq<Occurrence>) {
    Ordered(part) && forall o :: o in part <==> o in os && o.pos >= 0
  }

  ghost predicate SortedByPosition(os: seq<Occurrence>) {
    forall i, j :: 0 <= i < j < |os| ==> os[i].pos <= os[j].pos
  }

  ghost predicate IsSorted(os: seq<Occurrence>, sorted: seq<Occurrence>) {
    SortedByPosition(sorted) && multiset(sorted) == multiset(os)
  }

  // ----- what both return

  lemma LastIsGreatest(a: seq<Occurrence>, o: Occurrence)
    requires Ordered(a) && o in a
    ensures o.pos <= a[|a| - 1].pos && (o.pos == a[|a| - 1].pos ==> o == a[|a| - 1])
    ensures o in a[..|a| - 1] <==> o.pos < a[|a| - 1].pos
  {
    var i :| 0 <= i < |a| && a[i] == o;
    if i < |a| - 1 {
      assert a[..|a| - 1][i] == o;
    }
  }

  /** Strictly ordered occurrences are determined by which ones they are. */
  lemma {:induction false} OrderedUnique(a: seq<Occurrence>, b: seq<Occurrence>)
    requires Ordered(a) && Ordered(b) && forall o :: o in a <==> o in b
    ensures a == b
    decreases |a|
  {
    assert |a| > 0 ==> a[0] in b;
    assert |b| > 0 ==> b[0] in a;
    if a != [] && b != [] {
      var p, q := a[|a| - 1], b[|b| - 1];
      LastIsGreatest(b, p);
      LastIsGreatest(a, q);
      var c, d := a[..|a| - 1], b[..|b| - 1];
      forall o | o in c
        ensures o in d
      {
        assert o in a;
        LastIsGreatest(a, o);
        LastIsGreatest(b, o);
      }
      forall o | o in d
        ensures o in c
      {
        assert o in b;
        LastIsGreatest(a, o);
        LastIsGreatest(b, o);
      }
      OrderedUnique(c, d);
      assert a == c + [p] && b == d + [q];
    }
  }

  lemma {:induction false} DistinctOnce(os: seq<Occurrence>, o: Occurrence)
    requires DistinctPositions(os)
    ensures multiset(os)[o] <= 1
    decreases |os|
  {
    if os != [] {
      var before := os[..|os| - 1];
      assert os == before + [os[|os| - 1]];
      DistinctOnce(before, o);
      assert o == os[|os| - 1] ==> o !in before;
    }
  }

  lemma TwiceCounts(s: seq<Occurrence>, i: nat, j: nat)
    requires i < j < |s| && s[i] == s[j]
    ensures multiset(s)[s[i]] >= 2
  {
    assert s == s[..j] + s[j..];
    assert s[..j][i] == s[i] && s[j..][0] == s[i];
    assert s[i] in multiset(s[..j]) && s[i] in multiset(s[j..]);
  }

  lemma SamePositionSame(os: seq<Occurrence>, o: Occurrence, p: Occurrence)
    requires DistinctPositions(os) && o in os && p in os && o.pos == p.pos
    ensures o == p
  {
  }

  lemma OnlyOnce(os: seq<Occurrence>, sorted: seq<Occurrence>, i: nat, j: nat)
    requires DistinctPositions(os) && multiset(sorted) == multiset(os) && i < j < |sorted|
    ensures sorted[i].pos != sorted[j].pos
  {
    var o, p := sorted[i], sorted[j];
    assert o in multiset(sorted) && p in multiset(sorted);
    assert o in multiset(os) && p in multiset(os);
    if o.pos == p.pos {
      SamePositionSame(os, o, p);
      TwiceCounts(sorted, i, j);
      DistinctOnce(os, o);
    }
  }

  lemma SortedOrdered(os: seq<Occurrence>, sorted: seq<Occurrence>)
    requires DistinctPositions(os) && SortedByPosition(sorted) && multiset(sorted) == multiset(os)
    ensures Ordered(sorted) && forall o :: o in sorted <==> o in os
  {
    assert forall o :: o in sorted <==> o in multiset(sorted);
    assert forall o :: o in os <==> o in multiset(os);
    forall i, j | 0 <= i < j < |sorted|
      ensures sorted[i].pos < sorted[j].pos
    {
      OnlyOnce(os, sorted, i, j);
    }
  }

  // ----- the order of positions, as a function

  /** An occurrence at its place among sorted ones. */
  function Placed(s: seq<Occurrence>, o: Occurrence): seq<Occurrence> {
    if s == [] || s[|s| - 1].pos <= o.pos then s + [o] else Placed(s[..|s| - 1], o) + [s[|s| - 1]]
  }

  function InOrder(os: seq<Occurrence>): seq<Occurrence> {
    if os == [] then [] else Placed(InOrder(os[..|os| - 1]), os[|os| - 1])
  }

  function NonNegative(os: seq<Occurrence>): seq<Occurrence> {
    if os == [] then []
    else NonNegative(os[..|os| - 1]) + if os[|os| - 1].pos >= 0 then [os[|os| - 1]] else []
  }

  lemma {:induction false} PlacedKeeps(s: seq<Occurrence>, o: Occurrence)
    ensures multiset(Placed(s, o)) == multiset(s) + multiset{o}
    ensures forall p :: p in Placed(s, o) ==> p in s || p == o
    decreases |s|
  {
    if s != [] && s[|s| - 1].pos > o.pos {
      PlacedKeeps(s[..|s| - 1], o);
      assert s == s[..|s| - 1] + [s[|s| - 1]];
    }
  }

  lemma {:induction false} PlacedSorted(s: seq<Occurrence>, o: Occurrence)
    requires SortedByPosition(s)
    ensures SortedByPosition(Placed(s, o))
    decreases |s|
  {
    if s != [] && s[|s| - 1].pos > o.pos {
      var init, last := s[..|s| - 1], s[|s| - 1];
      PlacedSorted(init, o);
      PlacedKeeps(init, o);
      assert forall p :: p in init ==> p.pos <= last.pos;
      assert forall i :: 0 <= i < |Placed(init, o)| ==> Placed(init, o)[i] in Placed(init, o);
    }
  }

  lemma {:induction false} InOrderSorts(os: seq<Occurrence>)
    ensures IsSorted(os, InOrder(os))
    decreases |os|
  {
    if os != [] {
      var init, last := os[..|os| - 1], os[|os| - 1];
      InOrderSorts(init);
      PlacedSorted(InOrder(init), last);
      PlacedKeeps(InOrder(init), last);
      assert os == init + [last];
    }
  }

  /** With distinct positions there is one sorted order. */
  lemma SortedIsInOrder(os: seq<Occurrence>, sorted: seq<Occurrence>)
    requires DistinctPositions(os) && IsSorted(os, sorted)
    ensures sorted == InOrder(os)
  {
    InOrderSorts(os);
    SortedOrdered(os, sorted);
    SortedOrdered(os, InOrder(os));
    OrderedUnique(sorted, InOrder(os));
  }

  lemma {:induction false} NonNegativeHolds(os: seq<Occurrence>)
    ensures forall o :: o in NonNegative(os) <==> o in os && o.pos >= 0
    decreases |os|
  {
    if os != [] {
      NonNegativeHolds(os[..|os| - 1]);
      assert os == os[..|os| - 1] + [os[|os| - 1]];
    }
  }

  lemma {:induction false} NonNegativeDistinct(os: seq<Occurrence>)
    requires DistinctPositions(os)
    ensures DistinctPositions(NonNegative(os))
    decreases |os|
  {
    if os != [] {
      var init, last := os[..|os| - 1], os[|os| - 1];
      NonNegativeDistinct(init);
      NonNegativeHolds(init);
      forall i | 0 <= i < |NonNegative(init)|
        ensures NonNegative(init)[i].pos != last.pos
      {
        assert NonNegative(init)[i] in init;
      }
    }
  }

  /** There is an ordered part, and no other. */
  lemma OrderedPartIs(os: seq<Occurrence>, part: seq<Occurrence>)
    requires DistinctPositions(os)
    ensures OrderedPart(os, part) <==> part == InOrder(NonNegative(os))
  {
    var kept := InOrder(NonNegative(os));
    NonNegativeHolds(os);
    NonNegativeDistinct(os);
    InOrderSorts(NonNegative(os));
    SortedOrdered(NonNegative(os), kept);
    if OrderedPart(os, part) {
      OrderedUnique(part, kept);
    }
  }

  // ----- when both return the same text

  /** The characters of all words. */
  function Letters(os: seq<Occurrence>): nat {
    if os == [] then 0 else Letters(os[..|os| - 1]) + |os[|os| - 1].word|
  }

  function Spaces(n: nat): nat {
    if n == 0 then 0 else n - 1
  }

  lemma LettersMore(os: seq<Occurrence>, o: Occurrence)
    ensures Letters(os + [o]) == Letters(os) + |o.word|
  {
    assert (os + [o])[..|os|] == os;
  }

  lemma {:induction false} PlacedLetters(s: seq<Occurrence>, o: Occurrence)
    ensures Letters(Placed(s, o)) == Letters(s) + |o.word| && |Placed(s, o)| == |s| + 1
    decreases |s|
  {
    if s == [] || s[|s| - 1].pos <= o.pos {
      LettersMore(s, o);
    } else {
      PlacedLetters(s[..|s| - 1], o);
      LettersMore(Placed(s[..|s| - 1], o), s[|s| - 1]);
    }
  }

  lemma {:induction false} InOrderLetters(os: seq<Occurrence>)
    ensures Letters(InOrder(os)) == Letters(os) && |InOrder(os)| == |os|
    decreases |os|
  {
    if os != [] {
      InOrderLetters(os[..|os| - 1]);
      PlacedLetters(InOrder(os[..|os| - 1]), os[|os| - 1]);
    }
  }

  lemma {:induction false} NonNegativeLetters(os: seq<Occurrence>)
    ensures |NonNegative(os)| <= |os| && Letters(NonNegative(os)) <= Letters(os)
    ensures |NonNegative(os)| == |os| <==> NoneNegative(os)
    ensures NoneNegative(os) ==> NonNegative(os) == os
    decreases |os|
  {
    if os != [] {
      var init, last := os[..|os| - 1], os[|os| - 1];
      NonNegativeLetters(init);
      LettersMore(NonNegative(init), last);
      assert NonNegative(init) + [] == NonNegative(init);
      assert os == init + [last];
      assert NoneNegative(os) <==> NoneNegative(init) && last.pos >= 0;
    }
  }

  lemma {:induction false} JoinLength(parts: seq<string>, last: string)
    ensures |Join(parts + [last], " ")| == |Join(parts, " ")| + |last| + if parts == [] then 0 else 1
    decreases |parts|
  {
    if |parts| <= 1 {
      assert parts == [] ==> parts + [last] == [last];
      assert |parts| == 1 ==> (parts + [last])[1..] == [last];
    } else {
      assert (parts + [last])[1..] == parts[1..] + [last];
      JoinLength(parts[1..], last);
    }
  }

  lemma {:induction false} TextLength(os: seq<Occurrence>)
    ensures |Join(Words(os), " ")| == Letters(os) + Spaces(|os|)
    decreases |os|
  {
    if os != [] {
      var init, last := os[..|os| - 1], os[|os| - 1];
      TextLength(init);
      assert Words(os) == Words(init) + [last.word];
      JoinLength(Words(init), last.word);
    }
  }

  predicate NoneNegative(os: seq<Occurrence>) {
    forall o :: o in os ==> o.pos >= 0
  }

  /** What the two return on distinct positions. */
  function Rebuilt(os: seq<Occurrence>): string {
    Join(Words(InOrder(NonNegative(os))), " ")
  }

  function Reconstructed(os: seq<Occurrence>): string {
    Join(Words(InOrder(os)), " ")
  }

  lemma Lengths(n: nat, letters: nat, kept: nat, keptLetters: nat)
    requires kept < n && keptLetters <= letters && (kept == 0 ==> keptLetters == 0)
    ensures letters + Spaces(n) == keptLetters + Spaces(kept) <==> n == 1 && letters == 0
  {
  }

  lemma TextLengths(os: seq<Occurrence>)
    ensures |Rebuilt(os)| == Letters(NonNegative(os)) + Spaces(|NonNegative(os)|)
    ensures |Reconstructed(os)| == Letters(os) + Spaces(|os|)
  {
    InOrderLetters(os);
    InOrderLetters(NonNegative(os));
    TextLength(InOrder(os));
    TextLength(InOrder(NonNegative(os)));
  }

  lemma EmptyTexts(os: seq<Occurrence>)
    requires |os| == 1 && os[0].word == ""
    ensures |Rebuilt(os)| == |Reconstructed(os)| == 0
  {
    TextLengths(os);
    NonNegativeLetters(os);
    OneWord(os);
  }

  lemma BothEmpty(a: string, b: string)
    requires |a| == |b| == 0
    ensures a == b
  {
  }

  lemma OneWord(os: seq<Occurrence>)
    requires |os| == 1
    ensures Letters(os) == |os[0].word|
  {
    assert os[..0] == [];
  }

  /** They are the same text iff no position is negative, gaps or not, or there is
      nothing but one empty word. */
  lemma RebuildersAgree(os: seq<Occurrence>)
    ensures Rebuilt(os) == Reconstructed(os) <==> NoneNegative(os) || (|os| == 1 && os[0].word == "")
  {
    NonNegativeLetters(os);
    if |os| == 1 && os[0].word == "" {
      EmptyTexts(os);
      BothEmpty(Rebuilt(os), Reconstructed(os));
    } else if !NoneNegative(os) {
      TextsDiffer(os);
    }
  }

  lemma TextsDiffer(os: seq<Occurrence>)
    requires !NoneNegative(os) && !(|os| == 1 && os[0].word == "")
    ensures |Rebuilt(os)| != |Reconstructed(os)|
  {
    TextLengths(os);
    NonNegativeLetters(os);
    Lengths(|os|, Letters(os), |NonNegative(os)|, Letters(NonNegative(os)));
    if |os| == 1 {
      OneWord(os);
    }
  }

  // ----- the round trip

  /** The occurrences of a text: word i at position i. */
  function TextOccurrences(words: seq<string>): seq<Occurrence> {
    seq(|words|, i requires 0 <= i < |words| => Occurrence(i, words[i]))
  }

  /** An index of a text holds each of its words at each of its positions, once, in any order. */
  ghost predicate IndexOf(index: seq<Entry>, words: seq<string>) {
    multiset(Occurrences(index)) == multiset(TextOccurrences(words))
  }

  /** How often an index holds a position for a word. */
  function Times(index: seq<Entry>, pos: int, word: string): nat {
    if index == [] then 0
    else
      var e := index[|index| - 1];
      Times(index[..|index| - 1], pos, word) + if e.word == word then multiset(e.positions)[pos] else 0
  }

  predicate StandsAt(words: seq<string>, pos: int, word: string) {
    0 <= pos < |words| && words[pos] == word
  }

  lemma {:induction false} EntryCounts(e: Entry, o: Occurrence)
    ensures multiset(OccurrencesOf(e))[o] == if e.word == o.word then multiset(e.positions)[o.pos] else 0
    decreases |e.positions|
  {
    if e.positions != [] {
      var n := |e.positions| - 1;
      var init := Entry(e.word, e.positions[..n]);
      EntryCounts(init, o);
      assert e.positions == init.positions + [e.positions[n]];
      assert OccurrencesOf(e) == OccurrencesOf(init) + [Occurrence(e.positions[n], e.word)];
    }
  }

  lemma {:induction false} IndexCounts(index: seq<Entry>, o: Occurrence)
    ensures multiset(Occurrences(index))[o] == Times(index, o.pos, o.word)
    decreases |index|
  {
    if index != [] {
      IndexCounts(index[..|index| - 1], o);
      EntryCounts(index[|index| - 1], o);
    }
  }

  lemma {:induction false} TextCounts(words: seq<string>, o: Occurrence)
    ensures multiset(TextOccurrences(words))[o] == if StandsAt(words, o.pos, o.word) then 1 else 0
    decreases |words|
  {
    if words != [] {
      var n := |words| - 1;
      TextCounts(words[..n], o);
      assert TextOccurrences(words) == TextOccurrences(words[..n]) + [Occurrence(n, words[n])];
    }
  }

  /** An index is one of a text exactly if it holds every position once, for the word
      that stands there, and nothing else. */
  lemma IndexOfIff(index: seq<Entry>, words: seq<string>)
    ensures IndexOf(index, words) <==>
      forall pos, word :: Times(index, pos, word) == if StandsAt(words, pos, word) then 1 else 0
  {
    var os, ts := multiset(Occurrences(index)), multiset(TextOccurrences(words));
    forall o: Occurrence
      ensures os[o] == Times(index, o.pos, o.word) && ts[o] == if StandsAt(words, o.pos, o.word) then 1 else 0
    {
      IndexCounts(index, o);
      TextCounts(words, o);
    }
    if os == ts {
      forall pos, word
        ensures Times(index, pos, word) == if StandsAt(words, pos, word) then 1 else 0
      {
        assert os[Occurrence(pos, word)] == ts[Occurrence(pos, word)];
      }
    } else if forall pos, word :: Times(index, pos, word) == if StandsAt(words, pos, word) then 1 else 0 {
      assert forall o :: os[o] == ts[o];
      assert false;
    }
  }

  lemma IndexDistinct(index: seq<Entry>, words: seq<string>)
    requires IndexOf(index, words)
    ensures DistinctPositions(Occurrences(index))
    ensures forall o :: o in Occurrences(index) <==> o in TextOccurrences(words)
  {
    var os, ts := Occurrences(index), TextOccurrences(words);
    assert forall o :: o in os <==> o in multiset(os);
    assert forall o :: o in ts <==> o in multiset(ts);
    forall i, j | 0 <= i < j < |os|
      ensures os[i].pos != os[j].pos
    {
      OnlyOnce(ts, os, i, j);
    }
  }

  /** From any index of a text, walked in any order, the ordered part is the text. */
  lemma IndexOrderedPart(index: seq<Entry>, words: seq<string>, part: seq<Occurrence>)
    requires IndexOf(index, words) && OrderedPart(Occurrences(index), part)
    ensures Words(part) == words
  {
    IndexDistinct(index, words);
    OrderedUnique(part, TextOccurrences(words));
    assert Words(TextOccurrences(words)) == words;
  }

  lemma IndexSorted(index: seq<Entry>, words: seq<string>, sorted: seq<Occurrence>)
    requires IndexOf(index, words) && IsSorted(Occurrences(index), sorted)
    ensures Words(sorted) == words
  {
    IndexDistinct(index, words);
    SortedOrdered(Occurrences(index), sorted);
    OrderedUnique(sorted, TextOccurrences(words));
    assert Words(TextOccurrences(words)) == words;
  }

  lemma PartIsText(index: seq<Entry>, part: seq<Occurrence>)
    requires DistinctPositions(Occurrences(index)) ==> OrderedPart(Occurrences(index), part)
    ensures forall words :: IndexOf(index, words) ==> words == Words(part)
  {
    forall words | IndexOf(index, words)
      ensures words == Words(part)
    {
      IndexDistinct(index, words);
      IndexOrderedPart(index, words, part);
    }
  }

  lemma SortedIsText(index: seq<Entry>, sorted: seq<Occurrence>)
    requires IsSorted(Occurrences(index), sorted)
    ensures forall words :: IndexOf(index, words) ==> words == Words(sorted)
  {
    forall words | IndexOf(index, words)
      ensures words == Words(sorted)
    {
      IndexSorted(index, words, sorted);
    }
  }

  lemma NothingIndexed(index: seq<Entry>)
    requires index == []
    ensures forall words :: IndexOf(index, words) ==> Join(words, " ") == ""
    ensures Rebuilt(Occurrences(index)) == ""
  {
    PartIsText(index, []);
    assert Words([]) == [];
  }

  // ----- the table of positions

  /** The table after some writes; later ones win. */
  function Table(os: seq<Occurrence>): map<int, string> {
    if os == [] then map[] else Table(os[..|os| - 1])[os[|os| - 1].pos := os[|os| - 1].word]
  }

  function MaxPosition(os: seq<Occurrence>): (m: int)
    ensures m >= 0 && forall o :: o in os ==> o.pos <= m
  {
    if os == [] then 0
    else
      var m, p := MaxPosition(os[..|os| - 1]), os[|os| - 1].pos;
      assert forall o :: o in os ==> o in os[..|os| - 1] || o == os[|os| - 1];
      if p > m then p else m
  }

  lemma {:induction false} TableHolds(os: seq<Occurrence>, o: Occurrence)
    requires DistinctPositions(os)
    ensures o in os <==> o.pos in Table(os) && Table(os)[o.pos] == o.word
  {
    if os != [] {
      var before, last := os[..|os| - 1], os[|os| - 1];
      TableHolds(before, o);
      assert os == before + [last];
      assert o in before ==> o.pos != last.pos;
    }
  }

  lemma Extend(before: seq<Occurrence>, all: seq<Occurrence>, i: nat)
    requires i < |all|
    ensures before + all[..i + 1] == (before + all[..i]) + [all[i]]
  {
  }

  lemma Snoc(os: seq<Occurrence>, o: Occurrence)
    ensures Table(os + [o]) == Table(os)[o.pos := o.word]
    ensures MaxPosition(os + [o]) == if o.pos > MaxPosition(os) then o.pos else MaxPosition(os)
  {
    assert (os + [o])[..|os|] == os;
  }

  method FillTable(index: seq<Entry>) returns (words: map<int, string>, max: int)
    ensures words == Table(Occurrences(index)) && max == MaxPosition(Occurrences(index))
  {
    words, max := map[], 0;
    assert index[..0] == [];
    for k := 0 to |index|
      invariant words == Table(Occurrences(index[..k])) && max == MaxPosition(Occurrences(index[..k]))
    {
      var e := index[k];
      words, max := FillWord(Occurrences(index[..k]), e, words, max);
      assert index[..k + 1][..k] == index[..k];
    }
    assert index[..|index|] == index;
  }

  /** The inner loop over the positions of one word. */
  method FillWord(ghost before: seq<Occurrence>, e: Entry, words0: map<int, string>, max0: int)
    returns (words: map<int, string>, max: int)
    requires words0 == Table(before) && max0 == MaxPosition(before)
    ensures words == Table(before + OccurrencesOf(e)) && max == MaxPosition(before + OccurrencesOf(e))
  {
    words, max := words0, max0;
    ghost var all := OccurrencesOf(e);
    assert before + all[..0] == before;
    for i := 0 to |e.positions|
      invariant words == Table(before + all[..i]) && max == MaxPosition(before + all[..i])
    {
      Snoc(before + all[..i], all[i]);
      Extend(before, all, i);
      var p := e.positions[i];
      words := words[p := e.word];
      if p > max {
        max := p;
      }
    }
    assert all[..|all|] == all;
  }

  /** The loop over the positions of the table. */
  method CollectParts(words: map<int, string>, max: int) returns (parts: seq<string>, ghost part: seq<Occurrence>)
    requires max >= 0
    ensures parts == Words(part) && Ordered(part)
    ensures forall o :: o in part <==> 0 <= o.pos <= max && o.pos in words && words[o.pos] == o.word
  {
    parts, part := [], [];
    for i := 0 to max + 1
      invariant parts == Words(part) && Ordered(part)
      invariant forall o :: o in part <==> 0 <= o.pos < i && o.pos in words && words[o.pos] == o.word
    {
      if i in words {
        parts := parts + [words[i]];
        part := part + [Occurrence(i, words[i])];
      }
    }
  }

  /** `rebuildInvertedIndex`: from any index of a text, its words; on distinct
      positions, the words at non-negative ones in order. */
  method RebuildInvertedIndex(index: seq<Entry>) returns (text: string)
    ensures forall words :: IndexOf(index, words) ==> text == Join(words, " ")
    ensures DistinctPositions(Occurrences(index)) ==> text == Rebuilt(Occurrences(index))
  {
    if |index| == 0 {
      NothingIndexed(index);
      return "";
    }
    var words, max := FillTable(index);
    var parts;
    ghost var part;
    parts, part := CollectParts(words, max);
    if DistinctPositions(Occurrences(index)) {
      TablePart(Occurrences(index), part);
      OrderedPartIs(Occurrences(index), part);
    }
    PartIsText(index, part);
    text := Join(parts, " ");
  }

  lemma TablePart(os: seq<Occurrence>, part: seq<Occurrence>)
    requires DistinctPositions(os) && Ordered(part)
    requires forall o :: o in part <==> 0 <= o.pos <= MaxPosition(os) && o.pos in Table(os) && Table(os)[o.pos] == o.word
    ensures OrderedPart(os, part)
  {
    forall o
      ensures o in part <==> o in os && o.pos >= 0
    {
      TableHolds(os, o);
    }
  }

  // ----- sorting

  /** Sorting by position; nothing is promised about equal positions. */
  method SortByPosition(os: seq<Occurrence>) returns (sorted: seq<Occurrence>)
    ensures SortedByPosition(sorted) && multiset(sorted) == multiset(os)
  {
    sorted := [];
    for n := 0 to |os|
      invariant SortedByPosition(sorted) && multiset(sorted) == multiset(os[..n])
    {
      sorted := Insert(sorted, os[n]);
      assert os[..n + 1] == os[..n] + [os[n]];
    }
    assert os[..|os|] == os;
  }

  method Insert(sorted: seq<Occurrence>, o: Occurrence) returns (more: seq<Occurrence>)
    requires SortedByPosition(sorted)
    ensures SortedByPosition(more) && multiset(more) == multiset(sorted) + multiset{o}
  {
    var i: nat := |sorted|;
    while i > 0 && sorted[i - 1].pos > o.pos
      invariant 0 <= i <= |sorted| && forall j :: i <= j < |sorted| ==> sorted[j].pos > o.pos
    {
      i := i - 1;
    }
    InsertedSorted(sorted, o, i);
    InsertedMultiset(sorted, o, i);
    more := sorted[..i] + [o] + sorted[i..];
  }

  lemma InsertedSorted(s: seq<Occurrence>, o: Occurrence, i: nat)
    requires SortedByPosition(s) && i <= |s|
    requires (i > 0 ==> s[i - 1].pos <= o.pos) && forall j :: i <= j < |s| ==> s[j].pos > o.pos
    ensures SortedByPosition(s[..i] + [o] + s[i..])
  {
  }

  lemma InsertedMultiset(s: seq<Occurrence>, o: Occurrence, i: nat)
    requires i <= |s|
    ensures multiset(s[..i] + [o] + s[i..]) == multiset(s) + multiset{o}
  {
    assert s == s[..i] + s[i..];
  }

  /** `reconstructAbstract`: the words in some sorted order; from any index of a text, its words. */
  method ReconstructAbstract(index: seq<Entry>) returns (text: string)
    ensures forall words :: IndexOf(index, words) ==> text == Join(words, " ")
    ensures exists sorted :: IsSorted(Occurrences(index), sorted) && text == Join(Words(sorted), " ")
    ensures DistinctPositions(Occurrences(index)) ==> text == Reconstructed(Occurrences(index))
  {
    var positions: seq<Occurrence> := [];
    assert index[..0] == [];
    for k := 0 to |index|
      invariant positions == Occurrences(index[..k])
    {
      assert index[..k + 1][..k] == index[..k];
      positions := positions + OccurrencesOf(index[k]);
    }
    assert index[..|index|] == index;
    var ordered := SortByPosition(positions);
    var parts := [];
    for i := 0 to |ordered|
      invariant parts == Words(ordered[..i])
    {
      parts := parts + [ordered[i].word];
    }
    assert ordered[..|ordered|] == ordered;
    text := Join(parts, " ");
    SortedIsText(index, ordered);
    if DistinctPositions(Occurrences(index)) {
      SortedIsInOrder(Occurrences(index), ordered);
    }
  }
}
