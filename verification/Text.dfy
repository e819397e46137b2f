/** The string operations of the Go standard library that the service code
    relies on, over text seen as a sequence of Unicode code points. */
module Text {
  import opened Sequences

  /** White space in the sense of `unicode.IsSpace`. */
  predicate IsSpace(c: char) {
    || '\t' <= c <= '\r' || c == ' ' || c == '\U{0085}' || c == '\U{00A0}' || c == '\U{1680}'
    || '\U{2000}' <= c <= '\U{200A}' || c == '\U{2028}' || c == '\U{2029}' || c == '\U{202F}'
    || c == '\U{205F}' || c == '\U{3000}'
  }

  /** These are the 25 characters with Unicode's property White_Space. */
  lemma SpaceIff(c: char)
    ensures IsSpace(c) <==> c in {
      '\t', '\n', '\U{0B}', '\U{0C}', '\r', ' ', '\U{85}', '\U{A0}', '\U{1680}', '\U{2000}', '\U{2001}', '\U{2002}',
      '\U{2003}', '\U{2004}', '\U{2005}', '\U{2006}', '\U{2007}', '\U{2008}', '\U{2009}', '\U{200A}', '\U{2028}',
      '\U{2029}', '\U{202F}', '\U{205F}', '\U{3000}'}
  {
  }

  ghost predicate AllSpace(s: string) {
    forall i :: 0 <= i < |s| ==> IsSpace(s[i])
  }

  /** No white space at either end. */
  predicate Trimmed(s: string) {
    s == "" || (!IsSpace(s[0]) && !IsSpace(s[|s| - 1]))
  }

  // ----- trimming

  function TrimLeft(s: string): (r: string)
    ensures r == "" || !IsSpace(r[0])
    ensures |r| <= |s|
  {
    if s != "" && IsSpace(s[0]) then TrimLeft(s[1..]) else s
  }

  function TrimRight(s: string): (r: string)
    ensures |r| <= |s|
    ensures r == "" || !IsSpace(r[|r| - 1])
  {
    if s != "" && IsSpace(s[|s| - 1]) then TrimRight(s[..|s| - 1]) else s
  }

  lemma {:induction false} TrimRightFirst(s: string)
    ensures TrimRight(s) != "" ==> TrimRight(s)[0] == s[0]
  {
    if s != "" && IsSpace(s[|s| - 1]) { TrimRightFirst(s[..|s| - 1]); }
  }

  function TrimSpace(s: string): (r: string)
    ensures Trimmed(r) && |r| <= |s|
  {
    TrimRightFirst(TrimLeft(s));
    TrimRight(TrimLeft(s))
  }

  /** Trimming stops at a text that is not blank. */
  lemma {:induction false} TrimRightTail(a: string, b: string)
    requires TrimRight(b) != ""
    ensures TrimRight(a + b) == a + TrimRight(b)
  {
    if IsSpace(b[|b| - 1]) {
      assert (a + b)[..|a + b| - 1] == a + b[..|b| - 1];
      TrimRightTail(a, b[..|b| - 1]);
    }
  }

  /** The first characters of a text, at most `max` of them. */
  function TruncateRunes(s: string, max: int): string {
    if max <= 0 then "" else if |s| <= max then s else s[..max]
  }

  lemma TrimOfTrimmed(s: string)
    requires Trimmed(s)
    ensures TrimSpace(s) == s
  {
  }

  lemma {:induction false} TrimRightParts(s: string) returns (b: string)
    ensures AllSpace(b) && s == TrimRight(s) + b
  {
    if s != "" && IsSpace(s[|s| - 1]) {
      b := TrimRightParts(s[..|s| - 1]);
      assert s == s[..|s| - 1] + [s[|s| - 1]];
      b := b + [s[|s| - 1]];
    } else {
      b := "";
    }
  }

  lemma {:induction false} TrimLeftParts(s: string) returns (a: string)
    ensures AllSpace(a) && s == a + TrimLeft(s)
  {
    if s != "" && IsSpace(s[0]) {
      a := TrimLeftParts(s[1..]);
      assert s == [s[0]] + s[1..];
      a := [s[0]] + a;
    } else {
      a := "";
    }
  }

  /** What trimming takes away is white space at the ends. */
  lemma TrimParts(s: string) returns (a: string, b: string)
    ensures AllSpace(a) && AllSpace(b) && s == a + TrimSpace(s) + b
  {
    a := TrimLeftParts(s);
    b := TrimRightParts(TrimLeft(s));
    ConcatAssoc(a, TrimSpace(s), b);
  }

  lemma {:induction false} TrimLeftPad(a: string, s: string)
    requires AllSpace(a)
    ensures TrimLeft(a + s) == TrimLeft(s)
  {
    if a == "" {
      assert a + s == s;
    } else {
      assert (a + s)[1..] == a[1..] + s;
      TrimLeftPad(a[1..], s);
    }
  }

  lemma {:induction false} TrimRightPad(s: string, b: string)
    requires AllSpace(b)
    ensures TrimRight(s + b) == TrimRight(s)
  {
    if b == "" {
      assert s + b == s;
    } else {
      assert (s + b)[..|s + b| - 1] == s + b[..|b| - 1];
      TrimRightPad(s, b[..|b| - 1]);
    }
  }

  lemma {:induction false} TrimLeftAllSpace(b: string)
    requires AllSpace(b)
    ensures TrimLeft(b) == ""
  {
    TrimLeftPad(b, "");
    assert b + "" == b;
  }

  lemma {:induction false} TrimLeftThen(s: string, b: string)
    requires AllSpace(b)
    ensures TrimLeft(s) == "" ==> TrimLeft(s + b) == ""
    ensures TrimLeft(s) != "" ==> TrimLeft(s + b) == TrimLeft(s) + b
  {
    if s == "" {
      assert s + b == b;
      TrimLeftAllSpace(b);
    } else if IsSpace(s[0]) {
      assert (s + b)[1..] == s[1..] + b;
      TrimLeftThen(s[1..], b);
    }
  }

  /** White space around a text does not change its trimmed form. */
  lemma {:induction false} TrimPad(a: string, s: string, b: string)
    requires AllSpace(a) && AllSpace(b)
    ensures TrimSpace(a + s + b) == TrimSpace(s)
  {
    assert a + s + b == a + (s + b);
    TrimLeftPad(a, s + b);
    TrimLeftThen(s, b);
    if TrimLeft(s) != "" {
      TrimRightPad(TrimLeft(s), b);
    }
  }

  function TrimRightNewlines(s: string): (r: string)
    ensures r <= s
  {
    if s != "" && s[|s| - 1] == '\n' then TrimRightNewlines(s[..|s| - 1]) else s
  }

  lemma {:induction false} TrimRightNewlinesSplit(a: string, b: string)
    requires a != "" && a[|a| - 1] != '\n'
    ensures TrimRightNewlines(a + b) == a + TrimRightNewlines(b)
  {
    if b == "" {
      assert a + b == a;
    } else if b[|b| - 1] == '\n' {
      assert (a + b)[..|a + b| - 1] == a + b[..|b| - 1];
      TrimRightNewlinesSplit(a, b[..|b| - 1]);
    }
  }

  // ----- searching

  ghost predicate Occurs(s: string, p: string, i: int) {
    0 <= i && i + |p| <= |s| && forall k :: 0 <= k < |p| ==> s[i + k] == p[k]
  }

  ghost predicate Absent(s: string, p: string) {
    forall i :: !Occurs(s, p, i)
  }

  predicate HasPrefix(s: string, p: string) {
    |p| <= |s| && s[..|p|] == p
  }

  lemma PrefixOccurs(s: string, p: string)
    ensures HasPrefix(s, p) <==> Occurs(s, p, 0)
  {
  }

  lemma OccursShift(x: string, y: string, p: string, i: int)
    requires i >= |x|
    ensures Occurs(x + y, p, i) <==> Occurs(y, p, i - |x|)
  {
    if i + |p| <= |x + y| {
      assert forall k {:trigger p[k]} :: 0 <= k < |p| ==> (x + y)[i + k] == y[i - |x| + k];
    }
  }

  lemma OccursInFront(x: string, y: string, p: string, i: int)
    ensures Occurs(x, p, i) ==> Occurs(x + y, p, i)
  {
    assert 0 <= i && i + |p| <= |x| ==> forall k {:trigger p[k]} :: 0 <= k < |p| ==> (x + y)[i + k] == x[i + k];
  }

  predicate MatchAt(s: string, p: string, i: nat) {
    i + |p| <= |s| && s[i..i + |p|] == p
  }

  function IndexFrom(s: string, p: string, i: nat): (r: int)
    requires i <= |s|
    ensures r == -1 || (i <= r && r + |p| <= |s|)
    decreases |s| - i
  {
    if MatchAt(s, p, i) then i
    else if i == |s| then -1
    else IndexFrom(s, p, i + 1)
  }

  /** `strings.Index`: the leftmost occurrence, or -1. */
  function Index(s: string, p: string): (r: int)
    ensures r == -1 || (0 <= r && r + |p| <= |s|)
  {
    IndexFrom(s, p, 0)
  }

  lemma MatchOccurs(s: string, p: string, i: nat)
    ensures MatchAt(s, p, i) <==> Occurs(s, p, i)
  {
    if i + |p| <= |s| {
      assert forall k {:trigger p[k]} :: 0 <= k < |p| ==> s[i..i + |p|][k] == s[i + k];
    }
  }

  lemma {:induction false} IndexFromSpec(s: string, p: string, i: nat)
    requires i <= |s|
    ensures var r := IndexFrom(s, p, i);
            && (r >= 0 ==> Occurs(s, p, r))
            && (forall j :: i <= j && (r == -1 || j < r) ==> !Occurs(s, p, j))
    decreases |s| - i
  {
    MatchOccurs(s, p, i);
    if !MatchAt(s, p, i) && i < |s| { IndexFromSpec(s, p, i + 1); }
  }

  lemma IndexSpec(s: string, p: string)
    ensures var r := Index(s, p);
            && (r >= 0 ==> Occurs(s, p, r))
            && (forall i :: i < r ==> !Occurs(s, p, i))
            && (r == -1 <==> Absent(s, p))
  {
    IndexFromSpec(s, p, 0);
  }

  lemma IndexIs(s: string, p: string, k: nat)
    requires Occurs(s, p, k)
    requires forall i :: i < k ==> !Occurs(s, p, i)
    ensures Index(s, p) == k
  {
    IndexSpec(s, p);
  }

  /** A pattern that is a newline followed by newline-free text cannot straddle
      a boundary at which the right-hand part starts a new line. */
  lemma OccursSplit(x: string, y: string, p: string, i: int)
    requires p != "" && p[0] == '\n' && '\n' !in p[1..]
    requires y == "" || y[0] == '\n'
    ensures i < |x| ==> (Occurs(x + y, p, i) <==> Occurs(x, p, i))
    ensures i >= |x| ==> (Occurs(x + y, p, i) <==> Occurs(y, p, i - |x|))
  {
    if i >= |x| {
      OccursShift(x, y, p, i);
    } else if 0 <= i && |x| < i + |p| {
      var k := |x| - i;
      assert p[k] in p[1..] by { assert p[k] == p[1..][k - 1]; }
      assert y != "" ==> (x + y)[i + k] == '\n';
    } else if 0 <= i {
      assert forall k {:trigger p[k]} :: 0 <= k < |p| ==> (x + y)[i + k] == x[i + k];
    }
  }

  lemma AbsentSplit(x: string, y: string, p: string)
    requires p != "" && p[0] == '\n' && '\n' !in p[1..]
    requires y == "" || y[0] == '\n'
    ensures Absent(x + y, p) <==> Absent(x, p) && Absent(y, p)
  {
    forall i ensures i < |x| ==> (Occurs(x + y, p, i) <==> Occurs(x, p, i))
      ensures i >= |x| ==> (Occurs(x + y, p, i) <==> Occurs(y, p, i - |x|))
    {
      OccursSplit(x, y, p, i);
    }
    if Absent(x + y, p) {
      forall i ensures !Occurs(x, p, i) { assert !Occurs(x + y, p, i); }
      forall i ensures !Occurs(y, p, i) { assert !Occurs(x + y, p, i + |x|); }
    }
  }

  lemma AbsentNoNewline(x: string, p: string)
    requires p != "" && p[0] == '\n' && '\n' !in x
    ensures Absent(x, p)
  {
    forall i ensures !Occurs(x, p, i) {
      assert 0 <= i < |x| ==> x[i + 0] in x;
    }
  }

  /** A line cannot contain a line-start pattern other than at its start. */
  lemma AbsentOneLine(x: string, p: string)
    requires p != "" && p[0] == '\n' && '\n' !in x
    ensures Absent("\n" + x, p) <==> !HasPrefix(x, p[1..])
  {
    var s := "\n" + x;
    forall i | i != 0 ensures !Occurs(s, p, i) {
      assert 0 < i < |s| ==> s[i + 0] == x[i - 1] && x[i - 1] in x;
    }
    PrefixOccurs(x, p[1..]);
    assert Occurs(s, p, 0) <==> Occurs(x, p[1..], 0) by {
      assert forall k :: 0 < k < |p| ==> p[k] == p[1..][k - 1];
      assert forall k :: 0 <= k < |x| ==> s[k + 1] == x[k];
      if Occurs(x, p[1..], 0) {
        forall k | 0 <= k < |p| ensures s[0 + k] == p[k] {
          if k > 0 { assert x[0 + (k - 1)] == p[1..][k - 1]; }
        }
      }
      if Occurs(s, p, 0) {
        forall k | 0 <= k < |p[1..]| ensures x[0 + k] == p[1..][k] {
          assert s[0 + (k + 1)] == p[k + 1];
        }
      }
    }
  }

  // ----- splitting and joining

  function Join(parts: seq<string>, sep: string): string {
    if |parts| == 0 then ""
    else if |parts| == 1 then parts[0]
    else parts[0] + sep + Join(parts[1..], sep)
  }

  function Split(s: string, c: char): (r: seq<string>)
    ensures |r| > 0
  {
    if s == "" then [""]
    else if s[0] == c then [""] + Split(s[1..], c)
    else
      var r := Split(s[1..], c);
      [[s[0]] + r[0]] + r[1..]
  }

  lemma {:induction false} SplitPieces(s: string, c: char)
    ensures forall i :: 0 <= i < |Split(s, c)| ==> c !in Split(s, c)[i]
  {
    if s != "" { SplitPieces(s[1..], c); }
  }

  lemma {:induction false} SplitOne(a: string, c: char)
    requires c !in a
    ensures Split(a, c) == [a]
  {
    if a != "" {
      SplitOne(a[1..], c);
      assert [a[0]] + a[1..] == a;
    }
  }

  lemma {:induction false} SplitFirst(a: string, c: char, b: string)
    requires c !in a
    ensures Split(a + [c] + b, c) == [a] + Split(b, c)
  {
    var s := a + [c] + b;
    if a == "" {
      assert s[1..] == b;
    } else {
      assert s[1..] == a[1..] + [c] + b;
      SplitFirst(a[1..], c, b);
      assert [a[0]] + a[1..] == a;
    }
  }

  lemma {:induction false} SplitJoin(parts: seq<string>, c: char)
    requires |parts| > 0
    requires forall p :: p in parts ==> c !in p
    ensures Split(Join(parts, [c]), c) == parts
  {
    if |parts| == 1 {
      SplitOne(parts[0], c);
    } else {
      SplitJoin(parts[1..], c);
      SplitFirst(parts[0], c, Join(parts[1..], [c]));
      assert [parts[0]] + parts[1..] == parts;
    }
  }

  /** The given lines, each ended by a newline. */
  function LinesText(lines: seq<string>): string {
    if lines == [] then "" else lines[0] + "\n" + LinesText(lines[1..])
  }

  lemma {:induction false} LinesTextConcat(a: seq<string>, b: seq<string>)
    ensures LinesText(a + b) == LinesText(a) + LinesText(b)
  {
    if a == [] {
      assert a + b == b;
    } else {
      assert (a + b)[1..] == a[1..] + b;
      LinesTextConcat(a[1..], b);
    }
  }

  ghost predicate OneLiners(lines: seq<string>) {
    forall l :: l in lines ==> '\n' !in l
  }

  lemma {:induction false} SplitLinesText(lines: seq<string>, rest: string)
    requires OneLiners(lines)
    ensures Split(LinesText(lines) + rest, '\n') == lines + Split(rest, '\n')
  {
    if lines == [] {
      assert LinesText(lines) + rest == rest;
    } else {
      var more := lines[1..];
      ConcatAssoc(lines[0] + "\n", LinesText(more), rest);
      SplitFirst(lines[0], '\n', LinesText(more) + rest);
      SplitLinesText(more, rest);
      ConcatAssoc([lines[0]], more, Split(rest, '\n'));
      assert lines == [lines[0]] + more;
    }
  }

  // ----- collapsing white space

  predicate IsWord(w: string) {
    w != "" && forall i :: 0 <= i < |w| ==> !IsSpace(w[i])
  }

  function WordLength(s: string): (n: nat)
    ensures n <= |s|
    ensures forall i :: 0 <= i < n ==> !IsSpace(s[i])
    ensures n < |s| ==> IsSpace(s[n])
  {
    if s == "" || IsSpace(s[0]) then 0 else 1 + WordLength(s[1..])
  }

  /** `strings.Fields`: the maximal runs of non-space characters. */
  function Fields(s: string): (ws: seq<string>)
    ensures forall w :: w in ws ==> IsWord(w)
    decreases |s|
  {
    if s == "" then []
    else if IsSpace(s[0]) then Fields(s[1..])
    else
      var n := WordLength(s);
      assert n > 0;
      [s[..n]] + Fields(s[n..])
  }

  function CollapseWhitespace(s: string): string {
    Join(Fields(s), " ")
  }

  /** A single line without white space at its ends: what a front-matter value
      must be to survive being written on a line of its own. */
  ghost predicate Flat(s: string) {
    Trimmed(s) && forall i :: 0 <= i < |s| ==> s[i] == ' ' || !IsSpace(s[i])
  }

  lemma {:induction false} JoinWordsFlat(ws: seq<string>)
    requires forall w :: w in ws ==> IsWord(w)
    ensures Flat(Join(ws, " "))
    ensures ws != [] ==> Join(ws, " ") != ""
  {
    if |ws| > 0 { assert IsWord(ws[0]); }
    if |ws| > 1 {
      JoinWordsFlat(ws[1..]);
      var t := Join(ws[1..], " ");
      var s := ws[0] + " " + t;
      forall i | 0 <= i < |s| ensures s[i] == ' ' || !IsSpace(s[i]) {
        if i > |ws[0]| { assert s[i] == t[i - |ws[0]| - 1]; }
      }
    }
  }

  /** Collapsing yields a flat line, empty only for blank text. */
  lemma CollapseFlat(s: string)
    ensures Flat(CollapseWhitespace(s))
    ensures '\n' !in CollapseWhitespace(s)
    ensures CollapseWhitespace(s) == "" <==> TrimSpace(s) == ""
  {
    JoinWordsFlat(Fields(s));
    FieldsBlank(s);
  }

  lemma {:induction false} FieldsBlank(s: string)
    ensures Fields(s) == [] <==> TrimSpace(s) == ""
    decreases |s|
  {
    if s != "" && IsSpace(s[0]) {
      FieldsBlank(s[1..]);
    } else if s != "" {
      assert TrimLeft(s) == s;
      TrimRightNonBlank(s);
    }
  }

  lemma {:induction false} TrimRightNonBlank(s: string)
    requires s != "" && !IsSpace(s[0])
    ensures TrimRight(s) != ""
  {
    if IsSpace(s[|s| - 1]) {
      TrimRightNonBlank(s[..|s| - 1]);
    }
  }

  // ----- what collapsing keeps

  lemma WordLengthIs(s: string, n: nat)
    requires n <= |s| && (forall i :: 0 <= i < n ==> !IsSpace(s[i])) && (n < |s| ==> IsSpace(s[n]))
    ensures WordLength(s) == n
  {
    assert WordLength(s) < |s| ==> IsSpace(s[WordLength(s)]);
  }

  /** Two texts meet where neither cuts a word of the other. */
  predicate Meets(a: string, b: string) {
    a == "" || b == "" || IsSpace(a[|a| - 1]) || IsSpace(b[0])
  }

  lemma WordBefore(a: string, b: string)
    requires a != "" && !IsSpace(a[0]) && Meets(a, b)
    ensures WordLength(a + b) == WordLength(a) > 0
    ensures (a + b)[..WordLength(a)] == a[..WordLength(a)] && (a + b)[WordLength(a)..] == a[WordLength(a)..] + b
  {
    WordLengthIs(a + b, WordLength(a));
  }

  lemma {:induction false} FieldsConcat(a: string, b: string)
    requires Meets(a, b)
    ensures Fields(a + b) == Fields(a) + Fields(b)
    decreases |a|
  {
    if a == "" {
      assert a + b == b;
    } else if IsSpace(a[0]) {
      assert (a + b)[1..] == a[1..] + b;
      FieldsConcat(a[1..], b);
    } else {
      WordBefore(a, b);
      FieldsConcat(a[WordLength(a)..], b);
    }
  }

  lemma {:induction false} FieldsOfSpace(g: string)
    requires AllSpace(g)
    ensures Fields(g) == []
  {
    if g != "" {
      assert forall i :: 0 <= i < |g[1..]| ==> g[1..][i] == g[i + 1];
      FieldsOfSpace(g[1..]);
    }
  }

  lemma {:induction false} JoinConcat(xs: seq<string>, ys: seq<string>, sep: string)
    requires xs != [] && ys != []
    ensures Join(xs + ys, sep) == Join(xs, sep) + sep + Join(ys, sep)
  {
    assert (xs + ys)[1..] == xs[1..] + ys;
    if |xs| > 1 {
      JoinConcat(xs[1..], ys, sep);
      JoinedBehind(xs[0], sep, Join(xs[1..], sep), Join(ys, sep));
    } else {
      assert xs[1..] + ys == ys;
    }
  }

  lemma JoinedBehind(x: string, sep: string, y: string, z: string)
    ensures x + sep + (y + sep + z) == (x + sep + y) + sep + z
  {
  }

  /** A word is kept. */
  lemma CollapseWord(w: string)
    requires IsWord(w)
    ensures CollapseWhitespace(w) == w
  {
    WordLengthIs(w, |w|);
    assert w[..|w|] == w && Fields(w[|w|..]) == [];
  }

  /** White space around a text does not matter. */
  lemma CollapsePad(p: string, s: string, q: string)
    requires AllSpace(p) && AllSpace(q)
    ensures CollapseWhitespace(p + s + q) == CollapseWhitespace(s)
  {
    FieldsConcat(p + s, q);
    FieldsConcat(p, s);
    FieldsOfSpace(p);
    FieldsOfSpace(q);
    assert [] + Fields(s) + [] == Fields(s);
  }

  /** White space inside becomes one space, and both sides are kept. */
  lemma CollapseGap(a: string, g: string, b: string)
    requires TrimSpace(a) != "" && TrimSpace(b) != "" && g != "" && AllSpace(g)
    ensures CollapseWhitespace(a + g + b) == CollapseWhitespace(a) + " " + CollapseWhitespace(b)
  {
    GapFields(a, g, b);
    FieldsBlank(a);
    FieldsBlank(b);
    JoinConcat(Fields(a), Fields(b), " ");
  }

  lemma GapFields(a: string, g: string, b: string)
    requires g != "" && AllSpace(g)
    ensures Fields(a + g + b) == Fields(a) + Fields(b)
  {
    assert (a + g)[|a + g| - 1] == g[|g| - 1];
    FieldsConcat(a + g, b);
    FieldsConcat(a, g);
    FieldsOfSpace(g);
    assert Fields(a) + [] == Fields(a);
  }

  /** The characters that are not white space. */
  function Ink(s: string): string {
    if s == "" then "" else (if IsSpace(s[0]) then "" else [s[0]]) + Ink(s[1..])
  }

  lemma {:induction false} InkOfWord(w: string)
    requires IsWord(w) || w == ""
    ensures Ink(w) == w
  {
    if w != "" {
      assert forall i :: 0 <= i < |w[1..]| ==> w[1..][i] == w[i + 1];
      InkOfWord(w[1..]);
    }
  }

  lemma {:induction false} InkConcat(a: string, b: string)
    ensures Ink(a + b) == Ink(a) + Ink(b)
    decreases |a|
  {
    if a == "" {
      assert a + b == b;
    } else {
      assert (a + b)[1..] == a[1..] + b;
      InkConcat(a[1..], b);
    }
  }

  lemma {:induction false} InkJoin(ws: seq<string>)
    ensures |ws| > 0 ==> Ink(Join(ws, " ")) == Ink(ws[0]) + Ink(Join(ws[1..], " "))
  {
    if |ws| > 1 {
      InkConcat(ws[0] + " ", Join(ws[1..], " "));
      InkConcat(ws[0], " ");
      assert Ink(" ") == "";
      assert Ink(ws[0]) + "" == Ink(ws[0]);
    } else if |ws| == 1 {
      assert ws[1..] == [];
      assert Ink(ws[0]) + Ink("") == Ink(ws[0]);
    }
  }

  lemma {:induction false} InkOfFields(s: string)
    ensures Ink(Join(Fields(s), " ")) == Ink(s)
    decreases |s|
  {
    if s != "" && IsSpace(s[0]) {
      InkOfFields(s[1..]);
    } else if s != "" {
      var n := WordLength(s);
      InkOfFields(s[n..]);
      InkJoin(Fields(s));
      assert Fields(s)[1..] == Fields(s[n..]);
      InkConcat(s[..n], s[n..]);
      assert s == s[..n] + s[n..];
    }
  }

  /** Collapsing keeps every character that is not white space, in order. */
  lemma CollapseKeepsInk(s: string)
    ensures Ink(CollapseWhitespace(s)) == Ink(s)
  {
    InkOfFields(s);
  }

  /** Cutting leaves the longest prefix within the limit. */
  lemma TruncatedPrefix(s: string, max: int)
    ensures TruncateRunes(s, max) <= s
    ensures |TruncateRunes(s, max)| == if max < 0 then 0 else if |s| < max then |s| else max
  {
  }
}
