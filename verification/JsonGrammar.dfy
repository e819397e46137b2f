/** The scanner against a grammar: an object is a brace, any items and a closing
    brace, where an item is a plain character, a whole string literal or a nested
    object. The scanner returns exactly the objects of a text. */
module JsonGrammar {
  import opened Wrappers
  import opened Sequences
  import opened JsonRecovery

  datatype Chars = CharsEnd | Raw(c: char, rest: Chars) | Pair(escaped: char, rest: Chars) {
    function Text(): string {
      match this
      case CharsEnd => "\""
      case Raw(c, rest) => [c] + rest.Text()
      case Pair(c, rest) => ['\\', c] + rest.Text()
    }

    predicate WellFormed() {
      match this
      case CharsEnd => true
      case Raw(c, rest) => c != '"' && c != '\\' && rest.WellFormed()
      case Pair(_, rest) => rest.WellFormed()
    }
  }

  datatype Items = ItemsEnd | Plain(c: char, rest: Items) | Literal(chars: Chars, rest: Items)
                 | Nested(inner: Items, rest: Items) {
    function Text(): string {
      match this
      case ItemsEnd => ""
      case Plain(c, rest) => [c] + rest.Text()
      case Literal(chars, rest) => "\"" + chars.Text() + rest.Text()
      case Nested(inner, rest) => "{" + inner.Text() + "}" + rest.Text()
    }

    predicate WellFormed() {
      match this
      case ItemsEnd => true
      case Plain(c, rest) => c != '"' && c != '{' && c != '}' && rest.WellFormed()
      case Literal(chars, rest) => chars.WellFormed() && rest.WellFormed()
      case Nested(inner, rest) => inner.WellFormed() && rest.WellFormed()
    }
  }

  ghost predicate IsObject(t: string) {
    exists items: Items :: items.WellFormed() && t == "{" + items.Text() + "}"
  }

  // ----- the scanner reads what the grammar writes

  lemma ScanCons(c: char, t: string, depth: nat, st: StringState)
    requires depth > 0
    ensures Consumed([c] + t, depth, st) ==
            var depth' := ScanDepth(depth, st, c);
            if depth' > 0 then Shift(Consumed(t, depth', st.Step(c)), 1) else Some(1)
  {
    assert ([c] + t)[1..] == t;
  }

  lemma LiteralText(chars: string, rest: string, t: string)
    ensures "\"" + chars + rest + t == ['"'] + (chars + (rest + t))
  {
  }

  lemma NestedText(inner: string, rest: string, t: string)
    ensures "{" + inner + "}" + rest + t == ['{'] + (inner + (['}'] + (rest + t)))
  {
  }

  lemma {:induction false} ConsumedChars(chars: Chars, t: string, depth: nat)
    requires depth > 0 && chars.WellFormed()
    ensures Consumed(chars.Text() + t, depth, Inside) == Shift(Consumed(t, depth, Outside), |chars.Text()|)
  {
    match chars
    case CharsEnd => ScanCons('"', t, depth, Inside);
    case Raw(c, rest) =>
      ConcatAssoc([c], rest.Text(), t);
      ScanCons(c, rest.Text() + t, depth, Inside);
      ConsumedChars(rest, t, depth);
    case Pair(c, rest) =>
      var u := rest.Text() + t;
      assert chars.Text() + t == ['\\'] + ([c] + u);
      ScanCons('\\', [c] + u, depth, Inside);
      ScanCons(c, u, depth, Escaped);
      ConsumedChars(rest, t, depth);
  }

  /** Items leave the depth as it was. */
  lemma {:induction false} ConsumedItems(items: Items, t: string, depth: nat)
    requires depth > 0 && items.WellFormed()
    ensures Consumed(items.Text() + t, depth, Outside) == Shift(Consumed(t, depth, Outside), |items.Text()|)
    decreases items, 0
  {
    match items
    case ItemsEnd => assert "" + t == t;
    case Plain(c, rest) =>
      ConsumedItems(rest, t, depth);
      ConsumedPlain(c, rest.Text(), t, depth);
    case Literal(chars, rest) =>
      ConsumedItems(rest, t, depth);
      ConsumedLiteral(chars, rest.Text(), t, depth);
    case Nested(inner, rest) =>
      ConsumedItems(rest, t, depth);
      ConsumedNestedItems(inner, rest.Text(), t, depth);
  }

  lemma {:induction false} ConsumedNestedItems(inner: Items, rest: string, t: string, depth: nat)
    requires depth > 0 && inner.WellFormed()
    ensures Consumed("{" + inner.Text() + "}" + rest + t, depth, Outside) ==
            Shift(Consumed(rest + t, depth, Outside), |inner.Text()| + 2)
    decreases inner, 1
  {
    ConsumedItems(inner, ['}'] + (rest + t), depth + 1);
    ConsumedNested(inner.Text(), rest, t, depth);
  }

  lemma ConsumedPlain(c: char, rest: string, t: string, depth: nat)
    requires depth > 0 && c != '"' && c != '{' && c != '}'
    ensures Consumed([c] + rest + t, depth, Outside) == Shift(Consumed(rest + t, depth, Outside), 1)
  {
    ConcatAssoc([c], rest, t);
    ScanCons(c, rest + t, depth, Outside);
  }

  lemma ConsumedLiteral(chars: Chars, rest: string, t: string, depth: nat)
    requires depth > 0 && chars.WellFormed()
    ensures Consumed("\"" + chars.Text() + rest + t, depth, Outside) ==
            Shift(Consumed(rest + t, depth, Outside), |chars.Text()| + 1)
  {
    LiteralText(chars.Text(), rest, t);
    ScanCons('"', chars.Text() + (rest + t), depth, Outside);
    ConsumedChars(chars, rest + t, depth);
  }

  lemma ConsumedNested(inner: string, rest: string, t: string, depth: nat)
    requires depth > 0
    requires Consumed(inner + (['}'] + (rest + t)), depth + 1, Outside) ==
             Shift(Consumed(['}'] + (rest + t), depth + 1, Outside), |inner|)
    ensures Consumed("{" + inner + "}" + rest + t, depth, Outside) ==
            Shift(Consumed(rest + t, depth, Outside), |inner| + 2)
  {
    NestedText(inner, rest, t);
    ScanCons('{', inner + (['}'] + (rest + t)), depth, Outside);
    ScanCons('}', rest + t, depth + 1, Outside);
  }

  lemma ObjectCloses(items: Items, t: string)
    requires items.WellFormed()
    ensures Consumed(items.Text() + "}" + t, 1, Outside) == Some(|items.Text()| + 1)
  {
    ConcatAssoc(items.Text(), "}", t);
    ConsumedItems(items, "}" + t, 1);
    ScanCons('}', t, 1, Outside);
  }

  // ----- what the scanner reads, the grammar writes

  lemma {:induction false} ParseChars(s: string, depth: nat) returns (chars: Chars, t: string)
    requires depth > 0 && Consumed(s, depth, Inside).Some?
    ensures chars.WellFormed() && s == chars.Text() + t && |t| < |s|
    decreases |s|
  {
    var c := s[0];
    if c == '"' {
      chars, t := CharsEnd, s[1..];
    } else if c == '\\' {
      var rest, u := ParseChars(s[1..][1..], depth);
      chars, t := Pair(s[1], rest), u;
    } else {
      var rest, u := ParseChars(s[1..], depth);
      chars, t := Raw(c, rest), u;
    }
  }

  lemma SplitFirst(s: string)
    requires s != ""
    ensures s == [s[0]] + s[1..]
  {
  }

  /** A scan that closes has read well-formed items up to a closing brace. */
  lemma {:induction false} ParseItems(s: string, depth: nat) returns (items: Items, t: string)
    requires depth > 0 && Consumed(s, depth, Outside).Some?
    ensures items.WellFormed() && s == items.Text() + t && t != "" && t[0] == '}'
    decreases |s|, 1
  {
    var c, r := s[0], s[1..];
    SplitFirst(s);
    ScanCons(c, r, depth, Outside);
    if c == '}' {
      items, t := ItemsEnd, s;
    } else if c == '"' {
      items, t := ParseLiteral(r, depth);
    } else if c == '{' {
      items, t := ParseNested(r, depth);
    } else {
      var rest, u := ParseItems(r, depth);
      items, t := Plain(c, rest), u;
      ConcatAssoc([c], rest.Text(), t);
    }
  }

  lemma {:induction false} ParseLiteral(s: string, depth: nat) returns (items: Items, t: string)
    requires depth > 0 && Consumed(s, depth, Inside).Some?
    ensures items.WellFormed() && ['"'] + s == items.Text() + t && t != "" && t[0] == '}'
    decreases |s|, 2
  {
    var chars, u := ParseChars(s, depth);
    ConsumedChars(chars, u, depth);
    var rest, v := ParseItems(u, depth);
    items, t := Literal(chars, rest), v;
    LiteralText(chars.Text(), rest.Text(), t);
  }

  lemma {:induction false} ParseNested(s: string, depth: nat) returns (items: Items, t: string)
    requires depth > 0 && Consumed(s, depth + 1, Outside).Some?
    ensures items.WellFormed() && ['{'] + s == items.Text() + t && t != "" && t[0] == '}'
    decreases |s|, 2
  {
    var inner, u := ParseItems(s, depth + 1);
    ConsumedItems(inner, u, depth + 1);
    SplitFirst(u);
    ScanCons('}', u[1..], depth + 1, Outside);
    var rest, v := ParseItems(u[1..], depth);
    items, t := Nested(inner, rest), v;
    NestedText(inner.Text(), rest.Text(), t);
  }

  /** Behind a brace the scan closes after n characters iff they complete an object. */
  lemma ClosesIffObject(s: string, n: nat)
    requires s != "" && s[0] == '{'
    ensures Consumed(s[1..], 1, Outside) == Some(n) <==> n < |s| && IsObject(s[..n + 1])
  {
    if n < |s| && IsObject(s[..n + 1]) {
      var items: Items :| items.WellFormed() && s[..n + 1] == "{" + items.Text() + "}";
      assert s[1..] == s[..n + 1][1..] + s[n + 1..];
      assert s[..n + 1][1..] == items.Text() + "}";
      ObjectCloses(items, s[n + 1..]);
    }
    if Consumed(s[1..], 1, Outside) == Some(n) {
      var items, t := ParseItems(s[1..], 1);
      assert items.Text() + t == items.Text() + "}" + t[1..];
      ObjectCloses(items, t[1..]);
      assert s[..n + 1] == "{" + items.Text() + "}";
    }
  }

  // ----- the objects of a text

  /** `at` is the first brace of s, or its end if there is none. */
  ghost predicate FirstBrace(s: string, at: nat) {
    at <= |s| && (forall i :: 0 <= i < at ==> s[i] != '{') && (at < |s| ==> s[at] == '{')
  }

  /** The in-order disjoint objects of s: each starts at the first brace left, and
      the list ends where no brace is left or no stretch at it is an object. */
  ghost predicate Splits(s: string, objects: seq<string>)
    decreases |objects|, 1
  {
    exists at: nat :: FirstBrace(s, at) && SplitsAt(s, at, objects)
  }

  ghost predicate SplitsAt(s: string, at: nat, objects: seq<string>)
    requires at <= |s|
    decreases |objects|, 0
  {
    if objects == [] then
      forall end :: at < end <= |s| ==> !IsObject(s[at..end])
    else
      var end := at + |objects[0]|;
      end <= |s| && s[at..end] == objects[0] && IsObject(objects[0]) && Splits(s[end..], objects[1..])
  }

  lemma {:induction false} CandidatesSkipTo(s: string, at: nat) 
    requires FirstBrace(s, at)
    ensures Candidates(s) == Candidates(s[at..])
    decreases at
  {
    if at == 0 {
      assert s[0..] == s;
    } else {
      assert FirstBrace(s[1..], at - 1);
      CandidatesSkipTo(s[1..], at - 1);
      assert s[1..][at - 1..] == s[at..];
    }
  }

  lemma {:induction false} FirstBraceExists(s: string) returns (at: nat)
    ensures FirstBrace(s, at)
    decreases |s|
  {
    if s == "" || s[0] == '{' {
      at := 0;
    } else {
      var k := FirstBraceExists(s[1..]);
      at := k + 1;
      assert forall i :: 0 < i < at ==> s[i] == s[1..][i - 1];
    }
  }

  lemma SuffixSlices(s: string, at: nat, end: nat)
    requires at <= end <= |s|
    ensures s[at..][..end - at] == s[at..end] && s[at..][end - at..] == s[end..]
  {
  }

  /** An object at the first brace is the first candidate. */
  lemma CandidateAt(s: string, at: nat, end: nat)
    requires FirstBrace(s, at) && at < end <= |s| && IsObject(s[at..end])
    ensures Candidates(s) == [s[at..end]] + Candidates(s[end..])
  {
    CandidatesSkipTo(s, at);
    SuffixSlices(s, at, end);
    ClosesIffObject(s[at..], end - at - 1);
  }

  /** Without an object at the first brace the scan stops there. */
  lemma NoCandidateAt(s: string, at: nat)
    requires FirstBrace(s, at) && forall end :: at < end <= |s| ==> !IsObject(s[at..end])
    ensures Candidates(s) == []
  {
    CandidatesSkipTo(s, at);
    var u := s[at..];
    if u != "" && Consumed(u[1..], 1, Outside).Some? {
      var n := Consumed(u[1..], 1, Outside).value;
      ClosesIffObject(u, n);
      SuffixSlices(s, at, at + n + 1);
    }
  }

  lemma SplitsOneMore(s: string, at: nat, end: nat, objects: seq<string>)
    requires FirstBrace(s, at) && at < end <= |s| && IsObject(s[at..end]) && Splits(s[end..], objects)
    ensures Splits(s, [s[at..end]] + objects)
  {
    var more := [s[at..end]] + objects;
    assert more[1..] == objects;
    assert SplitsAt(s, at, more);
  }

  lemma {:induction false} CandidatesAreObjects(s: string)
    ensures Splits(s, Candidates(s))
    decreases |s|
  {
    var at := FirstBraceExists(s);
    if end :| at < end <= |s| && IsObject(s[at..end]) {
      CandidateAt(s, at, end);
      CandidatesAreObjects(s[end..]);
      SplitsOneMore(s, at, end, Candidates(s[end..]));
    } else {
      NoCandidateAt(s, at);
      assert SplitsAt(s, at, []);
    }
  }

  /** The scanner returns exactly the in-order disjoint objects of a text. */
  lemma {:induction false} ScannerMeetsGrammar(s: string, objects: seq<string>)
    ensures Splits(s, objects) <==> objects == Candidates(s)
    decreases |objects|
  {
    CandidatesAreObjects(s);
    if Splits(s, objects) {
      var at: nat :| FirstBrace(s, at) && SplitsAt(s, at, objects);
      if objects == [] {
        NoCandidateAt(s, at);
      } else {
        var end := at + |objects[0]|;
        CandidateAt(s, at, end);
        ScannerMeetsGrammar(s[end..], objects[1..]);
        assert objects == [s[at..end]] + objects[1..];
      }
    }
  }
}
