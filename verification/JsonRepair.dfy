/** What the repair of raw control characters keeps: the string states, the
    meaning of every string, and every object found by the scanner. */
module JsonRepair {
  import opened Wrappers
  import opened Text
  import opened JsonRecovery

  // ----- the string automaton

  lemma {:induction false} RunConcat(st: StringState, a: string, b: string)
    ensures st.Run(a + b) == st.Run(a).Run(b)
    decreases |a|
  {
    if a == "" {
      assert a + b == b;
    } else {
      assert (a + b)[1..] == a[1..] + b;
      RunConcat(st.Step(a[0]), a[1..], b);
    }
  }

  /** Text that leaves a string state alone. */
  predicate Harmless(s: string) {
    forall i :: 0 <= i < |s| ==> !IsControl(s[i]) && s[i] != '"' && s[i] != '\\'
  }

  lemma EscapeShape(c: char)
    requires IsControl(c)
    ensures ControlEscape(c) != "" && ControlEscape(c)[0] == '\\'
    ensures ControlEscape(c)[1..] != "" && Harmless(ControlEscape(c)[1..])
  {
  }

  lemma {:induction false} RunHarmless(s: string)
    requires Harmless(s)
    ensures Inside.Run(s) == Inside
    decreases |s|
  {
    if s != "" {
      RunHarmless(s[1..]);
    }
  }

  lemma RunEscape(st: StringState, c: char)
    requires !st.Outside? && IsControl(c)
    ensures st.Run(ControlEscape(c)) == Inside
  {
    EscapeShape(c);
    var tail := ControlEscape(c)[1..];
    RunHarmless(tail);
    RunHarmless(tail[1..]);
  }

  lemma RunRepairChar(st: StringState, c: char)
    ensures st.Run(RepairChar(st, c)) == st.Step(c)
  {
    if !st.Outside? && IsControl(c) {
      RunEscape(st, c);
    } else {
      assert [c][1..] == "";
    }
  }

  /** The repaired text ends in the same string state as the text. */
  lemma {:induction false} RepairKeepsState(st: StringState, s: string)
    ensures st.Run(Repair(st, s)) == st.Run(s)
    decreases |s|
  {
    if s != "" {
      RunConcat(st, RepairChar(st, s[0]), Repair(st.Step(s[0]), s[1..]));
      RunRepairChar(st, s[0]);
      RepairKeepsState(st.Step(s[0]), s[1..]);
    }
  }

  // ----- control characters inside strings

  /** No position inside a string holds a control character. */
  ghost predicate Clean(st: StringState, s: string) {
    forall i :: 0 <= i < |s| && st.Run(s[..i]) != Outside ==> s[i] >= ' '
  }

  lemma CleanCons(st: StringState, s: string)
    requires s != ""
    ensures Clean(st, s) <==> (st.Outside? || !IsControl(s[0])) && Clean(st.Step(s[0]), s[1..])
  {
    assert st.Run(s[..0]) == st;
    forall i | 0 <= i < |s| - 1
      ensures st.Run(s[..i + 1]) == st.Step(s[0]).Run(s[1..][..i])
    {
      assert s[..i + 1][1..] == s[1..][..i];
    }
    if Clean(st, s) {
      forall i | 0 <= i < |s[1..]| && st.Step(s[0]).Run(s[1..][..i]) != Outside
        ensures !IsControl(s[1..][i])
      {
        assert st.Run(s[..i + 1]) != Outside;
      }
    }
    if (st.Outside? || !IsControl(s[0])) && Clean(st.Step(s[0]), s[1..]) {
      forall i | 0 <= i < |s| && st.Run(s[..i]) != Outside
        ensures !IsControl(s[i])
      {
        if i > 0 {
          assert s[i] == s[1..][i - 1];
        }
      }
    }
  }

  lemma {:induction false} CleanConcat(st: StringState, a: string, b: string)
    requires Clean(st, a) && Clean(st.Run(a), b)
    ensures Clean(st, a + b)
    decreases |a|
  {
    if a == "" {
      assert a + b == b;
    } else {
      CleanCons(st, a);
      assert (a + b)[1..] == a[1..] + b;
      CleanConcat(st.Step(a[0]), a[1..], b);
      CleanCons(st, a + b);
    }
  }

  lemma RepairCharClean(st: StringState, c: char)
    ensures Clean(st, RepairChar(st, c))
  {
    if !st.Outside? && IsControl(c) {
      EscapeShape(c);
    }
  }

  /** After the repair no string holds a control character. */
  lemma {:induction false} RepairCleans(st: StringState, s: string)
    ensures Clean(st, Repair(st, s))
    decreases |s|
  {
    if s != "" {
      RepairCharClean(st, s[0]);
      RunRepairChar(st, s[0]);
      RepairCleans(st.Step(s[0]), s[1..]);
      CleanConcat(st, RepairChar(st, s[0]), Repair(st.Step(s[0]), s[1..]));
    }
  }

  /** The repair changes a text iff some string in it holds a control character. */
  lemma {:induction false} RepairUnchanged(st: StringState, s: string)
    ensures Repair(st, s) == s <==> Clean(st, s)
    decreases |s|
  {
    if s != "" {
      var head, rest := RepairChar(st, s[0]), Repair(st.Step(s[0]), s[1..]);
      CleanCons(st, s);
      RepairUnchanged(st.Step(s[0]), s[1..]);
      if !st.Outside? && IsControl(s[0]) {
        EscapeShape(s[0]);
        assert (head + rest)[0] == '\\';
      } else {
        assert (head + rest)[1..] == rest;
      }
    }
  }

  lemma RepairIdempotent(st: StringState, s: string)
    ensures Repair(st, Repair(st, s)) == Repair(st, s)
  {
    RepairCleans(st, s);
    RepairUnchanged(st, Repair(st, s));
  }

  // ----- what a string means

  /** Where a reader of string content stands: in text, behind a backslash, or
      with `left` hexadecimal digits of a \u escape to come. */
  datatype Mode = Content | Slash | Hex(left: nat, code: nat) {
    function State(): StringState {
      if Slash? then Escaped else Inside
    }
  }

  function HexValue(c: char): Option<nat> {
    if '0' <= c <= '9' then Some(c as int - '0' as int)
    else if 'a' <= c <= 'f' then Some(c as int - 'a' as int + 10)
    else if 'A' <= c <= 'F' then Some(c as int - 'A' as int + 10)
    else None
  }

  function ShortEscape(c: char): Option<nat> {
    if c == '"' || c == '\\' || c == '/' then Some(c as int)
    else if c == 'b' then Some(8)
    else if c == 'f' then Some(12)
    else if c == 'n' then Some(10)
    else if c == 'r' then Some(13)
    else if c == 't' then Some(9)
    else None
  }

  function Codes(s: string): seq<nat> {
    seq(|s|, i requires 0 <= i < |s| => s[i] as int)
  }

  function Then(codes: seq<nat>, rest: Option<seq<nat>>): Option<seq<nat>> {
    if rest.Some? then Some(codes + rest.value) else None
  }

  /** The character codes a string's content stands for (section 7 of RFC 8259),
      None if it is not valid content; `strict` refuses raw control characters. */
  function Decode(m: Mode, w: string, strict: bool): Option<seq<nat>>
    decreases |w|
  {
    match m
    case Content =>
      if w == "" then Some([])
      else if w[0] == '\\' then Decode(Slash, w[1..], strict)
      else if w[0] == '"' || (strict && IsControl(w[0])) then None
      else Then([w[0] as int], Decode(Content, w[1..], strict))
    case Slash =>
      if w == "" then None
      else if w[0] == 'u' then Decode(Hex(4, 0), w[1..], strict)
      else if ShortEscape(w[0]).Some? then Then([ShortEscape(w[0]).value], Decode(Content, w[1..], strict))
      else None
    case Hex(left, code) =>
      if w == "" || HexValue(w[0]).None? then None
      else
        var code' := 16 * code + HexValue(w[0]).value;
        if left <= 1 then Then([code'], Decode(Content, w[1..], strict))
        else Decode(Hex(left - 1, code'), w[1..], strict)
  }

  /** The meaning the repair gives to content: raw control characters stand for
      themselves; behind an escaping backslash they stand for a backslash and
      the letters of their escape. */
  function Meaning(m: Mode, w: string): Option<seq<nat>>
    decreases |w|
  {
    match m
    case Content =>
      if w == "" then Some([])
      else if w[0] == '\\' then Meaning(Slash, w[1..])
      else if w[0] == '"' then None
      else Then([w[0] as int], Meaning(Content, w[1..]))
    case Slash =>
      if w == "" then None
      else if IsControl(w[0]) then Then(Codes(ControlEscape(w[0])), Meaning(Content, w[1..]))
      else if w[0] == 'u' then Meaning(Hex(4, 0), w[1..])
      else if ShortEscape(w[0]).Some? then Then([ShortEscape(w[0]).value], Meaning(Content, w[1..]))
      else None
    case Hex(left, code) =>
      if w == "" || HexValue(w[0]).None? then None
      else
        var code' := 16 * code + HexValue(w[0]).value;
        if left <= 1 then Then([code'], Meaning(Content, w[1..]))
        else Meaning(Hex(left - 1, code'), w[1..])
  }

  lemma {:induction false} DecodeHarmless(s: string, r: string)
    requires Harmless(s)
    ensures Decode(Content, s + r, true) == Then(Codes(s), Decode(Content, r, true))
    decreases |s|
  {
    if s == "" {
      assert s + r == r;
      ThenNothing(Decode(Content, r, true));
    } else {
      assert (s + r)[1..] == s[1..] + r;
      DecodeHarmless(s[1..], r);
      assert Codes(s) == [s[0] as int] + Codes(s[1..]);
      ThenThen([s[0] as int], Codes(s[1..]), Decode(Content, r, true));
    }
  }

  lemma ThenNothing(rest: Option<seq<nat>>)
    ensures Then([], rest) == rest
  {
    if rest.Some? {
      assert [] + rest.value == rest.value;
    }
  }

  lemma ThenThen(a: seq<nat>, b: seq<nat>, rest: Option<seq<nat>>)
    ensures Then(a, Then(b, rest)) == Then(a + b, rest)
  {
    if rest.Some? {
      assert a + (b + rest.value) == (a + b) + rest.value;
    }
  }

  lemma DecodeHexStep(left: nat, code: nat, c: char, r: string)
    requires HexValue(c).Some?
    ensures Decode(Hex(left, code), [c] + r, true) ==
      if left <= 1 then Then([16 * code + HexValue(c).value], Decode(Content, r, true))
      else Decode(Hex(left - 1, 16 * code + HexValue(c).value), r, true)
  {
    assert ([c] + r)[1..] == r;
  }

  lemma DecodeUnicode(h: char, l: char, r: string)
    requires HexValue(h).Some? && HexValue(l).Some?
    ensures Decode(Content, "\\u00" + [h, l] + r, true) ==
      Then([16 * HexValue(h).value + HexValue(l).value], Decode(Content, r, true))
  {
    var r1 := [l] + r;
    var r2 := [h] + r1;
    var r3 := ['0'] + r2;
    var r4 := ['0'] + r3;
    var w := "\\u00" + [h, l] + r;
    assert w[1..][1..] == r4;
    DecodeHexStep(4, 0, '0', r3);
    DecodeHexStep(3, 0, '0', r2);
    DecodeHexStep(2, 0, h, r1);
    DecodeHexStep(1, HexValue(h).value, l, r);
    assert Decode(Content, w, true) == Decode(Slash, w[1..], true);
  }

  lemma DecodeShort(e: char, r: string)
    requires ShortEscape(e).Some?
    ensures Decode(Content, ['\\', e] + r, true) == Then([ShortEscape(e).value], Decode(Content, r, true))
  {
    var w := ['\\', e] + r;
    assert w[1..][1..] == r;
    assert Decode(Content, w, true) == Decode(Slash, w[1..], true);
  }

  /** An escape decodes to the control character it replaced. */
  lemma DecodeEscape(c: char, r: string)
    requires IsControl(c)
    ensures Decode(Content, ControlEscape(c) + r, true) == Then([c as int], Decode(Content, r, true))
  {
    var e := ControlEscape(c);
    if |e| == 2 {
      DecodeShort(e[1], r);
    } else {
      DecodeUnicode(HexDigit(c as int / 16), HexDigit(c as int % 16), r);
    }
  }

  /** It is the short escape where JSON has one. */
  lemma EscapeIsShort(c: char)
    requires IsControl(c)
    ensures |ControlEscape(c)| == if exists e :: ShortEscape(e) == Some(c as int) then 2 else 6
  {
    if |ControlEscape(c)| == 2 {
      assert ShortEscape(ControlEscape(c)[1]) == Some(c as int);
    }
  }

  /** Behind a backslash the same escape is a backslash and plain letters. */
  lemma DecodeEscapedEscape(c: char, r: string)
    requires IsControl(c)
    ensures Decode(Slash, ControlEscape(c) + r, true) == Then(Codes(ControlEscape(c)), Decode(Content, r, true))
  {
    EscapeShape(c);
    var e := ControlEscape(c);
    assert (e + r)[1..] == e[1..] + r;
    DecodeHarmless(e[1..], r);
    assert Codes(e) == [92] + Codes(e[1..]);
    ThenThen([92], Codes(e[1..]), Decode(Content, r, true));
  }

  /** Decoding repaired content strictly gives the meaning of the original content. */
  lemma {:induction false} RepairKeepsMeaning(m: Mode, w: string)
    ensures Decode(m, Repair(m.State(), w), true) == Meaning(m, w)
    decreases |w|, 1
  {
    if w != "" {
      var st, c := m.State(), w[0];
      var rest := Repair(st.Step(c), w[1..]);
      if IsControl(c) {
        RepairKeepsMeaning(Content, w[1..]);
        match m
        case Content => DecodeEscape(c, rest);
        case Slash => DecodeEscapedEscape(c, rest);
        case Hex(_, _) =>
          EscapeShape(c);
          assert (ControlEscape(c) + rest)[0] == '\\';
      } else {
        assert ([c] + rest)[1..] == rest;
        RepairKeepsMeaningCopy(m, c, w[1..]);
      }
    }
  }

  /** The step for a character that is copied. */
  lemma {:induction false} RepairKeepsMeaningCopy(m: Mode, c: char, w: string)
    requires !IsControl(c)
    ensures Decode(m, [c] + Repair(m.State().Step(c), w), true) == Meaning(m, [c] + w)
    decreases |w| + 1, 0
  {
    var rest := Repair(m.State().Step(c), w);
    assert ([c] + rest)[1..] == rest && ([c] + w)[1..] == w;
    match m
    case Content =>
      if c == '\\' {
        RepairKeepsMeaning(Slash, w);
      } else if c != '"' {
        RepairKeepsMeaning(Content, w);
      }
    case Slash =>
      if c == 'u' {
        RepairKeepsMeaning(Hex(4, 0), w);
      } else {
        RepairKeepsMeaning(Content, w);
      }
    case Hex(left, code) =>
      if HexValue(c).Some? {
        if left <= 1 {
          RepairKeepsMeaning(Content, w);
        } else {
          RepairKeepsMeaning(Hex(left - 1, 16 * code + HexValue(c).value), w);
        }
      }
  }

  /** Whether some escaping backslash is followed by a raw control character. */
  predicate EscapedControl(m: Mode, w: string)
    decreases |w|
  {
    if w == "" then false
    else
      match m
      case Content => EscapedControl(if w[0] == '\\' then Slash else Content, w[1..])
      case Slash => IsControl(w[0]) || EscapedControl(if w[0] == 'u' then Hex(4, 0) else Content, w[1..])
      case Hex(left, code) =>
        var code' := 16 * code + HexValue(w[0]).GetOr(0);
        EscapedControl(if left <= 1 then Content else Hex(left - 1, code'), w[1..])
  }

  /** A reader that accepts raw control characters gives the same meaning iff no
      backslash escapes one (or the content is invalid either way). */
  lemma {:induction false} MeaningIsLenient(m: Mode, w: string)
    ensures !EscapedControl(m, w) ==> Meaning(m, w) == Decode(m, w, false)
    ensures EscapedControl(m, w) ==> Decode(m, w, false) == None
    decreases |w|
  {
    if w != "" {
      var rest := w[1..];
      match m
      case Content => MeaningIsLenient(if w[0] == '\\' then Slash else Content, rest);
      case Slash => MeaningIsLenient(if w[0] == 'u' then Hex(4, 0) else Content, rest);
      case Hex(left, code) =>
        if HexValue(w[0]).Some? {
          MeaningIsLenient(if left <= 1 then Content else Hex(left - 1, 16 * code + HexValue(w[0]).value), rest);
        }
    }
  }

  /** A strict reader of the repaired content sees what a lenient reader of the
      original sees iff no backslash escapes a raw control character, or the
      content stays invalid. */
  lemma RepairedReadsAsOriginal(w: string)
    ensures Decode(Content, Repair(Inside, w), true) == Decode(Content, w, false) <==>
            !EscapedControl(Content, w) || Meaning(Content, w) == None
  {
    RepairKeepsMeaning(Content, w);
    MeaningIsLenient(Content, w);
  }

  // ----- objects

  /** A scan closes where it did, whatever follows. */
  lemma {:induction false} ConsumedPrefix(s: string, depth: nat, st: StringState, n: nat, t: string)
    requires depth > 0 && Consumed(s, depth, st) == Some(n)
    ensures Consumed(s[..n] + t, depth, st) == Some(n)
    decreases |s|
  {
    var u := s[..n] + t;
    assert u[0] == s[0];
    if ScanDepth(depth, st, s[0]) > 0 {
      assert u[1..] == s[1..][..n - 1] + t;
      ConsumedPrefix(s[1..], ScanDepth(depth, st, s[0]), st.Step(s[0]), n - 1, t);
    }
  }

  /** Text that reads inside a string does not move the scan's depth. */
  lemma {:induction false} ConsumedInside(a: string, t: string, depth: nat, st: StringState)
    requires depth > 0 && !st.Outside? && Harmless(a)
    ensures Consumed(a + t, depth, st) ==
            Shift(Consumed(t, depth, if a == "" then st else Inside), |a|)
    decreases |a|
  {
    if a == "" {
      assert a + t == t;
    } else {
      assert (a + t)[1..] == a[1..] + t;
      ConsumedInside(a[1..], t, depth, Inside);
    }
  }

  lemma ConsumedEscape(c: char, t: string, depth: nat, st: StringState)
    requires depth > 0 && !st.Outside? && IsControl(c)
    ensures Consumed(ControlEscape(c) + t, depth, st) == Shift(Consumed(t, depth, Inside), |ControlEscape(c)|)
  {
    EscapeShape(c);
    var e := ControlEscape(c);
    assert (e + t)[1..] == e[1..] + t;
    ConsumedInside(e[1..], t, depth, st.Step('\\'));
  }

  /** The scan reads what the repair writes for a character as it read the character. */
  lemma ConsumedRepairChar(c: char, t: string, depth: nat, st: StringState)
    requires depth > 0
    ensures ScanDepth(depth, st, c) <= 0 ==>
      RepairChar(st, c) == [c] && Consumed([c] + t, depth, st) == Some(1)
    ensures ScanDepth(depth, st, c) > 0 ==>
      Consumed(RepairChar(st, c) + t, depth, st) ==
      Shift(Consumed(t, ScanDepth(depth, st, c), st.Step(c)), |RepairChar(st, c)|)
  {
    if !st.Outside? && IsControl(c) {
      ConsumedEscape(c, t, depth, st);
    } else {
      assert ([c] + t)[1..] == t;
    }
  }

  lemma RepairFirst(c: char, more: string, st: StringState)
    ensures Repair(st, [c] + more) == RepairChar(st, c) + Repair(st.Step(c), more)
  {
    assert ([c] + more)[1..] == more;
  }

  lemma ConsumedFirst(s: string, depth: nat, st: StringState)
    requires depth > 0 && s != "" && ScanDepth(depth, st, s[0]) > 0 && Consumed(s, depth, st) == Some(|s|)
    ensures Consumed(s[1..], ScanDepth(depth, st, s[0]), st.Step(s[0])) == Some(|s| - 1)
  {
  }

  /** The repair of a closed stretch is a closed stretch. */
  lemma {:induction false} ConsumedRepair(s: string, depth: nat, st: StringState)
    requires depth > 0 && Consumed(s, depth, st) == Some(|s|)
    ensures Consumed(Repair(st, s), depth, st) == Some(|Repair(st, s)|)
    decreases |s|
  {
    var c, more := s[0], s[1..];
    ConsumedRepairChar(c, Repair(st.Step(c), more), depth, st);
    RepairFirst(c, more, st);
    assert s == [c] + more;
    if ScanDepth(depth, st, c) > 0 {
      ConsumedFirst(s, depth, st);
      ConsumedRepair(more, ScanDepth(depth, st, c), st.Step(c));
    } else {
      assert more == "";
    }
  }

  lemma {:induction false} CandidateShape(s: string, c: string)
    requires c in Candidates(s)
    ensures IsClosed(c)
    decreases |s|
  {
    if s[0] != '{' {
      CandidateShape(s[1..], c);
    } else {
      var n := Consumed(s[1..], 1, Outside).value;
      var first := s[..n + 1];
      if c == first {
        ConsumedPrefix(s[1..], 1, Outside, n, "");
        assert s[1..][..n] + "" == first[1..];
      } else {
        CandidateShape(s[n + 1..], c);
      }
    }
  }

  lemma {:induction false} ConsumedLast(s: string, depth: nat, st: StringState)
    requires depth > 0 && Consumed(s, depth, st) == Some(|s|)
    ensures s != "" && s[|s| - 1] == '}'
    decreases |s|
  {
    if |s| > 1 {
      ConsumedLast(s[1..], ScanDepth(depth, st, s[0]), st.Step(s[0]));
    }
  }

  predicate IsClosed(c: string) {
    c != "" && c[0] == '{' && Consumed(c[1..], 1, Outside) == Some(|c| - 1)
  }

  lemma UnfenceClosed(c: string)
    requires IsClosed(c)
    ensures Unfence(c) == c
  {
    ConsumedLast(c[1..], 1, Outside);
    assert c[|c| - 1] == '}';
    TrimOfTrimmed(c);
    assert c[0] != "```"[0];
  }

  lemma OnlyCandidate(c: string)
    requires IsClosed(c)
    ensures Candidates(c) == [c]
  {
    assert c[..|c| - 1 + 1] == c && c[|c| - 1 + 1..] == "";
  }

  /** Repairing any object the scanner found gives text whose only object is that repair. */
  lemma RepairedCandidate(content: string, c: string)
    requires c in CandidatesOf(content)
    ensures CandidatesOf(Repair(Outside, c)) == [Repair(Outside, c)]
  {
    CandidateShape(Unfence(content), c);
    ConsumedRepair(c[1..], 1, Outside);
    var r := Repair(Outside, c);
    assert r[1..] == Repair(Outside, c[1..]);
    UnfenceClosed(r);
    OnlyCandidate(r);
  }
}
