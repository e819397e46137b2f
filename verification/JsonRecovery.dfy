/** Recovery of JSON objects from a model's answer: the brace scanner that finds
    the objects, and the repair of raw control characters inside strings
    (strings as in section 7 of RFC 8259). */
module JsonRecovery {
  import opened Wrappers
  import opened Text

  // ----- where a position stands with respect to string literals

  datatype StringState = Outside | Inside | Escaped {
    function Step(c: char): StringState {
      match this
      case Outside => if c == '"' then Inside else Outside
      case Inside => if c == '\\' then Escaped else if c == '"' then Outside else Inside
      case Escaped => Inside
    }

    function Run(s: string): StringState
      decreases |s|
    {
      if s == "" then this else Step(s[0]).Run(s[1..])
    }
  }

  predicate IsControl(c: char) {
    c <= '\U{1F}'
  }

  // ----- the scanner

  /** How many characters a scan reads up to the brace that brings the depth
      back to zero, if there is one. */
  function Consumed(s: string, depth: nat, st: StringState): (r: Option<nat>)
    requires depth > 0
    ensures r.Some? ==> 0 < r.value <= |s|
    decreases |s|
  {
    if s == "" then None
    else if !st.Outside? then More(Consumed(s[1..], depth, st.Step(s[0])))
    else if s[0] == '{' then More(Consumed(s[1..], depth + 1, Outside))
    else if s[0] == '}' then
      if depth == 1 then Some(1) else More(Consumed(s[1..], depth - 1, Outside))
    else More(Consumed(s[1..], depth, st.Step(s[0])))
  }

  function More(r: Option<nat>): Option<nat> {
    if r.Some? then Some(r.value + 1) else None
  }

  /** The objects of a text: skip to a brace, take the shortest stretch that
      closes it, go on behind it, stop at a brace that never closes. */
  function Candidates(s: string): seq<string>
    decreases |s|
  {
    if s == "" then []
    else if s[0] != '{' then Candidates(s[1..])
    else
      match Consumed(s[1..], 1, Outside)
      case None => []
      case Some(n) => [s[..n + 1]] + Candidates(s[n + 1..])
  }

  // ----- fences

  function LastIndexFrom(s: string, p: string, i: nat): (r: int)
    requires i <= |s|
    ensures -1 <= r <= i
  {
    if MatchAt(s, p, i) then i else if i == 0 then -1 else LastIndexFrom(s, p, i - 1)
  }

  /** The text to scan: without a surrounding code fence. */
  function Unfence(content: string): string {
    UnfenceTrimmed(TrimSpace(content))
  }

  function UnfenceTrimmed(trimmed: string): string {
    if !HasPrefix(trimmed, "```") then trimmed
    else
      var newline := Index(trimmed, "\n");
      var inner := if newline >= 0 then trimmed[newline + 1..] else trimmed;
      var end := LastIndexFrom(inner, "```", |inner|);
      if end >= 0 then TrimSpace(inner[..end]) else inner
  }

  function CandidatesOf(content: string): seq<string> {
    Candidates(Unfence(content))
  }

  // ----- the repair

  function HexDigit(n: nat): char
    requires n < 16
  {
    if n < 10 then ('0' as int + n) as char else ('a' as int + n - 10) as char
  }

  /** `appendControlEscape`. */
  function ControlEscape(c: char): string
    requires IsControl(c)
  {
    if c == '\n' then "\\n"
    else if c == '\r' then "\\r"
    else if c == '\t' then "\\t"
    else if c == '\U{08}' then "\\b"
    else if c == '\U{0C}' then "\\f"
    else "\\u00" + [HexDigit(c as int / 16), HexDigit(c as int % 16)]
  }

  function RepairChar(st: StringState, c: char): string {
    if !st.Outside? && IsControl(c) then ControlEscape(c) else [c]
  }

  /** `repairJSONControlChars`, from a given string state. */
  function Repair(st: StringState, s: string): string
    decreases |s|
  {
    if s == "" then "" else RepairChar(st, s[0]) + Repair(st.Step(s[0]), s[1..])
  }

  // ----- the loops

  function Shift(r: Option<nat>, n: nat): Option<nat> {
    if r.Some? then Some(r.value + n) else None
  }

  function StateOf(inString: bool, escaped: bool): StringState {
    if !inString then Outside else if escaped then Escaped else Inside
  }

  lemma Peel(s: string, i: nat)
    requires i < |s|
    ensures s[i..] != "" && s[i..][0] == s[i] && s[i..][1..] == s[i + 1..]
  {
  }

  /** One step of the inner loop. */
  function ScanDepth(depth: nat, st: StringState, c: char): int {
    if !st.Outside? then depth else if c == '{' then depth + 1 else if c == '}' then depth - 1 else depth
  }

  lemma ConsumedStep(s: string, i: nat, depth: nat, st: StringState, n: nat)
    requires i < |s| && depth > 0
    ensures ScanDepth(depth, st, s[i]) > 0 ==>
      Shift(Consumed(s[i..], depth, st), n) ==
      Shift(Consumed(s[i + 1..], ScanDepth(depth, st, s[i]), st.Step(s[i])), n + 1)
    ensures ScanDepth(depth, st, s[i]) <= 0 ==> Shift(Consumed(s[i..], depth, st), n) == Some(n + 1)
  {
    Peel(s, i);
  }

  lemma CandidatesSkip(s: string, i: nat)
    requires i < |s| && s[i] != '{'
    ensures Candidates(s[i..]) == Candidates(s[i + 1..])
  {
    Peel(s, i);
  }

  lemma CandidatesTake(found: seq<string>, s: string, i: nat, n: nat)
    requires i < |s| && s[i] == '{' && i + n < |s|
    requires Consumed(s[i + 1..], 1, Outside) == Some(n)
    ensures found + Candidates(s[i..]) == (found + [s[i..i + n + 1]]) + Candidates(s[i + n + 1..])
  {
    Peel(s, i);
    assert s[i..][..n + 1] == s[i..i + n + 1];
    assert s[i..][n + 1..] == s[i + n + 1..];
  }

  lemma CandidatesStop(s: string, i: nat)
    requires i < |s| && s[i] == '{' && Consumed(s[i + 1..], 1, Outside) == None
    ensures forall found: seq<string> :: found + Candidates(s[i..]) == found
  {
    Peel(s, i);
  }

  /** The inner loop of `jsonCandidates`: from a brace to one past the brace that closes it. */
  method ScanObject(s: string, start: nat) returns (found: bool, stop: nat)
    requires start < |s| && s[start] == '{'
    ensures found ==> start < stop <= |s| && Consumed(s[start + 1..], 1, Outside) == Some(stop - start - 1)
    ensures !found ==> Consumed(s[start + 1..], 1, Outside) == None
  {
    var depth, inString, escaped := 0, false, false;
    var end := start;
    while end < |s|
      invariant start <= end <= |s|
      invariant escaped ==> inString
      invariant end == start ==> depth == 0 && !inString
      invariant end > start ==>
          depth > 0 &&
          Consumed(s[start + 1..], 1, Outside) ==
          Shift(Consumed(s[end..], depth, StateOf(inString, escaped)), end - start - 1)
    {
      var c := s[end];
      if end > start {
        ConsumedStep(s, end, depth, StateOf(inString, escaped), end - start - 1);
      }
      if inString {
        if escaped {
          escaped := false;
        } else if c == '\\' {
          escaped := true;
        } else if c == '"' {
          inString := false;
        }
        end := end + 1;
        continue;
      }
      if c == '"' {
        inString := true;
      } else if c == '{' {
        depth := depth + 1;
      } else if c == '}' {
        depth := depth - 1;
        if depth == 0 {
          return true, end + 1;
        }
      }
      end := end + 1;
    }
    return false, end;
  }

  method JsonCandidates(content: string) returns (candidates: seq<string>)
    ensures candidates == CandidatesOf(content)
  {
    var trimmed := Unfence(content);
    candidates := [];
    assert candidates + Candidates(trimmed) == Candidates(trimmed);
    var start := 0;
    while start < |trimmed|
      invariant 0 <= start <= |trimmed|
      invariant Candidates(trimmed) == candidates + Candidates(trimmed[start..])
    {
      if trimmed[start] != '{' {
        CandidatesSkip(trimmed, start);
        start := start + 1;
        continue;
      }
      var found, stop := ScanObject(trimmed, start);
      if !found {
        CandidatesStop(trimmed, start);
        return;
      }
      CandidatesTake(candidates, trimmed, start, stop - start - 1);
      candidates := candidates + [trimmed[start..stop]];
      start := stop;
    }
    assert trimmed[start..] == "";
  }

  /** One step of the repair, with the text already written in front. */
  lemma RepairStep(out: string, st: StringState, s: string, i: nat)
    requires i < |s|
    ensures out + Repair(st, s[i..]) == (out + RepairChar(st, s[i])) + Repair(st.Step(s[i]), s[i + 1..])
  {
    Peel(s, i);
  }

  /** The loop of `repairJSONControlChars`; an escape takes two bytes at once. */
  method RepairJSONControlChars(data: string) returns (out: string)
    ensures out == Repair(Outside, data)
  {
    out := "";
    var inString := false;
    var i := 0;
    while i < |data|
      invariant 0 <= i <= |data|
      invariant Repair(Outside, data) == out + Repair(StateOf(inString, false), data[i..])
    {
      var c := data[i];
      RepairStep(out, StateOf(inString, false), data, i);
      i := i + 1;
      if !inString {
        out := out + [c];
        if c == '"' {
          inString := true;
        }
        continue;
      }
      if c == '"' {
        inString := false;
        out := out + [c];
        continue;
      }
      if c == '\\' {
        out := out + [c];
        if i < |data| {
          var next := data[i];
          RepairStep(out, Escaped, data, i);
          i := i + 1;
          if IsControl(next) {
            out := out + ControlEscape(next);
          } else {
            out := out + [next];
          }
        }
        continue;
      }
      if IsControl(c) {
        out := out + ControlEscape(c);
        continue;
      }
      out := out + [c];
    }
  }
}
