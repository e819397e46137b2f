/** What a history of calls leaves in the cache, without looking at the cache. */
module LruHistory {
  import opened Lru

  /** The cache's list after a history. */
  function After(max: nat, calls: seq<Call>): seq<Pair>
    decreases |calls|
  {
    if calls == [] then [] else Apply(After(max, calls[..|calls| - 1]), max, calls[|calls| - 1])
  }

  /** The last call of the history puts the key, or hits it with a get. */
  predicate Touches(max: nat, calls: seq<Call>, key: string)
    requires calls != []
  {
    var call := calls[|calls| - 1];
    call.key == key && (call.Put? || Has(After(max, calls[..|calls| - 1]), key))
  }

  predicate WasPut(calls: seq<Call>, key: string) {
    exists i :: 0 <= i < |calls| && calls[i].Put? && calls[i].key == key
  }

  /** The value of the last put of a key. */
  function LastPut(calls: seq<Call>, key: string): string
    decreases |calls|
  {
    if calls == [] then ""
    else
      var call := calls[|calls| - 1];
      if call.Put? && call.key == key then call.value else LastPut(calls[..|calls| - 1], key)
  }

  /** The distinct other keys touched since the key was last touched. */
  function TouchedSince(max: nat, calls: seq<Call>, key: string): set<string>
    decreases |calls|
  {
    if calls == [] || Touches(max, calls, key) then {}
    else
      var last, before := calls[|calls| - 1].key, calls[..|calls| - 1];
      TouchedSince(max, before, key) + if Touches(max, calls, last) then {last} else {}
  }

  // ----- the list that forgets nothing

  /** Every key ever touched, in order of its last touch. */
  function Recency(max: nat, calls: seq<Call>): seq<Pair>
    decreases |calls|
  {
    if calls == [] then []
    else
      var call, before := calls[|calls| - 1], calls[..|calls| - 1];
      if !Touches(max, calls, call.key) then Recency(max, before)
      else Touch(Recency(max, before), call.key, LastPut(calls, call.key))
  }

  function KeysOf(r: seq<Pair>): set<string> {
    set i | 0 <= i < |r| :: r[i].key
  }

  /** Where the element now at j > 0 stood before its key's list was touched. */
  function OldIndex(r: seq<Pair>, key: string, j: nat): nat
    requires j > 0
  {
    if j <= Position(r, key) then j - 1 else j
  }

  /** The list without its element i (or whole, if i is its length). */
  lemma CutAt(r: seq<Pair>, i: nat, k: nat)
    requires i <= |r| && k < |r| - (if i < |r| then 1 else 0)
    ensures i < |r| ==> (r[..i] + r[i + 1..])[k] == r[if k < i then k else k + 1]
  {
  }

  lemma TouchAt(r: seq<Pair>, key: string, value: string, j: nat)
    requires 0 < j < |Touch(r, key, value)|
    ensures OldIndex(r, key, j) < |r| && Touch(r, key, value)[j] == r[OldIndex(r, key, j)]
    ensures OldIndex(r, key, j) != Position(r, key)
  {
    WithoutAt(r, key, j - 1);
    ConsAt(Pair(key, value), Without(r, key), j);
  }

  lemma ConsAt(p: Pair, r: seq<Pair>, j: nat)
    requires 0 < j < |[p] + r|
    ensures ([p] + r)[j] == r[j - 1]
  {
  }

  lemma WithoutAt(r: seq<Pair>, key: string, k: nat)
    requires k < |Without(r, key)|
    ensures var i := Position(r, key); var o := if k < i then k else k + 1;
      o < |r| && Without(r, key)[k] == r[o]
  {
    CutAt(r, Position(r, key), k);
  }

  lemma TouchSize(r: seq<Pair>, key: string, value: string)
    ensures |Touch(r, key, value)| == if Has(r, key) then |r| else |r| + 1
    ensures Position(Touch(r, key, value), key) == 0 && Touch(r, key, value)[0] == Pair(key, value)
  {
  }

  lemma OtherKey(r: seq<Pair>, key: string, i: nat)
    requires NoDup(r) && i < |r| && i != Position(r, key)
    ensures r[i].key != key
  {
  }

  lemma TouchNoDup(r: seq<Pair>, key: string, value: string)
    requires NoDup(r)
    ensures NoDup(Touch(r, key, value))
  {
    var t := Touch(r, key, value);
    TouchSize(r, key, value);
    forall i, j | 0 <= i < j < |t|
      ensures t[i].key != t[j].key
    {
      TouchAt(r, key, value, j);
      OtherKey(r, key, OldIndex(r, key, j));
      if i > 0 {
        TouchAt(r, key, value, i);
      }
    }
  }

  /** Where another key stands after a touch. */
  lemma TouchOther(r: seq<Pair>, key: string, value: string, other: string)
    requires NoDup(r) && other != key && Has(r, other)
    ensures var t := Touch(r, key, value); var p := Position(r, other);
      && Position(t, other) == (if Position(r, key) < p then p else p + 1)
      && Position(t, other) < |t| && t[Position(t, other)] == r[p]
  {
    var p := Position(r, other);
    var q := if Position(r, key) < p then p else p + 1;
    TouchMoves(r, key, value, p);
    TouchNoDup(r, key, value);
    PositionIs(Touch(r, key, value), q);
  }

  lemma TouchMoves(r: seq<Pair>, key: string, value: string, p: nat)
    requires p < |r| && p != Position(r, key)
    ensures var q := if Position(r, key) < p then p else p + 1;
      q < |Touch(r, key, value)| && Touch(r, key, value)[q] == r[p]
  {
    TouchSize(r, key, value);
    var q := if Position(r, key) < p then p else p + 1;
    assert OldIndex(r, key, q) == p;
    TouchAt(r, key, value, q);
  }

  lemma TouchAbsent(r: seq<Pair>, key: string, value: string, other: string)
    requires other != key && !Has(r, other)
    ensures !Has(Touch(r, key, value), other)
  {
    var t := Touch(r, key, value);
    forall j | 0 <= j < |t|
      ensures t[j].key != other
    {
      if j > 0 {
        TouchAt(r, key, value, j);
      }
    }
  }

  lemma TakeAt(r: seq<Pair>, max: nat, j: nat)
    requires j < |Take(r, max)|
    ensures j < |r| && j < max && Take(r, max)[j] == r[j]
  {
  }

  /** A cut list is touched as the whole list is. */
  lemma TakeTouchHit(r: seq<Pair>, max: nat, key: string, value: string)
    requires Has(r, key) && Position(r, key) < max
    ensures Take(Touch(r, key, value), max) == Touch(Take(r, max), key, value)
  {
    var a, b := Take(Touch(r, key, value), max), Touch(Take(r, max), key, value);
    TakeHas(r, max, key);
    TouchSize(r, key, value);
    TouchSize(Take(r, max), key, value);
    forall j | 0 <= j < |a|
      ensures a[j] == b[j]
    {
      TakeAt(Touch(r, key, value), max, j);
      if j > 0 {
        TouchAt(r, key, value, j);
        TouchAt(Take(r, max), key, value, j);
        TakeAt(r, max, OldIndex(r, key, j));
      }
    }
  }

  /** A key behind the cut comes in at the front like a new one. */
  lemma TakeTouchMiss(r: seq<Pair>, max: nat, key: string, value: string)
    requires Position(r, key) >= max || !Has(r, key)
    ensures Take(Touch(r, key, value), max) == Take([Pair(key, value)] + Take(r, max), max)
  {
    var a, b := Take(Touch(r, key, value), max), Take([Pair(key, value)] + Take(r, max), max);
    TouchSize(r, key, value);
    forall j | 0 <= j < |a|
      ensures a[j] == b[j]
    {
      TakeAt(Touch(r, key, value), max, j);
      TakeAt([Pair(key, value)] + Take(r, max), max, j);
      if j > 0 {
        TouchAt(r, key, value, j);
        TakeAt(r, max, j - 1);
      }
    }
  }

  lemma TakeHas(r: seq<Pair>, max: nat, key: string)
    ensures Has(Take(r, max), key) <==> Has(r, key) && Position(r, key) < max
    ensures Has(Take(r, max), key) ==> Position(Take(r, max), key) == Position(r, key)
                                       && Take(r, max)[Position(r, key)] == r[Position(r, key)]
  {
    var t := Take(r, max);
    var i := Position(r, key);
    if Has(t, key) {
      assert t[Position(t, key)] == r[Position(t, key)];
    }
    if i < |r| && i < max {
      assert t[i] == r[i];
    }
  }

  // ----- the cache is the front of that list

  lemma LastPutStep(calls: seq<Call>, call: Call, key: string)
    ensures LastPut(calls + [call], key) == if call.Put? && call.key == key then call.value else LastPut(calls, key)
    ensures WasPut(calls + [call], key) <==> WasPut(calls, key) || (call.Put? && call.key == key)
  {
    var all := calls + [call];
    assert all[..|all| - 1] == calls;
    if WasPut(calls, key) {
      var i :| 0 <= i < |calls| && calls[i].Put? && calls[i].key == key;
      assert all[i] == calls[i];
    }
    if call.Put? && call.key == key {
      assert all[|calls|] == call;
    }
  }

  /** The facts about one key in the list of a history. */
  predicate Knows(max: nat, calls: seq<Call>, key: string) {
    var r := Recency(max, calls);
    && (Has(r, key) <==> WasPut(calls, key))
    && (Has(r, key) ==>
          && r[Position(r, key)].value == LastPut(calls, key)
          && |TouchedSince(max, calls, key)| == Position(r, key)
          && TouchedSince(max, calls, key) == KeysOf(r[..Position(r, key)]))
  }

  lemma {:induction false} RecencyKnows(max: nat, calls: seq<Call>, key: string)
    ensures NoDup(Recency(max, calls)) && After(max, calls) == Take(Recency(max, calls), max)
    ensures Knows(max, calls, key)
    decreases |calls|
  {
    if calls != [] {
      var before, call := calls[..|calls| - 1], calls[|calls| - 1];
      assert calls == before + [call];
      RecencyKnows(max, before, key);
      RecencyKnows(max, before, call.key);
      FrontStep(max, before, call);
      KnowsStep(max, before, call, key);
    }
  }

  lemma FrontStep(max: nat, before: seq<Call>, call: Call)
    requires var r := Recency(max, before);
      NoDup(r) && After(max, before) == Take(r, max) && Knows(max, before, call.key)
    ensures var calls := before + [call];
      NoDup(Recency(max, calls)) && After(max, calls) == Take(Recency(max, calls), max)
  {
    var calls := before + [call];
    var r := Recency(max, before);
    assert calls[..|calls| - 1] == before;
    LastPutStep(before, call, call.key);
    var value := LastPut(calls, call.key);
    TouchNoDup(r, call.key, value);
    TakeHas(r, max, call.key);
    if Has(r, call.key) && Position(r, call.key) < max {
      TakeTouchHit(r, max, call.key, value);
    } else {
      TakeTouchMiss(r, max, call.key, value);
    }
  }

  lemma KnowsStep(max: nat, before: seq<Call>, call: Call, key: string)
    requires NoDup(Recency(max, before)) && After(max, before) == Take(Recency(max, before), max)
    requires Knows(max, before, key) && Knows(max, before, call.key)
    ensures Knows(max, before + [call], key)
  {
    var calls := before + [call];
    var r := Recency(max, before);
    assert calls[..|calls| - 1] == before && calls[|calls| - 1] == call;
    LastPutStep(before, call, key);
    TakeHas(r, max, call.key);
    if Touches(max, calls, call.key) {
      var value := LastPut(calls, call.key);
      TouchSize(r, call.key, value);
      if key == call.key {
        assert Touch(r, call.key, value)[..0] == [];
      } else if Has(r, key) {
        TouchOther(r, call.key, value, key);
        TouchBefore(r, call.key, value, key);
      } else {
        TouchAbsent(r, call.key, value, key);
      }
    }
  }

  lemma {:induction false} KeysOfSize(r: seq<Pair>, n: nat)
    requires NoDup(r) && n <= |r|
    ensures |KeysOf(r[..n])| == n
    decreases n
  {
    var keys := KeysOf(r[..n]);
    if n == 0 {
      assert keys == {};
    } else {
      KeysOfSize(r, n - 1);
      KeysOfSnoc(r, n - 1);
      assert r[n - 1].key !in KeysOf(r[..n - 1]);
    }
  }

  lemma KeysOfSnoc(r: seq<Pair>, n: nat)
    requires n < |r|
    ensures KeysOf(r[..n + 1]) == KeysOf(r[..n]) + {r[n].key}
  {
    var a, b := KeysOf(r[..n + 1]), KeysOf(r[..n]) + {r[n].key};
    assert forall i :: 0 <= i <= n ==> r[..n + 1][i] == r[i];
    forall k | k in b
      ensures k in a
    {
      if k == r[n].key {
        assert r[..n + 1][n].key == k;
      } else {
        var i :| 0 <= i < n && r[..n][i].key == k;
        assert r[..n + 1][i].key == k;
      }
    }
  }

  lemma InKeysOf(r: seq<Pair>, n: nat, i: nat)
    requires i < n <= |r|
    ensures r[i].key in KeysOf(r[..n])
  {
    assert r[..n][i] == r[i];
  }

  /** In front of another key after a touch: only the touched key and what was there. */
  lemma TouchBeforeOnly(r: seq<Pair>, key: string, value: string, other: string, j: nat)
    requires NoDup(r) && other != key && Has(r, other) && j < Position(Touch(r, key, value), other)
    ensures Touch(r, key, value)[j].key in KeysOf(r[..Position(r, other)]) + {key}
  {
    TouchSize(r, key, value);
    TouchOther(r, key, value, other);
    if j > 0 {
      TouchAt(r, key, value, j);
      InKeysOf(r, Position(r, other), OldIndex(r, key, j));
    }
  }

  /** And all of what was there still is. */
  lemma TouchBeforeAll(r: seq<Pair>, key: string, value: string, other: string, i: nat)
    requires NoDup(r) && other != key && Has(r, other) && i < Position(r, other)
    ensures r[i].key in KeysOf(Touch(r, key, value)[..Position(Touch(r, key, value), other)])
  {
    var t := Touch(r, key, value);
    TouchSize(r, key, value);
    TouchOther(r, key, value, other);
    if r[i].key == key {
      InKeysOf(t, Position(t, other), 0);
    } else {
      PositionIs(r, i);
      TouchOther(r, key, value, r[i].key);
      InKeysOf(t, Position(t, other), Position(t, r[i].key));
    }
  }

  /** The touched key is. */
  lemma TouchedInFront(r: seq<Pair>, key: string, value: string, other: string)
    requires NoDup(r) && other != key && Has(r, other)
    ensures var t := Touch(r, key, value); key in KeysOf(t[..Position(t, other)])
  {
    TouchSize(r, key, value);
    TouchOther(r, key, value, other);
    InKeysOf(Touch(r, key, value), Position(Touch(r, key, value), other), 0);
  }

  lemma FindKey(r: seq<Pair>, n: nat, k: string) returns (i: nat)
    requires n <= |r| && k in KeysOf(r[..n])
    ensures i < n && r[i].key == k
  {
    i :| i < n && r[..n][i].key == k;
  }

  lemma TouchBeforeIff(r: seq<Pair>, key: string, value: string, other: string, k: string)
    requires NoDup(r) && other != key && Has(r, other)
    ensures var t := Touch(r, key, value);
      k in KeysOf(t[..Position(t, other)]) <==> k in KeysOf(r[..Position(r, other)]) + {key}
  {
    TouchedInFront(r, key, value, other);
    var t := Touch(r, key, value);
    if k in KeysOf(t[..Position(t, other)]) {
      var j := FindKey(t, Position(t, other), k);
      TouchBeforeOnly(r, key, value, other, j);
    } else if k in KeysOf(r[..Position(r, other)]) {
      var i := FindKey(r, Position(r, other), k);
      TouchBeforeAll(r, key, value, other, i);
    }
  }

  lemma TouchBefore(r: seq<Pair>, key: string, value: string, other: string)
    requires NoDup(r) && other != key && Has(r, other)
    ensures var t := Touch(r, key, value); var q := Position(t, other);
      KeysOf(t[..q]) == KeysOf(r[..Position(r, other)]) + {key} && |KeysOf(t[..q])| == q
  {
    var t := Touch(r, key, value);
    TouchNoDup(r, key, value);
    KeysOfSize(t, Position(t, other));
    forall k
      ensures k in KeysOf(t[..Position(t, other)]) <==> k in KeysOf(r[..Position(r, other)]) + {key}
    {
      TouchBeforeIff(r, key, value, other, k);
    }
  }

  // ----- the main results

  /** A key is cached iff it was put and fewer than max distinct other keys were
      touched since it was last touched; and what is cached is its last value. */
  lemma CachedIff(max: nat, calls: seq<Call>, key: string)
    ensures Has(After(max, calls), key) <==> WasPut(calls, key) && |TouchedSince(max, calls, key)| < max
    ensures Has(After(max, calls), key) ==>
              After(max, calls)[Position(After(max, calls), key)].value == LastPut(calls, key)
    ensures NoDup(After(max, calls)) && |After(max, calls)| <= max
  {
    RecencyKnows(max, calls, key);
    TakeHas(Recency(max, calls), max, key);
  }
}
