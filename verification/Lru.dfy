/** The translation cache: a map into a list kept in order of use, and what any
    history of calls leaves in it. */
module Lru {

  datatype Pair = Pair(key: string, value: string)

  // ----- lists in order of use

  ghost predicate NoDup(r: seq<Pair>) {
    forall i, j :: 0 <= i < j < |r| ==> r[i].key != r[j].key
  }

  /** Where a key stands; the length if it is missing. */
  function Position(r: seq<Pair>, key: string): (i: nat)
    ensures i <= |r| && (i < |r| ==> r[i].key == key) && (forall j :: 0 <= j < i ==> r[j].key != key)
  {
    if r == [] || r[0].key == key then 0 else Position(r[1..], key) + 1
  }

  predicate Has(r: seq<Pair>, key: string) {
    Position(r, key) < |r|
  }

  function Without(r: seq<Pair>, key: string): seq<Pair> {
    var i := Position(r, key);
    if i < |r| then r[..i] + r[i + 1..] else r
  }

  function Touch(r: seq<Pair>, key: string, value: string): seq<Pair> {
    [Pair(key, value)] + Without(r, key)
  }

  function Take(r: seq<Pair>, max: nat): seq<Pair> {
    if |r| <= max then r else r[..max]
  }

  datatype Call = Get(key: string) | Put(key: string, value: string)

  /** What a call makes of the cache's list. */
  function Apply(r: seq<Pair>, max: nat, call: Call): seq<Pair> {
    match call
    case Get(key) => if Has(r, key) then Touch(r, key, r[Position(r, key)].value) else r
    case Put(key, value) =>
      if Has(r, key) then Touch(r, key, value) else Take([Pair(key, value)] + r, max)
  }

  // ----- the cache

  class LruEntry {
    const key: string
    var value: string

    constructor (key: string, value: string)
      ensures this.key == key && this.value == value
    {
      this.key := key;
      this.value := value;
    }
  }

  ghost predicate DistinctKeys(order: seq<LruEntry>) {
    forall i, j :: 0 <= i < j < |order| ==> order[i].key != order[j].key
  }

  class LruCache {
    const max: nat
    var entries: map<string, LruEntry>
    var order: seq<LruEntry>

    constructor (max: nat)
      ensures this.max == max && Valid() && Contents() == []
    {
      this.max := max;
      entries := map[];
      order := [];
    }

    /** Map and list hold the same entries, each key once. */
    ghost predicate Linked()
      reads this
    {
      && DistinctKeys(order)
      && (forall e :: e in order ==> e.key in entries && entries[e.key] == e)
      && (forall k :: k in entries ==> entries[k] in order && entries[k].key == k)
    }

    ghost predicate Valid()
      reads this
    {
      Linked() && |order| <= max
    }

    ghost function Contents(): (r: seq<Pair>)
      reads this, order
    {
      Pairs(order)
    }

    /** The map finds a key exactly where the list has it. */
    lemma Finds(key: string)
      requires Valid()
      ensures key in entries <==> Has(Contents(), key)
      ensures key in entries ==> entries[key] in order && entries[key].key == key &&
                                 entries[key] == order[Position(Contents(), key)]
    {
      var i := Position(Contents(), key);
      if key in entries {
        var j :| 0 <= j < |order| && order[j] == entries[key];
        assert Contents()[j].key == key;
      }
      if i < |order| {
        assert order[i] in order;
      }
    }

    method IndexOf(e: LruEntry) returns (i: nat)
      requires e in order
      ensures i < |order| && order[i] == e
    {
      i := 0;
      while order[i] != e
        invariant 0 <= i < |order| && e in order[i..]
        decreases |order| - i
      {
        i := i + 1;
      }
    }

    /** Move an element of the list to its front. */
    method MoveToFront(e: LruEntry)
      requires Valid() && e in order
      modifies this`order
      ensures Valid() && Contents() == Touch(old(Contents()), e.key, e.value)
    {
      var i := IndexOf(e);
      MovedMembers(order, i);
      MovedIsTouch(order, i);
      order := Moved(order, i);
    }

    method Get(key: string) returns (value: string, ok: bool)
      requires Valid()
      modifies this`order
      ensures Valid() && Contents() == Apply(old(Contents()), max, Call.Get(key))
      ensures ok <==> Has(old(Contents()), key)
      ensures value == if ok then old(Contents())[Position(old(Contents()), key)].value else ""
    {
      Finds(key);
      if key in entries {
        var e := entries[key];
        MoveToFront(e);
        return e.value, true;
      }
      return "", false;
    }

    method Put(key: string, value: string)
      requires Valid()
      modifies this, order
      ensures Valid() && Contents() == Apply(old(Contents()), max, Call.Put(key, value))
    {
      Finds(key);
      ghost var before := Contents();
      if key in entries {
        var e := entries[key];
        e.value := value;
        assert Contents() == before[Position(before, key) := Pair(key, value)];
        TouchUpdated(before, Position(before, key), value);
        MoveToFront(e);
        return;
      }
      PushFront(key, value);
    }

    /** A new entry, and the oldest one out if there are too many. */
    method PushFront(key: string, value: string)
      requires Valid() && key !in entries
      modifies this
      ensures Valid() && Contents() == Take([Pair(key, value)] + old(Contents()), max)
    {
      var e := new LruEntry(key, value);
      order := [e] + order;
      entries := entries[key := e];
      assert Contents() == [Pair(key, value)] + old(Contents());
      assert Linked();
      if |order| > max {
        RemoveOldest();
      }
    }

    method RemoveOldest()
      requires Linked() && |order| > 0
      modifies this
      ensures Linked() && |order| == |old(order)| - 1
      ensures Contents() == old(Contents())[..|order|]
    {
      var oldest := order[|order| - 1];
      ghost var all := order;
      order := order[..|order| - 1];
      entries := entries - {oldest.key};
      assert all == order + [oldest];
    }
  }

  /** The list with its element i in front. */
  function Moved(order: seq<LruEntry>, i: nat): seq<LruEntry>
    requires i < |order|
  {
    [order[i]] + (order[..i] + order[i + 1..])
  }

  lemma MovedMembers(order: seq<LruEntry>, i: nat)
    requires i < |order| && DistinctKeys(order)
    ensures var m := Moved(order, i);
      |m| == |order| && DistinctKeys(m) && forall e :: e in m <==> e in order
  {
    assert order == order[..i] + [order[i]] + order[i + 1..];
  }

  lemma MovedIsTouch(order: seq<LruEntry>, i: nat)
    requires i < |order| && DistinctKeys(order)
    ensures Pairs(Moved(order, i)) == Touch(Pairs(order), order[i].key, order[i].value)
  {
    PairsOfMoved(order, i);
    PairsNoDup(order);
    TouchAtIndex(Pairs(order), i);
  }

  lemma PairsOfMoved(order: seq<LruEntry>, i: nat)
    requires i < |order|
    ensures var r := Pairs(order); Pairs(Moved(order, i)) == [r[i]] + (r[..i] + r[i + 1..])
  {
  }

  lemma PairsNoDup(order: seq<LruEntry>)
    requires DistinctKeys(order)
    ensures NoDup(Pairs(order))
  {
  }

  lemma TouchAtIndex(r: seq<Pair>, i: nat)
    requires NoDup(r) && i < |r|
    ensures Touch(r, r[i].key, r[i].value) == [r[i]] + (r[..i] + r[i + 1..])
  {
    PositionIs(r, i);
  }

  lemma TouchUpdated(r: seq<Pair>, i: nat, value: string)
    requires NoDup(r) && i < |r|
    ensures var key := r[i].key;
      Touch(r[i := Pair(key, value)], key, value) == Touch(r, key, value)
  {
    var u := r[i := Pair(r[i].key, value)];
    PositionIs(r, i);
    PositionIs(u, i);
  }

  ghost function Pairs(order: seq<LruEntry>): (r: seq<Pair>)
    reads order
  {
    seq(|order|, i requires 0 <= i < |order| reads order => Pair(order[i].key, order[i].value))
  }

  lemma PositionIs(r: seq<Pair>, i: nat)
    requires NoDup(r) && i < |r|
    ensures Position(r, r[i].key) == i
  {
  }
}
