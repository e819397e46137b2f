/** Facts about sequences of anything. */
module Sequences {

  lemma ConcatAssoc<T>(a: seq<T>, b: seq<T>, c: seq<T>)
    ensures (a + b) + c == a + (b + c)
  {
  }

  /** What lies past the end of a prefix. */
  lemma DropPast<T>(a: seq<T>, b: seq<T>, k: nat)
    requires k <= |b|
    ensures (a + b)[|a| + k..] == b[k..]
  {
  }

  /** Suffixes of the same length are the same. */
  lemma SameTail<T>(a: seq<T>, x: seq<T>, b: seq<T>, y: seq<T>)
    requires a + x == b + y && |x| == |y|
    ensures x == y
  {
    assert x == (a + x)[|a|..] && y == (b + y)[|b|..];
  }
}
