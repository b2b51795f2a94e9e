/** Identities about concatenation that the filters' proofs use as single steps. */
module SeqFacts {

  /** Splitting off the first element of the front part of a concatenation. */
  lemma ConsSplit<T>(a: seq<T>, mid: seq<T>, b: seq<T>)
    requires a != []
    ensures a + mid + b == [a[0]] + (a[1..] + mid + b)
    ensures a + mid == [a[0]] + (a[1..] + mid)
  {
    assert a == [a[0]] + a[1..];
  }

  /** Concatenation is associative. */
  lemma AppendAssoc<T>(a: seq<T>, b: seq<T>, c: seq<T>)
    ensures a + b + c == a + (b + c)
  {
  }
}
