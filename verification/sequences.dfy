/** Sequences without repetition, and without one of their elements. */
module Sequences {
  predicate NoDuplicates<T(==)>(s: seq<T>) {
    forall i, j | 0 <= i < j < |s| :: s[i] != s[j]
  }

  lemma WithoutOne<T>(ds: seq<T>, i: nat)
    requires i < |ds|
    ensures multiset(ds[..i] + ds[i + 1..]) == multiset(ds) - multiset{ds[i]}
  {
    assert ds == ds[..i] + [ds[i]] + ds[i + 1..];
  }

  lemma WithoutFirst<T>(ds: seq<T>)
    requires ds != []
    ensures multiset(ds[1..]) == multiset(ds) - multiset{ds[0]}
  {
    assert ds == [ds[0]] + ds[1..];
  }
}
