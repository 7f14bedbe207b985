/** Vocabulary shared by every part of the model. */
module Basics {

  datatype Option<+T> = None | Some(value: T)

  datatype Result<+T> = Ok(value: T) | Err

  predicate Distinct<T(==)>(s: seq<T>) {
    forall i, j :: 0 <= i < j < |s| ==> s[i] != s[j]
  }

  function ToSet<T>(s: seq<T>): set<T> {
    set x | x in s
  }

  /** A walk over a keyspace nobody changes meanwhile: every element, perhaps more than once. */
  ghost predicate Walks<T(!new)>(walk: seq<T>, s: set<T>) {
    forall x :: x in walk <==> x in s
  }

  /** Maps keyed by integers are equal when they agree key by key. */
  lemma IntMapsEqual<V>(a: map<int, V>, b: map<int, V>)
    requires forall k :: k in a <==> k in b
    requires forall k :: k in a ==> a[k] == b[k]
    ensures a == b
  {
    forall k | k in a.Keys ensures k in b.Keys {}
    forall k | k in b.Keys ensures k in a.Keys {}
    assert a.Keys == b.Keys;
    forall k | k in a ensures a[k] == b[k] {}
  }
}
