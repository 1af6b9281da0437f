/** Extensionality of sets and dictionaries. */
module Maps {

  lemma EmptySet(s: set<int>)
    requires forall p :: p !in s
    ensures s == {}
  {
    forall p: int ensures p !in s {}
  }

  lemma NonEmptySet(s: set<int>)
    requires s != {}
    ensures exists p :: p in s
  {
    if !(exists p :: p in s) {
      EmptySet(s);
    }
  }

  lemma SameMap<T>(a: map<int, T>, b: map<int, T>)
    requires forall p :: p in a <==> p in b
    requires forall p | p in a :: a[p] == b[p]
    ensures a == b
  {
    forall p: int ensures p in a <==> p in b {}
    forall p: int | p in a ensures a[p] == b[p] {}
  }

  lemma SameEntries<K, V>(a: map<K, V>, b: map<K, V>)
    requires forall k | k in a :: k in b && b[k] == a[k]
    requires forall k | k in b :: k in a && a[k] == b[k]
    ensures a == b
  {
  }

  lemma UpdateOverlay<T>(base: map<int, T>, over: map<int, T>, p: int, value: T)
    ensures base + over[p := value] == (base + over)[p := value]
  {
    SameMap(base + over[p := value], (base + over)[p := value]);
  }

  /** Some element of a set, as an unordered iteration yields it. */
  method Pick(s: set<int>) returns (p: int)
    requires s != {}
    ensures p in s
  {
    NonEmptySet(s);
    p :| p in s;
  }
}
