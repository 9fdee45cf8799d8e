/** Small collection helpers shared by the grammar and automaton models. */
module Collections {

  datatype Option<+T> = None | Some(value: T)

  /** No element occurs twice. */
  ghost predicate Distinct<T>(s: seq<T>) {
    forall i, j :: 0 <= i < j < |s| ==> s[i] != s[j]
  }

  /** The elements of a sequence, as a set. */
  function Elements<T>(s: seq<T>): set<T> {
    set x | x in s
  }

  /** `s` with every element of `drop` left out, order kept (a JS `filter`). */
  function FilterOut<T(!new)>(s: seq<T>, drop: set<T>): (r: seq<T>)
    ensures forall x :: x in r <==> x in s && x !in drop
    ensures |r| <= |s|
  {
    if s == [] then []
    else FilterOut(s[..|s| - 1], drop) + (if s[|s| - 1] in drop then [] else [s[|s| - 1]])
  }

  lemma {:induction false} FilterOutDistinct<T(!new)>(s: seq<T>, drop: set<T>)
    requires Distinct(s)
    ensures Distinct(FilterOut(s, drop))
  {
    if s != [] {
      FilterOutDistinct(s[..|s| - 1], drop);
    }
  }

  lemma {:induction false} FilterOutMore<T(!new)>(s: seq<T>, drop: set<T>, x: T)
    ensures FilterOut(FilterOut(s, drop), {x}) == FilterOut(s, drop + {x})
  {
    if s != [] {
      FilterOutMore(s[..|s| - 1], drop, x);
      var p := FilterOut(s[..|s| - 1], drop);
      var last := s[|s| - 1];
      var f := FilterOut(s, drop);
      if last in drop {
        assert f == p;
      } else {
        assert f == p + [last];
        assert f[..|f| - 1] == p;
      }
    }
  }

  lemma {:induction false} FilterOutNothing<T(!new)>(s: seq<T>, drop: set<T>)
    requires forall x :: x in s ==> x !in drop
    ensures FilterOut(s, drop) == s
  {
    if s != [] {
      FilterOutNothing(s[..|s| - 1], drop);
      assert s == s[..|s| - 1] + [s[|s| - 1]];
    }
  }

  /** Names the element at `i` (and the prefix before it) for the solver. */
  lemma ElementAt<T>(s: seq<T>, i: int)
    ensures 0 <= i < |s| ==> s[i] in s && s[i] in Elements(s) && s[..i] + [s[i]] == s[..i + 1]
  {
  }

  /** In a sequence without repetitions an element does not occur before its own position. */
  lemma DistinctNotBefore<T>(s: seq<T>, i: nat)
    requires Distinct(s) && i < |s|
    ensures s[i] !in s[..i]
  {
    forall j | 0 <= j < i ensures s[..i][j] != s[i] {
      assert s[..i][j] == s[j];
    }
  }

  /** A subset is no larger than its superset. */
  lemma {:induction false} SubsetCardinality<T>(a: set<T>, b: set<T>)
    requires a <= b
    ensures |a| <= |b|
    decreases a
  {
    if a != {} {
      var x :| x in a;
      SubsetCardinality(a - {x}, b - {x});
    }
  }

  /** A proper subset is strictly smaller: the measure of every growing fixpoint loop. */
  lemma StrictSubsetCardinality<T>(a: set<T>, b: set<T>)
    requires a < b
    ensures |a| < |b|
  {
    assert exists y :: y in b && y !in a;
    var x :| x in b && x !in a;
    SubsetCardinality(a, b - {x});
  }

  /**
   * A JavaScript `Map`: a finite map that also remembers the order in which
   * its keys were first inserted, since iteration follows that order.
   */
  datatype OMap<K(!new), V> = OMap(keys: seq<K>, m: map<K, V>) {

    /** The key order lists every key of the map exactly once. */
    ghost predicate Valid() {
      && Distinct(keys)
      && (forall k :: k in m <==> k in keys)
    }

    /** `map.get(k) || otherwise` */
    function GetOr(k: K, otherwise: V): V {
      if k in m then m[k] else otherwise
    }

    /** `map.set(k, v)`: an existing key keeps its place, a new key goes last. */
    function Put(k: K, v: V): (r: OMap<K, V>)
      ensures Valid() ==> r.Valid()
    {
      OMap(if k in m then keys else keys + [k], m[k := v])
    }

    /** `map.delete(k)` */
    function Remove(k: K): (r: OMap<K, V>)
      requires Valid()
      ensures r.Valid()
    {
      FilterOutDistinct(keys, {k});
      OMap(FilterOut(keys, {k}), m - {k})
    }
  }

  /** `new Map()` */
  function EmptyMap<K(!new), V>(): (r: OMap<K, V>)
    ensures r.Valid()
  {
    OMap([], map[])
  }
}
