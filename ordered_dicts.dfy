/**
 * Insertion-ordered dictionaries, as Python's `dict` and `collections.OrderedDict`
 * behave: iteration follows the order in which keys were first inserted, and
 * assigning to a key that is already present changes its value but not its place.
 */
module OrderedDicts {

  /** No element of `s` occurs twice: each one is new when it is appended. */
  predicate Distinct<T(==)>(s: seq<T>)
    decreases |s|
  {
    s == [] || (Distinct(s[..|s| - 1]) && s[|s| - 1] !in s[..|s| - 1])
  }

  /** A non-empty sequence is its prefix followed by its last element. */
  lemma InitThenLast<T>(s: seq<T>)
    requires s != []
    ensures s == s[..|s| - 1] + [s[|s| - 1]]
  {
  }

  /** `Distinct` holds exactly when no two positions hold the same element. */
  lemma {:induction false} DistinctIffNoRepeats<T>(s: seq<T>)
    ensures Distinct(s) <==> forall i, j :: 0 <= i < j < |s| ==> s[i] != s[j]
    decreases |s|
  {
    if s != [] {
      var init, last := s[..|s| - 1], s[|s| - 1];
      DistinctIffNoRepeats(init);
      if Distinct(s) {
        forall i, j | 0 <= i < j < |s|
          ensures s[i] != s[j]
        {
          assert s[i] == init[i];
          if j < |s| - 1 {
            assert s[j] == init[j];
          }
        }
      }
      if forall i, j :: 0 <= i < j < |s| ==> s[i] != s[j] {
        forall i, j | 0 <= i < j < |init|
          ensures init[i] != init[j]
        {
          assert init[i] == s[i] && init[j] == s[j];
        }
        forall i | 0 <= i < |init|
          ensures init[i] != last
        {
          assert init[i] == s[i];
        }
      }
    }
  }

  /** The keys in iteration order, and the key-to-value mapping. */
  datatype OrderedDict<K(==), V> = OrderedDict(keys: seq<K>, entries: map<K, V>) {

    /** Every key is listed once, and exactly the mapped keys are listed. */
    predicate Valid() {
      && Distinct(keys)
      && (forall k | k in entries :: k in keys)
      && (forall i | 0 <= i < |keys| :: keys[i] in entries)
    }

    /** `d[k] = v`: a new key goes last, an existing key keeps its place. */
    function Set(k: K, v: V): (d: OrderedDict<K, V>)
      ensures k in d.entries && d.entries[k] == v
    {
      OrderedDict(if k in entries then keys else keys + [k], entries[k := v])
    }
  }

  /**
   * Setting a key keeps a dictionary valid, leaves every other key's value
   * alone, and changes the key order only by appending a key that was absent.
   */
  lemma SetKeepsOrder<K, V>(d: OrderedDict<K, V>, k: K, v: V)
    ensures var d' := d.Set(k, v);
      && (d.Valid() ==> d'.Valid())
      && d'.entries.Keys == d.entries.Keys + {k}
      && (forall k' | k' in d.entries && k' != k :: d'.entries[k'] == d.entries[k'])
      && d'.keys == if k in d.entries then d.keys else d.keys + [k]
  {
    assert (d.keys + [k])[..|d.keys|] == d.keys;
  }

  /** `{}` / `OrderedDict()`. */
  function Empty<K(==), V>(): (d: OrderedDict<K, V>)
    ensures d.Valid() && d.keys == [] && d.entries == map[]
  {
    OrderedDict([], map[])
  }

  /** A sequence without repetitions has as many distinct elements as it has positions. */
  lemma {:induction false} DistinctCardinality<T>(s: seq<T>)
    requires Distinct(s)
    ensures |set x | x in s| == |s|
  {
    if s != [] {
      var init := s[..|s| - 1];
      var last := s[|s| - 1];
      DistinctCardinality(init);
      assert (set x | x in s) == (set x | x in init) + {last};
      assert last !in (set x | x in init);
    }
  }

  /** A valid dictionary has one entry per listed key. */
  lemma SizeIsKeyCount<K, V>(d: OrderedDict<K, V>)
    requires d.Valid()
    ensures |d.entries| == |d.keys|
  {
    DistinctCardinality(d.keys);
    assert d.entries.Keys == set x | x in d.keys;
  }
}
