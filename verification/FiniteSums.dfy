/** Sums of an integer weight over a finite set of keys.

    The pallets keep running totals; these lemmas say how the total recomputed
    from scratch moves when one key changes, so that the running total can be
    compared with it after every call. */
module FiniteSums {

  ghost function Sum<K(!new)>(keys: set<K>, weight: K -> int): int
  {
    if keys == {} then 0
    else
      var k :| k in keys;
      weight(k) + Sum(keys - {k}, weight)
  }

  /** The choice of the first key does not matter. */
  lemma {:induction false} SumRemove<K(!new)>(keys: set<K>, weight: K -> int, key: K)
    requires key in keys
    ensures Sum(keys, weight) == weight(key) + Sum(keys - {key}, weight)
  {
    var k :| k in keys && Sum(keys, weight) == weight(k) + Sum(keys - {k}, weight);
    if k != key {
      SumRemove(keys - {k}, weight, key);
      SumRemove(keys - {key}, weight, k);
      assert keys - {k} - {key} == keys - {key} - {k};
    }
  }

  lemma {:induction false} SumEqual<K(!new)>(keys: set<K>, f: K -> int, g: K -> int)
    requires forall k :: k in keys ==> f(k) == g(k)
    ensures Sum(keys, f) == Sum(keys, g)
  {
    if keys != {} {
      var k :| k in keys;
      SumRemove(keys, f, k);
      SumRemove(keys, g, k);
      SumEqual(keys - {k}, f, g);
    }
  }

  /** Changing the weight of one key, possibly a new one that weighed nothing before. */
  lemma SumChange<K(!new)>(keys: set<K>, f: K -> int, g: K -> int, key: K)
    requires forall k :: k in keys && k != key ==> f(k) == g(k)
    requires key !in keys ==> f(key) == 0
    ensures Sum(keys + {key}, g) == Sum(keys, f) - f(key) + g(key)
  {
    SumRemove(keys + {key}, g, key);
    if key in keys {
      SumRemove(keys, f, key);
    }
    assert keys + {key} - {key} == keys - {key};
    SumEqual(keys - {key}, f, g);
  }

  lemma {:induction false} SumPlus<K(!new)>(keys: set<K>, f: K -> int, g: K -> int, h: K -> int)
    requires forall k :: k in keys ==> h(k) == f(k) + g(k)
    ensures Sum(keys, h) == Sum(keys, f) + Sum(keys, g)
  {
    if keys != {} {
      var k :| k in keys;
      SumRemove(keys, f, k);
      SumRemove(keys, g, k);
      SumRemove(keys, h, k);
      SumPlus(keys - {k}, f, g, h);
    }
  }

  lemma {:induction false} SumAtMost<K(!new)>(keys: set<K>, f: K -> int, g: K -> int)
    requires forall k :: k in keys ==> f(k) <= g(k)
    ensures Sum(keys, f) <= Sum(keys, g)
  {
    if keys != {} {
      var k :| k in keys;
      SumRemove(keys, f, k);
      SumRemove(keys, g, k);
      SumAtMost(keys - {k}, f, g);
    }
  }

  lemma {:induction false} SumZero<K(!new)>(keys: set<K>, f: K -> int)
    requires forall k :: k in keys ==> f(k) == 0
    ensures Sum(keys, f) == 0
  {
    if keys != {} {
      var k :| k in keys;
      SumRemove(keys, f, k);
      SumZero(keys - {k}, f);
    }
  }

  lemma {:induction false} SumNonNegative<K(!new)>(keys: set<K>, f: K -> int)
    requires forall k :: k in keys ==> 0 <= f(k)
    ensures 0 <= Sum(keys, f)
  {
    if keys != {} {
      var k :| k in keys;
      SumRemove(keys, f, k);
      SumNonNegative(keys - {k}, f);
    }
  }

  /** A non-negative total can only grow when keys are added; keys of weight zero do not matter. */
  lemma {:induction false} SumWithin<K(!new)>(keys: set<K>, all: set<K>, f: K -> int)
    requires forall k :: k in all ==> 0 <= f(k)
    requires forall k :: k in keys && k !in all ==> f(k) == 0
    ensures Sum(keys, f) <= Sum(all, f)
  {
    if keys == {} {
      SumNonNegative(all, f);
    } else {
      var k :| k in keys;
      SumRemove(keys, f, k);
      if k in all {
        SumRemove(all, f, k);
        SumWithin(keys - {k}, all - {k}, f);
      } else {
        SumWithin(keys - {k}, all, f);
      }
    }
  }

  /** One term never exceeds a non-negative total. */
  lemma SumTerm<K(!new)>(keys: set<K>, f: K -> int, key: K)
    requires key in keys
    requires forall k :: k in keys ==> 0 <= f(k)
    ensures f(key) <= Sum(keys, f)
  {
    SumRemove(keys, f, key);
    SumNonNegative(keys - {key}, f);
  }
}
