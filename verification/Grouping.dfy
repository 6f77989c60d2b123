/**
 * Grouping a snapshot by a key the way the handler fills `byUser` and `byDate`:
 * walk the records in order, create a bucket the first time a key is seen, and
 * push each record onto its key's bucket.
 */
module Grouping {

  /** The records of `xs` whose key is `k`, in their input order. */
  function Having<T, K(==)>(xs: seq<T>, key: T -> K, k: K): seq<T>
  {
    if |xs| == 0 then []
    else Having(xs[..|xs| - 1], key, k) + (if key(xs[|xs| - 1]) == k then [xs[|xs| - 1]] else [])
  }

  /** The keys that occur in `xs`. */
  function KeysOf<T, K(==)>(xs: seq<T>, key: T -> K): set<K> {
    set i | 0 <= i < |xs| :: key(xs[i])
  }

  lemma {:induction false} HavingAbsent<T, K>(xs: seq<T>, key: T -> K, k: K)
    requires k !in KeysOf(xs, key)
    ensures Having(xs, key, k) == []
    decreases |xs|
  {
    if |xs| > 0 {
      var init := xs[..|xs| - 1];
      assert KeysOf(init, key) <= KeysOf(xs, key) by {
        forall i | 0 <= i < |init| ensures key(init[i]) in KeysOf(xs, key) {
          assert init[i] == xs[i];
        }
      }
      HavingAbsent(init, key, k);
      assert key(xs[|xs| - 1]) in KeysOf(xs, key);
    }
  }

  /**
   * A bucket created on a key's first record and appended to after: one bucket per
   * key that occurs, holding exactly that key's records in input order.
   */
  function GroupBy<T, K(==)>(xs: seq<T>, key: T -> K): (g: map<K, seq<T>>)
    ensures g.Keys == KeysOf(xs, key)
    ensures forall k :: k in g ==> g[k] == Having(xs, key, k)
    decreases |xs|
  {
    if |xs| == 0 then map[]
    else
      var init := xs[..|xs| - 1];
      var x := xs[|xs| - 1];
      var g0 := GroupBy(init, key);
      var g := if key(x) in g0 then g0[key(x) := g0[key(x)] + [x]] else g0[key(x) := [x]];
      assert KeysOf(xs, key) == KeysOf(init, key) + {key(x)} by {
        forall i | 0 <= i < |init| ensures init[i] == xs[i] { }
      }
      assert key(x) !in g0 ==> Having(init, key, key(x)) == [] by {
        if key(x) !in g0 {
          HavingAbsent(init, key, key(x));
        }
      }
      g
  }

  /** How often `x` occurs in a key's bucket: as often as in the input if its key matches, never otherwise. */
  lemma {:induction false} HavingMultiplicity<T, K>(xs: seq<T>, key: T -> K, k: K, x: T)
    ensures multiset(Having(xs, key, k))[x] == if key(x) == k then multiset(xs)[x] else 0
    decreases |xs|
  {
    if |xs| > 0 {
      var init := xs[..|xs| - 1];
      HavingMultiplicity(init, key, k, x);
      assert xs == init + [xs[|xs| - 1]];
    }
  }

  /**
   * The buckets partition the input: a record sits in the bucket of its own key
   * exactly as often as it occurs in the input, and in no other bucket.
   */
  lemma GroupByPartition<T, K>(xs: seq<T>, key: T -> K, k: K, x: T)
    requires k in GroupBy(xs, key)
    ensures multiset(GroupBy(xs, key)[k])[x] == if key(x) == k then multiset(xs)[x] else 0
  {
    HavingMultiplicity(xs, key, k, x);
  }

  /** Every record of the input lands in a bucket: the one of its key. */
  lemma GroupByCovers<T, K>(xs: seq<T>, key: T -> K, i: nat)
    requires i < |xs|
    ensures key(xs[i]) in GroupBy(xs, key) && xs[i] in GroupBy(xs, key)[key(xs[i])]
  {
    assert key(xs[i]) in KeysOf(xs, key);
    HavingMultiplicity(xs, key, key(xs[i]), xs[i]);
    assert xs[i] in multiset(xs);
  }
}
