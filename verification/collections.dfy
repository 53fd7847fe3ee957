/** Building a map from a sequence of insertions, as `HashMap.put` in a loop does. */
module Collections {

  /** The set of keys mentioned by a sequence of (key, value) insertions. */
  function KeysOf<K, V>(pairs: seq<(K, V)>): set<K>
  {
    set i | 0 <= i < |pairs| :: pairs[i].0
  }

  /** `pairs[i]` is the last insertion under key `k`. */
  predicate IsLastWith<K(==), V>(pairs: seq<(K, V)>, i: int, k: K)
  {
    && 0 <= i < |pairs|
    && pairs[i].0 == k
    && forall j :: i < j < |pairs| ==> pairs[j].0 != k
  }

  /** The map obtained by inserting `pairs` in order into an empty map. */
  function LastWins<K, V>(pairs: seq<(K, V)>): (m: map<K, V>)
    ensures m.Keys == KeysOf(pairs)
    decreases |pairs|
  {
    if |pairs| == 0 then map[]
    else
      var init := pairs[..|pairs| - 1];
      var last := pairs[|pairs| - 1];
      assert KeysOf(pairs) == KeysOf(init) + {last.0} by {
        assert forall i :: 0 <= i < |init| ==> pairs[i] == init[i];
      }
      LastWins(init)[last.0 := last.1]
  }

  /** Every key of `LastWins(pairs)` holds the value of its LAST insertion. */
  lemma {:induction false} LastWinsKeepsLastValue<K, V>(pairs: seq<(K, V)>, k: K)
    requires k in LastWins(pairs)
    ensures exists i :: IsLastWith(pairs, i, k) && pairs[i].1 == LastWins(pairs)[k]
    decreases |pairs|
  {
    var init := pairs[..|pairs| - 1];
    var last := pairs[|pairs| - 1];
    if last.0 == k {
      assert IsLastWith(pairs, |pairs| - 1, k);
    } else {
      LastWinsKeepsLastValue(init, k);
      var i :| IsLastWith(init, i, k) && init[i].1 == LastWins(init)[k];
      assert IsLastWith(pairs, i, k);
    }
  }

  /** Inserting a further pair overwrites that key and leaves the rest alone. */
  lemma {:induction false} LastWinsSnoc<K, V>(pairs: seq<(K, V)>, k: K, v: V)
    ensures LastWins(pairs + [(k, v)]) == LastWins(pairs)[k := v]
  {
    assert (pairs + [(k, v)])[..|pairs|] == pairs;
  }

  /** The values `m` gives to the keys in `s`. */
  function Image<K, L>(s: set<K>, m: map<K, L>): set<L>
    requires s <= m.Keys
  {
    set k | k in s :: m[k]
  }

  /** The image of a set under a map that is injective on it has the set's size. */
  lemma {:induction false} InjectiveImageCardinality<K, L>(s: set<K>, m: map<K, L>)
    requires s <= m.Keys
    requires forall a, b :: a in s && b in s && m[a] == m[b] ==> a == b
    ensures |Image(s, m)| == |s|
    decreases |s|
  {
    if s != {} {
      var x :| x in s;
      var rest := s - {x};
      InjectiveImageCardinality(rest, m);
      assert Image(s, m) == Image(rest, m) + {m[x]};
    }
  }

  /** A subset is no larger than its superset. */
  lemma {:induction false} SubsetCardinality<K>(a: set<K>, b: set<K>)
    requires a <= b
    ensures |a| <= |b|
    decreases |a|
  {
    if a != {} {
      var x :| x in a;
      SubsetCardinality(a - {x}, b - {x});
    }
  }
}
