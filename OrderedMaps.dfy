/**
 * Insertion-ordered maps with unique keys: the semantics of a PHP array with
 * string keys and of a Laravel Collection. Writing to an existing key replaces
 * its value where it stands; writing a new key appends it; forgetting a key
 * closes the gap. Iteration follows the stored order.
 */
module OrderedMaps {
  import opened Outcomes

  type OMap<K, V> = seq<(K, V)>

  function Keys<K, V>(m: OMap<K, V>): (ks: seq<K>)
    ensures |ks| == |m|
    ensures forall i :: 0 <= i < |m| ==> ks[i] == m[i].0
  {
    seq(|m|, i requires 0 <= i < |m| => m[i].0)
  }

  ghost predicate UniqueKeys<K, V>(m: OMap<K, V>) {
    forall i, j :: 0 <= i < j < |m| ==> m[i].0 != m[j].0
  }

  /** The value stored under `k`, or None: a lookup never fails. */
  function Get<K(==), V>(m: OMap<K, V>, k: K): (r: Option<V>)
    ensures r.Some? <==> k in Keys(m)
    ensures r.Some? ==> (k, r.value) in m
  {
    if m == [] then None
    else if m[0].0 == k then Some(m[0].1)
    else
      assert Keys(m) == [m[0].0] + Keys(m[1..]);
      Get(m[1..], k)
  }

  /** `$m[$k] = $v`: replaces the value of an existing key in place, else appends. */
  function Put<K(==), V>(m: OMap<K, V>, k: K, v: V): (r: OMap<K, V>)
    ensures k in Keys(m) ==> Keys(r) == Keys(m)
    ensures k !in Keys(m) ==> Keys(r) == Keys(m) + [k]
  {
    if m == [] then [(k, v)]
    else if m[0].0 == k then [(k, v)] + m[1..]
    else
      assert Keys(m) == [m[0].0] + Keys(m[1..]);
      var r := [m[0]] + Put(m[1..], k, v);
      assert Keys(r) == [m[0].0] + Keys(Put(m[1..], k, v));
      r
  }

  /** `$m->forget($k)`: drops the entry of `k`, if any. */
  function Forget<K(==), V>(m: OMap<K, V>, k: K): (r: OMap<K, V>)
    ensures k !in Keys(r)
    ensures forall e :: e in r ==> e in m
  {
    if m == [] then []
    else
      assert Keys(m) == [m[0].0] + Keys(m[1..]);
      var rest := Forget(m[1..], k);
      var r := if m[0].0 == k then rest else [m[0]] + rest;
      assert m[0].0 != k ==> Keys(r) == [m[0].0] + Keys(rest);
      r
  }

  /** Reference definition of removal: one pass keeping the entries whose key is not in `ks`. */
  function Without<K(==), V>(m: OMap<K, V>, ks: set<K>): OMap<K, V> {
    if m == [] then []
    else (if m[0].0 in ks then [] else [m[0]]) + Without(m[1..], ks)
  }

  /** Puts each pair in turn. */
  function PutAll<K(==), V>(m: OMap<K, V>, es: OMap<K, V>): OMap<K, V>
    decreases |es|
  {
    if es == [] then m else PutAll(Put(m, es[0].0, es[0].1), es[1..])
  }

  /** Forgets each key in turn. */
  function ForgetAll<K(==), V>(m: OMap<K, V>, ks: seq<K>): OMap<K, V>
    decreases |ks|
  {
    if ks == [] then m else ForgetAll(Forget(m, ks[0]), ks[1..])
  }

  // ---------------------------------------------------------------- Put

  lemma {:induction false} PutKeepsUnique<K, V>(m: OMap<K, V>, k: K, v: V)
    requires UniqueKeys(m)
    ensures UniqueKeys(Put(m, k, v))
  {
    var r := Put(m, k, v);
    forall i, j | 0 <= i < j < |r| ensures r[i].0 != r[j].0 {
      assert Keys(r)[i] == r[i].0 && Keys(r)[j] == r[j].0;
      if k !in Keys(m) && j == |m| {
        assert Keys(m)[i] == m[i].0;
      } else {
        assert Keys(m)[i] == m[i].0 && Keys(m)[j] == m[j].0;
      }
    }
  }

  /** Every entry after a put is the new pair or was there before. */
  lemma {:induction false} PutEntries<K, V>(m: OMap<K, V>, k: K, v: V)
    ensures forall e :: e in Put(m, k, v) ==> e in m || e == (k, v)
  {
    if m != [] && m[0].0 != k {
      PutEntries(m[1..], k, v);
    }
  }

  /** After `$m[$k] = $v` the key maps to `v`, and every other key is untouched. */
  lemma {:induction false} GetAfterPut<K, V>(m: OMap<K, V>, k: K, v: V, k': K)
    ensures Get(Put(m, k, v), k') == if k' == k then Some(v) else Get(m, k')
  {
    if m != [] && m[0].0 != k {
      GetAfterPut(m[1..], k, v, k');
    }
  }

  /** Writing a key twice is writing it once with the second value. */
  lemma {:induction false} PutOverwrites<K, V>(m: OMap<K, V>, k: K, v1: V, v2: V)
    ensures Put(Put(m, k, v1), k, v2) == Put(m, k, v2)
  {
    if m != [] && m[0].0 != k {
      PutOverwrites(m[1..], k, v1, v2);
    }
  }

  /** Writing an existing key keeps the size and the position of every key. */
  lemma {:induction false} PutExistingInPlace<K, V>(m: OMap<K, V>, k: K, v: V, i: nat)
    requires i < |m| && m[i].0 == k && UniqueKeys(m)
    ensures Put(m, k, v) == m[i := (k, v)]
  {
    if i > 0 {
      assert m[0].0 != k;
      PutExistingInPlace(m[1..], k, v, i - 1);
      assert m[1..][i - 1 := (k, v)] == m[i := (k, v)][1..];
    }
  }

  /** Writing a new key appends it at the end. */
  lemma {:induction false} PutNewAppends<K, V>(m: OMap<K, V>, k: K, v: V)
    requires k !in Keys(m)
    ensures Put(m, k, v) == m + [(k, v)]
  {
    if m != [] {
      assert m[0].0 != k by {
        assert Keys(m)[0] == m[0].0;
      }
      assert k !in Keys(m[1..]) by {
        assert Keys(m[1..]) == Keys(m)[1..];
      }
      PutNewAppends(m[1..], k, v);
      assert [m[0]] + (m[1..] + [(k, v)]) == m + [(k, v)];
    }
  }

  /** Putting pairs with new, distinct keys appends them in their order. */
  lemma {:induction false} PutAllFreshAppends<K, V>(m: OMap<K, V>, es: OMap<K, V>)
    requires UniqueKeys(es)
    requires forall i :: 0 <= i < |es| ==> es[i].0 !in Keys(m)
    ensures PutAll(m, es) == m + es
    decreases |es|
  {
    if es != [] {
      PutNewAppends(m, es[0].0, es[0].1);
      var m' := m + [es[0]];
      forall i | 0 <= i < |es[1..]| ensures es[1..][i].0 !in Keys(m') {
        assert es[1..][i] == es[i + 1];
        assert Keys(m') == Keys(m) + [es[0].0];
      }
      PutAllFreshAppends(m', es[1..]);
      assert m' + es[1..] == m + es;
    }
  }

  // ---------------------------------------------------------------- Forget

  lemma {:induction false} ForgetIsWithout<K, V>(m: OMap<K, V>, k: K)
    ensures Forget(m, k) == Without(m, {k})
  {
    if m != [] {
      ForgetIsWithout(m[1..], k);
    }
  }

  /** Forgetting a key that is not present changes nothing. */
  lemma ForgetAbsent<K, V>(m: OMap<K, V>, k: K)
    requires k !in Keys(m)
    ensures Forget(m, k) == m
  {
    ForgetIsWithout(m, k);
    WithoutAbsent(m, {k});
  }

  lemma {:induction false} WithoutTwice<K, V>(m: OMap<K, V>, a: set<K>, b: set<K>)
    ensures Without(Without(m, a), b) == Without(m, a + b)
  {
    if m != [] {
      WithoutTwice(m[1..], a, b);
      var head := if m[0].0 in a then [] else [m[0]];
      WithoutConcat(head, Without(m[1..], a), b);
    }
  }

  lemma {:induction false} WithoutConcat<K, V>(x: OMap<K, V>, y: OMap<K, V>, ks: set<K>)
    ensures Without(x + y, ks) == Without(x, ks) + Without(y, ks)
  {
    if x == [] {
      assert x + y == y;
    } else {
      assert (x + y)[0] == x[0];
      assert (x + y)[1..] == x[1..] + y;
      WithoutConcat(x[1..], y, ks);
    }
  }

  /** Forgetting keys one at a time is the single filtering pass. */
  lemma {:induction false} ForgetAllIsWithout<K, V>(m: OMap<K, V>, ks: seq<K>)
    ensures ForgetAll(m, ks) == Without(m, set k | k in ks)
    decreases |ks|
  {
    if ks == [] {
      assert (set k | k in ks) == {};
      WithoutNothing(m);
    } else {
      ForgetIsWithout(m, ks[0]);
      ForgetAllIsWithout(Forget(m, ks[0]), ks[1..]);
      WithoutTwice(m, {ks[0]}, set k | k in ks[1..]);
      assert {ks[0]} + (set k | k in ks[1..]) == set k | k in ks;
    }
  }

  lemma {:induction false} WithoutNothing<K, V>(m: OMap<K, V>)
    ensures Without(m, {}) == m
  {
    if m != [] {
      WithoutNothing(m[1..]);
    }
  }

  /** Removal drops exactly the named keys and leaves every other lookup as it was. */
  lemma {:induction false} GetWithout<K, V>(m: OMap<K, V>, ks: set<K>, k: K)
    ensures Get(Without(m, ks), k) == if k in ks then None else Get(m, k)
  {
    if m != [] {
      GetWithout(m[1..], ks, k);
      var rest := Without(m[1..], ks);
      if m[0].0 in ks {
        assert Without(m, ks) == rest;
      } else {
        assert Without(m, ks) == [m[0]] + rest;
        assert ([m[0]] + rest)[1..] == rest;
      }
    }
  }

  /** Keys that are not present are a no-op. */
  lemma {:induction false} WithoutAbsent<K, V>(m: OMap<K, V>, ks: set<K>)
    requires forall k :: k in ks ==> k !in Keys(m)
    ensures Without(m, ks) == m
  {
    if m != [] {
      assert Keys(m)[0] == m[0].0;
      assert Keys(m[1..]) == Keys(m)[1..];
      WithoutAbsent(m[1..], ks);
    }
  }

  /** The entries that survive removal keep their relative order: the result is a filter of `m`. */
  lemma {:induction false} WithoutKeepsOrder<K, V>(m: OMap<K, V>, ks: set<K>, i: nat, j: nat)
    requires i < j < |m| && m[i].0 !in ks && m[j].0 !in ks
    ensures |Without(m[..j], ks)| < |Without(m[..j + 1], ks)|
    ensures Without(m[..j + 1], ks) == Without(m[..j], ks) + [m[j]]
    ensures m[i] in Without(m[..j], ks)
  {
    assert m[..j + 1] == m[..j] + [m[j]];
    WithoutConcat(m[..j], [m[j]], ks);
    assert Without([m[j]], ks) == [m[j]] + Without([], ks);
    WithoutContains(m[..j], ks, i);
  }

  lemma {:induction false} WithoutContains<K, V>(m: OMap<K, V>, ks: set<K>, i: nat)
    requires i < |m| && m[i].0 !in ks
    ensures m[i] in Without(m, ks)
  {
    if i > 0 {
      WithoutContains(m[1..], ks, i - 1);
    }
  }

  lemma {:induction false} WithoutKeepsUnique<K, V>(m: OMap<K, V>, ks: set<K>)
    requires UniqueKeys(m)
    ensures UniqueKeys(Without(m, ks))
    ensures forall e :: e in Without(m, ks) ==> e in m
  {
    if m != [] {
      WithoutKeepsUnique(m[1..], ks);
      var rest := Without(m[1..], ks);
      forall e | e in rest ensures e.0 != m[0].0 {
        var j :| 0 <= j < |m[1..]| && m[1..][j] == e;
        assert m[j + 1] == e;
      }
    }
  }
}
