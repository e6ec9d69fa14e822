/** Sums and maxima over the values of a map, as folds of a commutative monoid. */
module Folds {

  ghost predicate CommutativeMonoid<V(!new)>(combine: (V, V) -> V, unit: V) {
    && (forall a, b :: combine(a, b) == combine(b, a))
    && (forall a, b, c :: combine(combine(a, b), c) == combine(a, combine(b, c)))
    && (forall a :: combine(unit, a) == a)
  }

  ghost function Pick<K, V>(m: map<K, V>): (k: K)
    requires m != map[]
    ensures k in m
  {
    var k :| k in m;
    k
  }

  ghost function Fold<K, V>(m: map<K, V>, combine: (V, V) -> V, unit: V): V
    decreases |m|
  {
    if m == map[] then unit else combine(m[Pick(m)], Fold(m - {Pick(m)}, combine, unit))
  }

  lemma Exchange<V(!new)>(combine: (V, V) -> V, unit: V, a: V, b: V, x: V)
    requires CommutativeMonoid(combine, unit)
    ensures combine(a, combine(b, x)) == combine(b, combine(a, x))
  {
    assert combine(combine(a, b), x) == combine(combine(b, a), x);
  }

  lemma {:induction false} FoldRemove<K, V(!new)>(m: map<K, V>, combine: (V, V) -> V, unit: V, k: K)
    requires CommutativeMonoid(combine, unit) && k in m
    ensures Fold(m, combine, unit) == combine(m[k], Fold(m - {k}, combine, unit))
    decreases |m|
  {
    hide CommutativeMonoid;
    var p := Pick(m);
    if p != k {
      var rest := m - {p} - {k};
      FoldRemove(m - {p}, combine, unit, k);
      FoldRemove(m - {k}, combine, unit, p);
      assert m - {k} - {p} == rest;
      Exchange(combine, unit, m[p], m[k], Fold(rest, combine, unit));
    }
  }

  /** Replacing one entry replaces its contribution. */
  lemma FoldUpdate<K, V(!new)>(m: map<K, V>, combine: (V, V) -> V, unit: V, k: K, v: V)
    requires CommutativeMonoid(combine, unit)
    ensures Fold(m[k := v], combine, unit) == combine(v, Fold(m - {k}, combine, unit))
    ensures k in m ==> Fold(m, combine, unit) == combine(m[k], Fold(m - {k}, combine, unit))
    ensures k !in m ==> m - {k} == m
  {
    hide CommutativeMonoid, Fold;
    FoldRemove(m[k := v], combine, unit, k);
    assert m[k := v] - {k} == m - {k};
    if k in m {
      FoldRemove(m, combine, unit, k);
    } else {
      assert m - {k} == m;
    }
  }

  const ADD: (nat, nat) -> nat := (a: nat, b: nat) => a + b

  lemma AddIsMonoid()
    ensures CommutativeMonoid(ADD, 0)
  {}

  ghost function Sum<K>(m: map<K, nat>): nat {
    Fold(m, ADD, 0)
  }

  function Get<K>(m: map<K, nat>, k: K): nat {
    if k in m then m[k] else 0
  }

  /** A counter of one more occurrence of `k`. */
  function Bump<K>(m: map<K, nat>, k: K): map<K, nat> {
    m[k := Get(m, k) + 1]
  }

  lemma SumUpdate<K>(m: map<K, nat>, k: K, v: nat)
    ensures Sum(m[k := v]) + Get(m, k) == Sum(m) + v
  {
    AddIsMonoid();
    hide CommutativeMonoid, Fold;
    FoldUpdate(m, ADD, 0, k, v);
  }
}
