/**
 * Java-level building blocks shared by the whole model: nullable values,
 * the range of Java's `int`, Java's truncating division, `Map.getOrDefault`
 * and the sum of the values of a map.
 */
module Base {

  /** A Java reference that may be null. */
  datatype Option<T> = None | Some(value: T)

  const MinInt32: int := -0x8000_0000
  const MaxInt32: int := 0x7fff_ffff

  /** The values a Java `int` can hold. */
  predicate IsInt32(x: int) {
    MinInt32 <= x <= MaxInt32
  }

  /** Two's-complement wrap-around of a Java `int` computation. */
  function Wrap32(x: int): (r: int)
    ensures IsInt32(r)
    ensures IsInt32(x) ==> r == x
  {
    (x - MinInt32) % 0x1_0000_0000 + MinInt32
  }

  function Abs(x: int): nat {
    if x < 0 then -x else x
  }

  /** Java's `/` on `int`: the quotient is truncated toward zero. */
  function JavaDiv(a: int, b: int): (q: int)
    requires b != 0
    ensures a >= 0 && b > 0 ==> q == a / b
    ensures a < 0 && b > 0 ==> q == -((-a) / b)
  {
    var q := Abs(a) / Abs(b);
    if (a < 0) != (b < 0) then -q else q
  }

  /** Java's `%` on `int`: the remainder takes the sign of the dividend. */
  function JavaRem(a: int, b: int): (r: int)
    requires b != 0
    ensures a >= 0 && b > 0 ==> r == a % b
    ensures a < 0 && b > 0 ==> -b < r <= 0
  {
    a - b * JavaDiv(a, b)
  }

  /** `Map.getOrDefault(k, d)`. */
  function GetOrDefault<K, V>(m: map<K, V>, k: K, d: V): (v: V)
    ensures k in m ==> v == m[k]
    ensures k !in m ==> v == d
  {
    if k in m then m[k] else d
  }

  /** The sum of all values of a map, in no particular order. */
  ghost function MapSum<K>(m: map<K, int>): int
    decreases |m|
  {
    if |m| == 0 then 0
    else
      var k :| k in m;
      assert (m - {k}).Keys == m.Keys - {k};
      m[k] + MapSum(m - {k})
  }

  /** The key that the definition of MapSum takes out first. */
  lemma MapSumChoice<K>(m: map<K, int>) returns (j: K)
    requires |m| > 0
    ensures j in m && MapSum(m) == m[j] + MapSum(m - {j})
  {
    j :| j in m && MapSum(m) == m[j] + MapSum(m - {j});
  }

  /** The sum does not depend on which key is taken out first. */
  lemma {:induction false} MapSumRemove<K>(m: map<K, int>, k: K)
    requires k in m
    ensures MapSum(m) == m[k] + MapSum(m - {k})
    decreases |m|
  {
    var j := MapSumChoice(m);
    if j != k {
      assert (m - {j}).Keys == m.Keys - {j};
      assert (m - {k}).Keys == m.Keys - {k};
      MapSumRemove(m - {j}, k);
      MapSumRemove(m - {k}, j);
      assert m - {j} - {k} == m - {k} - {j};
    }
  }

  /** Overwriting one entry changes the sum by the difference of the values. */
  lemma MapSumUpdate<K>(m: map<K, int>, k: K, v: int)
    ensures MapSum(m[k := v]) == MapSum(m) - GetOrDefault(m, k, 0) + v
  {
    MapSumRemove(m[k := v], k);
    assert m[k := v] - {k} == m - {k};
    if k in m {
      MapSumRemove(m, k);
    } else {
      assert m - {k} == m;
    }
  }

  /** The entries of `m` whose keys are in `ks`. */
  function Within<K>(m: map<K, int>, ks: set<K>): map<K, int> {
    map k | k in m && k in ks :: m[k]
  }

  /** The entries of `m` whose keys are not in `ks`. */
  function Outside<K>(m: map<K, int>, ks: set<K>): map<K, int> {
    map k | k in m && k !in ks :: m[k]
  }

  /** Taking out a key of `ks` takes it out of the inner part only. */
  lemma WithinRemove<K>(m: map<K, int>, ks: set<K>, k: K)
    requires k in m && k in ks
    ensures k in Within(m, ks) && Within(m, ks)[k] == m[k]
    ensures Within(m, ks) - {k} == Within(m - {k}, ks)
    ensures Outside(m, ks) == Outside(m - {k}, ks)
  {
  }

  /** Taking out a key outside `ks` takes it out of the outer part only. */
  lemma OutsideRemove<K>(m: map<K, int>, ks: set<K>, k: K)
    requires k in m && k !in ks
    ensures k in Outside(m, ks) && Outside(m, ks)[k] == m[k]
    ensures Outside(m, ks) - {k} == Outside(m - {k}, ks)
    ensures Within(m, ks) == Within(m - {k}, ks)
  {
  }

  /** The sum of a map is the sum over any set of its keys plus the sum over
      the others. */
  lemma {:induction false} MapSumSplit<K>(m: map<K, int>, ks: set<K>)
    ensures MapSum(m) == MapSum(Within(m, ks)) + MapSum(Outside(m, ks))
    decreases |m|
  {
    if |m| == 0 {
      assert Within(m, ks) == map[] && Outside(m, ks) == map[];
    } else {
      var k :| k in m;
      MapSumRemove(m, k);
      MapSumSplit(m - {k}, ks);
      if k in ks {
        WithinRemove(m, ks, k);
        MapSumRemove(Within(m, ks), k);
      } else {
        OutsideRemove(m, ks, k);
        MapSumRemove(Outside(m, ks), k);
      }
    }
  }
}
