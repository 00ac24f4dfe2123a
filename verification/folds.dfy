/**
 Folds over the values of a finite map: the sums and products that the
 classifier takes over Python dictionaries (`sum(d.values())`, the product of
 per-word factors).  A dictionary has no order that matters to these folds, so
 each is defined by removing an arbitrary key; the `Remove` lemmas show that the
 choice of key does not matter to the sums.
 */
module Folds {

  /** Some key of a non-empty map. */
  ghost function PickKey<K, V>(m: map<K, V>): (k: K)
    requires |m| > 0
    ensures k in m
  {
    assert m.Keys != {} by {
      assert |m.Keys| == |m|;
    }
    var k :| k in m.Keys;
    k
  }

  lemma RemoveKeySize<K, V>(m: map<K, V>, k: K)
    requires k in m
    ensures |m - {k}| == |m| - 1
  {
    assert (m - {k}).Keys == m.Keys - {k};
    assert |m.Keys - {k}| == |m.Keys| - 1;
  }

  /** `sum(m.values())` for a dictionary of counts. */
  ghost function SumNat<K>(m: map<K, nat>): nat
    decreases |m|
  {
    if |m| == 0 then 0
    else
      var k := PickKey(m);
      RemoveKeySize(m, k);
      m[k] + SumNat(m - {k})
  }

  /** `sum(m.values())` for a dictionary of probabilities. */
  ghost function SumReal<K>(m: map<K, real>): real
    decreases |m|
  {
    if |m| == 0 then 0.0
    else
      var k := PickKey(m);
      RemoveKeySize(m, k);
      m[k] + SumReal(m - {k})
  }

  /**
   `op` folded over the values of `m` from `unit`, taking an arbitrary key
   first; `FoldRemove` shows the choice does not matter when `op` lets its
   left operands trade places.
   */
  ghost function Fold<K>(m: map<K, real>, unit: real, op: (real, real) -> real): real
    decreases |m|
  {
    if |m| == 0 then unit
    else
      var k := PickKey(m);
      RemoveKeySize(m, k);
      op(m[k], Fold(m - {k}, unit, op))
  }

  /** `op(x, op(y, z)) == op(y, op(x, z))`: true of `+` and `*`. */
  ghost predicate Exchanges(op: (real, real) -> real)
  {
    forall x, y, z :: op(x, op(y, z)) == op(y, op(x, z))
  }

  lemma {:induction false} FoldRemove<K>(m: map<K, real>, k: K, unit: real, op: (real, real) -> real)
    requires k in m && Exchanges(op)
    ensures Fold(m, unit, op) == op(m[k], Fold(m - {k}, unit, op))
    decreases |m|
  {
    var j := PickKey(m);
    RemoveKeySize(m, j);
    RemoveKeySize(m, k);
    assert Fold(m, unit, op) == op(m[j], Fold(m - {j}, unit, op));
    if j != k {
      var rest := m - {j} - {k};
      assert rest == m - {k} - {j};
      FoldRemove(m - {j}, k, unit, op);
      FoldRemove(m - {k}, j, unit, op);
      var r := Fold(rest, unit, op);
      ExchangeAt(op, m[j], m[k], r);
    }
  }

  lemma ExchangeAt(op: (real, real) -> real, x: real, y: real, z: real)
    requires Exchanges(op)
    ensures op(x, op(y, z)) == op(y, op(x, z))
  {
  }


  function Times(x: real, y: real): real
  {
    x * y
  }

  /** The product of all values of `m` (1 for the empty map). */
  ghost function Product<K>(m: map<K, real>): real
  {
    Fold(m, 1.0, Times)
  }

  /** Any factor can be split off the product: the order of the factors does not matter. */
  lemma ProductRemove<K>(m: map<K, real>, k: K)
    requires k in m
    ensures Product(m) == Times(m[k], Product(m - {k}))
  {
    TimesExchanges();
    FoldRemove(m, k, 1.0, Times);
    assert Fold(m, 1.0, Times) == Times(m[k], Fold(m - {k}, 1.0, Times));
  }

  /** `ProductRemove` with the factor written as a multiplication. */
  lemma ProductSplit<K>(m: map<K, real>, k: K)
    requires k in m
    ensures Product(m) == m[k] * Product(m - {k})
  {
    ProductRemove(m, k);
    TimesMul(m[k], Product(m - {k}));
  }

  lemma TimesMul(x: real, y: real)
    ensures Times(x, y) == x * y
  {
  }

  lemma TimesExchanges()
    ensures Exchanges(Times)
  {
    forall x, y, z
      ensures Times(x, Times(y, z)) == Times(y, Times(x, z))
    {
      MulExchange(x, y, z);
    }
  }

  lemma MulExchange(x: real, y: real, z: real)
    ensures x * (y * z) == y * (x * z)
  {
  }

  /** A product of factors in (0, 1] lies in (0, 1]. */
  lemma {:induction false} ProductInUnit<K>(m: map<K, real>)
    requires forall k :: k in m ==> 0.0 < m[k] <= 1.0
    ensures 0.0 < Product(m) <= 1.0
    decreases |m|
  {
    if |m| == 0 {
      assert Product(m) == Fold(m, 1.0, Times) == 1.0;
    } else {
      var k := PickKey(m);
      RemoveKeySize(m, k);
      ProductInUnit(m - {k});
      var x, rest := m[k], Product(m - {k});
      ProductSplit(m, k);
      MulInUnit(x, rest);
      assert 0.0 < rest;
      assert 0.0 < x * rest;
      assert Product(m) == x * rest;
    }
  }

  lemma MulInUnit(a: real, b: real)
    requires 0.0 < a <= 1.0 && 0.0 < b <= 1.0
    ensures 0.0 < a * b <= 1.0
  {
    assert a * b <= 1.0 * b;
  }

  lemma {:induction false} SumNatRemove<K>(m: map<K, nat>, k: K)
    requires k in m
    ensures SumNat(m) == m[k] + SumNat(m - {k})
    decreases |m|
  {
    var j := PickKey(m);
    RemoveKeySize(m, j);
    RemoveKeySize(m, k);
    if j != k {
      SumNatRemove(m - {j}, k);
      SumNatRemove(m - {k}, j);
      assert m - {j} - {k} == m - {k} - {j};
    }
  }

  lemma {:induction false} SumRealRemove<K>(m: map<K, real>, k: K)
    requires k in m
    ensures SumReal(m) == m[k] + SumReal(m - {k})
    decreases |m|
  {
    var j := PickKey(m);
    RemoveKeySize(m, j);
    RemoveKeySize(m, k);
    if j != k {
      SumRealRemove(m - {j}, k);
      SumRealRemove(m - {k}, j);
      assert m - {j} - {k} == m - {k} - {j};
    }
  }

  /** A map over the indices `0..n` sums to its restriction to `0..n-1` plus entry `n`. */
  lemma SumNatExtend(m: map<int, nat>, prefix: map<int, nat>, n: nat)
    requires forall i :: i in m <==> 0 <= i <= n
    requires forall i :: i in prefix <==> 0 <= i < n
    requires forall i :: i in prefix ==> prefix[i] == m[i]
    ensures SumNat(m) == SumNat(prefix) + m[n]
  {
    SumNatRemove(m, n);
    assert (m - {n}).Keys == prefix.Keys by {
      forall i
        ensures i in (m - {n}).Keys <==> i in prefix.Keys
      {
        assert i in m - {n} <==> i in m && i != n;
      }
    }
    forall i | i in prefix
      ensures (m - {n})[i] == prefix[i]
    {
    }
    assert m - {n} == prefix;
  }

  /** Adding one to every count adds the number of keys to the sum. */
  lemma {:induction false} SumNatPlusOne<K>(a: map<K, nat>, m: map<K, nat>)
    requires a.Keys == m.Keys
    requires forall k :: k in a ==> a[k] == m[k] + 1
    ensures SumNat(a) == SumNat(m) + |m|
    decreases |a|
  {
    assert |a| == |a.Keys| == |m.Keys| == |m|;
    if |a| != 0 {
      var k := PickKey(a);
      RemoveKeySize(a, k);
      RemoveKeySize(m, k);
      assert (a - {k}).Keys == (m - {k}).Keys;
      SumNatPlusOne(a - {k}, m - {k});
      SumNatRemove(m, k);
    }
  }

  /** `x / f` over the reals. */
  function Ratio(x: nat, f: real): real
    requires f > 0.0
  {
    x as real / f
  }

  /** Dividing every count by the same `f` divides the sum by `f`. */
  lemma {:induction false} SumRealOver<K>(a: map<K, nat>, t: map<K, real>, f: real)
    requires f > 0.0
    requires a.Keys == t.Keys
    requires forall k :: k in t ==> t[k] == Ratio(a[k], f)
    ensures SumReal(t) == Ratio(SumNat(a), f)
    decreases |t|
  {
    assert |a| == |a.Keys| == |t.Keys| == |t|;
    if |t| != 0 {
      var k := PickKey(t);
      RemoveKeySize(t, k);
      RemoveKeySize(a, k);
      assert (a - {k}).Keys == (t - {k}).Keys;
      SumRealOver(a - {k}, t - {k}, f);
      SumNatRemove(a, k);
      RatioSum(a[k], SumNat(a - {k}), SumNat(a), f);
    }
  }

  /** `x/f + y/f == (x+y)/f`. */
  lemma RatioSum(x: nat, y: nat, sum: nat, f: real)
    requires f > 0.0 && sum == x + y
    ensures Ratio(x, f) + Ratio(y, f) == Ratio(sum, f)
  {
    assert x as real / f + y as real / f == (x as real + y as real) / f;
  }

  /** Removing the updated key forgets the update. */
  lemma UpdateRemove<K>(m: map<K, nat>, k: K, v: nat)
    ensures m[k := v] - {k} == m - {k}
    ensures k !in m ==> m - {k} == m
  {
  }

  /** Changing one entry changes the sum by the difference. */
  lemma SumNatUpdate<K>(m: map<K, nat>, k: K, v: nat)
    ensures SumNat(m[k := v]) + (if k in m then m[k] else 0) == SumNat(m) + v
  {
    SumNatRemove(m[k := v], k);
    UpdateRemove(m, k, v);
    if k in m {
      SumNatRemove(m, k);
    }
  }

  /** Entry-wise smaller counts over fewer keys have a smaller sum. */
  lemma {:induction false} SumNatMonotone<K>(m: map<K, nat>, n: map<K, nat>)
    requires forall k :: k in m ==> k in n && m[k] <= n[k]
    ensures SumNat(m) <= SumNat(n)
    decreases |m|
  {
    if |m| != 0 {
      var k := PickKey(m);
      RemoveKeySize(m, k);
      SumNatRemove(m, k);
      SumNatRemove(n, k);
      SumNatMonotone(m - {k}, n - {k});
    }
  }

  /** Every single count is bounded by the total. */
  lemma SumNatBounds<K>(m: map<K, nat>)
    ensures forall k :: k in m ==> m[k] <= SumNat(m) && 1 <= |m|
  {
    forall k | k in m
      ensures m[k] <= SumNat(m) && 1 <= |m|
    {
      SumNatRemove(m, k);
      RemoveKeySize(m, k);
    }
  }

  lemma {:induction false} SumNatZero<K>(m: map<K, nat>)
    requires forall k :: k in m ==> m[k] == 0
    ensures SumNat(m) == 0
    decreases |m|
  {
    if |m| != 0 {
      var k := PickKey(m);
      RemoveKeySize(m, k);
      SumNatZero(m - {k});
    }
  }

  /** `Σ m[keys[i]]` along a sequence of keys. */
  function SumAlong<K>(m: map<K, nat>, keys: seq<K>): nat
    requires forall i :: 0 <= i < |keys| ==> keys[i] in m
  {
    if keys == [] then 0
    else SumAlong(m, keys[..|keys| - 1]) + m[keys[|keys| - 1]]
  }

  ghost predicate Distinct<K>(keys: seq<K>)
  {
    forall i, j :: 0 <= i < j < |keys| ==> keys[i] != keys[j]
  }

  /** Summing a dictionary equals summing it along any duplicate-free listing of its keys. */
  lemma {:induction false} SumNatAlong<K>(m: map<K, nat>, keys: seq<K>)
    requires Distinct(keys)
    requires forall k :: k in m <==> k in keys
    ensures SumNat(m) == SumAlong(m, keys)
    decreases |keys|
  {
    if keys == [] {
      assert m.Keys == {};
    } else {
      var n := |keys| - 1;
      var last := keys[n];
      var prefix := keys[..n];
      var rest := m - {last};
      DropLastKey(m, keys, rest, prefix);
      SumNatAlong(rest, prefix);
      SumNatRemove(m, last);
      SumAlongAgree(m, rest, prefix);
    }
  }

  /** Removing the last listed key leaves a dictionary listed by the other keys. */
  lemma DropLastKey<K>(m: map<K, nat>, keys: seq<K>, rest: map<K, nat>, prefix: seq<K>)
    requires Distinct(keys) && keys != []
    requires forall k :: k in m <==> k in keys
    requires rest == m - {keys[|keys| - 1]} && prefix == keys[..|keys| - 1]
    ensures Distinct(prefix)
    ensures forall k :: k in rest <==> k in prefix
    ensures forall i :: 0 <= i < |prefix| ==> prefix[i] in m && prefix[i] in rest && m[prefix[i]] == rest[prefix[i]]
  {
    var n := |keys| - 1;
    assert keys == prefix + [keys[n]];
    forall k
      ensures k in rest <==> k in prefix
    {
      if k in prefix {
        var i :| 0 <= i < n && prefix[i] == k;
        assert keys[i] == k;
      }
    }
  }

  /** A dictionary with exactly two keys sums to their two values. */
  /** A list without repetitions is its prefix, still without repetitions, and a last element not in the prefix. */
  lemma LastMembers<T>(s: seq<T>)
    requires s != [] && Distinct(s)
    ensures forall x :: x in s <==> x in s[..|s| - 1] || x == s[|s| - 1]
    ensures Distinct(s[..|s| - 1]) && s[|s| - 1] !in s[..|s| - 1]
  {
    assert s == s[..|s| - 1] + [s[|s| - 1]];
  }

  lemma SumTwo<K>(m: map<K, nat>, a: K, b: K)
    requires a != b && a in m && b in m
    requires forall k :: k in m ==> k == a || k == b
    ensures SumNat(m) == m[a] + m[b]
  {
    assert Distinct([a, b]);
    assert [a, b][..1] == [a] && [a][..0] == [];
    SumNatAlong(m, [a, b]);
    assert SumAlong(m, [a]) == m[a];
  }

  lemma {:induction false} SumAlongAgree<K>(m: map<K, nat>, m': map<K, nat>, keys: seq<K>)
    requires forall i :: 0 <= i < |keys| ==> keys[i] in m && keys[i] in m' && m[keys[i]] == m'[keys[i]]
    ensures SumAlong(m, keys) == SumAlong(m', keys)
    decreases |keys|
  {
    if keys != [] {
      SumAlongAgree(m, m', keys[..|keys| - 1]);
    }
  }
}
