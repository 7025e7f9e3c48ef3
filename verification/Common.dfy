/** Types shared by the escrow manager and the receipt protocol. */
module Common {
  datatype Option<+T> = None | Some(value: T)

  datatype Result<+T, +E> = Ok(value: T) | Err(error: E)

  /** A 20-byte address; addresses are ordered the way the source's sorted maps order them. */
  type Address = nat

  const U128_MAX: nat := 0xffff_ffff_ffff_ffff_ffff_ffff_ffff_ffff

  function Max(a: int, b: int): int {
    if a < b then b else a
  }

  function Min(a: int, b: int): int {
    if a < b then a else b
  }

  /** Subtraction on unsigned integers that stops at zero. */
  function SaturatingSub(a: nat, b: nat): nat {
    if a < b then 0 else a - b
  }

  /** The keys of a sorted map, in iteration order. */
  predicate StrictlyAscending(keys: seq<Address>) {
    forall i, j :: 0 <= i < j < |keys| ==> keys[i] < keys[j]
  }

  predicate Distinct<T(==)>(s: seq<T>) {
    forall i, j :: 0 <= i < j < |s| ==> s[i] != s[j]
  }

  lemma {:induction false} DistinctCounts<T>(s: seq<T>)
    ensures Distinct(s) <==> forall x :: multiset(s)[x] <= 1
  {
    if s != [] {
      var n := |s| - 1;
      DistinctCounts(s[..n]);
      assert s == s[..n] + [s[n]];
      assert multiset(s) == multiset(s[..n]) + multiset{s[n]};
      if Distinct(s) {
        assert s[n] !in s[..n];
        assert forall x :: multiset(s)[x] <= 1;
      } else if Distinct(s[..n]) {
        assert s[n] in s[..n];
        assert multiset(s)[s[n]] == 2;
      } else {
        var x :| multiset(s[..n])[x] > 1;
        assert multiset(s)[x] > 1;
      }
    }
  }

  function Sum(s: seq<nat>): nat {
    if s == [] then 0 else Sum(s[..|s| - 1]) + s[|s| - 1]
  }

  lemma SumAppend(s: seq<nat>, x: nat)
    ensures Sum(s + [x]) == Sum(s) + x
  {
  }

  lemma {:induction false} SumConcat(s: seq<nat>, t: seq<nat>)
    ensures Sum(s + t) == Sum(s) + Sum(t)
  {
    if t == [] {
      assert s + t == s;
    } else {
      SumConcat(s, t[..|t| - 1]);
      assert s + t == (s + t[..|t| - 1]) + [t[|t| - 1]];
      SumAppend(s + t[..|t| - 1], t[|t| - 1]);
    }
  }

  lemma {:induction false} SumUpdate(s: seq<nat>, i: nat, x: nat)
    requires i < |s|
    ensures Sum(s[i := x]) == Sum(s) - s[i] + x
  {
    var n := |s| - 1;
    if i == n {
      assert s[i := x][..n] == s[..n];
    } else {
      SumUpdate(s[..n], i, x);
      assert s[i := x][..n] == s[..n][i := x];
    }
  }

  lemma {:induction false} SumMonotone(s: seq<nat>, t: seq<nat>)
    requires |s| == |t| && forall i :: 0 <= i < |s| ==> s[i] <= t[i]
    ensures Sum(s) <= Sum(t)
    ensures Sum(s) < Sum(t) <==> exists i :: 0 <= i < |s| && s[i] < t[i]
  {
    if s != [] {
      var n := |s| - 1;
      SumMonotone(s[..n], t[..n]);
      if i :| 0 <= i < |s| && s[i] < t[i] {
        assert i < n ==> s[..n][i] < t[..n][i];
      }
    }
  }

  function Filter<T>(s: seq<T>, keep: T -> bool): seq<T> {
    if s == [] then []
    else
      var kept, last := Filter(s[..|s| - 1], keep), s[|s| - 1];
      if keep(last) then kept + [last] else kept
  }

  lemma {:induction false} FilterCounts<T>(s: seq<T>, keep: T -> bool, x: T)
    ensures multiset(Filter(s, keep))[x] == if keep(x) then multiset(s)[x] else 0
    ensures x in Filter(s, keep) <==> x in s && keep(x)
  {
    if s != [] {
      var n := |s| - 1;
      FilterCounts(s[..n], keep, x);
      assert s == s[..n] + [s[n]];
    }
  }

  /** The next element of a collection whose iteration order is not relied upon. */
  method AnyOf<T>(s: set<T>) returns (x: T)
    requires s != {}
    ensures x in s
  {
    x :| x in s;
  }

  // ---------- Sums over sequences and maps ----------

  function SumBy<T>(s: seq<T>, f: T -> nat): nat {
    if s == [] then 0 else SumBy(s[..|s| - 1], f) + f(s[|s| - 1])
  }

  lemma SumByAppend<T>(s: seq<T>, x: T, f: T -> nat)
    ensures SumBy(s + [x], f) == SumBy(s, f) + f(x)
  {
  }

  lemma {:induction false} SumByConcat<T>(s: seq<T>, t: seq<T>, f: T -> nat)
    ensures SumBy(s + t, f) == SumBy(s, f) + SumBy(t, f)
  {
    if t == [] {
      assert s + t == s;
    } else {
      SumByConcat(s, t[..|t| - 1], f);
      assert s + t == (s + t[..|t| - 1]) + [t[|t| - 1]];
      SumByAppend(s + t[..|t| - 1], t[|t| - 1], f);
    }
  }

  lemma MultisetWithout<T>(t: seq<T>, i: nat)
    requires i < |t|
    ensures multiset(t[..i] + t[i + 1..]) == multiset(t) - multiset{t[i]}
  {
    var head, tail := t[..i], t[i + 1..];
    assert t == head + ([t[i]] + tail);
    assert multiset(t) == multiset(head) + (multiset{t[i]} + multiset(tail));
    assert multiset(head + tail) == multiset(head) + multiset(tail);
  }

  /** The position of a sequence's last element in a rearrangement of it. */
  lemma TakeOut<T>(s: seq<T>, t: seq<T>) returns (i: nat)
    requires s != [] && multiset(s) == multiset(t)
    ensures i < |t| && t[i] == s[|s| - 1]
    ensures multiset(t[..i] + t[i + 1..]) == multiset(s[..|s| - 1])
  {
    var n := |s| - 1;
    assert s[n] in multiset(s);
    assert s[n] in t;
    i :| 0 <= i < |t| && t[i] == s[n];
    MultisetWithout(t, i);
    MultisetWithout(s, n);
    assert s[..n] + s[n + 1..] == s[..n];
  }

  lemma {:induction false} SumByPermutation<T>(s: seq<T>, t: seq<T>, f: T -> nat)
    requires multiset(s) == multiset(t)
    ensures SumBy(s, f) == SumBy(t, f)
  {
    if s == [] {
      assert |multiset(t)| == 0;
    } else {
      var i := TakeOut(s, t);
      SumByPermutation(s[..|s| - 1], t[..i] + t[i + 1..], f);
      SumByConcat(t[..i], t[i + 1..], f);
      SumByConcat(t[..i], [t[i]], f);
      SumByConcat(t[..i] + [t[i]], t[i + 1..], f);
      SumByAppend([], t[i], f);
      assert t == t[..i] + [t[i]] + t[i + 1..];
      assert [] + [t[i]] == [t[i]];
    }
  }

  ghost function MapSum<K(!new)>(m: map<K, nat>): nat {
    if m == map[] then 0 else var k :| k in m; m[k] + MapSum(m - {k})
  }

  lemma {:induction false} MapSumRemove<K(!new)>(m: map<K, nat>, k: K)
    requires k in m
    ensures MapSum(m) == m[k] + MapSum(m - {k})
    decreases |m|
  {
    var j :| j in m && MapSum(m) == m[j] + MapSum(m - {j});
    if j != k {
      MapSumRemove(m - {j}, k);
      MapSumRemove(m - {k}, j);
      assert m - {j} - {k} == m - {k} - {j};
    }
  }

  lemma MapSumUpdate<K(!new)>(m: map<K, nat>, k: K, v: nat)
    ensures MapSum(m[k := v]) == MapSum(m) + v - if k in m then m[k] else 0
  {
    MapSumRemove(m[k := v], k);
    assert m[k := v] - {k} == m - {k};
    if k in m { MapSumRemove(m, k); } else { assert m - {k} == m; }
  }

  /** The values of a map, as many times as they occur. */
  ghost function Values<K(!new), V>(m: map<K, V>): multiset<V> {
    if m == map[] then multiset{} else var k :| k in m; multiset{m[k]} + Values(m - {k})
  }

  lemma {:induction false} ValuesRemove<K(!new), V>(m: map<K, V>, k: K)
    requires k in m
    ensures Values(m) == multiset{m[k]} + Values(m - {k})
    decreases |m|
  {
    var j :| j in m && Values(m) == multiset{m[j]} + Values(m - {j});
    if j != k {
      ValuesRemove(m - {j}, k);
      ValuesRemove(m - {k}, j);
      RemoveTwice(m, j, k);
      SwapSum(m[j], m[k], Values(m - {j} - {k}));
    }
  }

  lemma RemoveTwice<K, V>(m: map<K, V>, j: K, k: K)
    ensures m - {j} - {k} == m - {k} - {j}
  {
  }

  lemma SwapSum<V>(a: V, b: V, rest: multiset<V>)
    ensures multiset{a} + (multiset{b} + rest) == multiset{b} + (multiset{a} + rest)
  {
  }

  lemma ValuesAdd<K(!new), V>(m: map<K, V>, k: K, v: V)
    requires k !in m
    ensures Values(m[k := v]) == multiset{v} + Values(m)
  {
    ValuesRemove(m[k := v], k);
    assert m[k := v] - {k} == m;
  }

  /** How often a value occurs in a map. */
  ghost function Occurrences<K(!new), V>(m: map<K, V>, v: V): nat {
    Values(m)[v]
  }

  lemma OccurrencesRemove<K(!new), V>(m: map<K, V>, k: K, v: V)
    ensures Occurrences(m, v) == Occurrences(m - {k}, v) + if k in m && m[k] == v then 1 else 0
  {
    if k in m { ValuesRemove(m, k); } else { assert m - {k} == m; }
  }

  /** Two lists that share out a third still do with one more element on either. */
  lemma ShareOneMore<T>(a: seq<T>, b: seq<T>, whole: seq<T>, x: T)
    requires multiset(a) + multiset(b) == multiset(whole)
    ensures multiset(a + [x]) + multiset(b) == multiset(whole + [x])
    ensures multiset(a) + multiset(b + [x]) == multiset(whole + [x])
  {
  }

  /** Functions that agree on a list have the same sum over it. */
  lemma {:induction false} SumByCongruence<T>(s: seq<T>, f: T -> nat, g: T -> nat)
    requires forall x :: x in s ==> f(x) == g(x)
    ensures SumBy(s, f) == SumBy(s, g)
  {
    if s != [] {
      SumByCongruence(s[..|s| - 1], f, g);
    }
  }

  /** A value occurs in a map as often as there are keys for it. */
  lemma {:induction false} OccurrencesCount<K(!new), V>(m: map<K, V>, v: V, keys: set<K>)
    requires forall k :: k in keys <==> k in m && m[k] == v
    ensures Occurrences(m, v) == |keys|
    decreases |m|
  {
    if m == map[] {
      assert keys == {};
    } else {
      var k :| k in m.Keys;
      OccurrencesRemove(m, k, v);
      OccurrencesCount(m - {k}, v, keys - {k});
    }
  }
}
