/** `std::map<K, V>` as the programs use it: an association list kept in
    strictly ascending key order, so that iterating over it (the
    `for (const auto& [k, v] : m)` loops that build the result vectors)
    yields the keys in comparator order, each once. */
module OrdMap {
  import opened Common
  import opened Ordering

  /** Keys strictly ascending under `lt`: the std::map invariant. */
  ghost predicate Ascending<K(!new), V>(m: seq<(K, V)>, lt: (K, K) -> bool)
  {
    forall i, j :: 0 <= i < j < |m| ==> lt(m[i].0, m[j].0)
  }

  /** `m.find(k)`: the value stored under `k`, if any. */
  function Get<K(==,!new), V>(m: seq<(K, V)>, k: K): Option<V>
  {
    if |m| == 0 then None
    else if m[0].0 == k then Some(m[0].1)
    else Get(m[1..], k)
  }

  /** A lookup finds nothing exactly when no entry has the key, and what it
      finds is an entry of the list. */
  lemma {:induction false} GetSpec<K(!new), V>(m: seq<(K, V)>, k: K)
    ensures Get(m, k).None? <==> forall i :: 0 <= i < |m| ==> m[i].0 != k
    ensures Get(m, k).Some? ==> exists i :: 0 <= i < |m| && m[i] == (k, Get(m, k).value)
  {
    if |m| > 0 && m[0].0 != k {
      GetSpec(m[1..], k);
      assert forall i :: 1 <= i < |m| ==> m[i] == m[1..][i - 1];
    }
  }

  /** `m[k]` read through `operator[]`: a missing key reads as the
      value-initialised default. */
  function GetOr<K(==,!new), V>(m: seq<(K, V)>, k: K, default: V): V
  {
    match Get(m, k)
    case Some(v) => v
    case None => default
  }

  function Keys<K(!new), V>(m: seq<(K, V)>): set<K>
  {
    set i | 0 <= i < |m| :: m[i].0
  }

  lemma GetInKeys<K(!new), V>(m: seq<(K, V)>, k: K)
    ensures Get(m, k).Some? <==> k in Keys(m)
  {
    GetSpec(m, k);
  }

  lemma KeysCons<K(!new), V>(x: (K, V), m: seq<(K, V)>)
    ensures Keys([x] + m) == {x.0} + Keys(m)
  {
    var r := [x] + m;
    forall k | k in Keys(r) ensures k in {x.0} + Keys(m) {
      var i :| 0 <= i < |r| && r[i].0 == k;
      if i > 0 { assert m[i - 1].0 == k; }
    }
    forall k | k in Keys(m) ensures k in Keys(r) {
      var i :| 0 <= i < |m| && m[i].0 == k;
      assert r[i + 1].0 == k;
    }
    assert r[0].0 == x.0;
  }

  /** In an ascending list the entry at position i is what a lookup of its
      key finds. */
  lemma {:induction false} GetAt<K(!new), V>(m: seq<(K, V)>, lt: (K, K) -> bool, i: nat)
    requires StrictTotalOrder(lt) && Ascending(m, lt)
    requires i < |m|
    ensures Get(m, m[i].0) == Some(m[i].1)
    decreases i
  {
    if i > 0 {
      assert lt(m[0].0, m[i].0);
      assert m[0].0 != m[i].0;
      GetAt(m[1..], lt, i - 1);
    }
  }

  /** `m[k] = v`: overwrite the entry of `k`, or insert it at its place in
      key order. */
  function Put<K(==,!new), V>(m: seq<(K, V)>, k: K, v: V, lt: (K, K) -> bool): (r: seq<(K, V)>)
    requires StrictTotalOrder(lt) && Ascending(m, lt)
    ensures Ascending(r, lt)
    ensures Get(r, k) == Some(v)
    ensures forall k' :: k' != k ==> Get(r, k') == Get(m, k')
  {
    if |m| == 0 then [(k, v)]
    else if m[0].0 == k then
      var r := [(k, v)] + m[1..];
      assert forall i :: 1 <= i < |r| ==> r[i] == m[i];
      r
    else if lt(k, m[0].0) then
      var r := [(k, v)] + m;
      assert forall i :: 1 <= i < |r| ==> r[i] == m[i - 1];
      r
    else
      var rest := Put(m[1..], k, v, lt);
      var r := [m[0]] + rest;
      assert forall i :: 1 <= i < |r| ==> r[i] == rest[i - 1];
      assert forall i :: 0 <= i < |rest| ==> lt(m[0].0, rest[i].0) by {
        forall i | 0 <= i < |rest| ensures lt(m[0].0, rest[i].0) {
          var key := rest[i].0;
          if key != k {
            GetAt(rest, lt, i);
            GetSpec(m[1..], key);
            var j :| 0 <= j < |m[1..]| && m[1..][j] == (key, rest[i].1);
            assert lt(m[0].0, m[j + 1].0);
          }
        }
      }
      r
  }

  /** `m[k] = v` adds `k` to the key set, and grows the map by one entry
      exactly when `k` was absent. */
  lemma {:induction false} PutKeys<K(!new), V>(m: seq<(K, V)>, k: K, v: V, lt: (K, K) -> bool)
    requires StrictTotalOrder(lt) && Ascending(m, lt)
    ensures Keys(Put(m, k, v, lt)) == Keys(m) + {k}
    ensures |Put(m, k, v, lt)| == if k in Keys(m) then |m| else |m| + 1
    decreases |m|
  {
    var r := Put(m, k, v, lt);
    if |m| == 0 {
      assert r == [(k, v)];
      assert Keys(r) == {k} by {
        assert r[0].0 == k;
      }
    } else if m[0].0 == k {
      KeysCons(m[0], m[1..]);
      KeysCons((k, v), m[1..]);
      assert m == [m[0]] + m[1..];
    } else if lt(k, m[0].0) {
      KeysCons((k, v), m);
      assert k !in Keys(m) by {
        forall i | 0 <= i < |m| ensures m[i].0 != k {
          if i > 0 { assert lt(m[0].0, m[i].0); }
        }
      }
    } else {
      PutKeys(m[1..], k, v, lt);
      KeysCons(m[0], m[1..]);
      KeysCons(m[0], Put(m[1..], k, v, lt));
      assert m == [m[0]] + m[1..];
    }
  }

  /** Two ascending lists that agree on every lookup are the same list:
      the iteration order of a std::map is determined by its contents. */
  lemma {:induction false} Extensionality<K(!new), V>(a: seq<(K, V)>, b: seq<(K, V)>, lt: (K, K) -> bool)
    requires StrictTotalOrder(lt) && Ascending(a, lt) && Ascending(b, lt)
    requires forall k :: Get(a, k) == Get(b, k)
    ensures a == b
    decreases |a|
  {
    if |a| > 0 {
      assert Get(a, a[0].0).Some?;
      GetSpec(b, a[0].0);
    }
    if |b| > 0 {
      assert Get(b, b[0].0).Some?;
      GetSpec(a, b[0].0);
    }
    if |a| > 0 {
      assert Get(a, b[0].0) == Get(b, b[0].0);
      var i :| 0 <= i < |a| && a[i].0 == b[0].0;
      var j :| 0 <= j < |b| && b[j].0 == a[0].0;
      assert a[0].0 == b[0].0;
      assert a[0] == b[0];
      forall k ensures Get(a[1..], k) == Get(b[1..], k) {
        if k == a[0].0 {
          forall i | 0 <= i < |a[1..]| ensures a[1..][i].0 != k {
            assert lt(a[0].0, a[i + 1].0);
          }
          forall i | 0 <= i < |b[1..]| ensures b[1..][i].0 != k {
            assert lt(b[0].0, b[i + 1].0);
          }
          GetSpec(a[1..], k);
          GetSpec(b[1..], k);
        } else {
          assert Get(a, k) == Get(a[1..], k);
          assert Get(b, k) == Get(b[1..], k);
        }
      }
      Extensionality(a[1..], b[1..], lt);
      assert a == [a[0]] + a[1..] && b == [b[0]] + b[1..];
    }
  }

  /** Sum of a real-valued weight over the entries. */
  function SumBy<K(!new), V>(m: seq<(K, V)>, w: (K, V) -> real): real
  {
    if |m| == 0 then 0.0 else w(m[0].0, m[0].1) + SumBy(m[1..], w)
  }

  /** Sum of an integer weight of the values. */
  function TotalBy<K(!new), V>(m: seq<(K, V)>, w: V -> int): int
  {
    if |m| == 0 then 0 else w(m[0].1) + TotalBy(m[1..], w)
  }

  /** Overwriting or inserting one entry changes a weighted sum by exactly
      the weight of the new entry minus that of the one it replaces. */
  lemma {:induction false} SumByPut<K(!new), V>(m: seq<(K, V)>, k: K, v: V, lt: (K, K) -> bool, w: (K, V) -> real)
    requires StrictTotalOrder(lt) && Ascending(m, lt)
    ensures SumBy(Put(m, k, v, lt), w)
         == SumBy(m, w) + w(k, v) - (match Get(m, k) case Some(prev) => w(k, prev) case None => 0.0)
    decreases |m|
  {
    if |m| == 0 || m[0].0 == k || lt(k, m[0].0) {
      if |m| > 0 && lt(k, m[0].0) {
        forall i | 0 <= i < |m| ensures m[i].0 != k {
          if i > 0 { assert lt(m[0].0, m[i].0); }
        }
        GetSpec(m, k);
      }
      if |m| > 0 && m[0].0 == k {
        assert ([(k, v)] + m[1..])[1..] == m[1..];
      }
      if |m| > 0 && lt(k, m[0].0) {
        assert ([(k, v)] + m)[1..] == m;
      }
    } else {
      SumByPut(m[1..], k, v, lt, w);
      assert ([m[0]] + Put(m[1..], k, v, lt))[1..] == Put(m[1..], k, v, lt);
    }
  }

  lemma {:induction false} TotalByPut<K(!new), V>(m: seq<(K, V)>, k: K, v: V, lt: (K, K) -> bool, w: V -> int)
    requires StrictTotalOrder(lt) && Ascending(m, lt)
    ensures TotalBy(Put(m, k, v, lt), w)
         == TotalBy(m, w) + w(v) - (match Get(m, k) case Some(prev) => w(prev) case None => 0)
    decreases |m|
  {
    if |m| == 0 || m[0].0 == k || lt(k, m[0].0) {
      if |m| > 0 && lt(k, m[0].0) {
        forall i | 0 <= i < |m| ensures m[i].0 != k {
          if i > 0 { assert lt(m[0].0, m[i].0); }
        }
        GetSpec(m, k);
      }
      if |m| > 0 && m[0].0 == k {
        assert ([(k, v)] + m[1..])[1..] == m[1..];
      }
      if |m| > 0 && lt(k, m[0].0) {
        assert ([(k, v)] + m)[1..] == m;
      }
    } else {
      TotalByPut(m[1..], k, v, lt, w);
      assert ([m[0]] + Put(m[1..], k, v, lt))[1..] == Put(m[1..], k, v, lt);
    }
  }

  /** `std::sort` of the vector built from a map's entries, comparing keys
      only. Modelled as insertion sort; `SortEntries` and `Extensionality`
      show that any sorting algorithm yields the same sequence once keys
      are distinct. */
  function SortByKey<K(!new), V>(s: seq<(K, V)>, lt: (K, K) -> bool): (r: seq<(K, V)>)
    requires StrictTotalOrder(lt)
    ensures multiset(r) == multiset(s)
    ensures forall i, j :: 0 <= i < j < |r| ==> !lt(r[j].0, r[i].0)
  {
    if |s| == 0 then []
    else
      var rest := SortByKey(s[1..], lt);
      assert s == [s[0]] + s[1..];
      Insert(s[0], rest, lt)
  }

  function Insert<K(!new), V>(x: (K, V), s: seq<(K, V)>, lt: (K, K) -> bool): (r: seq<(K, V)>)
    requires StrictTotalOrder(lt)
    requires forall i, j :: 0 <= i < j < |s| ==> !lt(s[j].0, s[i].0)
    ensures multiset(r) == multiset(s) + multiset{x}
    ensures forall i, j :: 0 <= i < j < |r| ==> !lt(r[j].0, r[i].0)
  {
    if |s| == 0 || !lt(s[0].0, x.0) then
      var r := [x] + s;
      assert forall j :: 1 <= j < |r| ==> r[j] == s[j - 1];
      r
    else
      var rest := Insert(x, s[1..], lt);
      var r := [s[0]] + rest;
      assert s == [s[0]] + s[1..];
      assert forall q :: 0 <= q < |s[1..]| ==> !lt(s[1..][q].0, s[0].0) by {
        forall q | 0 <= q < |s[1..]| ensures !lt(s[1..][q].0, s[0].0) {
          assert s[1..][q] == s[q + 1];
        }
      }
      NoneBelow(s[0].0, rest, s[1..], x, lt);
      r
  }

  /** A key no element of `src` (nor x) is below stays below no element
      of a rearrangement of `src` with x added. */
  lemma NoneBelow<K(!new), V>(head: K, rest: seq<(K, V)>, src: seq<(K, V)>, x: (K, V), lt: (K, K) -> bool)
    requires multiset(rest) == multiset(src) + multiset{x}
    requires forall q :: 0 <= q < |src| ==> !lt(src[q].0, head)
    requires !lt(x.0, head)
    ensures forall j :: 0 <= j < |rest| ==> !lt(rest[j].0, head)
  {
    forall j | 0 <= j < |rest| ensures !lt(rest[j].0, head) {
      assert rest[j] in multiset(rest);
      if rest[j] != x {
        assert rest[j] in multiset(src);
        var q :| 0 <= q < |src| && src[q] == rest[j];
      }
    }
  }

  /** With distinct keys, a key-sorted sequence is strictly ascending. */
  lemma SortedDistinctIsAscending<K(!new), V>(r: seq<(K, V)>, lt: (K, K) -> bool)
    requires StrictTotalOrder(lt)
    requires forall i, j :: 0 <= i < j < |r| ==> !lt(r[j].0, r[i].0)
    requires forall i, j :: 0 <= i < j < |r| ==> r[i].0 != r[j].0
    ensures Ascending(r, lt)
  {
  }

  /** Sorting the entries of a std::map by any strict total order on keys
      gives a strictly ascending sequence holding exactly the map's
      entries; by `Extensionality` it is the only such sequence. */
  lemma {:induction false} SortEntries<K(!new), V>(m: seq<(K, V)>, ltMap: (K, K) -> bool, ltSort: (K, K) -> bool)
    requires StrictTotalOrder(ltMap) && Ascending(m, ltMap)
    requires StrictTotalOrder(ltSort)
    ensures Ascending(SortByKey(m, ltSort), ltSort)
    ensures forall k :: Get(SortByKey(m, ltSort), k) == Get(m, k)
  {
    var r := SortByKey(m, ltSort);
    PermutationKeepsDistinct(m, r, ltMap);
    SortedDistinctIsAscending(r, ltSort);
    PermutationKeepsGet(m, r, ltSort);
  }

  /** Sorting the entries of a map by its own order changes nothing: the
      vector built from a std::map is already in comparator order. */
  lemma SortAscending<K(!new), V>(m: seq<(K, V)>, lt: (K, K) -> bool)
    requires StrictTotalOrder(lt) && Ascending(m, lt)
    ensures SortByKey(m, lt) == m
  {
    SortEntries(m, lt, lt);
    Extensionality(SortByKey(m, lt), m, lt);
  }

  /** An ascending permutation of a list answers every lookup as the list
      does. */
  lemma PermutationKeepsGet<K(!new), V>(m: seq<(K, V)>, r: seq<(K, V)>, lt: (K, K) -> bool)
    requires StrictTotalOrder(lt) && Ascending(r, lt)
    requires multiset(r) == multiset(m)
    ensures forall k :: Get(r, k) == Get(m, k)
  {
    assert forall q :: 0 <= q < |r| ==> r[q] in multiset(m);
    forall k ensures Get(r, k) == Get(m, k) {
      GetSpec(m, k);
      GetSpec(r, k);
      if Get(m, k).Some? {
        var p :| 0 <= p < |m| && m[p] == (k, Get(m, k).value);
        assert m[p] in multiset(r);
        var q :| 0 <= q < |r| && r[q] == m[p];
        GetAt(r, lt, q);
      }
    }
  }

  /** A permutation of an ascending list has pairwise distinct keys. */
  lemma PermutationKeepsDistinct<K(!new), V>(m: seq<(K, V)>, r: seq<(K, V)>, lt: (K, K) -> bool)
    requires StrictTotalOrder(lt) && Ascending(m, lt)
    requires multiset(r) == multiset(m)
    ensures forall i, j :: 0 <= i < j < |r| ==> r[i].0 != r[j].0
  {
    forall i, j | 0 <= i < j < |r| ensures r[i].0 != r[j].0 {
      assert r[i] in multiset(m) && r[j] in multiset(m);
      var p :| 0 <= p < |m| && m[p] == r[i];
      var q :| 0 <= q < |m| && m[q] == r[j];
      if p == q {
        MultisetDistinctPositions(r, i, j);
        DistinctOnce(m, r[i]);
      }
    }
  }

  /** A sequence without repeated entries holds each entry at most once. */
  lemma {:induction false} DistinctOnce<K(!new), V>(m: seq<(K, V)>, x: (K, V))
    requires forall i, j :: 0 <= i < j < |m| ==> m[i].0 != m[j].0
    ensures multiset(m)[x] <= 1
  {
    if |m| > 0 {
      assert m == [m[0]] + m[1..];
      DistinctOnce(m[1..], x);
      if m[0] == x {
        assert x !in m[1..];
      }
    }
  }

  /** Two positions of a sequence holding the same entry make that entry
      occur twice in the multiset. */
  lemma MultisetDistinctPositions<T>(r: seq<T>, i: nat, j: nat)
    requires i < j < |r| && r[i] == r[j]
    ensures multiset(r)[r[i]] >= 2
  {
    var x := r[i];
    assert r == r[..i] + [r[i]] + r[i + 1..j] + [r[j]] + r[j + 1..];
    assert multiset(r) == multiset(r[..i]) + multiset{x} + multiset(r[i + 1..j]) + multiset{x} + multiset(r[j + 1..]);
  }
}
