/** Grouped aggregation as the programs write it: a row loop that looks a
    key up in a `std::map`, reads the current value (or a fresh one) and
    stores the updated value back; and the index-list variant that first
    collects, per key, the positions of its rows and later reduces each
    list. */
module GroupBy {
  import opened Common
  import opened Ordering
  import opened OrdMap

  /** The rows whose key is `k`, in row order. */
  function Select<R, K(==)>(rows: seq<R>, key: R -> Option<K>, k: K): (s: seq<R>)
    ensures |s| <= |rows|
    ensures forall i :: 0 <= i < |s| ==> key(s[i]) == Some(k)
    ensures |s| == 0 <==> forall i :: 0 <= i < |rows| ==> key(rows[i]) != Some(k)
  {
    if |rows| == 0 then []
    else
      var pre := rows[..|rows| - 1];
      var last := rows[|rows| - 1];
      assert forall i :: 0 <= i < |pre| ==> pre[i] == rows[i];
      Select(pre, key, k) + (if key(last) == Some(k) then [last] else [])
  }

  /** Left fold of `step` over the rows, starting from `init`. */
  function FoldRows<R, V>(rows: seq<R>, step: (V, R) -> V, init: V): V
  {
    if |rows| == 0 then init else step(FoldRows(rows[..|rows| - 1], step, init), rows[|rows| - 1])
  }

  /** Number of rows that have a key. */
  function CountKeyed<R, K>(rows: seq<R>, key: R -> Option<K>): (n: nat)
    ensures n <= |rows|
  {
    if |rows| == 0 then 0
    else CountKeyed(rows[..|rows| - 1], key) + (if key(rows[|rows| - 1]).Some? then 1 else 0)
  }

  lemma {:induction false} CountKeyedConcat<R, K>(a: seq<R>, b: seq<R>, key: R -> Option<K>)
    ensures CountKeyed(a + b, key) == CountKeyed(a, key) + CountKeyed(b, key)
    decreases |b|
  {
    if |b| == 0 {
      assert a + b == a;
    } else {
      assert (a + b)[..|a + b| - 1] == a + b[..|b| - 1];
      CountKeyedConcat(a, b[..|b| - 1], key);
    }
  }

  /** The row loop `acc = m[key(row)]; m[key(row)] = step(acc, row)` over
      `rows`, starting from the map `m`; a row without a key is skipped. A
      key seen for the first time starts from `init` (the value-initialised
      entry that `operator[]` inserts). */
  function AggregateFrom<R, K(==,!new), V>(m: seq<(K, V)>, rows: seq<R>, key: R -> Option<K>,
                                           step: (V, R) -> V, init: V, lt: (K, K) -> bool): (r: seq<(K, V)>)
    requires StrictTotalOrder(lt) && Ascending(m, lt)
    ensures Ascending(r, lt)
  {
    if |rows| == 0 then m
    else
      var acc := AggregateFrom(m, rows[..|rows| - 1], key, step, init, lt);
      var row := rows[|rows| - 1];
      match key(row)
      case None => acc
      case Some(k) => Put(acc, k, step(GetOr(acc, k, init), row), lt)
  }

  /** What the aggregate holds under each key: an entry exactly when the
      starting map had one or some row carries the key, and then the fold of
      the key's rows from the starting value. */
  lemma {:induction false} AggregateGet<R, K(!new), V>(m: seq<(K, V)>, rows: seq<R>, key: R -> Option<K>,
                                                         step: (V, R) -> V, init: V, lt: (K, K) -> bool, k: K)
    requires StrictTotalOrder(lt) && Ascending(m, lt)
    ensures Get(AggregateFrom(m, rows, key, step, init, lt), k)
         == if Get(m, k).Some? || |Select(rows, key, k)| > 0
            then Some(FoldRows(Select(rows, key, k), step, GetOr(m, k, init)))
            else None
    decreases |rows|
  {
    if |rows| > 0 {
      var pre := rows[..|rows| - 1];
      var row := rows[|rows| - 1];
      AggregateGet(m, pre, key, step, init, lt, k);
      var sel := Select(pre, key, k);
      if key(row) == Some(k) {
        assert Select(rows, key, k) == sel + [row];
        assert (sel + [row])[..|sel|] == sel;
      } else {
        assert Select(rows, key, k) == sel;
      }
    }
  }

  /** Processing `a` then `b` is one pass over `a + b`. */
  lemma {:induction false} AggregateConcat<R, K(!new), V>(m: seq<(K, V)>, a: seq<R>, b: seq<R>, key: R -> Option<K>,
                                                            step: (V, R) -> V, init: V, lt: (K, K) -> bool)
    requires StrictTotalOrder(lt) && Ascending(m, lt)
    ensures AggregateFrom(m, a + b, key, step, init, lt)
         == AggregateFrom(AggregateFrom(m, a, key, step, init, lt), b, key, step, init, lt)
    decreases |b|
  {
    if |b| == 0 {
      assert a + b == a;
    } else {
      assert (a + b)[..|a + b| - 1] == a + b[..|b| - 1];
      AggregateConcat(m, a, b[..|b| - 1], key, step, init, lt);
    }
  }

  /** Every keyed row raises the weight `w` of the value it updates by one. */
  ghost predicate StepAddsOne<R(!new), K, V(!new)>(key: R -> Option<K>, step: (V, R) -> V, w: V -> int)
  {
    forall v, r {:trigger step(v, r)} :: key(r).Some? ==> w(step(v, r)) == w(v) + 1
  }

  /** When every step raises an integer weight by one, the weights of all
      entries add up to the number of keyed rows (plus what `m` held). */
  lemma {:induction false} AggregateTotal<R(!new), K(!new), V(!new)>(m: seq<(K, V)>, rows: seq<R>, key: R -> Option<K>,
                                                           step: (V, R) -> V, init: V, lt: (K, K) -> bool, w: V -> int)
    requires StrictTotalOrder(lt) && Ascending(m, lt)
    requires w(init) == 0
    requires StepAddsOne(key, step, w)
    ensures TotalBy(AggregateFrom(m, rows, key, step, init, lt), w) == TotalBy(m, w) + CountKeyed(rows, key)
    decreases |rows|
  {
    if |rows| > 0 {
      var pre := rows[..|rows| - 1];
      var row := rows[|rows| - 1];
      var acc := AggregateFrom(m, pre, key, step, init, lt);
      AggregateTotal(m, pre, key, step, init, lt, w);
      match key(row)
      case None =>
      case Some(k) =>
        TotalByPut(acc, k, step(GetOr(acc, k, init), row), lt, w);
    }
  }

  /** The fold of a step that adds a real amount per row is the start plus
      the sum of the amounts. */
  lemma {:induction false} FoldAdds<R>(rows: seq<R>, step: (real, R) -> real, amount: R -> real, s: real)
    requires forall v, r :: step(v, r) == v + amount(r)
    ensures FoldRows(rows, step, s) == s + SumOf(rows, amount)
    decreases |rows|
  {
    if |rows| > 0 {
      FoldAdds(rows[..|rows| - 1], step, amount, s);
    }
  }

  /** The fold of a step that counts rows is the start plus the row count. */
  lemma {:induction false} FoldCounts<R>(rows: seq<R>, step: (int, R) -> int, s: int)
    requires forall v, r :: step(v, r) == v + 1
    ensures FoldRows(rows, step, s) == s + |rows|
    decreases |rows|
  {
    if |rows| > 0 {
      FoldCounts(rows[..|rows| - 1], step, s);
    }
  }

  /** Sum of a real-valued measure over rows. */
  function SumOf<R>(rows: seq<R>, amount: R -> real): real
  {
    if |rows| == 0 then 0.0 else SumOf(rows[..|rows| - 1], amount) + amount(rows[|rows| - 1])
  }

  lemma {:induction false} SumOfConcat<R>(a: seq<R>, b: seq<R>, amount: R -> real)
    ensures SumOf(a + b, amount) == SumOf(a, amount) + SumOf(b, amount)
    decreases |b|
  {
    if |b| == 0 {
      assert a + b == a;
    } else {
      assert (a + b)[..|a + b| - 1] == a + b[..|b| - 1];
      SumOfConcat(a, b[..|b| - 1], amount);
    }
  }

  /** The last element of `a` sits somewhere in any permutation `b` of
      `a`, and what remains of both is again a pair of permutations. */
  lemma PermutationSplit<T>(a: seq<T>, b: seq<T>) returns (j: nat)
    requires multiset(a) == multiset(b) && |a| > 0
    ensures j < |b| && b[j] == a[|a| - 1]
    ensures multiset(a[..|a| - 1]) == multiset(b[..j] + b[j + 1..])
  {
    var x := a[|a| - 1];
    assert a == a[..|a| - 1] + [x];
    assert x in multiset(b);
    j :| 0 <= j < |b| && b[j] == x;
    assert b == b[..j] + [x] + b[j + 1..];
    assert multiset(b) == multiset(b[..j]) + multiset{x} + multiset(b[j + 1..]);
    assert multiset(b[..j] + b[j + 1..]) == multiset(b[..j]) + multiset(b[j + 1..]);
    assert multiset(a) == multiset(a[..|a| - 1]) + multiset{x};
    var ma, mb := multiset(a[..|a| - 1]), multiset(b[..j] + b[j + 1..]);
    forall y ensures ma[y] == mb[y] {
      assert multiset(a)[y] == multiset(b)[y];
    }
  }

  /** A sum does not depend on the order of its terms. */
  lemma {:induction false} SumOfPermutation<R>(a: seq<R>, b: seq<R>, amount: R -> real)
    requires multiset(a) == multiset(b)
    ensures SumOf(a, amount) == SumOf(b, amount)
    decreases |a|
  {
    if |a| == 0 {
      assert |b| == |multiset(b)| == 0;
    } else {
      var j := PermutationSplit(a, b);
      var rest := b[..j] + b[j + 1..];
      SumOfPermutation(a[..|a| - 1], rest, amount);
      assert b == b[..j] + ([b[j]] + b[j + 1..]);
      SumOfConcat(b[..j], [b[j]] + b[j + 1..], amount);
      SumOfConcat([b[j]], b[j + 1..], amount);
      SumOfConcat(b[..j], b[j + 1..], amount);
      assert [b[j]][..0] == [];
    }
  }

  lemma {:induction false} SelectConcat<R, K>(a: seq<R>, b: seq<R>, key: R -> Option<K>, k: K)
    ensures Select(a + b, key, k) == Select(a, key, k) + Select(b, key, k)
    decreases |b|
  {
    if |b| == 0 {
      assert a + b == a;
    } else {
      assert (a + b)[..|a + b| - 1] == a + b[..|b| - 1];
      SelectConcat(a, b[..|b| - 1], key, k);
    }
  }

  /** One more row extends the selection by that row when it has the key. */
  lemma SelectSnoc<R, K>(rows: seq<R>, x: R, key: R -> Option<K>, k: K)
    ensures Select(rows + [x], key, k) == Select(rows, key, k) + (if key(x) == Some(k) then [x] else [])
  {
    assert (rows + [x])[..|rows|] == rows;
  }

  /** One more row is one more step of the fold. */
  lemma FoldSnoc<R, V>(rows: seq<R>, x: R, step: (V, R) -> V, init: V)
    ensures FoldRows(rows + [x], step, init) == step(FoldRows(rows, step, init), x)
  {
    assert (rows + [x])[..|rows|] == rows;
  }

  /* ---- Keyed real amounts: `m[k] += amount` ---- */

  function KeyOf<K>(p: (K, real)): Option<K> { Some(p.0) }

  function AddAmount<K>(v: real, p: (K, real)): real { v + p.1 }

  function Amount<K>(p: (K, real)): real { p.1 }

  /** Sum of the amounts recorded under key `k`. */
  function SumFor<K(==)>(ps: seq<(K, real)>, k: K): real
  {
    if |ps| == 0 then 0.0
    else SumFor(ps[..|ps| - 1], k) + (if ps[|ps| - 1].0 == k then ps[|ps| - 1].1 else 0.0)
  }

  lemma {:induction false} SumForConcat<K>(a: seq<(K, real)>, b: seq<(K, real)>, k: K)
    ensures SumFor(a + b, k) == SumFor(a, k) + SumFor(b, k)
    decreases |b|
  {
    if |b| == 0 {
      assert a + b == a;
    } else {
      assert (a + b)[..|a + b| - 1] == a + b[..|b| - 1];
      SumForConcat(a, b[..|b| - 1], k);
    }
  }

  lemma {:induction false} SumForSelect<K>(ps: seq<(K, real)>, k: K)
    ensures SumOf(Select(ps, KeyOf, k), Amount) == SumFor(ps, k)
    decreases |ps|
  {
    if |ps| > 0 {
      var pre := ps[..|ps| - 1];
      var last := ps[|ps| - 1];
      SumForSelect(pre, k);
      var s := Select(pre, KeyOf, k);
      if last.0 == k {
        assert Select(ps, KeyOf, k) == s + [last];
        assert (s + [last])[..|s|] == s;
        assert SumOf(s + [last], Amount) == SumOf(s, Amount) + Amount(last);
      } else {
        assert Select(ps, KeyOf, k) == s;
      }
    }
  }

  /** A run of `m[k] += amount` statements, one per pair, in order. */
  function AddAll<K(==,!new)>(m: seq<(K, real)>, ps: seq<(K, real)>, lt: (K, K) -> bool): (r: seq<(K, real)>)
    requires StrictTotalOrder(lt) && Ascending(m, lt)
    ensures Ascending(r, lt)
  {
    AggregateFrom(m, ps, KeyOf, AddAmount, 0.0, lt)
  }

  /** After the additions a key has an entry iff it had one or some pair
      names it, and the entry is the old value plus the key's amounts. */
  lemma AddAllGet<K(!new)>(m: seq<(K, real)>, ps: seq<(K, real)>, lt: (K, K) -> bool, k: K)
    requires StrictTotalOrder(lt) && Ascending(m, lt)
    ensures Get(AddAll(m, ps, lt), k)
         == if Get(m, k).Some? || exists j :: 0 <= j < |ps| && ps[j].0 == k
            then Some(GetOr(m, k, 0.0) + SumFor(ps, k))
            else None
  {
    AggregateGet(m, ps, KeyOf, AddAmount, 0.0, lt, k);
    var sel := Select(ps, KeyOf, k);
    var start := GetOr(m, k, 0.0);
    assert FoldRows(sel, AddAmount, start) == start + SumFor(ps, k) by {
      FoldAdds(sel, AddAmount, Amount, start);
      SumForSelect(ps, k);
    }
    assert |sel| > 0 <==> exists j :: 0 <= j < |ps| && ps[j].0 == k by {
      if exists j :: 0 <= j < |ps| && ps[j].0 == k {
        var j :| 0 <= j < |ps| && ps[j].0 == k;
        assert KeyOf(ps[j]) == Some(k);
      } else {
        assert forall i :: 0 <= i < |ps| ==> KeyOf(ps[i]) != Some(k);
      }
    }
  }

  lemma AddAllConcat<K(!new)>(m: seq<(K, real)>, a: seq<(K, real)>, b: seq<(K, real)>, lt: (K, K) -> bool)
    requires StrictTotalOrder(lt) && Ascending(m, lt)
    ensures AddAll(m, a + b, lt) == AddAll(AddAll(m, a, lt), b, lt)
  {
    AggregateConcat(m, a, b, KeyOf, AddAmount, 0.0, lt);
  }

  /** One more `m[k] += amount`: the entry of `k` becomes its old value
      (or zero) plus the amount. */
  lemma AddAllSnoc<K(!new)>(m: seq<(K, real)>, ps: seq<(K, real)>, x: (K, real), lt: (K, K) -> bool)
    requires StrictTotalOrder(lt) && Ascending(m, lt)
    ensures AddAll(m, ps + [x], lt) == Put(AddAll(m, ps, lt), x.0, GetOr(AddAll(m, ps, lt), x.0, 0.0) + x.1, lt)
  {
    assert (ps + [x])[..|ps|] == ps;
  }

  /** Some pair names the key `k`. */
  ghost predicate Named<K>(ps: seq<(K, real)>, k: K)
  {
    exists j :: 0 <= j < |ps| && ps[j].0 == k
  }

  /** Two runs of additions that name the same keys and add the same total
      under each key leave the same map, whatever their order and grouping. */
  lemma AddAllSameSums<K(!new)>(m: seq<(K, real)>, a: seq<(K, real)>, b: seq<(K, real)>, lt: (K, K) -> bool)
    requires StrictTotalOrder(lt) && Ascending(m, lt)
    requires forall k :: Named(a, k) <==> Named(b, k)
    requires forall k :: SumFor(a, k) == SumFor(b, k)
    ensures AddAll(m, a, lt) == AddAll(m, b, lt)
  {
    forall k ensures Get(AddAll(m, a, lt), k) == Get(AddAll(m, b, lt), k) {
      AddAllGet(m, a, lt, k);
      AddAllGet(m, b, lt, k);
      assert Named(a, k) <==> Named(b, k);
    }
    Extensionality(AddAll(m, a, lt), AddAll(m, b, lt), lt);
  }

  /* ---- Index lists: `groups[key].push_back(i)` ---- */

  /** The positions holding `k`, in the order the loop visits them. */
  function IndicesOf<K(==)>(keys: seq<K>, k: K): seq<int>
  {
    if |keys| == 0 then []
    else IndicesOf(keys[..|keys| - 1], k) + (if keys[|keys| - 1] == k then [|keys| - 1] else [])
  }

  /** The list of `k` holds exactly the positions of `k`, each once, in
      ascending order. */
  lemma {:induction false} IndicesOfSpec<K>(keys: seq<K>, k: K)
    ensures forall j :: 0 <= j < |IndicesOf(keys, k)| ==>
              0 <= IndicesOf(keys, k)[j] < |keys| && keys[IndicesOf(keys, k)[j]] == k
    ensures forall j, j' :: 0 <= j < j' < |IndicesOf(keys, k)| ==> IndicesOf(keys, k)[j] < IndicesOf(keys, k)[j']
    ensures forall i :: 0 <= i < |keys| && keys[i] == k ==> i in IndicesOf(keys, k)
    decreases |keys|
  {
    if |keys| > 0 {
      var n := |keys| - 1;
      var pre := keys[..n];
      IndicesOfSpec(pre, k);
      var ix := IndicesOf(pre, k);
      var r := IndicesOf(keys, k);
      assert r == ix + (if keys[n] == k then [n] else []);
      forall j | 0 <= j < |r| ensures 0 <= r[j] < |keys| && keys[r[j]] == k {
        if j < |ix| {
          assert r[j] == ix[j] && pre[ix[j]] == keys[ix[j]];
        }
      }
      forall i | 0 <= i < |keys| && keys[i] == k ensures i in r {
        if i < n {
          assert pre[i] == k;
          assert i in ix;
        } else {
          assert r[|r| - 1] == n;
        }
      }
    }
  }

  lemma {:induction false} IndicesOfAbsent<K>(keys: seq<K>, k: K)
    requires k !in keys
    ensures IndicesOf(keys, k) == []
    decreases |keys|
  {
    if |keys| > 0 {
      var pre := keys[..|keys| - 1];
      assert k !in pre;
      IndicesOfAbsent(pre, k);
    }
  }

  /** The loop `for i: groups[keys[i]].push_back(i)` starting from an empty
      map. */
  function IndexLists<K(==,!new)>(keys: seq<K>, lt: (K, K) -> bool): (r: seq<(K, seq<int>)>)
    requires StrictTotalOrder(lt)
    ensures Ascending(r, lt)
  {
    if |keys| == 0 then []
    else
      var m := IndexLists(keys[..|keys| - 1], lt);
      Put(m, keys[|keys| - 1], GetOr(m, keys[|keys| - 1], []) + [|keys| - 1], lt)
  }

  /** A key has a list exactly when it occurs, and its list holds the
      positions where it occurs, ascending. */
  lemma {:induction false} IndexListsGet<K(!new)>(keys: seq<K>, lt: (K, K) -> bool, k: K)
    requires StrictTotalOrder(lt)
    ensures Get(IndexLists(keys, lt), k) == if k in keys then Some(IndicesOf(keys, k)) else None
    decreases |keys|
  {
    if |keys| > 0 {
      var n := |keys| - 1;
      var pre := keys[..n];
      var x := keys[n];
      var m := IndexLists(pre, lt);
      var l := IndexLists(keys, lt);
      IndexListsGet(pre, lt, k);
      KeysSnoc(keys, k);
      assert l == Put(m, x, GetOr(m, x, []) + [n], lt);
      if x == k {
        assert GetOr(m, k, []) == IndicesOf(pre, k) by {
          if k !in pre {
            IndicesOfAbsent(pre, k);
          }
        }
        assert Get(l, k) == Some(GetOr(m, k, []) + [n]);
        assert IndicesOf(keys, k) == IndicesOf(pre, k) + [n];
      } else {
        assert Get(l, k) == Get(m, k);
        assert IndicesOf(keys, k) == IndicesOf(pre, k);
      }
    }
  }

  /** Membership in, and the index list of, a sequence extended by one. */
  lemma KeysSnoc<K>(keys: seq<K>, k: K)
    requires |keys| > 0
    ensures k in keys <==> k in keys[..|keys| - 1] || keys[|keys| - 1] == k
  {
    assert keys == keys[..|keys| - 1] + [keys[|keys| - 1]];
  }

  /** The index lists partition the positions: position i sits in the list
      of entry p exactly when p is the entry of `keys[i]`; every list is
      non-empty, so no average over a group divides by zero. */
  lemma IndexListsPartition<K(!new)>(keys: seq<K>, lt: (K, K) -> bool)
    requires StrictTotalOrder(lt)
    ensures forall p, i :: 0 <= p < |IndexLists(keys, lt)| && 0 <= i < |keys|
              ==> (i in IndexLists(keys, lt)[p].1 <==> keys[i] == IndexLists(keys, lt)[p].0)
    ensures forall p :: 0 <= p < |IndexLists(keys, lt)| ==> |IndexLists(keys, lt)[p].1| > 0
    ensures forall i :: 0 <= i < |keys| ==> keys[i] in Keys(IndexLists(keys, lt))
  {
    var r := IndexLists(keys, lt);
    forall p, i | 0 <= p < |r| && 0 <= i < |keys| ensures i in r[p].1 <==> keys[i] == r[p].0 {
      IndexListsEntry(keys, lt, p);
    }
    forall p | 0 <= p < |r| ensures |r[p].1| > 0 {
      IndexListsEntry(keys, lt, p);
    }
    forall i | 0 <= i < |keys| ensures keys[i] in Keys(r) {
      IndexListsGet(keys, lt, keys[i]);
      GetInKeys(r, keys[i]);
    }
  }

  /** Entry p of the index lists: its key occurs in `keys`, its list is the
      key's positions, and it is non-empty. */
  lemma IndexListsEntry<K(!new)>(keys: seq<K>, lt: (K, K) -> bool, p: nat)
    requires StrictTotalOrder(lt) && p < |IndexLists(keys, lt)|
    ensures IndexLists(keys, lt)[p].0 in keys
    ensures IndexLists(keys, lt)[p].1 == IndicesOf(keys, IndexLists(keys, lt)[p].0)
    ensures |IndexLists(keys, lt)[p].1| > 0
    ensures forall i :: 0 <= i < |keys| ==> (i in IndexLists(keys, lt)[p].1 <==> keys[i] == IndexLists(keys, lt)[p].0)
  {
    var r := IndexLists(keys, lt);
    var k := r[p].0;
    GetAt(r, lt, p);
    IndexListsGet(keys, lt, k);
    IndicesOfSpec(keys, k);
    var i :| 0 <= i < |keys| && keys[i] == k;
    assert i in r[p].1;
  }

  /** Sum of `vals` at the listed positions (the gather-then-reduce of a
      group); a position outside `vals` contributes nothing. */
  function SumAt(vals: seq<real>, idxs: seq<int>): real
  {
    if |idxs| == 0 then 0.0
    else SumAt(vals, idxs[..|idxs| - 1]) + (if 0 <= idxs[|idxs| - 1] < |vals| then vals[idxs[|idxs| - 1]] else 0.0)
  }

  /** Reducing the index list of `k` sums the values of exactly the rows
      whose key is `k`. */
  lemma {:induction false} SumAtIndices<K>(keys: seq<K>, vals: seq<real>, k: K)
    requires |vals| == |keys|
    ensures SumAt(vals, IndicesOf(keys, k)) == SumFor(Pairs(keys, vals), k)
  {
    SumAtIndicesPrefix(keys, vals, k, |keys|);
    assert keys[..|keys|] == keys;
  }

  lemma {:induction false} SumAtIndicesPrefix<K>(keys: seq<K>, vals: seq<real>, k: K, n: nat)
    requires |vals| == |keys| && n <= |keys|
    ensures SumAt(vals, IndicesOf(keys[..n], k)) == SumFor(Pairs(keys[..n], vals), k)
    decreases n
  {
    if n > 0 {
      SumAtIndicesPrefix(keys, vals, k, n - 1);
      var ix := IndicesOf(keys[..n - 1], k);
      PairsSnoc(keys, vals, n);
      SumForSnoc(Pairs(keys[..n - 1], vals), (keys[n - 1], vals[n - 1]), k);
      assert keys[..n][..n - 1] == keys[..n - 1];
      if keys[n - 1] == k {
        assert IndicesOf(keys[..n], k) == ix + [n - 1];
        assert (ix + [n - 1])[..|ix|] == ix;
      } else {
        assert IndicesOf(keys[..n], k) == ix;
      }
    }
  }

  lemma PairsSnoc<K>(keys: seq<K>, vals: seq<real>, n: nat)
    requires |vals| == |keys| && 0 < n <= |keys|
    ensures Pairs(keys[..n], vals) == Pairs(keys[..n - 1], vals) + [(keys[n - 1], vals[n - 1])]
  {
  }

  lemma SumForSnoc<K>(ps: seq<(K, real)>, x: (K, real), k: K)
    ensures SumFor(ps + [x], k) == SumFor(ps, k) + (if x.0 == k then x.1 else 0.0)
  {
    assert (ps + [x])[..|ps|] == ps;
  }

  /** Each position's key paired with its value. */
  function Pairs<K>(keys: seq<K>, vals: seq<real>): (ps: seq<(K, real)>)
    ensures |ps| == |keys|
    ensures forall i :: 0 <= i < |keys| ==> ps[i].0 == keys[i]
  {
    seq(|keys|, i requires 0 <= i < |keys| => (keys[i], if i < |vals| then vals[i] else 0.0))
  }

  /** The flush of a batch: for each (group, index list) entry in map
      order, the group's key under `f` and the sum of the batch values at
      its positions. */
  function GroupTotals<G, K>(e: seq<(G, seq<int>)>, f: G -> K, vals: seq<real>): (ps: seq<(K, real)>)
    ensures |ps| == |e|
    ensures forall p :: 0 <= p < |e| ==> ps[p].0 == f(e[p].0)
  {
    seq(|e|, p requires 0 <= p < |e| => (f(e[p].0), SumAt(vals, e[p].1)))
  }

  /** Flushing per group and summing by `f`-key gives, for every key, the
      same total as summing the batch row by row: the index lists partition
      the batch. */
  lemma PartitionSum<G(!new), K>(gks: seq<G>, f: G -> K, vals: seq<real>, k: K, lt: (G, G) -> bool)
    requires StrictTotalOrder(lt) && |vals| == |gks|
    ensures SumFor(GroupTotals(IndexLists(gks, lt), f, vals), k) == SumFor(Pairs(MapKeys(gks, f), vals), k)
  {
    var w := (g: G, ix: seq<int>) => if f(g) == k then SumAt(vals, ix) else 0.0;
    var e := IndexLists(gks, lt);
    GroupTotalsSum(e, f, vals, k, w);
    IndexListsSumBy(gks, f, vals, k, lt, w, |gks|);
    assert gks[..|gks|] == gks;
    assert MapKeys(gks, f)[..|gks|] == MapKeys(gks, f);
    assert SumBy(e, w) == SumFor(Pairs(MapKeys(gks, f), vals), k);
  }

  function MapKeys<G, K>(gks: seq<G>, f: G -> K): (ks: seq<K>)
    ensures |ks| == |gks|
    ensures forall i :: 0 <= i < |gks| ==> ks[i] == f(gks[i])
  {
    seq(|gks|, i requires 0 <= i < |gks| => f(gks[i]))
  }

  lemma {:induction false} GroupTotalsSum<G(!new), K>(e: seq<(G, seq<int>)>, f: G -> K, vals: seq<real>, k: K,
                                                    w: (G, seq<int>) -> real)
    requires forall g, ix :: w(g, ix) == if f(g) == k then SumAt(vals, ix) else 0.0
    ensures SumFor(GroupTotals(e, f, vals), k) == SumBy(e, w)
    decreases |e|
  {
    if |e| > 0 {
      GroupTotalsSum(e[1..], f, vals, k, w);
      var head := (f(e[0].0), SumAt(vals, e[0].1));
      GroupTotalsCons(e, f, vals);
      SumForConcat([head], GroupTotals(e[1..], f, vals), k);
      SumForSingle(head, k);
    }
  }

  /** The flushed totals of a non-empty list: its first group's, then the rest's. */
  lemma GroupTotalsCons<G, K>(e: seq<(G, seq<int>)>, f: G -> K, vals: seq<real>)
    requires |e| > 0
    ensures GroupTotals(e, f, vals) == [(f(e[0].0), SumAt(vals, e[0].1))] + GroupTotals(e[1..], f, vals)
  {
    var gt := GroupTotals(e, f, vals);
    var rest := GroupTotals(e[1..], f, vals);
    assert forall p :: 0 < p < |gt| ==> gt[p] == rest[p - 1];
  }

  lemma SumForSingle<K>(p: (K, real), k: K)
    ensures SumFor([p], k) == if p.0 == k then p.1 else 0.0
  {
    assert [p][..0] == [];
  }

  lemma {:induction false} IndexListsSumBy<G(!new), K>(gks: seq<G>, f: G -> K, vals: seq<real>, k: K,
                                                             lt: (G, G) -> bool, w: (G, seq<int>) -> real, n: nat)
    requires StrictTotalOrder(lt) && |vals| == |gks| && n <= |gks|
    requires forall g, ix :: w(g, ix) == if f(g) == k then SumAt(vals, ix) else 0.0
    ensures SumBy(IndexLists(gks[..n], lt), w) == SumFor(Pairs(MapKeys(gks, f)[..n], vals), k)
    decreases n
  {
    if n > 0 {
      var pre := gks[..n - 1];
      assert gks[..n][..n - 1] == pre;
      IndexListsSumBy(gks, f, vals, k, lt, w, n - 1);
      var m := IndexLists(pre, lt);
      var g := gks[n - 1];
      var old_ := GetOr(m, g, []);
      SumByPut(m, g, old_ + [n - 1], lt, w);
      assert (old_ + [n - 1])[..|old_|] == old_;
      assert SumAt(vals, old_ + [n - 1]) == SumAt(vals, old_) + vals[n - 1];
      var ps := Pairs(MapKeys(gks, f)[..n], vals);
      assert ps[..n - 1] == Pairs(MapKeys(gks, f)[..n - 1], vals);
    }
  }

  /** A key receives a flushed total iff some batch row maps to it. */
  lemma GroupTotalsKeys<G(!new), K>(gks: seq<G>, f: G -> K, vals: seq<real>, k: K, lt: (G, G) -> bool)
    requires StrictTotalOrder(lt)
    ensures (exists p :: 0 <= p < |GroupTotals(IndexLists(gks, lt), f, vals)|
                         && GroupTotals(IndexLists(gks, lt), f, vals)[p].0 == k)
        <==> (exists i :: 0 <= i < |gks| && f(gks[i]) == k)
  {
    var r := IndexLists(gks, lt);
    var gt := GroupTotals(r, f, vals);
    if exists p :: 0 <= p < |gt| && gt[p].0 == k {
      var p :| 0 <= p < |gt| && gt[p].0 == k;
      IndexListsEntry(gks, lt, p);
      var i :| 0 <= i < |gks| && gks[i] == r[p].0;
      assert f(gks[i]) == k;
    }
    if exists i :: 0 <= i < |gks| && f(gks[i]) == k {
      var i :| 0 <= i < |gks| && f(gks[i]) == k;
      IndexListsGet(gks, lt, gks[i]);
      GetSpec(r, gks[i]);
      var p :| 0 <= p < |r| && r[p].0 == gks[i];
      assert gt[p].0 == k;
    }
  }
}
