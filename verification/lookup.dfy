/** The lookup structures the programs build before their main loop: a
    `std::map` or `std::unordered_map` filled by `m[k] = v` over the rows of
    a table, and a `std::set` filled by `insert`. Only membership and the
    stored value are ever consulted, so a Dafny `map` and `set` model them.
    Each builder takes, per row in table order, the entry the row would
    store, or `None` when the row is skipped. */
module Lookup {
  import opened Common

  /** The map left by `m[k] = v` for each present entry, in order. */
  function LastWins<K(==), V>(entries: seq<Option<(K, V)>>): map<K, V>
  {
    if |entries| == 0 then map[]
    else
      var m := LastWins(entries[..|entries| - 1]);
      match entries[|entries| - 1]
      case None => m
      case Some(kv) => m[kv.0 := kv.1]
  }

  predicate HasKey<K(==), V>(e: Option<(K, V)>, k: K)
  {
    e.Some? && e.value.0 == k
  }

  /** A key is present iff some entry stores it, and its value is the one
      stored by the last such entry: a later row overwrites an earlier
      one. */
  lemma {:induction false} LastWinsSpec<K, V>(entries: seq<Option<(K, V)>>, k: K)
    ensures k in LastWins(entries) <==> exists i :: 0 <= i < |entries| && HasKey(entries[i], k)
    ensures k in LastWins(entries) ==>
              exists i :: 0 <= i < |entries| && entries[i] == Some((k, LastWins(entries)[k]))
                          && forall j :: i < j < |entries| ==> !HasKey(entries[j], k)
    decreases |entries|
  {
    if |entries| > 0 {
      LastWinsSpec(entries[..|entries| - 1], k);
      LastWinsSpecStep(entries, k);
    }
  }

  /** The inductive step of `LastWinsSpec`: from the entries before the
      last one to all of them. */
  lemma LastWinsSpecStep<K, V>(entries: seq<Option<(K, V)>>, k: K)
    requires |entries| > 0
    requires var pre := entries[..|entries| - 1];
             && (k in LastWins(pre) <==> exists i :: 0 <= i < |pre| && HasKey(pre[i], k))
             && (k in LastWins(pre) ==>
                   exists i :: 0 <= i < |pre| && pre[i] == Some((k, LastWins(pre)[k]))
                               && forall j :: i < j < |pre| ==> !HasKey(pre[j], k))
    ensures k in LastWins(entries) <==> exists i :: 0 <= i < |entries| && HasKey(entries[i], k)
    ensures k in LastWins(entries) ==>
              exists i :: 0 <= i < |entries| && entries[i] == Some((k, LastWins(entries)[k]))
                          && forall j :: i < j < |entries| ==> !HasKey(entries[j], k)
  {
    var pre := entries[..|entries| - 1];
    var n := |entries| - 1;
    assert forall i :: 0 <= i < n ==> entries[i] == pre[i];
    if HasKey(entries[n], k) {
      assert entries[n] == Some((k, LastWins(entries)[k]));
    } else if k in LastWins(pre) {
      var i :| 0 <= i < |pre| && pre[i] == Some((k, LastWins(pre)[k]))
               && forall j :: i < j < |pre| ==> !HasKey(pre[j], k);
      assert entries[i] == Some((k, LastWins(entries)[k]));
    }
  }

  /** Appending rows that store nothing under k leaves k's entry alone. */
  lemma {:induction false} LastWinsUnaffected<K, V>(entries: seq<Option<(K, V)>>, more: seq<Option<(K, V)>>, k: K)
    requires forall j :: 0 <= j < |more| ==> !HasKey(more[j], k)
    ensures (k in LastWins(entries + more)) == (k in LastWins(entries))
    ensures k in LastWins(entries) ==> LastWins(entries + more)[k] == LastWins(entries)[k]
    decreases |more|
  {
    if |more| > 0 {
      assert (entries + more)[..|entries + more| - 1] == entries + more[..|more| - 1];
      LastWinsUnaffected(entries, more[..|more| - 1], k);
    } else {
      assert entries + more == entries;
    }
  }

  /** The set left by `s.insert(k)` for each present entry. */
  function Collect<K>(entries: seq<Option<K>>): set<K>
  {
    if |entries| == 0 then {}
    else
      var s := Collect(entries[..|entries| - 1]);
      match entries[|entries| - 1]
      case None => s
      case Some(k) => s + {k}
  }

  /** A key is in the set iff some entry inserts it; how many entries do
      so does not matter. */
  lemma {:induction false} CollectSpec<K>(entries: seq<Option<K>>, k: K)
    ensures k in Collect(entries) <==> exists i :: 0 <= i < |entries| && entries[i] == Some(k)
    decreases |entries|
  {
    if |entries| > 0 {
      var pre := entries[..|entries| - 1];
      CollectSpec(pre, k);
      assert forall i :: 0 <= i < |pre| ==> entries[i] == pre[i];
      if k in Collect(pre) {
        var i :| 0 <= i < |pre| && pre[i] == Some(k);
        assert entries[i] == Some(k);
      }
    }
  }
}
