/** TPC-H Query 9, vector variant (`rvv_query9.cpp`). The lookups and the
    line item checks are those of the scalar program; what differs is the
    profit arithmetic. A qualifying line item's four amounts are staged in
    a batch, and its batch position is appended to the index list of its
    (nation key, year) pair. When the batch reaches `BATCH_SIZE` rows, or
    at the end of a chunk, the three profit kernels run over the whole
    batch, and each index list's profits are summed and added to the total
    of its (nation name, year) pair. */
module RvvQuery9 {
  import opened Common
  import opened Ordering
  import opened OrdMap
  import opened GroupBy
  import opened Strip
  import opened Kernels
  import opened Decimal
  import opened Query9

  const BATCH_SIZE: nat := 1024

  /** The key of an index list: (supplier nation key, order year). */
  type BatchKey = (int, int)

  /** `std::pair<int64_t, int32_t>`'s `operator<`. */
  predicate PairLess(a: BatchKey, b: BatchKey)
  {
    LexLess(IntLess, IntLess, a, b)
  }

  lemma PairLessIsStrictTotal()
    ensures StrictTotalOrder(PairLess)
  {
    IntOrdersAreStrictTotal();
    LexIsStrictTotal(IntLess, IntLess);
  }

  /** The flush's translation of a batch key to a result key: the nation
      key becomes `nation_map[nationkey]`, "" for an unknown key. */
  function Resolve(nations: map<int, string>): BatchKey -> NationYear
  {
    (g: BatchKey) => (NationName(nations, g.0), g.1)
  }

  /** The staging buffers of a batch and the `nation_year_indices` map. */
  datatype Batch = Batch(price: seq<real>, discount: seq<real>, quantity: seq<real>, supplycost: seq<real>,
                         indices: seq<(BatchKey, seq<int>)>)

  const EMPTY: Batch := Batch([], [], [], [], [])

  predicate Aligned(b: Batch)
  {
    |b.discount| == |b.price| && |b.quantity| == |b.price| && |b.supplycost| == |b.price|
  }

  /** The index lists built by `nation_year_indices[key].push_back(i)` for
      each staged row in turn. */
  function BatchIndex(keys: seq<BatchKey>): (r: seq<(BatchKey, seq<int>)>)
    ensures StrictTotalOrder(PairLess) && Ascending(r, PairLess)
  {
    PairLessIsStrictTotal();
    IndexLists(keys, PairLess)
  }

  /** The batch stages one row per key in `keys`, and its index map is the
      one those rows built. */
  ghost predicate Holds(b: Batch, keys: seq<BatchKey>)
  {
    Aligned(b) && |keys| == |b.price| && b.indices == BatchIndex(keys)
  }

  /** The profit of each staged row. */
  function ProfitVals(b: Batch): (vals: seq<real>)
    requires Aligned(b)
    ensures |vals| == |b.price|
  {
    seq(|b.price|, k requires 0 <= k < |b.price| => ProfitAmount(b.price[k], b.discount[k], b.supplycost[k], b.quantity[k]))
  }

  /** What the staged rows still owe the totals: each row's result key and
      profit, in staging order. */
  function Pending(b: Batch, keys: seq<BatchKey>, nations: map<int, string>): (ps: seq<(NationYear, real)>)
    requires Aligned(b)
    ensures |ps| == |keys|
  {
    Pairs(MapKeys(keys, Resolve(nations)), ProfitVals(b))
  }

  /** `profit_by_nation_year[key] += amount` for each pair in turn. */
  function AddBatch(profits: seq<(NationYear, real)>, ps: seq<(NationYear, real)>): (r: seq<(NationYear, real)>)
    requires Ascending(profits, NationYearLess)
    ensures StrictTotalOrder(NationYearLess) && Ascending(r, NationYearLess)
  {
    OrdersAreStrictTotal();
    AddAll(profits, ps, NationYearLess)
  }

  /* ---- The flush ---- */

  /** `nation_year_profit += profit_results[idx]` over one index list. */
  method SumIndices(vals: seq<real>, idxs: seq<int>) returns (s: real)
    requires forall j :: 0 <= j < |idxs| ==> 0 <= idxs[j] < |vals|
    ensures s == SumAt(vals, idxs)
  {
    s := 0.0;
    for j := 0 to |idxs|
      invariant s == SumAt(vals, idxs[..j])
    {
      assert idxs[..j + 1][..j] == idxs[..j];
      s := s + vals[idxs[j]];
    }
    assert idxs[..|idxs|] == idxs;
  }

  /** `batch_process_profit` over the staged rows, into a fresh result
      buffer of the batch's length. */
  method BatchProfits(b: Batch, vsetvl: nat -> nat) returns (vals: seq<real>)
    requires VsetvlOk(vsetvl) && Aligned(b)
    ensures vals == ProfitVals(b)
  {
    var n := |b.price|;
    vals := BatchProcessProfit(b.price, b.discount, b.quantity, b.supplycost, Broadcast(0.0, n), n, vsetvl);
  }

  /** Every position in an index list is a position of the batch. */
  lemma ListsInBatch(keys: seq<BatchKey>, p: nat)
    requires p < |BatchIndex(keys)|
    ensures forall j :: 0 <= j < |BatchIndex(keys)[p].1| ==> 0 <= BatchIndex(keys)[p].1[j] < |keys|
  {
    IndexListsEntry(keys, PairLess, p);
    IndicesOfSpec(keys, BatchIndex(keys)[p].0);
  }

  /** The loop over `nation_year_indices`: for each (nation key, year) list
      in map order, the sum of its rows' profits is added to the total of
      the (nation name, year) pair. */
  method AddGroups(indices: seq<(BatchKey, seq<int>)>, ghost keys: seq<BatchKey>, vals: seq<real>,
                   nations: map<int, string>, profits: seq<(NationYear, real)>)
    returns (r: seq<(NationYear, real)>)
    requires indices == BatchIndex(keys) && |vals| == |keys| && Ascending(profits, NationYearLess)
    ensures Ascending(r, NationYearLess)
    ensures r == AddBatch(profits, GroupTotals(indices, Resolve(nations), vals))
  {
    OrdersAreStrictTotal();
    ghost var gt := GroupTotals(indices, Resolve(nations), vals);
    r := profits;
    for p := 0 to |indices|
      invariant r == AddBatch(profits, gt[..p])
    {
      ListsInBatch(keys, p);
      r := AddList(r, indices[p], vals, nations);
      AddStep(profits, indices, nations, vals, p, gt);
    }
    assert gt[..|indices|] == gt;
  }

  /** One index list: the sum of its rows' profits is added to the total
      of its (nation name, year) pair. */
  method AddList(r: seq<(NationYear, real)>, list: (BatchKey, seq<int>), vals: seq<real>, nations: map<int, string>)
    returns (r': seq<(NationYear, real)>)
    requires Ascending(r, NationYearLess)
    requires forall j :: 0 <= j < |list.1| ==> 0 <= list.1[j] < |vals|
    ensures r' == AddBatch(r, [((NationName(nations, list.0.0), list.0.1), SumAt(vals, list.1))])
  {
    OrdersAreStrictTotal();
    var total := SumIndices(vals, list.1);
    var k := (NationName(nations, list.0.0), list.0.1);
    r' := Put(r, k, GetOr(r, k, 0.0) + total, NationYearLess);
    AddAllSnoc(r, [], (k, total), NationYearLess);
    assert [] + [(k, total)] == [(k, total)];
  }

  /** One more index list adds its sum to its (nation name, year) total. */
  lemma AddStep(profits: seq<(NationYear, real)>, indices: seq<(BatchKey, seq<int>)>, nations: map<int, string>,
                vals: seq<real>, p: nat, gt: seq<(NationYear, real)>)
    requires Ascending(profits, NationYearLess) && p < |indices|
    requires gt == GroupTotals(indices, Resolve(nations), vals)
    ensures AddBatch(profits, gt[..p + 1])
         == AddBatch(AddBatch(profits, gt[..p]), [((NationName(nations, indices[p].0.0), indices[p].0.1), SumAt(vals, indices[p].1))])
  {
    OrdersAreStrictTotal();
    TotalAt(indices, nations, vals, p);
    AddAllConcat(profits, gt[..p], [gt[p]], NationYearLess);
    assert gt[..p + 1] == gt[..p] + [gt[p]];
  }

  /** Entry p of the flushed totals: the list's (nation name, year) and
      the sum of its rows' profits. */
  lemma TotalAt(indices: seq<(BatchKey, seq<int>)>, nations: map<int, string>, vals: seq<real>, p: nat)
    requires p < |indices|
    ensures GroupTotals(indices, Resolve(nations), vals)[p]
         == ((NationName(nations, indices[p].0.0), indices[p].0.1), SumAt(vals, indices[p].1))
  {
  }

  /** A flush: the profit kernels over the staged rows, then the per-list
      sums added to the totals. The result is as if each staged row had
      added its own profit to its pair's total. */
  method Flush(b: Batch, ghost keys: seq<BatchKey>, nations: map<int, string>,
               profits: seq<(NationYear, real)>, vsetvl: nat -> nat)
    returns (r: seq<(NationYear, real)>)
    requires VsetvlOk(vsetvl) && Holds(b, keys) && Ascending(profits, NationYearLess)
    ensures Ascending(r, NationYearLess)
    ensures r == AddBatch(profits, Pending(b, keys, nations))
  {
    var vals := BatchProfits(b, vsetvl);
    r := AddGroups(b.indices, keys, vals, nations, profits);
    FlushTotals(keys, vals, nations, profits);
  }

  /** Summing per index list and then per result key adds, under every
      result key, what the rows would have added one by one. */
  lemma FlushTotals(keys: seq<BatchKey>, vals: seq<real>, nations: map<int, string>, profits: seq<(NationYear, real)>)
    requires |vals| == |keys| && Ascending(profits, NationYearLess)
    ensures AddBatch(profits, GroupTotals(BatchIndex(keys), Resolve(nations), vals))
         == AddBatch(profits, Pairs(MapKeys(keys, Resolve(nations)), vals))
  {
    var f := Resolve(nations);
    var gt := GroupTotals(BatchIndex(keys), f, vals);
    var ps := Pairs(MapKeys(keys, f), vals);
    forall k ensures Named(gt, k) <==> Named(ps, k) {
      GroupTotalsKeys(keys, f, vals, k, PairLess);
      if Named(ps, k) {
        var j :| 0 <= j < |ps| && ps[j].0 == k;
        assert f(keys[j]) == k;
      }
      if exists i :: 0 <= i < |keys| && f(keys[i]) == k {
        var i :| 0 <= i < |keys| && f(keys[i]) == k;
        assert ps[i].0 == k;
      }
    }
    forall k ensures SumFor(gt, k) == SumFor(ps, k) {
      PartitionSum(keys, f, vals, k, PairLess);
    }
    OrdersAreStrictTotal();
    AddAllSameSums(profits, gt, ps, NationYearLess);
  }

  /* ---- The row loop ---- */

  /** Staging one more item: the four amounts are pushed and the new
      position joins the list of the item's (nation key, year). */
  lemma PendingSnoc(b: Batch, keys: seq<BatchKey>, it: Item, nations: map<int, string>)
    requires Holds(b, keys)
    ensures var key := (it.nationkey, it.year);
            var b' := Batch(b.price + [it.price], b.discount + [it.discount], b.quantity + [it.quantity],
                            b.supplycost + [it.supplycost],
                            Put(b.indices, key, GetOr(b.indices, key, []) + [|b.price|], PairLess));
            && Holds(b', keys + [key])
            && Pending(b', keys + [key], nations)
               == Pending(b, keys, nations) + [((NationName(nations, it.nationkey), it.year), ProfitOf(it))]
  {
    var key := (it.nationkey, it.year);
    var keys' := keys + [key];
    assert keys'[..|keys|] == keys;
    var b' := Batch(b.price + [it.price], b.discount + [it.discount], b.quantity + [it.quantity],
                    b.supplycost + [it.supplycost],
                    Put(b.indices, key, GetOr(b.indices, key, []) + [|b.price|], PairLess));
    var vals := ProfitVals(b);
    var vals' := ProfitVals(b');
    assert vals' == vals + [ProfitOf(it)] by {
      forall k | 0 <= k < |vals'| ensures vals'[k] == (vals + [ProfitOf(it)])[k] {
        if k < |vals| {
          assert b'.price[k] == b.price[k] && b'.discount[k] == b.discount[k];
          assert b'.supplycost[k] == b.supplycost[k] && b'.quantity[k] == b.quantity[k];
        }
      }
    }
    assert MapKeys(keys', Resolve(nations)) == MapKeys(keys, Resolve(nations)) + [Resolve(nations)(key)];
  }

  /** Staging one item: the four amounts are pushed onto the batch's
      columns and the new position is appended to the index list of the
      item's (nation key, year). */
  method Stage(b: Batch, ghost keys: seq<BatchKey>, it: Item, nations: map<int, string>)
    returns (b': Batch, ghost keys': seq<BatchKey>)
    requires Holds(b, keys)
    ensures Holds(b', keys') && |b'.price| == |b.price| + 1
    ensures Pending(b', keys', nations) == Pending(b, keys, nations) + [((NationName(nations, it.nationkey), it.year), ProfitOf(it))]
  {
    var key := (it.nationkey, it.year);
    PendingSnoc(b, keys, it, nations);
    b' := Batch(b.price + [it.price], b.discount + [it.discount], b.quantity + [it.quantity],
                b.supplycost + [it.supplycost],
                Put(b.indices, key, GetOr(b.indices, key, []) + [|b.price|], PairLess));
    keys' := keys + [key];
  }

  /** The body of the line item loop for one row: a row that qualifies
      (the scalar program's checks, in its order) is staged; a batch that
      reaches `BATCH_SIZE` rows is flushed and cleared. Whatever happens,
      the batch stays below `BATCH_SIZE`, and the totals plus what the
      batch still owes grow by exactly the row's contribution. */
  method ScanRow(l: LineitemRow, types: ColumnTypes, lk: Lookups, b: Batch, ghost keys: seq<BatchKey>,
                 profits: seq<(NationYear, real)>, vsetvl: nat -> nat)
    returns (b': Batch, ghost keys': seq<BatchKey>, profits': seq<(NationYear, real)>)
    requires VsetvlOk(vsetvl) && Holds(b, keys) && |b.price| < BATCH_SIZE && Ascending(profits, NationYearLess)
    ensures Holds(b', keys') && Ascending(profits', NationYearLess)
    ensures |b'.price| < BATCH_SIZE
    ensures Contribution(l, types, lk).None? ==> b' == b && keys' == keys && profits' == profits
    ensures Contribution(l, types, lk).Some? ==>
              AddBatch(profits', Pending(b', keys', lk.nations))
              == AddBatch(profits, Pending(b, keys, lk.nations) + [Contribution(l, types, lk).value])
  {
    b', keys', profits' := b, keys, profits;
    var item := Qualify(l, types, lk);
    if item.None? {
      return;
    }
    b', keys' := Stage(b, keys, item.value, lk.nations);
    if |b'.price| >= BATCH_SIZE {
      profits' := Flush(b', keys', lk.nations, profits, vsetvl);
      b', keys' := EMPTY, [];
      assert Pending(b', keys', lk.nations) == [];
    }
  }

  /** The line item loop over one chunk: rows are staged and flushed as
      they qualify, and what is left in the batch is flushed at the chunk's
      end. The totals end up as if the chunk's contributions had been added
      row by row. */
  method ScanChunk(chunk: seq<LineitemRow>, types: ColumnTypes, lk: Lookups, profits0: seq<(NationYear, real)>,
                   processed0: nat, qualified0: nat, vsetvl: nat -> nat)
    returns (profits: seq<(NationYear, real)>, processed: nat, qualified: nat)
    requires VsetvlOk(vsetvl) && Ascending(profits0, NationYearLess)
    ensures Ascending(profits, NationYearLess)
    ensures profits == AddBatch(profits0, Present(Contributions(chunk, types, lk)))
    ensures processed == processed0 + |chunk|
    ensures qualified == qualified0 + |Present(Contributions(chunk, types, lk))|
  {
    OrdersAreStrictTotal();
    var b := EMPTY;
    ghost var keys: seq<BatchKey> := [];
    profits, processed, qualified := profits0, processed0, qualified0;
    for i := 0 to |chunk|
      invariant Holds(b, keys) && |b.price| < BATCH_SIZE && Ascending(profits, NationYearLess)
      invariant AddBatch(profits, Pending(b, keys, lk.nations)) == AddBatch(profits0, Present(Contributions(chunk[..i], types, lk)))
      invariant processed == processed0 + i
      invariant qualified == qualified0 + |Present(Contributions(chunk[..i], types, lk))|
    {
      ghost var before := Present(Contributions(chunk[..i], types, lk));
      ghost var owed := Pending(b, keys, lk.nations);
      ghost var profitsBefore := profits;
      processed := processed + 1;
      b, keys, profits := ScanRow(chunk[i], types, lk, b, keys, profits, vsetvl);
      ContributionsStep(chunk, i, types, lk);
      var c := Contribution(chunk[i], types, lk);
      if c.Some? {
        qualified := qualified + 1;
        OwedStep(profits0, before, profitsBefore, owed, profits, Pending(b, keys, lk.nations), c.value);
      } else {
        assert before + [] == before;
      }
    }
    assert chunk[..|chunk|] == chunk;
    if |b.price| > 0 {
      profits := Flush(b, keys, lk.nations, profits, vsetvl);
    }
  }

  /** Staging a contribution keeps the totals plus what the batch owes
      equal to the contributions seen so far. */
  lemma OwedStep(profits0: seq<(NationYear, real)>, before: seq<(NationYear, real)>,
                 profitsBefore: seq<(NationYear, real)>, owed: seq<(NationYear, real)>,
                 profits: seq<(NationYear, real)>, owed': seq<(NationYear, real)>, x: (NationYear, real))
    requires Ascending(profits0, NationYearLess) && Ascending(profitsBefore, NationYearLess)
    requires Ascending(profits, NationYearLess)
    requires AddBatch(profitsBefore, owed) == AddBatch(profits0, before)
    requires AddBatch(profits, owed') == AddBatch(profitsBefore, owed + [x])
    ensures AddBatch(profits, owed') == AddBatch(profits0, before + [x])
  {
    OrdersAreStrictTotal();
    AddAllConcat(profitsBefore, owed, [x], NationYearLess);
    AddAllConcat(profits0, before, [x], NationYearLess);
  }

  /** One row more: the present contributions gain the row's, if any. */
  lemma ContributionsStep(rows: seq<LineitemRow>, i: nat, types: ColumnTypes, lk: Lookups)
    requires i < |rows|
    ensures Present(Contributions(rows[..i + 1], types, lk))
         == Present(Contributions(rows[..i], types, lk))
            + (match Contribution(rows[i], types, lk) case None => [] case Some(x) => [x])
  {
    assert Contributions(rows[..i + 1], types, lk) == Contributions(rows[..i], types, lk) + [Contribution(rows[i], types, lk)];
    PresentStep(Contributions(rows[..i], types, lk), Contribution(rows[i], types, lk));
  }

  lemma ContributionsConcat(a: seq<LineitemRow>, b: seq<LineitemRow>, types: ColumnTypes, lk: Lookups)
    ensures Contributions(a + b, types, lk) == Contributions(a, types, lk) + Contributions(b, types, lk)
  {
  }

  /** The whole query: the lookups as in the scalar program, the batched
      line item loop chunk by chunk, and the sorted result vector. It
      yields exactly the scalar program's output: the same result rows in
      the same order, and the same counters. */
  method Run(part: Table<PartRow>, nation: Table<NationRow>, supplier: Table<SupplierRow>,
             partsupp: Table<PartsuppRow>, costType: ColumnType, orders: Table<OrderRow>,
             lineitem: Table<LineitemRow>, types: ColumnTypes, daysToYear: int -> int, vsetvl: nat -> nat)
    returns (out: Query9Output)
    requires VsetvlOk(vsetvl)
    ensures out == Query9.Run(part, nation, supplier, partsupp, costType, orders, lineitem, types, daysToYear)
  {
    var lk := BuildLookups(part, nation, supplier, partsupp, costType, orders, daysToYear);
    OrdersAreStrictTotal();
    var profits: seq<(NationYear, real)> := [];
    var processed, qualified := 0, 0;
    for c := 0 to |lineitem|
      invariant Ascending(profits, NationYearLess)
      invariant profits == Profits(Contributions(Rows(lineitem[..c]), types, lk))
      invariant processed == NumRows(lineitem[..c])
      invariant qualified == |Present(Contributions(Rows(lineitem[..c]), types, lk))|
    {
      ghost var seen := Contributions(Rows(lineitem[..c]), types, lk);
      ghost var more := Contributions(lineitem[c], types, lk);
      RowsOfPrefix(lineitem, c);
      ContributionsConcat(Rows(lineitem[..c]), lineitem[c], types, lk);
      ProfitsConcat(seen, more);
      PresentConcat(seen, more);
      profits, processed, qualified := ScanChunk(lineitem[c], types, lk, profits, processed, qualified, vsetvl);
      assert lineitem[..c + 1][..c] == lineitem[..c];
    }
    assert lineitem[..|lineitem|] == lineitem;
    var sorted := SortByKey(profits, ResultLess);
    out := Query9Output(ToResults(sorted), processed, qualified);
  }
}
