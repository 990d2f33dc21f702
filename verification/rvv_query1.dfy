/** TPC-H Query 1, vector variant (`rvv_query1.cpp`). An Arrow kernel
    drops the rows shipped after the cutoff; the four decimal columns of the
    filtered table's first chunk are read into float vectors, all at the
    extended price column's scale; `compute_disc_price_rvv` and
    `compute_charge_rvv` derive the two computed columns; the rows are
    partitioned into per-group index lists, and each group's five columns
    are gathered and summed by `sum_rvv`. */
module RvvQuery1 {
  import opened Common
  import opened Ordering
  import opened OrdMap
  import opened GroupBy
  import opened Decimal
  import opened Strip
  import opened Kernels
  import opened Query1

  /** `Filter(table, less_equal(l_shipdate, cutoff))`: a null shipdate
      compares to null and `Filter` drops the row, so the kept rows are
      exactly the scalar variant's accepted ones, in table order. */
  function Filtered(rows: seq<LineitemRow>, cutoff: int): (kept: seq<LineitemRow>)
    ensures |kept| <= |rows|
  {
    if |rows| == 0 then []
    else Filtered(rows[..|rows| - 1], cutoff) + (if Accepted(rows[|rows| - 1], cutoff) then [rows[|rows| - 1]] else [])
  }

  /** A decimal slot as the extraction loop reads it: at the price
      column's scale when that column is DECIMAL128; otherwise the loop is
      skipped and the vector keeps its value-initialised zero. */
  function Read(slot: Slot, types: ColumnTypes): real
  {
    if types.price.Decimal128Type? then Decode(slot, types.price.scale) else 0.0
  }

  /** What lane j of the six float vectors holds for filtered row j. */
  function LaneOf(l: LineitemRow, types: ColumnTypes): LineAmounts
  {
    var price := Read(l.price.raw, types);
    var discount := Read(l.discount.raw, types);
    var discPrice := Query1.DiscPrice(price, discount);
    LineAmounts(Read(l.quantity.raw, types), price, discPrice, Query1.Charge(discPrice, Read(l.tax.raw, types)), discount)
  }

  function Lanes(f: seq<LineitemRow>, types: ColumnTypes): (v: seq<LineAmounts>)
    ensures |v| == |f|
  {
    seq(|f|, j requires 0 <= j < |f| => LaneOf(f[j], types))
  }

  /** The group key of every filtered row, read from the first chunk's
      string arrays without a null check. */
  function KeysOf(f: seq<LineitemRow>): (ks: seq<GroupKey>)
    ensures |ks| == |f|
  {
    seq(|f|, j requires 0 <= j < |f| => KeyOfRow(f[j]))
  }

  /** Σ sel(lanes[i]) over the listed positions: gathering one column of
      a group into a vector and summing it. */
  function GroupSum(lanes: seq<LineAmounts>, idxs: seq<int>, sel: LineAmounts -> real): real
  {
    if |idxs| == 0 then 0.0
    else GroupSum(lanes, idxs[..|idxs| - 1], sel)
         + (if 0 <= idxs[|idxs| - 1] < |lanes| then sel(lanes[idxs[|idxs| - 1]]) else 0.0)
  }

  /** The printed row of a group: the five sums, the three averages over
      the group size, and the group size as the count. */
  function GroupRow(lanes: seq<LineAmounts>, idxs: seq<int>): AggregateValues
  {
    Average(AggregateValues(GroupSum(lanes, idxs, QuantityOf), GroupSum(lanes, idxs, PriceOf),
                            GroupSum(lanes, idxs, DiscPriceOf), GroupSum(lanes, idxs, ChargeOf),
                            0.0, 0.0, 0.0, GroupSum(lanes, idxs, DiscountOf), |idxs|))
  }

  function ReportRows(entries: seq<(GroupKey, seq<int>)>, lanes: seq<LineAmounts>): (rs: seq<(GroupKey, AggregateValues)>)
    ensures |rs| == |entries|
  {
    seq(|entries|, p requires 0 <= p < |entries| => (entries[p].0, GroupRow(lanes, entries[p].1)))
  }

  /** The groups in key order, each with its printed row. */
  function RvvReport(rows: seq<LineitemRow>, cutoff: int, types: ColumnTypes): seq<(GroupKey, AggregateValues)>
  {
    KeyLessIsStrictTotal();
    var f := Filtered(rows, cutoff);
    ReportRows(IndexLists(KeysOf(f), KeyLess), Lanes(f, types))
  }

  /** `group_qty[i] = quantity_data[indices[i]]` for every i. */
  function Gather(vals: seq<real>, idxs: seq<int>): (g: seq<real>)
    requires forall i :: 0 <= i < |idxs| ==> 0 <= idxs[i] < |vals|
    ensures |g| == |idxs|
  {
    seq(|idxs|, i requires 0 <= i < |idxs| => vals[idxs[i]])
  }

  /* ---- The program ---- */

  /** The extraction loop: when the price column is DECIMAL128, every
      filtered row's four decimals are decoded at the price column's scale;
      otherwise the four vectors stay zero. */
  method Extract(f: seq<LineitemRow>, types: ColumnTypes)
    returns (quantityData: seq<real>, priceData: seq<real>, discountData: seq<real>, taxData: seq<real>)
    ensures |quantityData| == |priceData| == |discountData| == |taxData| == |f|
    ensures forall j :: 0 <= j < |f| ==>
              && quantityData[j] == Read(f[j].quantity.raw, types) && priceData[j] == Read(f[j].price.raw, types)
              && discountData[j] == Read(f[j].discount.raw, types) && taxData[j] == Read(f[j].tax.raw, types)
  {
    var n := |f|;
    quantityData, priceData, discountData, taxData := Broadcast(0.0, n), Broadcast(0.0, n), Broadcast(0.0, n), Broadcast(0.0, n);
    if types.price.Decimal128Type? {
      var scale := types.price.scale;
      for i := 0 to n
        invariant |quantityData| == |priceData| == |discountData| == |taxData| == n
        invariant forall j :: 0 <= j < i ==>
                    && quantityData[j] == Read(f[j].quantity.raw, types) && priceData[j] == Read(f[j].price.raw, types)
                    && discountData[j] == Read(f[j].discount.raw, types) && taxData[j] == Read(f[j].tax.raw, types)
      {
        priceData := priceData[i := Decode(f[i].price.raw, scale)];
        discountData := discountData[i := Decode(f[i].discount.raw, scale)];
        taxData := taxData[i := Decode(f[i].tax.raw, scale)];
        quantityData := quantityData[i := Decode(f[i].quantity.raw, scale)];
      }
    }
  }

  /** The extraction and the two element-wise kernels: afterwards lane j
      of the six vectors holds `LaneOf` of filtered row j. */
  method ComputeLanes(f: seq<LineitemRow>, types: ColumnTypes, vsetvl: nat -> nat)
    returns (quantityData: seq<real>, priceData: seq<real>, discountData: seq<real>,
             discPriceData: seq<real>, chargeData: seq<real>)
    requires VsetvlOk(vsetvl)
    ensures |quantityData| == |priceData| == |discountData| == |discPriceData| == |chargeData| == |f|
    ensures forall j :: 0 <= j < |f| ==>
              LaneOf(f[j], types) == LineAmounts(quantityData[j], priceData[j], discPriceData[j], chargeData[j], discountData[j])
  {
    var n := |f|;
    var taxData;
    quantityData, priceData, discountData, taxData := Extract(f, types);
    discPriceData := DiscPriceVector(priceData, discountData, vsetvl);
    chargeData := ChargeVector(discPriceData, taxData, vsetvl);
  }

  /** `compute_disc_price_rvv` over all lanes, into a zeroed vector. */
  method DiscPriceVector(price: seq<real>, discount: seq<real>, vsetvl: nat -> nat) returns (out: seq<real>)
    requires VsetvlOk(vsetvl) && |price| == |discount|
    ensures |out| == |price|
    ensures forall k :: 0 <= k < |price| ==> out[k] == Query1.DiscPrice(price[k], discount[k])
  {
    out := ComputeDiscPrice(price, discount, Broadcast(0.0, |price|), |price|, vsetvl);
  }

  /** `compute_charge_rvv` over all lanes, into a zeroed vector. */
  method ChargeVector(discPrice: seq<real>, tax: seq<real>, vsetvl: nat -> nat) returns (out: seq<real>)
    requires VsetvlOk(vsetvl) && |discPrice| == |tax|
    ensures |out| == |discPrice|
    ensures forall k :: 0 <= k < |discPrice| ==> out[k] == Query1.Charge(discPrice[k], tax[k])
  {
    out := ComputeCharge(discPrice, tax, Broadcast(0.0, |discPrice|), |discPrice|, vsetvl);
  }

  /** The loop over the filtered rows that appends each row's position to
      its group's index list. */
  method Partition(keys: seq<GroupKey>) returns (groups: seq<(GroupKey, seq<int>)>)
    ensures StrictTotalOrder(KeyLess)
    ensures groups == IndexLists(keys, KeyLess)
  {
    KeyLessIsStrictTotal();
    groups := [];
    for i := 0 to |keys|
      invariant groups == IndexLists(keys[..i], KeyLess)
    {
      assert keys[..i + 1][..i] == keys[..i];
      groups := Put(groups, keys[i], GetOr(groups, keys[i], []) + [i], KeyLess);
    }
    assert keys[..|keys|] == keys;
  }

  /** One group's five `sum_rvv` calls and its averages. */
  method SumGroup(quantityData: seq<real>, priceData: seq<real>, discountData: seq<real>,
                  discPriceData: seq<real>, chargeData: seq<real>, indices: seq<int>,
                  ghost lanes: seq<LineAmounts>, vlmax: nat, vsetvl: nat -> nat)
    returns (row: AggregateValues)
    requires VsetvlWithin(vsetvl, vlmax)
    requires |quantityData| == |priceData| == |discountData| == |discPriceData| == |chargeData| == |lanes|
    requires forall j :: 0 <= j < |lanes| ==>
               lanes[j] == LineAmounts(quantityData[j], priceData[j], discPriceData[j], chargeData[j], discountData[j])
    requires forall i :: 0 <= i < |indices| ==> 0 <= indices[i] < |lanes|
    ensures row == GroupRow(lanes, indices)
  {
    var groupSize := |indices|;
    var groupQty := Gather(quantityData, indices);
    var groupPrice := Gather(priceData, indices);
    var groupDisc := Gather(discountData, indices);
    var groupDiscPrice := Gather(discPriceData, indices);
    var groupCharge := Gather(chargeData, indices);
    GatherSum(quantityData, lanes, indices, QuantityOf);
    GatherSum(priceData, lanes, indices, PriceOf);
    GatherSum(discountData, lanes, indices, DiscountOf);
    GatherSum(discPriceData, lanes, indices, DiscPriceOf);
    GatherSum(chargeData, lanes, indices, ChargeOf);
    assert groupQty[..groupSize] == groupQty && groupPrice[..groupSize] == groupPrice;
    assert groupDisc[..groupSize] == groupDisc && groupDiscPrice[..groupSize] == groupDiscPrice;
    assert groupCharge[..groupSize] == groupCharge;
    var sumQty := SumRvv(groupQty, groupSize, vlmax, vsetvl);
    var sumPrice := SumRvv(groupPrice, groupSize, vlmax, vsetvl);
    var sumDiscPrice := SumRvv(groupDiscPrice, groupSize, vlmax, vsetvl);
    var sumCharge := SumRvv(groupCharge, groupSize, vlmax, vsetvl);
    var sumDisc := SumRvv(groupDisc, groupSize, vlmax, vsetvl);
    row := Average(AggregateValues(sumQty, sumPrice, sumDiscPrice, sumCharge, 0.0, 0.0, 0.0, sumDisc, groupSize));
  }

  /** The loop over the sorted keys: one printed row per group, in key
      order. */
  method SumGroups(quantityData: seq<real>, priceData: seq<real>, discountData: seq<real>,
                   discPriceData: seq<real>, chargeData: seq<real>, keys: seq<GroupKey>,
                   entries: seq<(GroupKey, seq<int>)>, ghost lanes: seq<LineAmounts>, vlmax: nat, vsetvl: nat -> nat)
    returns (out: seq<(GroupKey, AggregateValues)>)
    requires VsetvlWithin(vsetvl, vlmax) && StrictTotalOrder(KeyLess)
    requires |quantityData| == |priceData| == |discountData| == |discPriceData| == |chargeData| == |lanes| == |keys|
    requires forall j :: 0 <= j < |lanes| ==>
               lanes[j] == LineAmounts(quantityData[j], priceData[j], discPriceData[j], chargeData[j], discountData[j])
    requires entries == IndexLists(keys, KeyLess)
    ensures out == ReportRows(entries, lanes)
  {
    out := [];
    for p := 0 to |entries|
      invariant out == ReportRows(entries[..p], lanes)
    {
      var indices := entries[p].1;
      IndexListsEntry(keys, KeyLess, p);
      IndicesOfSpec(keys, entries[p].0);
      var row := SumGroup(quantityData, priceData, discountData, discPriceData, chargeData, indices, lanes, vlmax, vsetvl);
      ghost var seen := entries[..p];
      ReportRowsStep(seen, entries[p], lanes);
      out := out + [(entries[p].0, row)];
      assert entries[..p + 1] == seen + [entries[p]];
    }
    assert entries[..|entries|] == entries;
  }

  lemma ReportRowsStep(entries: seq<(GroupKey, seq<int>)>, e: (GroupKey, seq<int>), lanes: seq<LineAmounts>)
    ensures ReportRows(entries + [e], lanes) == ReportRows(entries, lanes) + [(e.0, GroupRow(lanes, e.1))]
  {
  }

  /** The whole query. The filtered table is taken as one chunk, as the
      program reads `chunk(0)` of it for all `num_rows()` rows. The keys
      copied out of the map and sorted are already in map order, so the
      group loop visits the map's entries in order. */
  method Run(lineitem: Table<LineitemRow>, types: ColumnTypes, cutoff: int, vlmax: nat, vsetvl: nat -> nat)
    returns (out: seq<(GroupKey, AggregateValues)>)
    requires VsetvlWithin(vsetvl, vlmax)
    ensures out == RvvReport(Rows(lineitem), cutoff, types)
    ensures ScalesAgree(types) ==> out == Query1.Report(Rows(lineitem), cutoff, types)
  {
    var filtered := Filtered(Rows(lineitem), cutoff);
    ghost var lanes := Lanes(filtered, types);
    var quantityData, priceData, discountData, discPriceData, chargeData := ComputeLanes(filtered, types, vsetvl);
    var groups := Partition(KeysOf(filtered));
    SortAscending(groups, KeyLess);
    var sortedGroups := SortByKey(groups, KeyLess);
    out := SumGroups(quantityData, priceData, discountData, discPriceData, chargeData,
                     KeysOf(filtered), sortedGroups, lanes, vlmax, vsetvl);
    if ScalesAgree(types) {
      SameAsScalar(Rows(lineitem), cutoff, types);
    }
  }

  /* ---- What the answer means ---- */

  /** Summing a gathered column is summing the column's lanes at the
      listed positions. */
  lemma {:induction false} GatherSum(vals: seq<real>, lanes: seq<LineAmounts>, idxs: seq<int>, sel: LineAmounts -> real)
    requires |vals| == |lanes| && forall j :: 0 <= j < |lanes| ==> vals[j] == sel(lanes[j])
    requires forall i :: 0 <= i < |idxs| ==> 0 <= idxs[i] < |vals|
    ensures Sum(Gather(vals, idxs)) == GroupSum(lanes, idxs, sel)
    decreases |idxs|
  {
    if |idxs| > 0 {
      var pre := idxs[..|idxs| - 1];
      GatherSum(vals, lanes, pre, sel);
      assert Gather(vals, idxs)[..|pre|] == Gather(vals, pre);
    }
  }

  /** The decimal columns' effective scales are all the price column's,
      which is DECIMAL128: then reading everything at the price scale is
      what the scalar variant does. */
  predicate ScalesAgree(types: ColumnTypes)
  {
    && types.price.Decimal128Type?
    && EffectiveScale(types.quantity) == types.price.scale
    && EffectiveScale(types.discount) == types.price.scale
    && EffectiveScale(types.tax) == types.price.scale
  }

  /** The filter keeps exactly the accepted rows. */
  lemma {:induction false} FilteredAccepted(rows: seq<LineitemRow>, cutoff: int)
    ensures forall j :: 0 <= j < |Filtered(rows, cutoff)| ==> Accepted(Filtered(rows, cutoff)[j], cutoff)
    decreases |rows|
  {
    if |rows| > 0 {
      FilteredAccepted(rows[..|rows| - 1], cutoff);
    }
  }

  /** Dropping the rows that are not accepted changes no group. */
  lemma {:induction false} GroupAmountsFiltered(rows: seq<LineitemRow>, k: GroupKey, cutoff: int, types: ColumnTypes)
    ensures GroupAmounts(Filtered(rows, cutoff), k, cutoff, types) == GroupAmounts(rows, k, cutoff, types)
    decreases |rows|
  {
    if |rows| > 0 {
      var pre := rows[..|rows| - 1];
      var l := rows[|rows| - 1];
      GroupAmountsFiltered(pre, k, cutoff, types);
      var f := Filtered(pre, cutoff);
      if Accepted(l, cutoff) {
        GroupAmountsStep(f, l, k, cutoff, types);
      } else {
        assert Filtered(rows, cutoff) == f;
      }
    }
  }

  /** Over accepted rows whose lanes hold the scalar amounts, a group's
      index list gathers exactly the group's amounts: each column sum is
      the scalar sum. */
  lemma {:induction false} GroupSumPrefix(f: seq<LineitemRow>, types: ColumnTypes, cutoff: int, k: GroupKey,
                                          sel: LineAmounts -> real, n: nat)
    requires forall j :: 0 <= j < |f| ==> Accepted(f[j], cutoff)
    requires Lanes(f, types) == ScalarLanes(f, types)
    requires n <= |f|
    ensures GroupSum(Lanes(f, types), IndicesOf(KeysOf(f)[..n], k), sel) == SumOf(GroupAmounts(f[..n], k, cutoff, types), sel)
    decreases n
  {
    if n > 0 {
      GroupSumPrefix(f, types, cutoff, k, sel, n - 1);
      PrefixStep(f, types, cutoff, k, n);
      var lanes := Lanes(f, types);
      GroupSumSnoc(lanes, IndicesOf(KeysOf(f)[..n - 1], k), GroupAmounts(f[..n - 1], k, cutoff, types),
                   n - 1, KeyOfRow(f[n - 1]) == k, sel);
    }
  }

  /** Both sums gain the same lane when the row joins the group, and
      neither changes otherwise. */
  lemma GroupSumSnoc(lanes: seq<LineAmounts>, ix: seq<int>, amounts: seq<LineAmounts>, i: nat, joins: bool,
                     sel: LineAmounts -> real)
    requires i < |lanes| && GroupSum(lanes, ix, sel) == SumOf(amounts, sel)
    ensures GroupSum(lanes, ix + (if joins then [i] else []), sel)
         == SumOf(amounts + (if joins then [lanes[i]] else []), sel)
  {
    if joins {
      GroupSumStep(lanes, ix, i, sel);
      SumOfStep(amounts, lanes[i], sel);
    } else {
      assert ix + [] == ix;
      assert amounts + [] == amounts;
    }
  }

  /** A group's index list is as long as the group. */
  lemma {:induction false} GroupCountPrefix(f: seq<LineitemRow>, types: ColumnTypes, cutoff: int, k: GroupKey, n: nat)
    requires forall j :: 0 <= j < |f| ==> Accepted(f[j], cutoff)
    requires Lanes(f, types) == ScalarLanes(f, types)
    requires n <= |f|
    ensures |IndicesOf(KeysOf(f)[..n], k)| == |GroupAmounts(f[..n], k, cutoff, types)|
    decreases n
  {
    if n > 0 {
      GroupCountPrefix(f, types, cutoff, k, n - 1);
      PrefixStep(f, types, cutoff, k, n);
    }
  }

  /** One filtered row more: the group's index list gains the row's
      position exactly when its amounts join the group, and the lane there
      holds those amounts. */
  lemma PrefixStep(f: seq<LineitemRow>, types: ColumnTypes, cutoff: int, k: GroupKey, n: nat)
    requires 0 < n <= |f| && Accepted(f[n - 1], cutoff) && Lanes(f, types) == ScalarLanes(f, types)
    ensures Lanes(f, types)[n - 1] == AmountsOf(f[n - 1], types)
    ensures IndicesOf(KeysOf(f)[..n], k)
         == IndicesOf(KeysOf(f)[..n - 1], k) + (if KeyOfRow(f[n - 1]) == k then [n - 1] else [])
    ensures GroupAmounts(f[..n], k, cutoff, types)
         == GroupAmounts(f[..n - 1], k, cutoff, types) + (if KeyOfRow(f[n - 1]) == k then [AmountsOf(f[n - 1], types)] else [])
  {
    assert KeysOf(f)[..n][..n - 1] == KeysOf(f)[..n - 1];
    assert f[..n][..n - 1] == f[..n - 1];
  }

  lemma GroupSumStep(lanes: seq<LineAmounts>, idxs: seq<int>, i: int, sel: LineAmounts -> real)
    requires 0 <= i < |lanes|
    ensures GroupSum(lanes, idxs + [i], sel) == GroupSum(lanes, idxs, sel) + sel(lanes[i])
  {
    assert (idxs + [i])[..|idxs|] == idxs;
  }

  lemma SumOfStep(amounts: seq<LineAmounts>, a: LineAmounts, sel: LineAmounts -> real)
    ensures SumOf(amounts + [a], sel) == SumOf(amounts, sel) + sel(a)
  {
    assert (amounts + [a])[..|amounts|] == amounts;
  }

  /** A group's printed row is the scalar variant's finalised totals when
      the lanes hold the scalar amounts. */
  lemma GroupRowIsScalar(f: seq<LineitemRow>, types: ColumnTypes, cutoff: int, k: GroupKey)
    requires forall j :: 0 <= j < |f| ==> Accepted(f[j], cutoff)
    requires Lanes(f, types) == ScalarLanes(f, types)
    ensures GroupRow(Lanes(f, types), IndicesOf(KeysOf(f), k)) == Average(Totals(GroupAmounts(f, k, cutoff, types)))
  {
    assert KeysOf(f)[..|f|] == KeysOf(f);
    assert f[..|f|] == f;
    GroupSumPrefix(f, types, cutoff, k, QuantityOf, |f|);
    GroupSumPrefix(f, types, cutoff, k, PriceOf, |f|);
    GroupSumPrefix(f, types, cutoff, k, DiscPriceOf, |f|);
    GroupSumPrefix(f, types, cutoff, k, ChargeOf, |f|);
    GroupSumPrefix(f, types, cutoff, k, DiscountOf, |f|);
    GroupCountPrefix(f, types, cutoff, k, |f|);
  }

  /** Looking a group up among the printed rows finds the row of its
      index list. */
  lemma {:induction false} ReportRowsGet(entries: seq<(GroupKey, seq<int>)>, lanes: seq<LineAmounts>, k: GroupKey)
    ensures Get(ReportRows(entries, lanes), k)
         == if Get(entries, k).Some? then Some(GroupRow(lanes, Get(entries, k).value)) else None
    decreases |entries|
  {
    if |entries| > 0 && entries[0].0 != k {
      ReportRowsGet(entries[1..], lanes, k);
      assert ReportRows(entries, lanes)[1..] == ReportRows(entries[1..], lanes);
    }
  }

  /** The scalar variant's amounts of each filtered row. */
  function ScalarLanes(f: seq<LineitemRow>, types: ColumnTypes): (v: seq<LineAmounts>)
    ensures |v| == |f|
  {
    seq(|f|, j requires 0 <= j < |f| => AmountsOf(f[j], types))
  }

  /** With the decimal scales agreeing, every lane holds the scalar
      amounts of its row. */
  lemma LanesAreScalar(f: seq<LineitemRow>, types: ColumnTypes)
    requires ScalesAgree(types)
    ensures Lanes(f, types) == ScalarLanes(f, types)
  {
    forall j | 0 <= j < |f| ensures Lanes(f, types)[j] == ScalarLanes(f, types)[j] {
      LaneIsAmounts(f[j], types);
    }
  }

  lemma LaneIsAmounts(l: LineitemRow, types: ColumnTypes)
    requires ScalesAgree(types)
    ensures LaneOf(l, types) == AmountsOf(l, types)
  {
  }

  /** With the decimal scales agreeing, looking a group up in the vector
      variant's report finds what the scalar variant's report holds. */
  lemma SameGet(rows: seq<LineitemRow>, cutoff: int, types: ColumnTypes, k: GroupKey)
    requires ScalesAgree(types)
    ensures Get(RvvReport(rows, cutoff, types), k) == Get(Query1.Report(rows, cutoff, types), k)
  {
    KeyLessIsStrictTotal();
    var f := Filtered(rows, cutoff);
    var keys := KeysOf(f);
    FilteredAccepted(rows, cutoff);
    LanesAreScalar(f, types);
    ReportRowsGet(IndexLists(keys, KeyLess), Lanes(f, types), k);
    IndexListsGet(keys, KeyLess, k);
    ReportGet(rows, cutoff, types, k);
    GroupAmountsFiltered(rows, k, cutoff, types);
    GroupAmountsNonEmpty(f, k, cutoff, types);
    GroupRowIsScalar(f, types, cutoff, k);
    if k in keys {
      var j :| 0 <= j < |keys| && keys[j] == k;
      assert InGroup(f[j], k, cutoff);
    } else {
      forall j | 0 <= j < |f| ensures !InGroup(f[j], k, cutoff) {
        assert keys[j] == KeyOfRow(f[j]);
      }
    }
  }

  /** With the decimal scales agreeing, the vector variant prints the
      scalar variant's report. */
  lemma SameAsScalar(rows: seq<LineitemRow>, cutoff: int, types: ColumnTypes)
    requires ScalesAgree(types)
    ensures RvvReport(rows, cutoff, types) == Query1.Report(rows, cutoff, types)
  {
    KeyLessIsStrictTotal();
    var rvv := RvvReport(rows, cutoff, types);
    var scalar := Query1.Report(rows, cutoff, types);
    forall k ensures Get(rvv, k) == Get(scalar, k) {
      SameGet(rows, cutoff, types, k);
    }
    RvvReportAscending(rows, cutoff, types);
    Extensionality(rvv, scalar, KeyLess);
  }

  /** The printed groups are in strictly ascending key order. */
  lemma RvvReportAscending(rows: seq<LineitemRow>, cutoff: int, types: ColumnTypes)
    ensures StrictTotalOrder(KeyLess) && Ascending(RvvReport(rows, cutoff, types), KeyLess)
  {
    KeyLessIsStrictTotal();
    var f := Filtered(rows, cutoff);
    var entries := IndexLists(KeysOf(f), KeyLess);
    var rs := RvvReport(rows, cutoff, types);
    assert forall p :: 0 <= p < |rs| ==> rs[p].0 == entries[p].0;
  }
}
