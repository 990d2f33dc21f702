/** TPC-H Query 4, vector variant (`rvv_query4.cpp`). The orders are first
    cut to the quarter by Arrow compute kernels; the late line items are
    found by `check_late_delivery_rvv` over the raw date buffers of the
    first chunk; the late order keys go into an `unordered_set`; the
    filtered orders are then counted per priority. No column is checked
    for null after the date filter. */
module RvvQuery4 {
  import opened Common
  import opened Ordering
  import opened OrdMap
  import opened GroupBy
  import opened Lookup
  import opened Bitmask
  import opened Strip
  import opened Query4

  /** `greater_equal(o_orderdate, start) AND less(o_orderdate, end)`: a
      null date makes both comparisons null, and `Filter` drops the row. */
  predicate InQuarter(o: OrderRow, start: int, end: int)
  {
    !o.orderdate.isNull && o.orderdate.raw >= start && o.orderdate.raw < end
  }

  /** `Filter(orders_table, combined_filter)`: the rows in the quarter, in
      table order. */
  function FilterOrders(rows: seq<OrderRow>, start: int, end: int): (kept: seq<OrderRow>)
    ensures |kept| <= |rows|
    ensures forall j :: 0 <= j < |kept| ==> InQuarter(kept[j], start, end) && kept[j] in rows
    ensures forall i :: 0 <= i < |rows| && InQuarter(rows[i], start, end) ==> rows[i] in kept
  {
    if |rows| == 0 then []
    else
      var pre := rows[..|rows| - 1];
      var last := rows[|rows| - 1];
      assert forall i :: 0 <= i < |pre| ==> pre[i] == rows[i];
      FilterOrders(pre, start, end) + (if InQuarter(last, start, end) then [last] else [])
  }

  /** The key a line item's bit contributes: the bit is the comparison of
      the raw date slots, and the key is read without a null check. */
  function RvvLateKey(l: LineitemRow): Option<int>
  {
    if l.commitdate.raw < l.receiptdate.raw then Some(l.orderkey.raw) else None
  }

  function RvvLateKeys(rows: seq<LineitemRow>): (ks: seq<Option<int>>)
    ensures |ks| == |rows|
  {
    seq(|rows|, i requires 0 <= i < |rows| => RvvLateKey(rows[i]))
  }

  function CommitDates(rows: seq<LineitemRow>): (v: seq<int>)
    ensures |v| == |rows|
  {
    seq(|rows|, i requires 0 <= i < |rows| => rows[i].commitdate.raw)
  }

  function ReceiptDates(rows: seq<LineitemRow>): (v: seq<int>)
    ensures |v| == |rows|
  {
    seq(|rows|, i requires 0 <= i < |rows| => rows[i].receiptdate.raw)
  }

  /** The mask over `num_rows()` line items, read from the first chunk's
      buffers, and the set of keys whose bit is set. The program reads the
      first chunk only, so it sees every line item only when that chunk
      holds them all. */
  method LateOrderKeys(lineitem: Table<LineitemRow>, vsetvl: nat -> nat) returns (late: set<int>)
    requires VsetvlOk(vsetvl) && AllInFirstChunk(lineitem)
    ensures late == Collect(RvvLateKeys(Rows(lineitem)))
  {
    FirstChunkHoldsAll(lineitem);
    var rows := lineitem[0];
    var n := NumRows(lineitem);
    var mask := CheckLateDelivery(CommitDates(rows), ReceiptDates(rows), ZeroMask(n), n, vsetvl);
    ghost var ks := RvvLateKeys(rows);
    late := {};
    for i := 0 to n
      invariant late == Collect(ks[..i])
    {
      ZeroMaskBits(n, i);
      assert ks[..i + 1][..i] == ks[..i];
      if Bit(mask, i) {
        late := late + {rows[i].orderkey.raw};
      }
    }
    assert ks[..n] == ks;
  }

  /** What a filtered order counts under: its raw priority when its raw key
      is late. */
  function RvvCountedPriority(o: OrderRow, late: set<int>): Option<string>
  {
    if o.orderkey.raw in late then Some(o.priority.raw) else None
  }

  function RvvCountedPriorities(rows: seq<OrderRow>, late: set<int>): (ps: seq<Option<string>>)
    ensures |ps| == |rows|
  {
    seq(|rows|, i requires 0 <= i < |rows| => RvvCountedPriority(rows[i], late))
  }

  /** The whole query. The counts are printed straight from the map, which
      is already in priority order; the answer is the scalar variant's
      summary of the filtered orders' contributions. */
  method Run(orders: Table<OrderRow>, lineitem: Table<LineitemRow>, start: int, end: int, vsetvl: nat -> nat)
    returns (out: seq<PriorityCount>)
    requires VsetvlOk(vsetvl) && AllInFirstChunk(lineitem)
    ensures out == Summarise(RvvCountedPriorities(FilterOrders(Rows(orders), start, end), Collect(RvvLateKeys(Rows(lineitem)))))
    ensures NoNulls(orders, lineitem) ==> out == Query4.Run(orders, lineitem, start, end)
  {
    StrLessIsStrictTotal();
    var filtered := FilterOrders(Rows(orders), start, end);
    var late := LateOrderKeys(lineitem, vsetvl);
    ghost var ps := RvvCountedPriorities(filtered, late);
    var counts: seq<(string, int)> := [];
    for i := 0 to |filtered|
      invariant Ascending(counts, StrLess)
      invariant counts == AggregateFrom([], ps[..i], PriorityKey, Bump, 0, StrLess)
    {
      assert ps[..i + 1][..i] == ps[..i];
      if filtered[i].orderkey.raw in late {
        var priority := filtered[i].priority.raw;
        counts := Put(counts, priority, GetOr(counts, priority, 0) + 1, StrLess);
      }
    }
    assert ps[..|filtered|] == ps;
    SortAscending(counts, StrLess);
    out := ToResults(counts);
    if NoNulls(orders, lineitem) {
      SameAsScalar(orders, lineitem, start, end);
    }
  }

  /** No line item has a null key or date, and no order a null key or
      priority (a null order date is dropped by both variants). */
  ghost predicate NoNulls(orders: Table<OrderRow>, lineitem: Table<LineitemRow>)
  {
    && (forall i :: 0 <= i < |Rows(lineitem)| ==>
          !Rows(lineitem)[i].orderkey.isNull && !Rows(lineitem)[i].commitdate.isNull && !Rows(lineitem)[i].receiptdate.isNull)
    && (forall i :: 0 <= i < |Rows(orders)| ==> !Rows(orders)[i].orderkey.isNull && !Rows(orders)[i].priority.isNull)
  }

  /** Filtering first and counting the filtered orders counts every
      priority as often as the scalar pass over all orders does. */
  lemma {:induction false} OccurrencesAgree(rows: seq<OrderRow>, late: set<int>, start: int, end: int, p: string)
    requires forall i :: 0 <= i < |rows| ==> !rows[i].orderkey.isNull && !rows[i].priority.isNull
    ensures Occurrences(RvvCountedPriorities(FilterOrders(rows, start, end), late), p)
         == Occurrences(CountedPriorities(rows, late, start, end), p)
    decreases |rows|
  {
    if |rows| > 0 {
      var pre := rows[..|rows| - 1];
      var last := rows[|rows| - 1];
      OccurrencesAgree(pre, late, start, end, p);
      var a := CountedPriorities(pre, late, start, end);
      assert CountedPriorities(rows, late, start, end) == a + [CountedPriority(last, late, start, end)];
      var f := FilterOrders(pre, start, end);
      var b := RvvCountedPriorities(f, late);
      if InQuarter(last, start, end) {
        assert RvvCountedPriorities(f + [last], late) == b + [RvvCountedPriority(last, late)];
        assert RvvCountedPriority(last, late) == CountedPriority(last, late, start, end);
      } else {
        assert f + [] == f;
        assert CountedPriority(last, late, start, end) == None;
      }
    }
  }

  /** Without nulls in the columns it reads unchecked, the vector variant
      gives the scalar variant's answer. */
  lemma SameAsScalar(orders: Table<OrderRow>, lineitem: Table<LineitemRow>, start: int, end: int)
    requires NoNulls(orders, lineitem)
    ensures Summarise(RvvCountedPriorities(FilterOrders(Rows(orders), start, end), Collect(RvvLateKeys(Rows(lineitem)))))
         == Query4.Run(orders, lineitem, start, end)
  {
    StrLessIsStrictTotal();
    var li := Rows(lineitem);
    assert RvvLateKeys(li) == LateKeys(li);
    var late := QualifyingOrderKeys(lineitem);
    var rvv := RvvCountedPriorities(FilterOrders(Rows(orders), start, end), late);
    var scalar := CountedPriorities(Rows(orders), late, start, end);
    forall p ensures Get(PriorityCounts(rvv), p) == Get(PriorityCounts(scalar), p) {
      OccurrencesAgree(Rows(orders), late, start, end, p);
      PriorityCountsGet(rvv, p);
      PriorityCountsGet(scalar, p);
    }
    Extensionality(PriorityCounts(rvv), PriorityCounts(scalar), StrLess);
  }
}
