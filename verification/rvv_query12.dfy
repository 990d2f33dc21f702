/** TPC-H Query 12, vector variant (`rvv_query12.cpp`). Per chunk, the
    four date conditions are evaluated for all rows at once by
    `check_shipping_conditions_rvv` into a bit mask over the raw date
    values; the row loop then reads each row's bit back and applies the
    remaining filters. Only the order key and ship mode are checked for
    null: a null date slot is compared by its raw value. */
module RvvQuery12 {
  import opened Common
  import opened Ordering
  import opened OrdMap
  import opened GroupBy
  import opened Bitmask
  import opened Strip
  import opened Query12

  /** The row loop's filter once the row's bit is known. */
  function RvvContribution(l: LineitemRow, qualified: bool, priorities: map<int, string>): Option<Tick>
  {
    if !qualified then None
    else if l.orderkey.isNull || l.shipmode.isNull then None
    else if l.shipmode.raw !in TargetShipmodes then None
    else if l.orderkey.raw !in priorities then None
    else Some(Tick(l.shipmode.raw, IsHighPriority(priorities[l.orderkey.raw])))
  }

  /** What the rows add when each row's bit is the date test on its raw
      date values. */
  function RvvContributions(rows: seq<LineitemRow>, priorities: map<int, string>, start: int, end: int): (cs: seq<Option<Tick>>)
    ensures |cs| == |rows|
  {
    seq(|rows|, i requires 0 <= i < |rows| =>
      RvvContribution(rows[i], ShippingCondition(rows[i].shipdate.raw, rows[i].commitdate.raw, rows[i].receiptdate.raw, start, end),
                      priorities))
  }

  /** `l_shipdate_array->raw_values()` and its two siblings. */
  function ShipDates(rows: seq<LineitemRow>): (v: seq<int>)
    ensures |v| == |rows|
  {
    seq(|rows|, i requires 0 <= i < |rows| => rows[i].shipdate.raw)
  }

  function CommitDates(rows: seq<LineitemRow>): (v: seq<int>)
    ensures |v| == |rows|
  {
    seq(|rows|, i requires 0 <= i < |rows| => rows[i].commitdate.raw)
  }

  function ReceiptDates(rows: seq<LineitemRow>): (v: seq<int>)
    ensures |v| == |rows|
  {
    seq(|rows|, i requires 0 <= i < |rows| => rows[i].receiptdate.raw)
  }

  /** `check_shipping_conditions_rvv` over a chunk, writing into a zeroed
      buffer: bit i is set exactly when row i's raw dates pass the test. */
  method DateMask(chunk: seq<LineitemRow>, start: int, end: int, vsetvl: nat -> nat) returns (mask: seq<bv8>)
    requires VsetvlOk(vsetvl)
    ensures |mask| == MaskBytes(|chunk|)
    ensures forall i :: 0 <= i < |chunk| ==>
              i / 8 < |mask| && (Bit(mask, i) <==> ShippingCondition(ShipDates(chunk)[i], CommitDates(chunk)[i], ReceiptDates(chunk)[i], start, end))
  {
    var n := |chunk|;
    mask := CheckShippingConditions(ShipDates(chunk), CommitDates(chunk), ReceiptDates(chunk), start, end,
                                    ZeroMask(n), n, vsetvl);
    forall i | 0 <= i < n
      ensures i / 8 < |mask| && (Bit(mask, i) <==> ShippingCondition(ShipDates(chunk)[i], CommitDates(chunk)[i], ReceiptDates(chunk)[i], start, end))
    {
      ZeroMaskBits(n, i);
    }
  }

  /** One chunk: the date mask is built by the vector writer, then every
      row reads its bit back. The result is what the declarative reading of
      the chunk says. */
  method ChunkContributions(chunk: seq<LineitemRow>, priorities: map<int, string>, start: int, end: int, vsetvl: nat -> nat)
    returns (cs: seq<Option<Tick>>)
    requires VsetvlOk(vsetvl)
    ensures cs == RvvContributions(chunk, priorities, start, end)
  {
    var mask := DateMask(chunk, start, end, vsetvl);
    cs := [];
    for i := 0 to |chunk|
      invariant |cs| == i
      invariant forall k :: 0 <= k < i ==> cs[k] == RvvContributions(chunk, priorities, start, end)[k]
    {
      var qualified := Bit(mask, i);
      RowReadsItsBit(chunk, priorities, start, end, i, qualified);
      cs := cs + [RvvContribution(chunk[i], qualified, priorities)];
    }
  }

  /** A row whose bit holds the date test on its raw dates adds what the
      declarative reading says it adds. */
  lemma RowReadsItsBit(chunk: seq<LineitemRow>, priorities: map<int, string>, start: int, end: int, i: nat, qualified: bool)
    requires i < |chunk|
    requires qualified == ShippingCondition(ShipDates(chunk)[i], CommitDates(chunk)[i], ReceiptDates(chunk)[i], start, end)
    ensures RvvContribution(chunk[i], qualified, priorities) == RvvContributions(chunk, priorities, start, end)[i]
  {
  }

  /** The contributions of two row runs laid end to end. */
  lemma RvvContributionsConcat(a: seq<LineitemRow>, b: seq<LineitemRow>, priorities: map<int, string>, start: int, end: int)
    ensures RvvContributions(a + b, priorities, start, end)
         == RvvContributions(a, priorities, start, end) + RvvContributions(b, priorities, start, end)
  {
    var ab := RvvContributions(a + b, priorities, start, end);
    var both := RvvContributions(a, priorities, start, end) + RvvContributions(b, priorities, start, end);
    forall k | 0 <= k < |ab|
      ensures ab[k] == both[k]
    {
      if k < |a| {
        assert (a + b)[k] == a[k];
      } else {
        assert (a + b)[k] == b[k - |a|];
      }
    }
  }

  /** Adding chunk `c` to the prefix before it extends both the grouped
      counts and the qualified counter by what the chunk contributes. */
  lemma ChunkStep(lineitem: Table<LineitemRow>, c: nat, priorities: map<int, string>, start: int, end: int)
    requires c < |lineitem|
    requires StrictTotalOrder(StrLess)
    ensures var before := RvvContributions(Rows(lineitem[..c]), priorities, start, end);
            var cs := RvvContributions(lineitem[c], priorities, start, end);
            var after := RvvContributions(Rows(lineitem[..c + 1]), priorities, start, end);
            && AggregateFrom([], after, TickMode, Tally, Counts(0, 0), StrLess)
               == AggregateFrom(AggregateFrom([], before, TickMode, Tally, Counts(0, 0), StrLess), cs, TickMode, Tally, Counts(0, 0), StrLess)
            && CountKeyed(after, TickMode) == CountKeyed(before, TickMode) + CountKeyed(cs, TickMode)
  {
    var before := RvvContributions(Rows(lineitem[..c]), priorities, start, end);
    var cs := RvvContributions(lineitem[c], priorities, start, end);
    RowsOfPrefix(lineitem, c);
    RvvContributionsConcat(Rows(lineitem[..c]), lineitem[c], priorities, start, end);
    AggregateConcat([], before, cs, TickMode, Tally, Counts(0, 0), StrLess);
    CountKeyedConcat(before, cs, TickMode);
  }

  /** The chunk loop, with `results_by_shipmode` and both counters carried
      across chunks. */
  method ScanChunks(lineitem: Table<LineitemRow>, priorities: map<int, string>, start: int, end: int, vsetvl: nat -> nat)
    returns (groups: seq<(string, Counts)>, processed: nat, qualified: nat)
    requires VsetvlOk(vsetvl)
    ensures StrictTotalOrder(StrLess) && Ascending(groups, StrLess)
    ensures groups == AggregateFrom([], RvvContributions(Rows(lineitem), priorities, start, end), TickMode, Tally, Counts(0, 0), StrLess)
    ensures qualified == CountKeyed(RvvContributions(Rows(lineitem), priorities, start, end), TickMode)
    ensures processed == NumRows(lineitem)
  {
    StrLessIsStrictTotal();
    groups, processed, qualified := [], 0, 0;
    for c := 0 to |lineitem|
      invariant Ascending(groups, StrLess)
      invariant groups == AggregateFrom([], RvvContributions(Rows(lineitem[..c]), priorities, start, end), TickMode, Tally, Counts(0, 0), StrLess)
      invariant qualified == CountKeyed(RvvContributions(Rows(lineitem[..c]), priorities, start, end), TickMode)
      invariant processed == NumRows(lineitem[..c])
    {
      var cs := ChunkContributions(lineitem[c], priorities, start, end, vsetvl);
      ChunkStep(lineitem, c, priorities, start, end);
      RowsOfPrefix(lineitem, c);
      groups := AggregateFrom(groups, cs, TickMode, Tally, Counts(0, 0), StrLess);
      qualified := qualified + CountKeyed(cs, TickMode);
      processed := processed + |lineitem[c]|;
    }
    assert lineitem[..|lineitem|] == lineitem;
  }

  /** The whole query: the priorities map as in the scalar variant, the
      chunk loop, then the copy into a vector sorted by ship mode. */
  method Run(orders: Table<OrderRow>, lineitem: Table<LineitemRow>, start: int, end: int, vsetvl: nat -> nat)
    returns (out: Query12Output)
    requires VsetvlOk(vsetvl)
    ensures out == Summarise(RvvContributions(Rows(lineitem), OrderPriorities(orders), start, end), NumRows(lineitem))
    ensures DatesPresent(Rows(lineitem)) ==> out == Query12.Run(orders, lineitem, start, end)
  {
    var priorities := OrderPriorities(orders);
    var groups, processed, qualified := ScanChunks(lineitem, priorities, start, end, vsetvl);
    SortAscending(groups, StrLess);
    out := Query12Output(ToResults(SortByKey(groups, StrLess)), processed, qualified);
    if DatesPresent(Rows(lineitem)) {
      SameAsScalar(orders, lineitem, start, end);
    }
  }

  /** No date slot of any line item is null. */
  ghost predicate DatesPresent(rows: seq<LineitemRow>)
  {
    forall i :: 0 <= i < |rows| ==> !rows[i].shipdate.isNull && !rows[i].commitdate.isNull && !rows[i].receiptdate.isNull
  }

  /** When no date slot is null, every line item adds the same in both
      variants, so the two variants give the same answer. */
  lemma SameAsScalar(orders: Table<OrderRow>, lineitem: Table<LineitemRow>, start: int, end: int)
    requires DatesPresent(Rows(lineitem))
    ensures Summarise(RvvContributions(Rows(lineitem), OrderPriorities(orders), start, end), NumRows(lineitem))
         == Query12.Run(orders, lineitem, start, end)
  {
    var rows := Rows(lineitem);
    var priorities := OrderPriorities(orders);
    assert RvvContributions(rows, priorities, start, end) == Contributions(rows, priorities, start, end);
  }

  /** A line item whose ship date is null but whose raw slot holds a
      date that passes the test is counted by the vector variant and
      skipped by the scalar one. */
  lemma NullDateCounted()
    ensures var row := LineitemRow(Cell(false, 1), Cell(false, "MAIL"), Cell(true, 1), Cell(false, 2), Cell(false, 3));
            var priorities := map[1 := "1-URGENT"];
            && RvvContributions([row], priorities, 0, 10) == [Some(Tick("MAIL", true))]
            && Contributions([row], priorities, 0, 10) == [None]
  {
    var row := LineitemRow(Cell(false, 1), Cell(false, "MAIL"), Cell(true, 1), Cell(false, 2), Cell(false, 3));
    var priorities := map[1 := "1-URGENT"];
    assert "MAIL" in TargetShipmodes;
    assert RvvContributions([row], priorities, 0, 10)[0] == Some(Tick("MAIL", true));
  }
}
