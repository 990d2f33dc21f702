/** TPC-H Query 1, scalar variant (`query1.cpp`): the pricing summary
    report. Line items shipped on or before the cutoff are grouped by
    (return flag, line status); per group the program sums quantity,
    extended price, discounted price, charge and discount and counts the
    rows, and after the scan turns three of the sums into averages. */
module Query1 {
  import opened Common
  import opened Ordering
  import opened OrdMap
  import opened GroupBy
  import opened Decimal

  datatype LineitemRow = LineitemRow(shipdate: Cell<int>, returnflag: Cell<string>, linestatus: Cell<string>,
                                     quantity: Cell<Slot>, price: Cell<Slot>, discount: Cell<Slot>, tax: Cell<Slot>)

  /** The declared types of the four decimal columns; they fix the scales. */
  datatype ColumnTypes = ColumnTypes(quantity: ColumnType, price: ColumnType, discount: ColumnType, tax: ColumnType)

  /** `GroupKey`: (l_returnflag, l_linestatus). */
  type GroupKey = (string, string)

  /** `GroupKey::operator<`: by return flag, then by line status. */
  predicate KeyLess(a: GroupKey, b: GroupKey)
  {
    LexLess(StrLess, StrLess, a, b)
  }

  lemma KeyLessIsStrictTotal()
    ensures StrictTotalOrder(KeyLess)
  {
    StrLessIsStrictTotal();
    LexIsStrictTotal(StrLess, StrLess);
  }

  /** `AggregateValues`: the running sums, the averages (zero until the
      groups are finalised) and the row count. */
  datatype AggregateValues = AggregateValues(sumQty: real, sumBasePrice: real, sumDiscPrice: real, sumCharge: real,
                                             avgQty: real, avgPrice: real, avgDisc: real, sumDisc: real,
                                             countOrder: int)

  /** The value-initialised entry `groups[key]` creates. */
  const Zero: AggregateValues := AggregateValues(0.0, 0.0, 0.0, 0.0, 0.0, 0.0, 0.0, 0.0, 0)

  /** What the program prints: the groups in key order and the two row
      counters. */
  datatype Query1Output = Query1Output(results: seq<(GroupKey, AggregateValues)>, rowsProcessed: nat, rowsAccepted: nat)

  /* ---- One line item ---- */

  /** The shipdate filter: a null date skips the row; otherwise the row is
      kept when it was shipped on or before the cutoff. No other column is
      checked for null. */
  predicate Accepted(l: LineitemRow, cutoff: int)
  {
    !l.shipdate.isNull && l.shipdate.raw <= cutoff
  }

  /** The key is read with `GetString` whether or not the slot is null. */
  function KeyOfRow(l: LineitemRow): GroupKey
  {
    (l.returnflag.raw, l.linestatus.raw)
  }

  /** disc_price = extendedprice·(1 − discount). */
  function DiscPrice(price: real, discount: real): real
  {
    price * (1.0 - discount)
  }

  /** charge = disc_price·(1 + tax). */
  function Charge(discPrice: real, tax: real): real
  {
    discPrice * (1.0 + tax)
  }

  /** The five amounts an accepted line item adds to its group. */
  datatype LineAmounts = LineAmounts(quantity: real, price: real, discPrice: real, charge: real, discount: real)

  /** The four decimals decoded at their columns' scales and the two
      derived amounts. */
  function AmountsOf(l: LineitemRow, types: ColumnTypes): LineAmounts
  {
    var price := Decode(l.price.raw, EffectiveScale(types.price));
    var discount := Decode(l.discount.raw, EffectiveScale(types.discount));
    var discPrice := DiscPrice(price, discount);
    LineAmounts(Decode(l.quantity.raw, EffectiveScale(types.quantity)), price, discPrice,
                Charge(discPrice, Decode(l.tax.raw, EffectiveScale(types.tax))), discount)
  }

  /** A line item as the aggregation sees it: its key and amounts when it
      is accepted, nothing otherwise. */
  type Entry = Option<(GroupKey, LineAmounts)>

  function EntryOf(l: LineitemRow, cutoff: int, types: ColumnTypes): Entry
  {
    if Accepted(l, cutoff) then Some((KeyOfRow(l), AmountsOf(l, types))) else None
  }

  function Entries(rows: seq<LineitemRow>, cutoff: int, types: ColumnTypes): (es: seq<Entry>)
    ensures |es| == |rows|
  {
    if |rows| == 0 then [] else Entries(rows[..|rows| - 1], cutoff, types) + [EntryOf(rows[|rows| - 1], cutoff, types)]
  }

  function EntryKey(e: Entry): Option<GroupKey>
  {
    if e.Some? then Some(e.value.0) else None
  }

  /** `agg.sum_qty += quantity; ...; agg.sum_disc += discount;
      agg.count_order++`. */
  function Accumulate(agg: AggregateValues, e: Entry): AggregateValues
  {
    match e
    case None => agg
    case Some((_, a)) =>
      agg.(sumQty := agg.sumQty + a.quantity, sumBasePrice := agg.sumBasePrice + a.price,
           sumDiscPrice := agg.sumDiscPrice + a.discPrice, sumCharge := agg.sumCharge + a.charge,
           sumDisc := agg.sumDisc + a.discount, countOrder := agg.countOrder + 1)
  }

  /** The `groups` map after `es`, starting from `groups`. */
  function Aggregate(groups: seq<(GroupKey, AggregateValues)>, es: seq<Entry>): (r: seq<(GroupKey, AggregateValues)>)
    requires Ascending(groups, KeyLess)
    ensures Ascending(r, KeyLess)
  {
    KeyLessIsStrictTotal();
    AggregateFrom(groups, es, EntryKey, Accumulate, Zero, KeyLess)
  }

  /** The `groups` map after the scan over `rows`. */
  function Groups(rows: seq<LineitemRow>, cutoff: int, types: ColumnTypes): (groups: seq<(GroupKey, AggregateValues)>)
    ensures Ascending(groups, KeyLess)
  {
    Aggregate([], Entries(rows, cutoff, types))
  }

  /* ---- Finalisation ---- */

  /** The averaging step: the three averages are set to sum / count only
      when the group has a row; the sums and the count stay as they are. */
  function Average(agg: AggregateValues): (r: AggregateValues)
    ensures r.sumQty == agg.sumQty && r.sumBasePrice == agg.sumBasePrice && r.sumDiscPrice == agg.sumDiscPrice
    ensures r.sumCharge == agg.sumCharge && r.sumDisc == agg.sumDisc && r.countOrder == agg.countOrder
    ensures agg.countOrder > 0 ==> r.avgQty * (agg.countOrder as real) == agg.sumQty
    ensures agg.countOrder > 0 ==> r.avgPrice * (agg.countOrder as real) == agg.sumBasePrice
    ensures agg.countOrder > 0 ==> r.avgDisc * (agg.countOrder as real) == agg.sumDisc
    ensures agg.countOrder <= 0 ==> r == agg
  {
    if agg.countOrder > 0 then
      var n := agg.countOrder as real;
      agg.(avgQty := agg.sumQty / n, avgPrice := agg.sumBasePrice / n, avgDisc := agg.sumDisc / n)
    else agg
  }

  /** The loop over the map that sets the averages, entry by entry. */
  function Finalize(groups: seq<(GroupKey, AggregateValues)>): (r: seq<(GroupKey, AggregateValues)>)
    ensures |r| == |groups|
  {
    seq(|groups|, p requires 0 <= p < |groups| => (groups[p].0, Average(groups[p].1)))
  }

  /** Finalising keeps every key in place, so the map stays in key order. */
  lemma FinalizeAscending(groups: seq<(GroupKey, AggregateValues)>)
    requires Ascending(groups, KeyLess)
    ensures Ascending(Finalize(groups), KeyLess)
  {
  }

  /** The report: the finalised map copied into a vector and sorted by
      key with `GroupKey::operator<`. */
  function Report(rows: seq<LineitemRow>, cutoff: int, types: ColumnTypes): (rs: seq<(GroupKey, AggregateValues)>)
    ensures forall p, q :: 0 <= p < q < |rs| ==> KeyLess(rs[p].0, rs[q].0)
  {
    KeyLessIsStrictTotal();
    var finalized := Finalize(Groups(rows, cutoff, types));
    FinalizeAscending(Groups(rows, cutoff, types));
    SortAscending(finalized, KeyLess);
    SortByKey(finalized, KeyLess)
  }

  /* ---- The program ---- */

  /** The body of the inner loop for one row: a null or late shipdate
      skips the row; otherwise the row is counted as accepted and its
      amounts are added to its group's entry, which starts at zero. */
  method AddRow(l: LineitemRow, cutoff: int, types: ColumnTypes,
                groups0: seq<(GroupKey, AggregateValues)>, accepted0: nat)
    returns (groups: seq<(GroupKey, AggregateValues)>, accepted: nat)
    requires Ascending(groups0, KeyLess)
    ensures groups == Aggregate(groups0, [EntryOf(l, cutoff, types)])
    ensures accepted == accepted0 + (if Accepted(l, cutoff) then 1 else 0)
  {
    KeyLessIsStrictTotal();
    groups, accepted := groups0, accepted0;
    if l.shipdate.isNull {
      AggregateSkip(groups0, EntryOf(l, cutoff, types));
      return;
    }
    var shipdateDays := l.shipdate.raw;
    if shipdateDays > cutoff {
      AggregateSkip(groups0, EntryOf(l, cutoff, types));
      return;
    }
    accepted := accepted + 1;
    var key := (l.returnflag.raw, l.linestatus.raw);
    var quantity := Decode(l.quantity.raw, EffectiveScale(types.quantity));
    var extendedprice := Decode(l.price.raw, EffectiveScale(types.price));
    var discount := Decode(l.discount.raw, EffectiveScale(types.discount));
    var tax := Decode(l.tax.raw, EffectiveScale(types.tax));
    var discPrice := DiscPrice(extendedprice, discount);
    var charge := Charge(discPrice, tax);
    var amounts := LineAmounts(quantity, extendedprice, discPrice, charge, discount);
    assert EntryOf(l, cutoff, types) == Some((key, amounts));
    groups := AddAmounts(groups, key, amounts);
  }

  /** The group's entry, zero when absent, gains the row's amounts and
      one to its count. */
  method AddAmounts(groups0: seq<(GroupKey, AggregateValues)>, key: GroupKey, a: LineAmounts)
    returns (groups: seq<(GroupKey, AggregateValues)>)
    requires Ascending(groups0, KeyLess)
    ensures groups == Aggregate(groups0, [Some((key, a))])
  {
    KeyLessIsStrictTotal();
    var agg := GetOr(groups0, key, Zero);
    agg := agg.(sumQty := agg.sumQty + a.quantity, sumBasePrice := agg.sumBasePrice + a.price,
                sumDiscPrice := agg.sumDiscPrice + a.discPrice, sumCharge := agg.sumCharge + a.charge,
                sumDisc := agg.sumDisc + a.discount, countOrder := agg.countOrder + 1);
    AggregateOne(groups0, Some((key, a)));
    groups := Put(groups0, key, agg, KeyLess);
  }

  /** The inner loop over one chunk's rows, from the running map and
      counter. */
  method ScanChunk(chunk: seq<LineitemRow>, cutoff: int, types: ColumnTypes,
                   groups0: seq<(GroupKey, AggregateValues)>, accepted0: nat)
    returns (groups: seq<(GroupKey, AggregateValues)>, accepted: nat)
    requires Ascending(groups0, KeyLess)
    ensures groups == Aggregate(groups0, Entries(chunk, cutoff, types))
    ensures accepted == accepted0 + NumAccepted(chunk, cutoff)
  {
    KeyLessIsStrictTotal();
    groups, accepted := groups0, accepted0;
    for i := 0 to |chunk|
      invariant groups == Aggregate(groups0, Entries(chunk[..i], cutoff, types))
      invariant accepted == accepted0 + NumAccepted(chunk[..i], cutoff)
    {
      ScanChunkStep(chunk, i, cutoff, types, groups0);
      groups, accepted := AddRow(chunk[i], cutoff, types, groups, accepted);
    }
    assert chunk[..|chunk|] == chunk;
  }

  /** One more row of the chunk adds one entry to the scan and at most
      one to the accepted count. */
  lemma ScanChunkStep(chunk: seq<LineitemRow>, i: nat, cutoff: int, types: ColumnTypes,
                      groups0: seq<(GroupKey, AggregateValues)>)
    requires i < |chunk| && Ascending(groups0, KeyLess)
    ensures Aggregate(groups0, Entries(chunk[..i + 1], cutoff, types))
         == Aggregate(Aggregate(groups0, Entries(chunk[..i], cutoff, types)), [EntryOf(chunk[i], cutoff, types)])
    ensures NumAccepted(chunk[..i + 1], cutoff)
         == NumAccepted(chunk[..i], cutoff) + (if Accepted(chunk[i], cutoff) then 1 else 0)
  {
    KeyLessIsStrictTotal();
    TakeSnoc(chunk, i);
    EntriesStep(chunk[..i], chunk[i], cutoff, types);
    NumAcceptedStep(chunk[..i], chunk[i], cutoff);
    AggregateConcat(groups0, Entries(chunk[..i], cutoff, types), [EntryOf(chunk[i], cutoff, types)],
                    EntryKey, Accumulate, Zero, KeyLess);
  }

  /** The whole query: the chunk loop, then the averages, then the sort. */
  method Run(lineitem: Table<LineitemRow>, types: ColumnTypes, cutoff: int) returns (out: Query1Output)
    ensures out.results == Report(Rows(lineitem), cutoff, types)
    ensures out.rowsProcessed == NumRows(lineitem)
    ensures out.rowsAccepted == NumAccepted(Rows(lineitem), cutoff)
  {
    KeyLessIsStrictTotal();
    var groups: seq<(GroupKey, AggregateValues)> := [];
    var processed := 0;
    var accepted := 0;
    for c := 0 to |lineitem|
      invariant groups == Groups(Rows(lineitem[..c]), cutoff, types)
      invariant accepted == NumAccepted(Rows(lineitem[..c]), cutoff)
      invariant processed == NumRows(lineitem[..c])
    {
      ghost var seen := Rows(lineitem[..c]);
      RowsOfPrefix(lineitem, c);
      EntriesConcat(seen, lineitem[c], cutoff, types);
      NumAcceptedConcat(seen, lineitem[c], cutoff);
      AggregateConcat([], Entries(seen, cutoff, types), Entries(lineitem[c], cutoff, types),
                      EntryKey, Accumulate, Zero, KeyLess);
      groups, accepted := ScanChunk(lineitem[c], cutoff, types, groups, accepted);
      processed := processed + |lineitem[c]|;
      assert lineitem[..c + 1][..c] == lineitem[..c];
    }
    assert lineitem[..|lineitem|] == lineitem;
    var finalized := Finalize(groups);
    FinalizeAscending(groups);
    var sorted := SortByKey(finalized, KeyLess);
    out := Query1Output(sorted, processed, accepted);
  }

  /* ---- Row bookkeeping ---- */

  /** A skipped row leaves the map as it was. */
  lemma AggregateSkip(groups: seq<(GroupKey, AggregateValues)>, e: Entry)
    requires Ascending(groups, KeyLess) && e.None?
    ensures Aggregate(groups, [e]) == groups
  {
    KeyLessIsStrictTotal();
    assert [e][..0] == [];
    assert EntryKey(e) == None;
    assert AggregateFrom(groups, [], EntryKey, Accumulate, Zero, KeyLess) == groups;
  }

  /** A kept row stores its group's updated entry. */
  lemma AggregateOne(groups: seq<(GroupKey, AggregateValues)>, e: Entry)
    requires Ascending(groups, KeyLess) && e.Some?
    ensures StrictTotalOrder(KeyLess)
    ensures Aggregate(groups, [e]) == Put(groups, e.value.0, Accumulate(GetOr(groups, e.value.0, Zero), e), KeyLess)
  {
    KeyLessIsStrictTotal();
    assert [e][..0] == [];
    assert AggregateFrom(groups, [], EntryKey, Accumulate, Zero, KeyLess) == groups;
  }

  /** Number of accepted line items. */
  function NumAccepted(rows: seq<LineitemRow>, cutoff: int): (n: nat)
    ensures n <= |rows|
  {
    if |rows| == 0 then 0
    else NumAccepted(rows[..|rows| - 1], cutoff) + (if Accepted(rows[|rows| - 1], cutoff) then 1 else 0)
  }

  lemma EntriesStep(rows: seq<LineitemRow>, l: LineitemRow, cutoff: int, types: ColumnTypes)
    ensures Entries(rows + [l], cutoff, types) == Entries(rows, cutoff, types) + [EntryOf(l, cutoff, types)]
  {
    assert (rows + [l])[..|rows|] == rows;
  }

  lemma NumAcceptedStep(rows: seq<LineitemRow>, l: LineitemRow, cutoff: int)
    ensures NumAccepted(rows + [l], cutoff) == NumAccepted(rows, cutoff) + (if Accepted(l, cutoff) then 1 else 0)
  {
    assert (rows + [l])[..|rows|] == rows;
  }

  /** Entries is computed row by row: it distributes over a split. */
  lemma {:induction false} EntriesConcat(a: seq<LineitemRow>, b: seq<LineitemRow>, cutoff: int, types: ColumnTypes)
    ensures Entries(a + b, cutoff, types) == Entries(a, cutoff, types) + Entries(b, cutoff, types)
    decreases |b|
  {
    if |b| == 0 {
      assert a + b == a;
    } else {
      var pre := b[..|b| - 1];
      var last := b[|b| - 1];
      assert b == pre + [last];
      assert a + b == (a + pre) + [last];
      EntriesConcat(a, pre, cutoff, types);
      EntriesStep(a + pre, last, cutoff, types);
      EntriesStep(pre, last, cutoff, types);
    }
  }

  lemma {:induction false} NumAcceptedConcat(a: seq<LineitemRow>, b: seq<LineitemRow>, cutoff: int)
    ensures NumAccepted(a + b, cutoff) == NumAccepted(a, cutoff) + NumAccepted(b, cutoff)
    decreases |b|
  {
    if |b| == 0 {
      assert a + b == a;
    } else {
      var pre := b[..|b| - 1];
      var last := b[|b| - 1];
      assert b == pre + [last];
      assert a + b == (a + pre) + [last];
      NumAcceptedConcat(a, pre, cutoff);
      NumAcceptedStep(a + pre, last, cutoff);
      NumAcceptedStep(pre, last, cutoff);
    }
  }

  /* ---- What the answer means ---- */

  /** The line items that group `k` aggregates: accepted, with key `k`. */
  predicate InGroup(l: LineitemRow, k: GroupKey, cutoff: int)
  {
    Accepted(l, cutoff) && KeyOfRow(l) == k
  }

  /** The amounts of group `k`'s line items, in row order. */
  function GroupAmounts(rows: seq<LineitemRow>, k: GroupKey, cutoff: int, types: ColumnTypes): (amounts: seq<LineAmounts>)
    ensures |amounts| <= |rows|
  {
    if |rows| == 0 then []
    else GroupAmounts(rows[..|rows| - 1], k, cutoff, types)
         + (if InGroup(rows[|rows| - 1], k, cutoff) then [AmountsOf(rows[|rows| - 1], types)] else [])
  }

  function QuantityOf(a: LineAmounts): real { a.quantity }
  function PriceOf(a: LineAmounts): real { a.price }
  function DiscPriceOf(a: LineAmounts): real { a.discPrice }
  function ChargeOf(a: LineAmounts): real { a.charge }
  function DiscountOf(a: LineAmounts): real { a.discount }

  /** A group's aggregate as the SQL defines it: every column summed on
      its own over the group's line items, and their number; averages not
      yet taken. */
  function Totals(amounts: seq<LineAmounts>): AggregateValues
  {
    AggregateValues(SumOf(amounts, QuantityOf), SumOf(amounts, PriceOf), SumOf(amounts, DiscPriceOf),
                    SumOf(amounts, ChargeOf), 0.0, 0.0, 0.0, SumOf(amounts, DiscountOf), |amounts|)
  }

  lemma TotalsStep(amounts: seq<LineAmounts>, a: LineAmounts, k: GroupKey)
    ensures Totals(amounts + [a]) == Accumulate(Totals(amounts), Some((k, a)))
  {
    assert (amounts + [a])[..|amounts|] == amounts;
  }

  /** The entries of group `k` folded with `Accumulate` give the group's
      totals; there are as many of them as the group has line items. */
  lemma {:induction false} FoldIsTotals(rows: seq<LineitemRow>, k: GroupKey, cutoff: int, types: ColumnTypes)
    ensures FoldRows(Select(Entries(rows, cutoff, types), EntryKey, k), Accumulate, Zero)
         == Totals(GroupAmounts(rows, k, cutoff, types))
    ensures |Select(Entries(rows, cutoff, types), EntryKey, k)| == |GroupAmounts(rows, k, cutoff, types)|
    decreases |rows|
  {
    if |rows| > 0 {
      var pre := rows[..|rows| - 1];
      var l := rows[|rows| - 1];
      FoldIsTotals(pre, k, cutoff, types);
      var es := Entries(pre, cutoff, types);
      var e := EntryOf(l, cutoff, types);
      var sel := Select(es, EntryKey, k);
      var amounts := GroupAmounts(pre, k, cutoff, types);
      assert Entries(rows, cutoff, types) == es + [e];
      SelectStep(es, e, k);
      if InGroup(l, k, cutoff) {
        assert Select(es + [e], EntryKey, k) == sel + [e];
        assert GroupAmounts(rows, k, cutoff, types) == amounts + [AmountsOf(l, types)];
        FoldStep(sel, e);
        TotalsStep(amounts, AmountsOf(l, types), k);
      } else {
        assert Select(es + [e], EntryKey, k) == sel;
        assert GroupAmounts(rows, k, cutoff, types) == amounts;
      }
    }
  }

  lemma SelectStep(es: seq<Entry>, e: Entry, k: GroupKey)
    ensures Select(es + [e], EntryKey, k) == Select(es, EntryKey, k) + (if EntryKey(e) == Some(k) then [e] else [])
  {
    assert (es + [e])[..|es|] == es;
  }

  lemma FoldStep(sel: seq<Entry>, e: Entry)
    ensures FoldRows(sel + [e], Accumulate, Zero) == Accumulate(FoldRows(sel, Accumulate, Zero), e)
  {
    assert (sel + [e])[..|sel|] == sel;
  }

  /** A group has line items iff some accepted row carries its key. */
  lemma {:induction false} GroupAmountsNonEmpty(rows: seq<LineitemRow>, k: GroupKey, cutoff: int, types: ColumnTypes)
    ensures |GroupAmounts(rows, k, cutoff, types)| > 0 <==> exists i :: 0 <= i < |rows| && InGroup(rows[i], k, cutoff)
    decreases |rows|
  {
    if |rows| > 0 {
      var pre := rows[..|rows| - 1];
      GroupAmountsNonEmpty(pre, k, cutoff, types);
      if exists i :: 0 <= i < |pre| && InGroup(pre[i], k, cutoff) {
        var i :| 0 <= i < |pre| && InGroup(pre[i], k, cutoff);
        assert rows[i] == pre[i];
      }
      if exists i :: 0 <= i < |rows| && InGroup(rows[i], k, cutoff) {
        var i :| 0 <= i < |rows| && InGroup(rows[i], k, cutoff);
        if i < |pre| {
          assert pre[i] == rows[i];
        }
      }
    }
  }

  /** What the map holds after the scan: an entry for `k` exactly when
      group `k` has line items, holding the group's totals. */
  lemma GroupsGet(rows: seq<LineitemRow>, k: GroupKey, cutoff: int, types: ColumnTypes)
    ensures var amounts := GroupAmounts(rows, k, cutoff, types);
            Get(Groups(rows, cutoff, types), k) == if |amounts| > 0 then Some(Totals(amounts)) else None
  {
    KeyLessIsStrictTotal();
    AggregateGet([], Entries(rows, cutoff, types), EntryKey, Accumulate, Zero, KeyLess, k);
    FoldIsTotals(rows, k, cutoff, types);
  }

  function CountOf(agg: AggregateValues): int
  {
    agg.countOrder
  }

  lemma AccumulateCounts()
    ensures StepAddsOne(EntryKey, Accumulate, CountOf)
  {
  }

  lemma {:induction false} CountKeyedEntries(rows: seq<LineitemRow>, cutoff: int, types: ColumnTypes)
    ensures CountKeyed(Entries(rows, cutoff, types), EntryKey) == NumAccepted(rows, cutoff)
    decreases |rows|
  {
    if |rows| > 0 {
      var pre := rows[..|rows| - 1];
      CountKeyedEntries(pre, cutoff, types);
      var es := Entries(pre, cutoff, types);
      assert (es + [EntryOf(rows[|rows| - 1], cutoff, types)])[..|es|] == es;
    }
  }

  lemma {:induction false} FinalizeCounts(groups: seq<(GroupKey, AggregateValues)>)
    ensures TotalBy(Finalize(groups), CountOf) == TotalBy(groups, CountOf)
    decreases |groups|
  {
    if |groups| > 0 {
      FinalizeCounts(groups[1..]);
      assert Finalize(groups)[1..] == Finalize(groups[1..]);
    }
  }

  /** `rows_accepted` is the sum of `count_order` over the report. */
  lemma AcceptedTotal(rows: seq<LineitemRow>, cutoff: int, types: ColumnTypes)
    ensures TotalBy(Report(rows, cutoff, types), CountOf) == NumAccepted(rows, cutoff)
  {
    KeyLessIsStrictTotal();
    var groups := Groups(rows, cutoff, types);
    FinalizeAscending(groups);
    SortAscending(Finalize(groups), KeyLess);
    AccumulateCounts();
    AggregateTotal([], Entries(rows, cutoff, types), EntryKey, Accumulate, Zero, KeyLess, CountOf);
    CountKeyedEntries(rows, cutoff, types);
    FinalizeCounts(groups);
  }

  lemma {:induction false} FinalizeGet(groups: seq<(GroupKey, AggregateValues)>, k: GroupKey)
    ensures Get(Finalize(groups), k) == if Get(groups, k).Some? then Some(Average(Get(groups, k).value)) else None
    decreases |groups|
  {
    if |groups| > 0 && groups[0].0 != k {
      FinalizeGet(groups[1..], k);
      assert Finalize(groups)[1..] == Finalize(groups[1..]);
    }
  }

  /** Looking a group up in the report: its finalised totals when it has
      line items, nothing otherwise. */
  lemma ReportGet(rows: seq<LineitemRow>, cutoff: int, types: ColumnTypes, k: GroupKey)
    ensures var amounts := GroupAmounts(rows, k, cutoff, types);
            Get(Report(rows, cutoff, types), k) == if |amounts| > 0 then Some(Average(Totals(amounts))) else None
  {
    KeyLessIsStrictTotal();
    var groups := Groups(rows, cutoff, types);
    FinalizeAscending(groups);
    SortAscending(Finalize(groups), KeyLess);
    GroupsGet(rows, k, cutoff, types);
    FinalizeGet(groups, k);
  }

  /** The report of Query 1: a row for group `k` exactly when some line
      item shipped by the cutoff has key `k`; that row holds the group's
      column sums and row count, which is positive, with the averages
      taken from them. The keys are strictly ascending and the counts add
      up to the number of accepted rows. */
  lemma Query1Answer(rows: seq<LineitemRow>, cutoff: int, types: ColumnTypes, k: GroupKey)
    ensures var rs := Report(rows, cutoff, types);
            (exists p :: 0 <= p < |rs| && rs[p].0 == k) <==> (exists i :: 0 <= i < |rows| && InGroup(rows[i], k, cutoff))
    ensures var rs := Report(rows, cutoff, types);
            forall p :: 0 <= p < |rs| && rs[p].0 == k ==>
              rs[p].1 == Average(Totals(GroupAmounts(rows, k, cutoff, types))) && rs[p].1.countOrder > 0
    ensures TotalBy(Report(rows, cutoff, types), CountOf) == NumAccepted(rows, cutoff)
  {
    ReportIsFinalized(rows, cutoff, types);
    GroupsGet(rows, k, cutoff, types);
    GroupAmountsNonEmpty(rows, k, cutoff, types);
    FinalizedRows(Groups(rows, cutoff, types), k, GroupAmounts(rows, k, cutoff, types));
    AcceptedTotal(rows, cutoff, types);
  }

  /** Sorting the finalised map changes nothing: it is already in key
      order. */
  lemma ReportIsFinalized(rows: seq<LineitemRow>, cutoff: int, types: ColumnTypes)
    ensures Report(rows, cutoff, types) == Finalize(Groups(rows, cutoff, types))
  {
    KeyLessIsStrictTotal();
    FinalizeAscending(Groups(rows, cutoff, types));
    SortAscending(Finalize(Groups(rows, cutoff, types)), KeyLess);
  }

  /** A finalised map has a row under k iff the map holds k, and that row
      holds the average of the map's totals under k. */
  lemma FinalizedRows(groups: seq<(GroupKey, AggregateValues)>, k: GroupKey, amounts: seq<LineAmounts>)
    requires Ascending(groups, KeyLess)
    requires Get(groups, k) == if |amounts| > 0 then Some(Totals(amounts)) else None
    ensures var rs := Finalize(groups);
            (exists p :: 0 <= p < |rs| && rs[p].0 == k) <==> |amounts| > 0
    ensures var rs := Finalize(groups);
            forall p :: 0 <= p < |rs| && rs[p].0 == k ==> rs[p].1 == Average(Totals(amounts))
  {
    KeyLessIsStrictTotal();
    var rs := Finalize(groups);
    forall p | 0 <= p < |rs| && rs[p].0 == k
      ensures rs[p].1 == Average(Totals(amounts))
    {
      GetAt(groups, KeyLess, p);
    }
    GetSpec(groups, k);
    if |amounts| > 0 {
      var p :| 0 <= p < |groups| && groups[p] == (k, Totals(amounts));
      assert rs[p].0 == k;
    }
  }

  /* ---- Row order ---- */

  lemma GroupAmountsStep(rows: seq<LineitemRow>, l: LineitemRow, k: GroupKey, cutoff: int, types: ColumnTypes)
    ensures GroupAmounts(rows + [l], k, cutoff, types)
         == GroupAmounts(rows, k, cutoff, types) + (if InGroup(l, k, cutoff) then [AmountsOf(l, types)] else [])
  {
    assert (rows + [l])[..|rows|] == rows;
  }

  lemma {:induction false} GroupAmountsConcat(a: seq<LineitemRow>, b: seq<LineitemRow>, k: GroupKey, cutoff: int, types: ColumnTypes)
    ensures GroupAmounts(a + b, k, cutoff, types) == GroupAmounts(a, k, cutoff, types) + GroupAmounts(b, k, cutoff, types)
    decreases |b|
  {
    if |b| == 0 {
      assert a + b == a;
    } else {
      var pre := b[..|b| - 1];
      var last := b[|b| - 1];
      assert b == pre + [last];
      assert a + b == (a + pre) + [last];
      GroupAmountsConcat(a, pre, k, cutoff, types);
      GroupAmountsStep(a + pre, last, k, cutoff, types);
      GroupAmountsStep(pre, last, k, cutoff, types);
    }
  }

  /** Taking row j out of the rows takes its amounts (if any) out of the
      group's amounts. */
  lemma GroupAmountsPick(b: seq<LineitemRow>, j: nat, k: GroupKey, cutoff: int, types: ColumnTypes)
    requires j < |b|
    ensures multiset(GroupAmounts(b, k, cutoff, types))
         == multiset(GroupAmounts(b[..j] + b[j + 1..], k, cutoff, types)) + multiset(GroupAmounts([b[j]], k, cutoff, types))
  {
    var l, x, r := b[..j], b[j], b[j + 1..];
    assert b == l + ([x] + r);
    GroupAmountsConcat(l, [x] + r, k, cutoff, types);
    GroupAmountsConcat([x], r, k, cutoff, types);
    GroupAmountsConcat(l, r, k, cutoff, types);
  }

  /** If the rows before the last one and the rows of `b` without row j
      give the same amounts, and row j is the last row, then `a` and `b`
      give the same amounts. */
  lemma GroupAmountsSwapLast(a: seq<LineitemRow>, b: seq<LineitemRow>, j: nat, k: GroupKey, cutoff: int, types: ColumnTypes)
    requires |a| > 0 && j < |b| && b[j] == a[|a| - 1]
    requires multiset(GroupAmounts(a[..|a| - 1], k, cutoff, types)) == multiset(GroupAmounts(b[..j] + b[j + 1..], k, cutoff, types))
    ensures multiset(GroupAmounts(a, k, cutoff, types)) == multiset(GroupAmounts(b, k, cutoff, types))
  {
    var pre := a[..|a| - 1];
    assert a == pre + [b[j]];
    GroupAmountsConcat(pre, [b[j]], k, cutoff, types);
    GroupAmountsPick(b, j, k, cutoff, types);
  }

  /** Reordering the line items reorders each group's amounts. */
  lemma {:induction false} GroupAmountsPermutation(a: seq<LineitemRow>, b: seq<LineitemRow>, k: GroupKey, cutoff: int, types: ColumnTypes)
    requires multiset(a) == multiset(b)
    ensures multiset(GroupAmounts(a, k, cutoff, types)) == multiset(GroupAmounts(b, k, cutoff, types))
    decreases |a|
  {
    if |a| == 0 {
      assert |b| == |multiset(b)| == 0;
    } else {
      var j := PermutationSplit(a, b);
      GroupAmountsPermutation(a[..|a| - 1], b[..j] + b[j + 1..], k, cutoff, types);
      GroupAmountsSwapLast(a, b, j, k, cutoff, types);
    }
  }

  lemma TotalsPermutation(a: seq<LineAmounts>, b: seq<LineAmounts>)
    requires multiset(a) == multiset(b)
    ensures Totals(a) == Totals(b)
  {
    SumOfPermutation(a, b, QuantityOf);
    SumOfPermutation(a, b, PriceOf);
    SumOfPermutation(a, b, DiscPriceOf);
    SumOfPermutation(a, b, ChargeOf);
    SumOfPermutation(a, b, DiscountOf);
    assert |a| == |multiset(a)| == |multiset(b)| == |b|;
  }

  /** The report does not depend on the order in which the line items
      arrive, over exact arithmetic. */
  lemma RowOrderIrrelevant(a: seq<LineitemRow>, b: seq<LineitemRow>, cutoff: int, types: ColumnTypes)
    requires multiset(a) == multiset(b)
    ensures Report(a, cutoff, types) == Report(b, cutoff, types)
  {
    KeyLessIsStrictTotal();
    forall k ensures Get(Groups(a, cutoff, types), k) == Get(Groups(b, cutoff, types), k) {
      GroupsGet(a, k, cutoff, types);
      GroupsGet(b, k, cutoff, types);
      var ga := GroupAmounts(a, k, cutoff, types);
      var gb := GroupAmounts(b, k, cutoff, types);
      GroupAmountsPermutation(a, b, k, cutoff, types);
      TotalsPermutation(ga, gb);
      assert |ga| == |multiset(ga)| == |multiset(gb)| == |gb|;
    }
    Extensionality(Groups(a, cutoff, types), Groups(b, cutoff, types), KeyLess);
  }
}
