/** TPC-H Query 6, scalar variant (`query6.cpp`): the revenue a discount
    change would have brought, the sum of extended price times discount
    over the line items shipped in a year with a discount in [0.05, 0.07]
    and a quantity below 24. The three decimal columns are decoded from
    their Decimal128 slots, row by row, chunk by chunk. */
module Query6 {
  import opened Common
  import opened Decimal

  datatype LineitemRow = LineitemRow(shipdate: Cell<int>, quantity: Cell<Slot>, price: Cell<Slot>, discount: Cell<Slot>)

  /** The declared types of the three decimal columns; they fix the scales. */
  datatype ColumnTypes = ColumnTypes(quantity: ColumnType, price: ColumnType, discount: ColumnType)

  /** What the program prints: the revenue and the two row counters. */
  datatype Query6Output = Query6Output(revenue: real, rowsProcessed: nat, rowsQualified: nat)

  const MIN_DISCOUNT: real := 0.05
  const MAX_DISCOUNT: real := 0.07
  const MAX_QUANTITY: real := 24.0

  function Quantity(l: LineitemRow, types: ColumnTypes): real
  {
    Decode(l.quantity.raw, EffectiveScale(types.quantity))
  }

  function Price(l: LineitemRow, types: ColumnTypes): real
  {
    Decode(l.price.raw, EffectiveScale(types.price))
  }

  function Discount(l: LineitemRow, types: ColumnTypes): real
  {
    Decode(l.discount.raw, EffectiveScale(types.discount))
  }

  /** The WHERE clause on a line item's decoded values. */
  predicate Where(shipdate: int, quantity: real, discount: real, start: int, end: int)
  {
    shipdate >= start && shipdate < end
    && discount >= MIN_DISCOUNT && discount <= MAX_DISCOUNT
    && quantity < MAX_QUANTITY
  }

  /** A line item adds to the revenue: none of its four cells is null and
      its decoded values pass the WHERE clause. */
  predicate Qualifies(l: LineitemRow, types: ColumnTypes, start: int, end: int)
  {
    !l.shipdate.isNull && !l.quantity.isNull && !l.price.isNull && !l.discount.isNull
    && Where(l.shipdate.raw, Quantity(l, types), Discount(l, types), start, end)
  }

  /** The qualifying line items, in table order. */
  function Qualifying(rows: seq<LineitemRow>, types: ColumnTypes, start: int, end: int): (kept: seq<LineitemRow>)
    ensures |kept| <= |rows|
  {
    if |rows| == 0 then []
    else Qualifying(rows[..|rows| - 1], types, start, end) + (if Qualifies(rows[|rows| - 1], types, start, end) then [rows[|rows| - 1]] else [])
  }

  /** Qualifying keeps exactly the qualifying rows: each kept row qualifies
      and is a row of the input, and each qualifying row is kept. */
  lemma {:induction false} QualifyingMembers(rows: seq<LineitemRow>, types: ColumnTypes, start: int, end: int, l: LineitemRow)
    ensures l in Qualifying(rows, types, start, end) <==> l in rows && Qualifies(l, types, start, end)
    decreases |rows|
  {
    if |rows| > 0 {
      var pre := rows[..|rows| - 1];
      var last := rows[|rows| - 1];
      assert rows == pre + [last];
      QualifyingMembers(pre, types, start, end, l);
    }
  }

  /** A line item's revenue contribution: extended price × discount. */
  function Yield(l: LineitemRow, types: ColumnTypes): real
  {
    Times(Price(l, types), Discount(l, types))
  }

  /** Real multiplication, named so that equal factors give equal products
      by congruence alone. */
  function Times(a: real, b: real): real
  {
    a * b
  }

  lemma TimesIsProduct(a: real, b: real)
    ensures a * b == Times(a, b)
  {
  }

  /** Σ extended price × discount over some line items. */
  function RevenueOf(rows: seq<LineitemRow>, types: ColumnTypes): real
  {
    if |rows| == 0 then 0.0
    else RevenueOf(rows[..|rows| - 1], types) + Yield(rows[|rows| - 1], types)
  }

  lemma QualifyingStep(rows: seq<LineitemRow>, l: LineitemRow, types: ColumnTypes, start: int, end: int)
    ensures Qualifying(rows + [l], types, start, end)
         == Qualifying(rows, types, start, end) + (if Qualifies(l, types, start, end) then [l] else [])
  {
    assert (rows + [l])[..|rows|] == rows;
  }

  lemma RevenueStep(rows: seq<LineitemRow>, l: LineitemRow, types: ColumnTypes)
    ensures RevenueOf(rows + [l], types) == RevenueOf(rows, types) + Yield(l, types)
  {
    assert (rows + [l])[..|rows|] == rows;
  }

  /** One row more: the revenue grows by the row's yield and the count by
      one exactly when the row qualifies. */
  lemma ScanStep(rows: seq<LineitemRow>, l: LineitemRow, types: ColumnTypes, start: int, end: int)
    ensures RevenueOf(Qualifying(rows + [l], types, start, end), types)
         == RevenueOf(Qualifying(rows, types, start, end), types) + (if Qualifies(l, types, start, end) then Yield(l, types) else 0.0)
    ensures |Qualifying(rows + [l], types, start, end)|
         == |Qualifying(rows, types, start, end)| + (if Qualifies(l, types, start, end) then 1 else 0)
  {
    var kept := Qualifying(rows, types, start, end);
    QualifyingStep(rows, l, types, start, end);
    if Qualifies(l, types, start, end) {
      RevenueStep(kept, l, types);
    } else {
      assert kept + [] == kept;
    }
  }

  /** The body of the inner loop for one row, from the running totals: a
      row with a null cell is skipped, and a row whose decoded values pass
      the WHERE clause adds its price times discount and one qualified row.
      The scales are the ones read from the column types. */
  method ScanRow(l: LineitemRow, types: ColumnTypes, start: int, end: int, revenue0: real, qualified0: nat)
    returns (revenue: real, qualified: nat)
    ensures revenue == revenue0 + (if Qualifies(l, types, start, end) then Yield(l, types) else 0.0)
    ensures qualified == qualified0 + (if Qualifies(l, types, start, end) then 1 else 0)
  {
    revenue, qualified := revenue0, qualified0;
    if l.shipdate.isNull || l.quantity.isNull || l.price.isNull || l.discount.isNull {
      return;
    }
    var shipdate := l.shipdate.raw;
    var quantity := Decode(l.quantity.raw, EffectiveScale(types.quantity));
    var price := Decode(l.price.raw, EffectiveScale(types.price));
    var discount := Decode(l.discount.raw, EffectiveScale(types.discount));
    if Where(shipdate, quantity, discount, start, end) {
      TimesIsProduct(price, discount);
      revenue := revenue + price * discount;
      qualified := qualified + 1;
    }
  }

  /** The inner loop over one chunk's rows, starting from the running
      totals. */
  method ScanChunk(chunk: seq<LineitemRow>, types: ColumnTypes, start: int, end: int, revenue0: real, qualified0: nat)
    returns (revenue: real, qualified: nat)
    ensures revenue == revenue0 + RevenueOf(Qualifying(chunk, types, start, end), types)
    ensures qualified == qualified0 + |Qualifying(chunk, types, start, end)|
  {
    revenue, qualified := revenue0, qualified0;
    for i := 0 to |chunk|
      invariant revenue == revenue0 + RevenueOf(Qualifying(chunk[..i], types, start, end), types)
      invariant qualified == qualified0 + |Qualifying(chunk[..i], types, start, end)|
    {
      TakeSnoc(chunk, i);
      ScanStep(chunk[..i], chunk[i], types, start, end);
      revenue, qualified := ScanRow(chunk[i], types, start, end, revenue, qualified);
    }
    assert chunk[..|chunk|] == chunk;
  }

  /** The whole query over the table, chunk by chunk. The scales are read
      from the column types once per chunk; every chunk of a column has the
      column's type. */
  method Run(lineitem: Table<LineitemRow>, types: ColumnTypes, start: int, end: int) returns (out: Query6Output)
    ensures out.revenue == RevenueOf(Qualifying(Rows(lineitem), types, start, end), types)
    ensures out.rowsQualified == |Qualifying(Rows(lineitem), types, start, end)|
    ensures out.rowsProcessed == NumRows(lineitem)
  {
    var revenue := 0.0;
    var processed := 0;
    var qualified := 0;
    for c := 0 to |lineitem|
      invariant revenue == RevenueOf(Qualifying(Rows(lineitem[..c]), types, start, end), types)
      invariant qualified == |Qualifying(Rows(lineitem[..c]), types, start, end)|
      invariant processed == NumRows(lineitem[..c])
    {
      ghost var seen := Rows(lineitem[..c]);
      RowsOfPrefix(lineitem, c);
      QualifyingConcat(seen, lineitem[c], types, start, end);
      RevenueConcat(Qualifying(seen, types, start, end), Qualifying(lineitem[c], types, start, end), types);
      revenue, qualified := ScanChunk(lineitem[c], types, start, end, revenue, qualified);
      processed := processed + |lineitem[c]|;
      assert lineitem[..c + 1][..c] == lineitem[..c];
    }
    assert lineitem[..|lineitem|] == lineitem;
    out := Query6Output(revenue, processed, qualified);
  }

  /* ---- What the answer means ---- */

  /** Revenue is additive over a split of the line items. */
  lemma {:induction false} RevenueConcat(a: seq<LineitemRow>, b: seq<LineitemRow>, types: ColumnTypes)
    ensures RevenueOf(a + b, types) == RevenueOf(a, types) + RevenueOf(b, types)
    decreases |b|
  {
    if |b| == 0 {
      assert a + b == a;
    } else {
      var pre := b[..|b| - 1];
      var last := b[|b| - 1];
      assert b == pre + [last];
      assert a + b == (a + pre) + [last];
      RevenueConcat(a, pre, types);
      RevenueStep(a + pre, last, types);
      RevenueStep(pre, last, types);
    }
  }

  /** Qualifying is a filter: it distributes over a split of the rows. */
  lemma {:induction false} QualifyingConcat(a: seq<LineitemRow>, b: seq<LineitemRow>, types: ColumnTypes, start: int, end: int)
    ensures Qualifying(a + b, types, start, end) == Qualifying(a, types, start, end) + Qualifying(b, types, start, end)
    decreases |b|
  {
    if |b| == 0 {
      assert a + b == a;
    } else {
      var pre := b[..|b| - 1];
      var last := b[|b| - 1];
      assert b == pre + [last];
      assert a + b == (a + pre) + [last];
      QualifyingConcat(a, pre, types, start, end);
      QualifyingStep(a + pre, last, types, start, end);
      QualifyingStep(pre, last, types, start, end);
    }
  }

  /** Line items with a null cell or outside the WHERE clause add nothing:
      the revenue over the table is the revenue over its qualifying rows,
      and adding a row that does not qualify leaves the answer as it was. */
  lemma NonQualifyingAddsNothing(rows: seq<LineitemRow>, l: LineitemRow, types: ColumnTypes, start: int, end: int)
    requires !Qualifies(l, types, start, end)
    ensures RevenueOf(Qualifying(rows + [l], types, start, end), types) == RevenueOf(Qualifying(rows, types, start, end), types)
    ensures |Qualifying(rows + [l], types, start, end)| == |Qualifying(rows, types, start, end)|
  {
    QualifyingStep(rows, l, types, start, end);
    assert Qualifying(rows, types, start, end) + [] == Qualifying(rows, types, start, end);
  }

  /** With every row qualifying, the answer is the plain revenue sum over
      all rows. */
  lemma {:induction false} AllQualify(rows: seq<LineitemRow>, types: ColumnTypes, start: int, end: int)
    requires forall i :: 0 <= i < |rows| ==> Qualifies(rows[i], types, start, end)
    ensures Qualifying(rows, types, start, end) == rows
    decreases |rows|
  {
    if |rows| > 0 {
      var pre := rows[..|rows| - 1];
      assert rows == pre + [rows[|rows| - 1]];
      AllQualify(pre, types, start, end);
    }
  }
}
