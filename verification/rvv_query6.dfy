/** TPC-H Query 6, vector variant (`rvv_query6.cpp`). Arrow compute kernels
    evaluate the five comparisons and `Filter` keeps the rows where all of
    them hold; the filtered price and discount columns are read from the
    filtered table's first chunk, both decoded with the PRICE column's
    scale, and summed by `compute_revenue_rvv`. The price is never checked
    for null. */
module RvvQuery6 {
  import opened Common
  import opened Decimal
  import opened Strip
  import opened Kernels
  import opened Query6

  /** The combined filter keeps a row: each comparison is null when its
      slot is null, `And` propagates the null and `Filter` drops it, so the
      three compared columns must be present and pass the WHERE clause.
      The extended price takes no part. */
  predicate Passes(l: LineitemRow, types: ColumnTypes, start: int, end: int)
  {
    !l.shipdate.isNull && !l.quantity.isNull && !l.discount.isNull
    && Where(l.shipdate.raw, Quantity(l, types), Discount(l, types), start, end)
  }

  /** `Filter(table, combined_filter)`: the passing rows, in table order. */
  function Filtered(rows: seq<LineitemRow>, types: ColumnTypes, start: int, end: int): (kept: seq<LineitemRow>)
    ensures |kept| <= |rows|
  {
    if |rows| == 0 then []
    else Filtered(rows[..|rows| - 1], types, start, end) + (if Passes(rows[|rows| - 1], types, start, end) then [rows[|rows| - 1]] else [])
  }

  /** The filter keeps exactly the passing rows. */
  lemma {:induction false} FilteredMembers(rows: seq<LineitemRow>, types: ColumnTypes, start: int, end: int, l: LineitemRow)
    ensures l in Filtered(rows, types, start, end) <==> l in rows && Passes(l, types, start, end)
    decreases |rows|
  {
    if |rows| > 0 {
      var pre := rows[..|rows| - 1];
      var last := rows[|rows| - 1];
      assert rows == pre + [last];
      FilteredMembers(pre, types, start, end, l);
    }
  }

  /** `price_val.ToDouble(scale_factor)` for every filtered row. */
  function Prices(rows: seq<LineitemRow>, scale: int): (v: seq<real>)
    ensures |v| == |rows|
  {
    if |rows| == 0 then [] else Prices(rows[..|rows| - 1], scale) + [Decode(rows[|rows| - 1].price.raw, scale)]
  }

  /** `discount_val.ToDouble(scale_factor)`: the discount read at the price
      column's scale. */
  function Discounts(rows: seq<LineitemRow>, scale: int): (v: seq<real>)
    ensures |v| == |rows|
  {
    if |rows| == 0 then [] else Discounts(rows[..|rows| - 1], scale) + [Decode(rows[|rows| - 1].discount.raw, scale)]
  }

  /** The whole query. The filtered table is taken as one chunk, as the
      program reads `chunk(0)` of it for all `num_rows()` rows; the price
      and discount arrays are cast to Decimal128 without a type check, so
      both columns must be decimal. */
  method Run(lineitem: Table<LineitemRow>, types: ColumnTypes, start: int, end: int, vlmax: nat, vsetvl: nat -> nat)
    returns (revenue: real)
    requires VsetvlWithin(vsetvl, vlmax)
    requires types.price.Decimal128Type? && types.discount.Decimal128Type?
    ensures var f := Filtered(Rows(lineitem), types, start, end);
            revenue == Revenue(Prices(f, types.price.scale), Discounts(f, types.price.scale), |f|)
    ensures PricesPresent(Rows(lineitem), types, start, end) && types.discount.scale == types.price.scale
            ==> revenue == RevenueOf(Qualifying(Rows(lineitem), types, start, end), types)
  {
    var filtered := Filtered(Rows(lineitem), types, start, end);
    var n := |filtered|;
    var scale := types.price.scale;
    var priceData: seq<real> := [];
    var discountData: seq<real> := [];
    for i := 0 to n
      invariant priceData == Prices(filtered[..i], scale)
      invariant discountData == Discounts(filtered[..i], scale)
    {
      assert filtered[..i + 1][..i] == filtered[..i];
      priceData := priceData + [Decode(filtered[i].price.raw, scale)];
      discountData := discountData + [Decode(filtered[i].discount.raw, scale)];
    }
    assert filtered[..n] == filtered;
    revenue := ComputeRevenueRvv(priceData, discountData, n, vlmax, vsetvl);
    if PricesPresent(Rows(lineitem), types, start, end) && types.discount.scale == types.price.scale {
      SameAsScalar(Rows(lineitem), types, start, end);
    }
  }

  /** Every row that passes the filter has a price. */
  ghost predicate PricesPresent(rows: seq<LineitemRow>, types: ColumnTypes, start: int, end: int)
  {
    forall i :: 0 <= i < |rows| && Passes(rows[i], types, start, end) ==> !rows[i].price.isNull
  }

  /** A passing row with a price qualifies for the scalar variant, and a
      qualifying row passes. */
  lemma {:induction false} FilteredIsQualifying(rows: seq<LineitemRow>, types: ColumnTypes, start: int, end: int)
    requires PricesPresent(rows, types, start, end)
    ensures Filtered(rows, types, start, end) == Qualifying(rows, types, start, end)
    decreases |rows|
  {
    if |rows| > 0 {
      var pre := rows[..|rows| - 1];
      assert PricesPresent(pre, types, start, end) by {
        forall i | 0 <= i < |pre| && Passes(pre[i], types, start, end)
          ensures !pre[i].price.isNull
        {
          assert pre[i] == rows[i];
        }
      }
      FilteredIsQualifying(pre, types, start, end);
    }
  }

  /** Summing price times discount lane by lane over the filtered rows is
      the scalar revenue of those rows when both columns are read at the
      scale the scalar variant uses for each. */
  lemma {:induction false} RevenueOfFiltered(f: seq<LineitemRow>, types: ColumnTypes, scale: int, n: nat)
    requires EffectiveScale(types.price) == scale && EffectiveScale(types.discount) == scale
    requires n <= |f|
    ensures Revenue(Prices(f, scale), Discounts(f, scale), n) == RevenueOf(f[..n], types)
    decreases n
  {
    if n > 0 {
      RevenueOfFiltered(f, types, scale, n - 1);
      LaneStep(f, types, scale, n);
    }
  }

  /** One lane more on the vector side is one row more on the scalar side. */
  lemma LaneStep(f: seq<LineitemRow>, types: ColumnTypes, scale: int, n: nat)
    requires EffectiveScale(types.price) == scale && EffectiveScale(types.discount) == scale
    requires 0 < n <= |f|
    ensures Revenue(Prices(f, scale), Discounts(f, scale), n) - Revenue(Prices(f, scale), Discounts(f, scale), n - 1)
         == RevenueOf(f[..n], types) - RevenueOf(f[..n - 1], types)
  {
    var p := Prices(f, scale);
    var d := Discounts(f, scale);
    RevenueLast(p, d, n);
    RevenueOfLast(f, types, n);
    LaneValues(f, types, scale, n - 1);
    TimesIsProduct(p[n - 1], d[n - 1]);
  }

  lemma RevenueLast(p: seq<real>, d: seq<real>, n: nat)
    requires 0 < n <= |p| && n <= |d|
    ensures Revenue(p, d, n) == Revenue(p, d, n - 1) + p[n - 1] * d[n - 1]
  {
  }

  lemma RevenueOfLast(f: seq<LineitemRow>, types: ColumnTypes, n: nat)
    requires 0 < n <= |f|
    ensures RevenueOf(f[..n], types) == RevenueOf(f[..n - 1], types) + Yield(f[n - 1], types)
  {
    assert f[..n][..n - 1] == f[..n - 1];
  }

  /** Lane k holds row k's price and discount at the scalar variant's
      scales. */
  lemma {:induction false} LaneValues(f: seq<LineitemRow>, types: ColumnTypes, scale: int, k: nat)
    requires EffectiveScale(types.price) == scale && EffectiveScale(types.discount) == scale
    requires k < |f|
    ensures Prices(f, scale)[k] == Price(f[k], types)
    ensures Discounts(f, scale)[k] == Discount(f[k], types)
    decreases |f|
  {
    var pre := f[..|f| - 1];
    if k < |pre| {
      LaneValues(pre, types, scale, k);
      assert pre[k] == f[k];
    }
  }

  /** When no passing row lacks a price and the discount column has the
      price column's scale, the vector variant's revenue is the scalar
      variant's. */
  lemma SameAsScalar(rows: seq<LineitemRow>, types: ColumnTypes, start: int, end: int)
    requires types.price.Decimal128Type? && types.discount.Decimal128Type?
    requires PricesPresent(rows, types, start, end) && types.discount.scale == types.price.scale
    ensures var f := Filtered(rows, types, start, end);
            Revenue(Prices(f, types.price.scale), Discounts(f, types.price.scale), |f|)
            == RevenueOf(Qualifying(rows, types, start, end), types)
  {
    var f := Filtered(rows, types, start, end);
    FilteredIsQualifying(rows, types, start, end);
    RevenueOfFiltered(f, types, types.price.scale, |f|);
    assert f[..|f|] == f;
  }
}
