/** TPC-H Query 9, scalar variant (`query9.cpp`): the profit on parts
    whose name contains "green", per supplier nation and order year. Four
    lookup structures are built from the part, nation, supplier, partsupp
    and orders tables; each line item that passes the lookups adds
    extendedprice·(1 − discount) − supplycost·quantity to its (nation,
    year) entry of a `std::map`; the entries are sorted by nation, latest
    year first. */
module Query9 {
  import opened Common
  import opened Ordering
  import opened OrdMap
  import opened GroupBy
  import opened Lookup
  import opened Decimal
  import opened Kernels

  datatype PartRow = PartRow(partkey: Cell<int>, name: Cell<string>)

  datatype NationRow = NationRow(nationkey: Cell<int>, name: Cell<string>)

  datatype SupplierRow = SupplierRow(suppkey: Cell<int>, nationkey: Cell<int>)

  datatype PartsuppRow = PartsuppRow(partkey: Cell<int>, suppkey: Cell<int>, supplycost: Cell<Slot>)

  datatype OrderRow = OrderRow(orderkey: Cell<int>, orderdate: Cell<int>)

  datatype LineitemRow = LineitemRow(orderkey: Cell<int>, partkey: Cell<int>, suppkey: Cell<int>,
                                     quantity: Cell<Slot>, price: Cell<Slot>, discount: Cell<Slot>)

  /** The declared types of the three decimal line item columns. */
  datatype ColumnTypes = ColumnTypes(quantity: ColumnType, price: ColumnType, discount: ColumnType)

  /** A row of the answer: `Query9Result`. */
  datatype Query9Result = Query9Result(nation: string, oYear: int, sumProfit: real)

  /** The sorted answer and the two counters the program reports. */
  datatype Query9Output = Query9Output(results: seq<Query9Result>, rowsProcessed: nat, rowsQualified: nat)

  /** `NationYearKey`: nation name and order year. */
  type NationYear = (string, int)

  const GREEN: string := "green"

  /* ---- contains_substring ---- */

  /** `t` occurs in `s` starting at position `j`. */
  predicate OccursAt(s: string, t: string, j: int)
  {
    0 <= j && j + |t| <= |s| && s[j..j + |t|] == t
  }

  /** `s.find(t, i)`: the first position at or after `i` where `t` occurs,
      or `None` for `npos`. */
  function FindFrom(s: string, t: string, i: nat): (r: Option<nat>)
    ensures r.Some? ==> i <= r.value && OccursAt(s, t, r.value)
    ensures r.Some? ==> forall j :: i <= j < r.value ==> !OccursAt(s, t, j)
    ensures r.None? ==> forall j :: i <= j ==> !OccursAt(s, t, j)
    decreases |s| - i
  {
    if i + |t| > |s| then None
    else if s[i..i + |t|] == t then Some(i)
    else FindFrom(s, t, i + 1)
  }

  /** `contains_substring(s, t)`: `s.find(t) != npos`. */
  predicate ContainsSubstring(s: string, t: string)
  {
    FindFrom(s, t, 0).Some?
  }

  /** A string contains `t` exactly when `t` occurs in it somewhere. */
  lemma ContainsSubstringSpec(s: string, t: string)
    ensures ContainsSubstring(s, t) <==> exists j :: OccursAt(s, t, j)
  {
    if ContainsSubstring(s, t) {
      assert OccursAt(s, t, FindFrom(s, t, 0).value);
    }
  }

  /* ---- The lookup structures ---- */

  /** The insert into `green_parts` a part row makes: both columns present
      and the name containing "green". */
  function GreenEntry(p: PartRow): Option<int>
  {
    if p.partkey.isNull || p.name.isNull then None
    else if ContainsSubstring(p.name.raw, GREEN) then Some(p.partkey.raw)
    else None
  }

  function GreenEntries(rs: seq<PartRow>): (es: seq<Option<int>>)
    ensures |es| == |rs|
  {
    seq(|rs|, i requires 0 <= i < |rs| => GreenEntry(rs[i]))
  }

  function GreenParts(part: Table<PartRow>): set<int>
  {
    Collect(GreenEntries(Rows(part)))
  }

  /** A part key is green iff some part row with both columns present
      carries it and has "green" somewhere in its name. */
  lemma GreenPartsSpec(part: Table<PartRow>, k: int)
    ensures var rs := Rows(part);
            k in GreenParts(part) <==>
              exists i :: 0 <= i < |rs| && !rs[i].partkey.isNull && !rs[i].name.isNull && rs[i].partkey.raw == k
                          && exists j :: OccursAt(rs[i].name.raw, GREEN, j)
  {
    var rs := Rows(part);
    var es := GreenEntries(rs);
    CollectSpec(es, k);
    forall i | 0 <= i < |rs|
      ensures es[i] == Some(k) <==> !rs[i].partkey.isNull && !rs[i].name.isNull && rs[i].partkey.raw == k
                                    && exists j :: OccursAt(rs[i].name.raw, GREEN, j)
    {
      if !rs[i].name.isNull {
        ContainsSubstringSpec(rs[i].name.raw, GREEN);
      }
    }
    if k in GreenParts(part) {
      var i :| 0 <= i < |es| && es[i] == Some(k);
    }
  }

  /** `nation_map[nationkey] = name`. */
  function NationEntry(n: NationRow): Option<(int, string)>
  {
    if n.nationkey.isNull || n.name.isNull then None else Some((n.nationkey.raw, n.name.raw))
  }

  function NationEntries(rs: seq<NationRow>): (es: seq<Option<(int, string)>>)
    ensures |es| == |rs|
  {
    seq(|rs|, i requires 0 <= i < |rs| => NationEntry(rs[i]))
  }

  function NationMap(nation: Table<NationRow>): map<int, string>
  {
    LastWins(NationEntries(Rows(nation)))
  }

  /** A nation key has a name iff some nation row with both columns
      present carries it, and the name is that of the last such row. */
  lemma NationMapSpec(nation: Table<NationRow>, k: int)
    ensures var rs := Rows(nation);
            k in NationMap(nation) <==>
              exists i :: 0 <= i < |rs| && !rs[i].nationkey.isNull && !rs[i].name.isNull && rs[i].nationkey.raw == k
    ensures var rs := Rows(nation);
            k in NationMap(nation) ==>
              exists i :: 0 <= i < |rs| && !rs[i].nationkey.isNull && !rs[i].name.isNull
                          && rs[i].nationkey.raw == k && rs[i].name.raw == NationMap(nation)[k]
                          && forall j :: i < j < |rs| ==> rs[j].nationkey.isNull || rs[j].name.isNull || rs[j].nationkey.raw != k
  {
    var rs := Rows(nation);
    var es := NationEntries(rs);
    LastWinsSpec(es, k);
    assert forall i :: 0 <= i < |rs| ==> (HasKey(es[i], k) <==> !rs[i].nationkey.isNull && !rs[i].name.isNull && rs[i].nationkey.raw == k);
  }

  /** `supplier_nation_map[suppkey] = nationkey`. */
  function SupplierEntry(s: SupplierRow): Option<(int, int)>
  {
    if s.suppkey.isNull || s.nationkey.isNull then None else Some((s.suppkey.raw, s.nationkey.raw))
  }

  function SupplierEntries(rs: seq<SupplierRow>): (es: seq<Option<(int, int)>>)
    ensures |es| == |rs|
  {
    seq(|rs|, i requires 0 <= i < |rs| => SupplierEntry(rs[i]))
  }

  function SupplierNationMap(supplier: Table<SupplierRow>): map<int, int>
  {
    LastWins(SupplierEntries(Rows(supplier)))
  }

  /** A supplier key has a nation key iff some supplier row with both
      columns present carries it, and it is that of the last such row. */
  lemma SupplierNationMapSpec(supplier: Table<SupplierRow>, k: int)
    ensures var rs := Rows(supplier);
            k in SupplierNationMap(supplier) <==>
              exists i :: 0 <= i < |rs| && !rs[i].suppkey.isNull && !rs[i].nationkey.isNull && rs[i].suppkey.raw == k
    ensures var rs := Rows(supplier);
            k in SupplierNationMap(supplier) ==>
              exists i :: 0 <= i < |rs| && !rs[i].suppkey.isNull && !rs[i].nationkey.isNull
                          && rs[i].suppkey.raw == k && rs[i].nationkey.raw == SupplierNationMap(supplier)[k]
                          && forall j :: i < j < |rs| ==> rs[j].suppkey.isNull || rs[j].nationkey.isNull || rs[j].suppkey.raw != k
  {
    var rs := Rows(supplier);
    var es := SupplierEntries(rs);
    LastWinsSpec(es, k);
    assert forall i :: 0 <= i < |rs| ==> (HasKey(es[i], k) <==> !rs[i].suppkey.isNull && !rs[i].nationkey.isNull && rs[i].suppkey.raw == k);
  }

  /** `partsupp_cost_map[{partkey, suppkey}] = supplycost`, made only by a
      row with all three columns present and a green part. */
  function CostEntry(ps: PartsuppRow, costType: ColumnType, green: set<int>): Option<((int, int), real)>
  {
    if ps.partkey.isNull || ps.suppkey.isNull || ps.supplycost.isNull then None
    else if ps.partkey.raw !in green then None
    else Some(((ps.partkey.raw, ps.suppkey.raw), Decode(ps.supplycost.raw, EffectiveScale(costType))))
  }

  function CostEntries(rs: seq<PartsuppRow>, costType: ColumnType, green: set<int>): (es: seq<Option<((int, int), real)>>)
    ensures |es| == |rs|
  {
    seq(|rs|, i requires 0 <= i < |rs| => CostEntry(rs[i], costType, green))
  }

  function PartsuppCostMap(partsupp: Table<PartsuppRow>, costType: ColumnType, green: set<int>): map<(int, int), real>
  {
    LastWins(CostEntries(Rows(partsupp), costType, green))
  }

  /** The partsupp map holds a (part, supplier) pair iff some partsupp row
      with all three columns present carries it and its part is green; the
      cost is the one decoded from the last such row. */
  lemma PartsuppCostSpec(partsupp: Table<PartsuppRow>, costType: ColumnType, green: set<int>, key: (int, int))
    ensures var rs := Rows(partsupp);
            key in PartsuppCostMap(partsupp, costType, green) <==>
              key.0 in green && exists i :: 0 <= i < |rs| && CostKeyAt(rs, i, key)
    ensures var rs := Rows(partsupp);
            key in PartsuppCostMap(partsupp, costType, green) ==>
              exists i :: 0 <= i < |rs| && CostKeyAt(rs, i, key)
                          && PartsuppCostMap(partsupp, costType, green)[key] == Decode(rs[i].supplycost.raw, EffectiveScale(costType))
                          && forall j :: i < j < |rs| ==> !CostKeyAt(rs, j, key)
  {
    var rs := Rows(partsupp);
    var es := CostEntries(rs, costType, green);
    LastWinsSpec(es, key);
    assert forall i :: 0 <= i < |rs| ==> (HasKey(es[i], key) <==> key.0 in green && CostKeyAt(rs, i, key));
  }

  /** Row i of partsupp has all three columns present and the key pair. */
  predicate CostKeyAt(rs: seq<PartsuppRow>, i: int, key: (int, int))
    requires 0 <= i < |rs|
  {
    !rs[i].partkey.isNull && !rs[i].suppkey.isNull && !rs[i].supplycost.isNull
    && (rs[i].partkey.raw, rs[i].suppkey.raw) == key
  }

  /** `order_year_map[orderkey] = days_to_year(orderdate)`; the calendar
      conversion is a parameter. */
  function OrderEntry(o: OrderRow, daysToYear: int -> int): Option<(int, int)>
  {
    if o.orderkey.isNull || o.orderdate.isNull then None else Some((o.orderkey.raw, daysToYear(o.orderdate.raw)))
  }

  function OrderEntries(rs: seq<OrderRow>, daysToYear: int -> int): (es: seq<Option<(int, int)>>)
    ensures |es| == |rs|
  {
    seq(|rs|, i requires 0 <= i < |rs| => OrderEntry(rs[i], daysToYear))
  }

  function OrderYearMap(orders: Table<OrderRow>, daysToYear: int -> int): map<int, int>
  {
    LastWins(OrderEntries(Rows(orders), daysToYear))
  }

  /** An order key has a year iff some orders row with both columns
      present carries it, and the year is that of the last such row's
      date. */
  lemma OrderYearMapSpec(orders: Table<OrderRow>, daysToYear: int -> int, k: int)
    ensures var rs := Rows(orders);
            k in OrderYearMap(orders, daysToYear) <==>
              exists i :: 0 <= i < |rs| && !rs[i].orderkey.isNull && !rs[i].orderdate.isNull && rs[i].orderkey.raw == k
    ensures var rs := Rows(orders);
            k in OrderYearMap(orders, daysToYear) ==>
              exists i :: 0 <= i < |rs| && !rs[i].orderkey.isNull && !rs[i].orderdate.isNull
                          && rs[i].orderkey.raw == k && daysToYear(rs[i].orderdate.raw) == OrderYearMap(orders, daysToYear)[k]
                          && forall j :: i < j < |rs| ==> rs[j].orderkey.isNull || rs[j].orderdate.isNull || rs[j].orderkey.raw != k
  {
    var rs := Rows(orders);
    var es := OrderEntries(rs, daysToYear);
    LastWinsSpec(es, k);
    assert forall i :: 0 <= i < |rs| ==> (HasKey(es[i], k) <==> !rs[i].orderkey.isNull && !rs[i].orderdate.isNull && rs[i].orderkey.raw == k);
  }

  /** The four structures the line item loop consults. */
  datatype Lookups = Lookups(green: set<int>, nations: map<int, string>, supplierNation: map<int, int>,
                             partsuppCost: map<(int, int), real>, orderYear: map<int, int>)

  function BuildLookups(part: Table<PartRow>, nation: Table<NationRow>, supplier: Table<SupplierRow>,
                        partsupp: Table<PartsuppRow>, costType: ColumnType, orders: Table<OrderRow>,
                        daysToYear: int -> int): (lk: Lookups)
    ensures forall key :: key in lk.partsuppCost ==> key.0 in lk.green
  {
    var green := GreenParts(part);
    var cost := PartsuppCostMap(partsupp, costType, green);
    assert forall key :: key in cost ==> key.0 in green by {
      forall key | key in cost ensures key.0 in green {
        PartsuppCostSpec(partsupp, costType, green, key);
      }
    }
    Lookups(green, NationMap(nation), SupplierNationMap(supplier), cost, OrderYearMap(orders, daysToYear))
  }

  /* ---- The line item loop ---- */

  /** What a qualifying line item brings: the supplier's nation key, the
      order year, and the four decoded amounts. */
  datatype Item = Item(nationkey: int, year: int, price: real, discount: real, quantity: real, supplycost: real)

  /** The line item filter, in the order the loop applies it: the six
      columns present, a green part, a known order, a known supplier and a
      known (part, supplier) cost; then the three decimals are decoded at
      their columns' scales. */
  function Qualify(l: LineitemRow, types: ColumnTypes, lk: Lookups): Option<Item>
  {
    if l.orderkey.isNull || l.partkey.isNull || l.suppkey.isNull
       || l.quantity.isNull || l.price.isNull || l.discount.isNull then None
    else if l.partkey.raw !in lk.green then None
    else if l.orderkey.raw !in lk.orderYear then None
    else if l.suppkey.raw !in lk.supplierNation then None
    else if (l.partkey.raw, l.suppkey.raw) !in lk.partsuppCost then None
    else Some(Item(lk.supplierNation[l.suppkey.raw], lk.orderYear[l.orderkey.raw],
                   Decode(l.price.raw, EffectiveScale(types.price)),
                   Decode(l.discount.raw, EffectiveScale(types.discount)),
                   Decode(l.quantity.raw, EffectiveScale(types.quantity)),
                   lk.partsuppCost[(l.partkey.raw, l.suppkey.raw)]))
  }

  /** `nation_map[nationkey]`: `operator[]` yields (and inserts) the empty
      name for a key the map lacks, so such a row is not dropped. */
  function NationName(nations: map<int, string>, k: int): string
  {
    if k in nations then nations[k] else ""
  }

  /** `extendedprice * (1.0 - discount) - supplycost * quantity`. */
  function ProfitOf(it: Item): real
  {
    ProfitAmount(it.price, it.discount, it.supplycost, it.quantity)
  }

  /** The (nation, year) entry an item adds to and the amount it adds. */
  function Contribution(l: LineitemRow, types: ColumnTypes, lk: Lookups): Option<(NationYear, real)>
  {
    match Qualify(l, types, lk)
    case None => None
    case Some(it) => Some(((NationName(lk.nations, it.nationkey), it.year), ProfitOf(it)))
  }

  function Contributions(rows: seq<LineitemRow>, types: ColumnTypes, lk: Lookups): (cs: seq<Option<(NationYear, real)>>)
    ensures |cs| == |rows|
  {
    seq(|rows|, i requires 0 <= i < |rows| => Contribution(rows[i], types, lk))
  }

  /** The contributions that are present, in row order. */
  function Present<T>(cs: seq<Option<T>>): (ps: seq<T>)
    ensures |ps| <= |cs|
  {
    if |cs| == 0 then []
    else Present(cs[..|cs| - 1]) + (match cs[|cs| - 1] case None => [] case Some(x) => [x])
  }

  /** `NationYearKey::operator<`, the order of `profit_by_nation_year`. */
  predicate NationYearLess(a: NationYear, b: NationYear)
  {
    LexLess(StrLess, IntLess, a, b)
  }

  /** `Query9Result::operator<`: nation ascending, then year descending. */
  predicate ResultLess(a: NationYear, b: NationYear)
  {
    LexLess(StrLess, IntGreater, a, b)
  }

  lemma OrdersAreStrictTotal()
    ensures StrictTotalOrder(NationYearLess) && StrictTotalOrder(ResultLess)
  {
    StrLessIsStrictTotal();
    IntOrdersAreStrictTotal();
    LexIsStrictTotal(StrLess, IntLess);
    LexIsStrictTotal(StrLess, IntGreater);
  }

  /** `profit_by_nation_year[key] += amount` for each contribution. */
  function Profits(cs: seq<Option<(NationYear, real)>>): (m: seq<(NationYear, real)>)
    ensures StrictTotalOrder(NationYearLess) && Ascending(m, NationYearLess)
  {
    OrdersAreStrictTotal();
    AddAll([], Present(cs), NationYearLess)
  }

  function ToResults(entries: seq<(NationYear, real)>): (rs: seq<Query9Result>)
    ensures |rs| == |entries|
  {
    seq(|entries|, p requires 0 <= p < |entries| => Query9Result(entries[p].0.0, entries[p].0.1, entries[p].1))
  }

  /** The map copied into a vector of results and sorted; the results
      compare by (nation, year) exactly as the map entries' keys do under
      `ResultLess`, so sorting the entries by key sorts the results. */
  function Summarise(cs: seq<Option<(NationYear, real)>>, processed: nat): (out: Query9Output)
    ensures out.rowsProcessed == processed
    ensures forall p, q :: 0 <= p < q < |out.results| ==>
              ResultLess((out.results[p].nation, out.results[p].oYear), (out.results[q].nation, out.results[q].oYear))
  {
    OrdersAreStrictTotal();
    var sorted := SortByKey(Profits(cs), ResultLess);
    SortEntries(Profits(cs), NationYearLess, ResultLess);
    Query9Output(ToResults(sorted), processed, |Present(cs)|)
  }

  /** The whole query over the six tables. */
  function Run(part: Table<PartRow>, nation: Table<NationRow>, supplier: Table<SupplierRow>,
               partsupp: Table<PartsuppRow>, costType: ColumnType, orders: Table<OrderRow>,
               lineitem: Table<LineitemRow>, types: ColumnTypes, daysToYear: int -> int): Query9Output
  {
    var lk := BuildLookups(part, nation, supplier, partsupp, costType, orders, daysToYear);
    Summarise(Contributions(Rows(lineitem), types, lk), NumRows(lineitem))
  }

  /* ---- What the answer means ---- */

  /** A line item contributes iff its six columns are present, its part is
      green and its order, supplier and (part, supplier) pair are all
      known; then it adds the profit formula on its decoded amounts and the
      looked-up cost under its order's year and its supplier's nation name,
      "" when the nation key is unknown. */
  lemma ContributionSpec(l: LineitemRow, types: ColumnTypes, lk: Lookups)
    ensures Contribution(l, types, lk).Some? <==>
              && !l.orderkey.isNull && !l.partkey.isNull && !l.suppkey.isNull
              && !l.quantity.isNull && !l.price.isNull && !l.discount.isNull
              && l.partkey.raw in lk.green && l.orderkey.raw in lk.orderYear
              && l.suppkey.raw in lk.supplierNation && (l.partkey.raw, l.suppkey.raw) in lk.partsuppCost
    ensures Contribution(l, types, lk).Some? ==>
              var nk := lk.supplierNation[l.suppkey.raw];
              && Contribution(l, types, lk).value.0
                 == (if nk in lk.nations then lk.nations[nk] else "", lk.orderYear[l.orderkey.raw])
              && Contribution(l, types, lk).value.1
                 == Decode(l.price.raw, EffectiveScale(types.price)) * (1.0 - Decode(l.discount.raw, EffectiveScale(types.discount)))
                    - lk.partsuppCost[(l.partkey.raw, l.suppkey.raw)] * Decode(l.quantity.raw, EffectiveScale(types.quantity))
  {
  }

  /** The filter drops exactly the absent contributions: it has one entry
      per contributing row, and the entries are those rows' contributions
      in row order. */
  lemma {:induction false} PresentSpec<T>(cs: seq<Option<T>>)
    ensures |Present(cs)| == |cs| - multiset(cs)[None]
    ensures forall x :: x in Present(cs) <==> Some(x) in cs
    decreases |cs|
  {
    if |cs| > 0 {
      var pre := cs[..|cs| - 1];
      assert cs == pre + [cs[|cs| - 1]];
      PresentSpec(pre);
    }
  }

  lemma PresentStep<T>(cs: seq<Option<T>>, c: Option<T>)
    ensures Present(cs + [c]) == Present(cs) + (match c case None => [] case Some(x) => [x])
  {
    assert (cs + [c])[..|cs|] == cs;
  }

  lemma {:induction false} PresentConcat<T>(a: seq<Option<T>>, b: seq<Option<T>>)
    ensures Present(a + b) == Present(a) + Present(b)
    decreases |b|
  {
    if |b| == 0 {
      assert a + b == a;
    } else {
      var pre := b[..|b| - 1];
      assert a + b == (a + pre) + [b[|b| - 1]];
      assert b == pre + [b[|b| - 1]];
      PresentConcat(a, pre);
      PresentStep(a + pre, b[|b| - 1]);
      PresentStep(pre, b[|b| - 1]);
    }
  }

  /** A (nation, year) pair has a result row iff some line item contributes
      under it; the row holds the sum of those items' profits; the count of
      qualified rows is the number of contributing line items. */
  lemma Query9Answer(cs: seq<Option<(NationYear, real)>>, processed: nat, k: NationYear)
    ensures var rs := Summarise(cs, processed).results;
            (exists p :: 0 <= p < |rs| && (rs[p].nation, rs[p].oYear) == k) <==> exists j :: 0 <= j < |Present(cs)| && Present(cs)[j].0 == k
    ensures var rs := Summarise(cs, processed).results;
            forall p :: 0 <= p < |rs| && (rs[p].nation, rs[p].oYear) == k ==> rs[p].sumProfit == SumFor(Present(cs), k)
    ensures Summarise(cs, processed).rowsQualified == |cs| - multiset(cs)[None]
  {
    OrdersAreStrictTotal();
    var m := Profits(cs);
    var sorted := SortByKey(m, ResultLess);
    SortEntries(m, NationYearLess, ResultLess);
    assert Summarise(cs, processed).results == ToResults(sorted);
    AddAllGet([], Present(cs), NationYearLess, k);
    assert Get<NationYear, real>([], k) == None;
    ResultRows(sorted, k);
    PresentSpec(cs);
  }

  /** The sorted results have a row for k iff the sorted entries hold k,
      and the row carries k's total. */
  lemma ResultRows(sorted: seq<(NationYear, real)>, k: NationYear)
    requires StrictTotalOrder(ResultLess) && Ascending(sorted, ResultLess)
    ensures var rs := ToResults(sorted);
            (exists p :: 0 <= p < |rs| && (rs[p].nation, rs[p].oYear) == k) <==> Get(sorted, k).Some?
    ensures var rs := ToResults(sorted);
            forall p :: 0 <= p < |rs| && (rs[p].nation, rs[p].oYear) == k ==> Get(sorted, k) == Some(rs[p].sumProfit)
  {
    var rs := ToResults(sorted);
    forall p | 0 <= p < |rs| && (rs[p].nation, rs[p].oYear) == k
      ensures Get(sorted, k) == Some(rs[p].sumProfit)
    {
      GetAt(sorted, ResultLess, p);
    }
    if Get(sorted, k).Some? {
      GetSpec(sorted, k);
      var p :| 0 <= p < |sorted| && sorted[p].0 == k;
      assert (rs[p].nation, rs[p].oYear) == k;
    }
  }

  /** The scan is additive over the line items: the map after `a + b` is
      the map after `a` with `b`'s contributions added. */
  lemma ProfitsConcat(a: seq<Option<(NationYear, real)>>, b: seq<Option<(NationYear, real)>>)
    ensures StrictTotalOrder(NationYearLess)
    ensures Profits(a + b) == AddAll(Profits(a), Present(b), NationYearLess)
  {
    OrdersAreStrictTotal();
    PresentConcat(a, b);
    AddAllConcat([], Present(a), Present(b), NationYearLess);
  }
}
