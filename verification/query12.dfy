/** TPC-H Query 12, scalar variant (`query12.cpp`): for the line items of
    the ship modes MAIL and SHIP received within a year, late against their
    commit date and committed after shipping, count per ship mode how many
    belong to high-priority orders (1-URGENT, 2-HIGH) and how many do not. */
module Query12 {
  import opened Common
  import opened Ordering
  import opened OrdMap
  import opened GroupBy
  import opened Lookup
  import opened Bitmask

  datatype OrderRow = OrderRow(orderkey: Cell<int>, priority: Cell<string>)

  datatype LineitemRow = LineitemRow(orderkey: Cell<int>, shipmode: Cell<string>, shipdate: Cell<int>,
                                     commitdate: Cell<int>, receiptdate: Cell<int>)

  /** A row of the answer: `Query12Result`. */
  datatype Query12Result = Query12Result(shipmode: string, highLineCount: int, lowLineCount: int)

  /** The sorted answer and the two counters the program reports. */
  datatype Query12Output = Query12Output(results: seq<Query12Result>, rowsProcessed: nat, rowsQualified: nat)

  /** The two counters kept per ship mode while scanning. */
  datatype Counts = Counts(high: int, low: int)

  /** What one qualifying line item adds: its ship mode and whether its
      order is high priority. */
  datatype Tick = Tick(shipmode: string, high: bool)

  const TargetShipmodes: set<string> := {"MAIL", "SHIP"}

  predicate IsHighPriority(priority: string)
  {
    priority == "1-URGENT" || priority == "2-HIGH"
  }

  /* ---- The orderkey -> priority map ---- */

  /** The store `order_priorities[orderkey] = priority` an orders row makes;
      a row with either column null makes none. */
  function PriorityEntry(o: OrderRow): Option<(int, string)>
  {
    if o.orderkey.isNull || o.priority.isNull then None else Some((o.orderkey.raw, o.priority.raw))
  }

  function PriorityEntries(rows: seq<OrderRow>): (es: seq<Option<(int, string)>>)
    ensures |es| == |rows|
  {
    seq(|rows|, i requires 0 <= i < |rows| => PriorityEntry(rows[i]))
  }

  function OrderPriorities(orders: Table<OrderRow>): map<int, string>
  {
    LastWins(PriorityEntries(Rows(orders)))
  }

  /** An order key has a priority iff some orders row with both columns
      present carries it, and the priority is that of the last such row. */
  lemma OrderPrioritiesSpec(orders: Table<OrderRow>, k: int)
    ensures var rs := Rows(orders);
            k in OrderPriorities(orders) <==>
              exists i :: 0 <= i < |rs| && !rs[i].orderkey.isNull && !rs[i].priority.isNull && rs[i].orderkey.raw == k
    ensures var rs := Rows(orders);
            k in OrderPriorities(orders) ==>
              exists i :: 0 <= i < |rs| && !rs[i].orderkey.isNull && !rs[i].priority.isNull
                          && rs[i].orderkey.raw == k && rs[i].priority.raw == OrderPriorities(orders)[k]
                          && forall j :: i < j < |rs| ==> rs[j].orderkey.isNull || rs[j].priority.isNull || rs[j].orderkey.raw != k
  {
    var rs := Rows(orders);
    var es := PriorityEntries(rs);
    LastWinsSpec(es, k);
    assert forall i :: 0 <= i < |rs| ==> (HasKey(es[i], k) <==> !rs[i].orderkey.isNull && !rs[i].priority.isNull && rs[i].orderkey.raw == k);
  }

  /* ---- The line item loop ---- */

  /** The line item filter, in the order the loop applies it: no null in
      the five columns, a target ship mode, the four date conditions, and an
      order whose priority is known. */
  function Contribution(l: LineitemRow, priorities: map<int, string>, start: int, end: int): Option<Tick>
  {
    if l.orderkey.isNull || l.shipmode.isNull || l.shipdate.isNull || l.commitdate.isNull || l.receiptdate.isNull then None
    else if l.shipmode.raw !in TargetShipmodes then None
    else if !ShippingCondition(l.shipdate.raw, l.commitdate.raw, l.receiptdate.raw, start, end) then None
    else if l.orderkey.raw !in priorities then None
    else Some(Tick(l.shipmode.raw, IsHighPriority(priorities[l.orderkey.raw])))
  }

  /** Per line item, what it adds; only target ship modes ever appear. */
  function Contributions(rows: seq<LineitemRow>, priorities: map<int, string>, start: int, end: int): (cs: seq<Option<Tick>>)
    ensures |cs| == |rows|
    ensures forall i :: 0 <= i < |cs| && cs[i].Some? ==> cs[i].value.shipmode in TargetShipmodes
  {
    seq(|rows|, i requires 0 <= i < |rows| => Contribution(rows[i], priorities, start, end))
  }

  function TickMode(c: Option<Tick>): Option<string>
  {
    match c
    case None => None
    case Some(t) => Some(t.shipmode)
  }

  /** `results_by_shipmode[shipmode].high_line_count++` or the low one. */
  function Tally(v: Counts, c: Option<Tick>): Counts
  {
    match c
    case None => v
    case Some(t) => if t.high then Counts(v.high + 1, v.low) else Counts(v.high, v.low + 1)
  }

  function Lines(v: Counts): int
  {
    v.high + v.low
  }

  function ToResults(groups: seq<(string, Counts)>): (rs: seq<Query12Result>)
    ensures |rs| == |groups|
  {
    seq(|groups|, p requires 0 <= p < |groups| => Query12Result(groups[p].0, groups[p].1.high, groups[p].1.low))
  }

  /** The per-mode map built over the contributions, turned into a vector
      and sorted by ship mode; `rows_qualified` counts the contributing
      rows. */
  function Summarise(cs: seq<Option<Tick>>, processed: nat): (out: Query12Output)
    ensures out.rowsProcessed == processed
    ensures forall p, q :: 0 <= p < q < |out.results| ==> StrLess(out.results[p].shipmode, out.results[q].shipmode)
  {
    StrLessIsStrictTotal();
    var groups := AggregateFrom([], cs, TickMode, Tally, Counts(0, 0), StrLess);
    SortAscending(groups, StrLess);
    Query12Output(ToResults(SortByKey(groups, StrLess)), processed, CountKeyed(cs, TickMode))
  }

  /** The whole query over an orders table and a line item table. */
  function Run(orders: Table<OrderRow>, lineitem: Table<LineitemRow>, start: int, end: int): Query12Output
  {
    Summarise(Contributions(Rows(lineitem), OrderPriorities(orders), start, end), NumRows(lineitem))
  }

  /* ---- What the answer means ---- */

  /** Number of qualifying line items of ship mode m with a high-priority
      order, and with any other order. */
  function High(cs: seq<Option<Tick>>, m: string): nat
  {
    multiset(cs)[Some(Tick(m, true))]
  }

  function Low(cs: seq<Option<Tick>>, m: string): nat
  {
    multiset(cs)[Some(Tick(m, false))]
  }

  function TotalLines(rs: seq<Query12Result>): int
  {
    if |rs| == 0 then 0 else rs[0].highLineCount + rs[0].lowLineCount + TotalLines(rs[1..])
  }

  /** Folding the counters over the rows of one ship mode counts its
      high- and low-priority items. */
  lemma {:induction false} TallyFold(cs: seq<Option<Tick>>, m: string)
    ensures FoldRows(Select(cs, TickMode, m), Tally, Counts(0, 0)) == Counts(High(cs, m), Low(cs, m))
    ensures |Select(cs, TickMode, m)| == High(cs, m) + Low(cs, m)
    decreases |cs|
  {
    if |cs| > 0 {
      var pre := cs[..|cs| - 1];
      var last := cs[|cs| - 1];
      assert cs == pre + [last];
      assert multiset(cs) == multiset(pre) + multiset{last};
      TallyFold(pre, m);
      var sel := Select(pre, TickMode, m);
      if TickMode(last) == Some(m) {
        TallyFoldStep(cs, m, pre, last);
      } else {
        assert Select(cs, TickMode, m) == sel;
        assert last != Some(Tick(m, true)) && last != Some(Tick(m, false));
      }
    }
  }

  lemma TallyFoldStep(cs: seq<Option<Tick>>, m: string, pre: seq<Option<Tick>>, last: Option<Tick>)
    requires cs == pre + [last] && TickMode(last) == Some(m)
    requires FoldRows(Select(pre, TickMode, m), Tally, Counts(0, 0)) == Counts(High(pre, m), Low(pre, m))
    requires |Select(pre, TickMode, m)| == High(pre, m) + Low(pre, m)
    ensures FoldRows(Select(cs, TickMode, m), Tally, Counts(0, 0)) == Counts(High(cs, m), Low(cs, m))
    ensures |Select(cs, TickMode, m)| == High(cs, m) + Low(cs, m)
  {
    SelectSnoc(pre, last, TickMode, m);
    FoldSnoc(Select(pre, TickMode, m), last, Tally, Counts(0, 0));
    TicksSnoc(pre, last, m);
  }

  /** One more tick of mode m raises exactly one of its two counts. */
  lemma TicksSnoc(pre: seq<Option<Tick>>, last: Option<Tick>, m: string)
    requires TickMode(last) == Some(m)
    ensures last.value.high ==> High(pre + [last], m) == High(pre, m) + 1 && Low(pre + [last], m) == Low(pre, m)
    ensures !last.value.high ==> High(pre + [last], m) == High(pre, m) && Low(pre + [last], m) == Low(pre, m) + 1
  {
    assert multiset(pre + [last]) == multiset(pre) + multiset{last};
    assert last == Some(Tick(m, last.value.high));
  }

  lemma {:induction false} TotalLinesOf(groups: seq<(string, Counts)>)
    ensures TotalLines(ToResults(groups)) == TotalBy(groups, Lines)
    decreases |groups|
  {
    if |groups| > 0 {
      TotalLinesOf(groups[1..]);
      assert ToResults(groups)[1..] == ToResults(groups[1..]);
    }
  }

  lemma {:induction false} CountKeyedTicks(cs: seq<Option<Tick>>)
    ensures CountKeyed(cs, TickMode) == |cs| - multiset(cs)[None]
    decreases |cs|
  {
    if |cs| > 0 {
      var pre := cs[..|cs| - 1];
      assert cs == pre + [cs[|cs| - 1]];
      CountKeyedTicks(pre);
    }
  }

  /** A ship mode has a result row iff some line item of that mode
      qualified, and the row holds exactly its high- and low-priority
      counts. */
  lemma SummaryCounts(cs: seq<Option<Tick>>, n: nat, m: string)
    ensures var rs := Summarise(cs, n).results;
            (exists p :: 0 <= p < |rs| && rs[p].shipmode == m) <==> High(cs, m) + Low(cs, m) > 0
    ensures var rs := Summarise(cs, n).results;
            forall p :: 0 <= p < |rs| && rs[p].shipmode == m ==>
              rs[p].highLineCount == High(cs, m) && rs[p].lowLineCount == Low(cs, m)
  {
    StrLessIsStrictTotal();
    var groups := AggregateFrom([], cs, TickMode, Tally, Counts(0, 0), StrLess);
    SortAscending(groups, StrLess);
    var rs := Summarise(cs, n).results;
    assert rs == ToResults(groups);
    AggregateGet([], cs, TickMode, Tally, Counts(0, 0), StrLess, m);
    TallyFold(cs, m);
    forall p | 0 <= p < |rs| && rs[p].shipmode == m
      ensures rs[p].highLineCount == High(cs, m) && rs[p].lowLineCount == Low(cs, m)
      ensures High(cs, m) + Low(cs, m) > 0
    {
      GetAt(groups, StrLess, p);
      assert groups[p].0 == m;
    }
    if High(cs, m) + Low(cs, m) > 0 {
      GetSpec(groups, m);
      var p :| 0 <= p < |groups| && groups[p] == (m, Get(groups, m).value);
      assert rs[p].shipmode == m;
    }
  }

  /** Every counted item is counted once: the counts of all result rows add
      up to `rows_qualified`, which is the number of contributing rows. */
  lemma SummaryTotal(cs: seq<Option<Tick>>, n: nat)
    ensures TotalLines(Summarise(cs, n).results) == Summarise(cs, n).rowsQualified
    ensures Summarise(cs, n).rowsQualified == |cs| - multiset(cs)[None]
  {
    StrLessIsStrictTotal();
    var groups := AggregateFrom([], cs, TickMode, Tally, Counts(0, 0), StrLess);
    SortAscending(groups, StrLess);
    GroupLines(cs, StrLess);
    TotalLinesOf(groups);
    CountKeyedTicks(cs);
    var out := Summarise(cs, n);
    assert out.results == ToResults(groups);
    assert out.rowsQualified == CountKeyed(cs, TickMode);
  }

  lemma GroupLines(cs: seq<Option<Tick>>, lt: (string, string) -> bool)
    requires StrictTotalOrder(lt)
    ensures TotalBy(AggregateFrom([], cs, TickMode, Tally, Counts(0, 0), lt), Lines) == CountKeyed(cs, TickMode)
  {
    TallyAddsOne();
    AggregateTotal([], cs, TickMode, Tally, Counts(0, 0), lt, Lines);
  }

  lemma TallyAddsOne()
    ensures StepAddsOne(TickMode, Tally, Lines)
  {
  }

  /** The answer of the query: one row per target ship mode that has a
      qualifying line item, in ship mode order, holding that mode's counts;
      the counts add up to `rows_qualified`, and every line item is
      processed. */
  lemma Query12Answer(orders: Table<OrderRow>, lineitem: Table<LineitemRow>, start: int, end: int)
    ensures var out := Run(orders, lineitem, start, end);
            var cs := Contributions(Rows(lineitem), OrderPriorities(orders), start, end);
            && out.rowsProcessed == NumRows(lineitem)
            && (forall p :: 0 <= p < |out.results| ==>
                  && out.results[p].shipmode in TargetShipmodes
                  && out.results[p].highLineCount == High(cs, out.results[p].shipmode)
                  && out.results[p].lowLineCount == Low(cs, out.results[p].shipmode))
            && (forall m :: High(cs, m) + Low(cs, m) > 0 ==> exists p :: 0 <= p < |out.results| && out.results[p].shipmode == m)
            && TotalLines(out.results) == out.rowsQualified <= out.rowsProcessed
  {
    var cs := Contributions(Rows(lineitem), OrderPriorities(orders), start, end);
    var out := Run(orders, lineitem, start, end);
    forall p | 0 <= p < |out.results|
      ensures out.results[p].shipmode in TargetShipmodes
      ensures out.results[p].highLineCount == High(cs, out.results[p].shipmode)
      ensures out.results[p].lowLineCount == Low(cs, out.results[p].shipmode)
    {
      var m := out.results[p].shipmode;
      SummaryCounts(cs, NumRows(lineitem), m);
      var t := if High(cs, m) > 0 then Some(Tick(m, true)) else Some(Tick(m, false));
      assert t in cs;
    }
    forall m | High(cs, m) + Low(cs, m) > 0
      ensures exists p :: 0 <= p < |out.results| && out.results[p].shipmode == m
    {
      SummaryCounts(cs, NumRows(lineitem), m);
    }
    SummaryTotal(cs, NumRows(lineitem));
  }
}
