/** TPC-H Query 4, scalar variant (`query4.cpp`): count, per order
    priority, the orders placed in a quarter that have at least one line
    item received after its commit date. The line item pass collects the
    qualifying order keys into a `std::set`; the orders pass counts. */
module Query4 {
  import opened Common
  import opened Ordering
  import opened OrdMap
  import opened GroupBy
  import opened Lookup

  datatype OrderRow = OrderRow(orderkey: Cell<int>, orderdate: Cell<int>, priority: Cell<string>)

  datatype LineitemRow = LineitemRow(orderkey: Cell<int>, commitdate: Cell<int>, receiptdate: Cell<int>)

  /** A row of the answer: `OrderPriorityCount`. */
  datatype PriorityCount = PriorityCount(priority: string, count: int)

  /* ---- Line item pass ---- */

  /** The key a line item inserts into `qualifying_orderkeys`: its order
      key when none of the three columns is null and it was received after
      its commit date. */
  function LateKey(l: LineitemRow): Option<int>
  {
    if l.orderkey.isNull || l.commitdate.isNull || l.receiptdate.isNull then None
    else if l.commitdate.raw < l.receiptdate.raw then Some(l.orderkey.raw)
    else None
  }

  function LateKeys(rows: seq<LineitemRow>): (ks: seq<Option<int>>)
    ensures |ks| == |rows|
  {
    seq(|rows|, i requires 0 <= i < |rows| => LateKey(rows[i]))
  }

  function QualifyingOrderKeys(lineitem: Table<LineitemRow>): set<int>
  {
    Collect(LateKeys(Rows(lineitem)))
  }

  /** An order key qualifies iff one of its line items, with no null in
      the three columns, was received after its commit date. */
  lemma QualifyingOrderKeysSpec(rows: seq<LineitemRow>, k: int)
    ensures k in Collect(LateKeys(rows)) <==> exists i :: 0 <= i < |rows| && Late(rows[i], k)
  {
    var ks := LateKeys(rows);
    CollectSpec(ks, k);
    assert forall i :: 0 <= i < |rows| ==> (ks[i] == Some(k) <==> Late(rows[i], k));
  }

  /** Line item l is one of order k's and was received late. */
  predicate Late(l: LineitemRow, k: int)
  {
    !l.orderkey.isNull && !l.commitdate.isNull && !l.receiptdate.isNull
    && l.orderkey.raw == k && l.commitdate.raw < l.receiptdate.raw
  }

  /* ---- Orders pass ---- */

  /** The priority an orders row counts under: none when a column is null,
      the order date is outside [start, end) or no line item of the order
      was late. */
  function CountedPriority(o: OrderRow, late: set<int>, start: int, end: int): Option<string>
  {
    if o.orderkey.isNull || o.orderdate.isNull || o.priority.isNull then None
    else if o.orderdate.raw >= start && o.orderdate.raw < end && o.orderkey.raw in late then Some(o.priority.raw)
    else None
  }

  function CountedPriorities(rows: seq<OrderRow>, late: set<int>, start: int, end: int): (ps: seq<Option<string>>)
    ensures |ps| == |rows|
  {
    seq(|rows|, i requires 0 <= i < |rows| => CountedPriority(rows[i], late, start, end))
  }

  /** A counted row is keyed by its priority. */
  function PriorityKey(p: Option<string>): Option<string>
  {
    p
  }

  /** `priority_counts[priority]++`. */
  function Bump(v: int, p: Option<string>): int
  {
    v + 1
  }

  function ToResults(groups: seq<(string, int)>): (rs: seq<PriorityCount>)
    ensures |rs| == |groups|
  {
    seq(|groups|, p requires 0 <= p < |groups| => PriorityCount(groups[p].0, groups[p].1))
  }

  /** The `priority_counts` map over the counted rows. */
  function PriorityCounts(ps: seq<Option<string>>): (groups: seq<(string, int)>)
    requires StrictTotalOrder(StrLess)
    ensures Ascending(groups, StrLess)
  {
    AggregateFrom([], ps, PriorityKey, Bump, 0, StrLess)
  }

  /** The map's entries copied into a vector and sorted by priority. */
  function Summarise(ps: seq<Option<string>>): (rs: seq<PriorityCount>)
    ensures forall p, q :: 0 <= p < q < |rs| ==> StrLess(rs[p].priority, rs[q].priority)
  {
    StrLessIsStrictTotal();
    var groups := PriorityCounts(ps);
    SortAscending(groups, StrLess);
    ToResults(SortByKey(groups, StrLess))
  }

  function Run(orders: Table<OrderRow>, lineitem: Table<LineitemRow>, start: int, end: int): seq<PriorityCount>
  {
    Summarise(CountedPriorities(Rows(orders), QualifyingOrderKeys(lineitem), start, end))
  }

  /* ---- What the answer means ---- */

  /** Number of rows counted under priority p. */
  function Occurrences(ps: seq<Option<string>>, p: string): nat
  {
    multiset(ps)[Some(p)]
  }

  function TotalCount(rs: seq<PriorityCount>): int
  {
    if |rs| == 0 then 0 else rs[0].count + TotalCount(rs[1..])
  }

  lemma {:induction false} SelectOccurrences(ps: seq<Option<string>>, p: string)
    ensures |Select(ps, PriorityKey, p)| == Occurrences(ps, p)
    decreases |ps|
  {
    if |ps| > 0 {
      var pre := ps[..|ps| - 1];
      var last := ps[|ps| - 1];
      SelectOccurrences(pre, p);
      assert ps == pre + [last];
      assert multiset(ps) == multiset(pre) + multiset{last};
      if last == Some(p) {
        assert Select(ps, PriorityKey, p) == Select(pre, PriorityKey, p) + [last];
      } else {
        assert Select(ps, PriorityKey, p) == Select(pre, PriorityKey, p);
      }
    }
  }

  /** The counts map holds p iff some row counts under p, and then the
      number of such rows. */
  lemma PriorityCountsGet(ps: seq<Option<string>>, p: string)
    requires StrictTotalOrder(StrLess)
    ensures Get(PriorityCounts(ps), p) == if Occurrences(ps, p) > 0 then Some(Occurrences(ps, p)) else None
  {
    AggregateGet([], ps, PriorityKey, Bump, 0, StrLess, p);
    FoldCounts(Select(ps, PriorityKey, p), Bump, 0);
    SelectOccurrences(ps, p);
  }

  lemma {:induction false} TotalCountOf(groups: seq<(string, int)>)
    ensures TotalCount(ToResults(groups)) == TotalBy(groups, Count)
    decreases |groups|
  {
    if |groups| > 0 {
      TotalCountOf(groups[1..]);
      assert ToResults(groups)[1..] == ToResults(groups[1..]);
    }
  }

  function Count(v: int): int
  {
    v
  }

  lemma BumpAddsOne()
    ensures StepAddsOne(PriorityKey, Bump, Count)
  {
  }

  lemma {:induction false} CountKeyedPriorities(ps: seq<Option<string>>)
    ensures CountKeyed(ps, PriorityKey) == |ps| - multiset(ps)[None]
    decreases |ps|
  {
    if |ps| > 0 {
      var pre := ps[..|ps| - 1];
      assert ps == pre + [ps[|ps| - 1]];
      CountKeyedPriorities(pre);
    }
  }

  /** A priority has a result row iff some row is counted under it, and the
      row's count is the number of such rows; the counts add up to the
      number of counted rows. */
  lemma SummaryCounts(ps: seq<Option<string>>, p: string)
    ensures var rs := Summarise(ps);
            (exists q :: 0 <= q < |rs| && rs[q].priority == p) <==> Occurrences(ps, p) > 0
    ensures var rs := Summarise(ps);
            forall q :: 0 <= q < |rs| && rs[q].priority == p ==> rs[q].count == Occurrences(ps, p)
    ensures TotalCount(Summarise(ps)) == |ps| - multiset(ps)[None]
  {
    StrLessIsStrictTotal();
    var groups := PriorityCounts(ps);
    SortAscending(groups, StrLess);
    var rs := Summarise(ps);
    assert rs == ToResults(groups);
    PriorityCountsGet(ps, p);
    forall q | 0 <= q < |rs| && rs[q].priority == p
      ensures rs[q].count == Occurrences(ps, p) > 0
    {
      GetAt(groups, StrLess, q);
      assert groups[q].0 == p;
    }
    if Occurrences(ps, p) > 0 {
      GetSpec(groups, p);
      var q :| 0 <= q < |groups| && groups[q] == (p, Get(groups, p).value);
      assert rs[q].priority == p;
    }
    BumpAddsOne();
    AggregateTotal([], ps, PriorityKey, Bump, 0, StrLess, Count);
    TotalCountOf(groups);
    CountKeyedPriorities(ps);
  }

  /** The answer of the query: one row per priority that has a counted
      order, in priority order, holding the number of orders of that
      priority dated in [start, end) that had a late line item. */
  lemma Query4Answer(orders: Table<OrderRow>, lineitem: Table<LineitemRow>, start: int, end: int, p: string)
    ensures var rs := Run(orders, lineitem, start, end);
            var ps := CountedPriorities(Rows(orders), QualifyingOrderKeys(lineitem), start, end);
            && (forall q :: 0 <= q < |rs| && rs[q].priority == p ==> rs[q].count == Occurrences(ps, p) > 0)
            && ((exists q :: 0 <= q < |rs| && rs[q].priority == p) <==> Occurrences(ps, p) > 0)
            && 0 <= TotalCount(rs) <= NumRows(orders)
  {
    var ps := CountedPriorities(Rows(orders), QualifyingOrderKeys(lineitem), start, end);
    assert Run(orders, lineitem, start, end) == Summarise(ps);
    SummaryCounts(ps, p);
    assert |ps| == NumRows(orders);
    assert multiset(ps)[None] >= 0;
  }
}
