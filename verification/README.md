# TPC-H relational core of the RVV Parquet query programs

The repository holds ten standalone programs. Each one answers one TPC-H
query (Q1, Q4, Q6, Q9 or Q12) over Parquet tables read through Apache
Arrow. Every query comes in a scalar version (`queryN.cpp`) and a RISC-V
vector version (`rvv_queryN.cpp`). Outside the I/O and printing, all ten
share a small relational core:

- decoding Arrow Decimal128 slots;
- row predicates that skip nulls;
- packed predicate bit masks written by strip-mined vector loops;
- key lookups and semi-joins over `std::map` and `std::set`;
- grouped counting and summing;
- element-wise vector kernels and lane-wise reductions;
- the comparators that order the printed results.

This project models that core in Dafny and proves what each program
computes:

- A table is a sequence of chunks. A chunk is a sequence of rows.
- Each field of a row is a `Cell`: a validity flag plus the raw value the
  Arrow data buffer holds in that slot. Reads without a null check see the
  raw value.
- A `std::map` whose iteration order reaches the output is an ascending
  association list (`OrdMap`). A map or set that is only used for lookups
  is a Dafny `map` or `set`, built by a last-write-wins fold (`Lookup`).
- `std::sort` is an insertion sort by key. A strictly sorted sequence is
  fixed by its lookups, so any correct sort gives the same answer.
- The `vsetvl` instruction is a function argument. The model assumes only
  what section 6.3 of the RISC-V "V" Vector Extension 1.0 guarantees: a
  request for `avl >= 1` elements is granted between 1 and `avl` (and at
  most VLMAX) of them.
- Floating point is replaced by exact `real` arithmetic.

For each query, the scalar program is modelled loop by loop as methods.
Their contracts are tied to a declarative reading of the query. The vector
program is also modelled as methods, with contracts tied to the same
declarative reading. A lemma then relates the two readings. Where the two
variants really differ, the lemma names the inputs on which they agree:

- Q1: the vector variant decodes every decimal at the extended price's
  scale.
- Q4: the vector variant makes no null checks.
- Q6: the vector variant decodes the discount at the price's scale and does
  not check the price for null.
- Q12: the vector variant compares the raw date slots of null dates.
- Q9: the two variants agree on all inputs.

Reading both 64-bit words of a Decimal128 slot unsigned and composing
`high * 2^64 + low` would be wrong for negative values. The code reads the
high word through `Decimal128::high_bits()`, which is signed, and the low
word through `Decimal128::low_bits()`, which is unsigned. Under that
reading the composition equals the two's-complement value of the 16 bytes
(`Decimal.DecimalIsTwosComplement`). Encoding then decoding gives back
every 128-bit integer (`Decimal.DecodeEncode`).

## Model

| member | source | states |
|---|---|---|
| Decimal.Int64 | query1.cpp:66-72 | eight little-endian bytes copied into an `int64_t` give a value in [-2^63, 2^63); it is negative iff the top byte is at least 0x80, and it agrees with the unsigned reading modulo 2^64 |
| Decimal.TopByteSign | query1.cpp:66-70 | eight bytes read without sign are below 2^64, and reach 2^63 exactly when the top byte has its high bit set |
| Decimal.Decimal128Value | query1.cpp:66-77 | high word times 2^64 plus the unsigned low word lies in [-2^127, 2^127) and is negative iff the high word is |
| Decimal.DecimalIsTwosComplement | query1.cpp:66-77 | with the low word unsigned, the two-word composition equals the two's-complement value of all 16 bytes |
| Decimal.DecodeEncode | query6.cpp:41-53 | decoding the 16 bytes Arrow stores for any representable 128-bit integer gives that integer back |
| Decimal.ScaleFactor | query1.cpp:78 | `10^scale` is positive for every integer scale, negative scales included |
| Decimal.ScaledSpec | query9.cpp:87-88 | dividing by the scale factor can be undone by multiplying, and keeps the sign of the integer |
| Decimal.DecodeSign | query9.cpp:75-89 | a decoded value is negative exactly when the slot's high word is negative |
| Decimal.DecodeRoundTrip | query6.cpp:37-54 | the decode of the encoding of v at scale s is v / 10^s |
| Strip.VisitedIsRange | rvv_query6.cpp:28-29 | whatever lengths `vsetvl` grants, the strips of `for (i = 0; i < n; i += vl)` visit every index of [0, n) exactly once, in order |
| Bitmask.SetBitEffect | rvv_query12.cpp:94-108 | OR-ing bit i into the mask sets bit i and changes no other bit |
| Bitmask.MarkAllBits | rvv_query12.cpp:94-108 | after marking, bit j is set iff it was set before or row j's flag holds |
| Bitmask.MarkAllUntouched | rvv_query12.cpp:96-107 | marking n rows leaves every byte at or past (n + 7) / 8 unchanged |
| Bitmask.MarkAllOnlySets | rvv_query4.cpp:38-45 | marking never clears a bit that was set |
| Bitmask.UnpackPack | rvv_query12.cpp:233-239 | reading bit i % 8 of byte i / 8 back from a packed mask recovers flag i (pack then unpack is the identity) |
| Bitmask.PackUnpack | rvv_query4.cpp:153-156 | a mask of (n + 7) / 8 bytes with no bit set past n is the packing of its own n bits |
| Bitmask.ZeroMaskBits | rvv_query12.cpp:218-219 | the zero-initialised buffer has no bit set |
| Bitmask.StripConditionsAgree | rvv_query12.cpp:77-104 | the AND of the four vector comparisons equals the scalar recomputation the loop stores, lane by lane |
| Bitmask.CheckShippingConditions | rvv_query12.cpp:51-111 | for any strip lengths, bit i of the result is set iff it was set before or row i < length passes the four date conditions; no byte past (length + 7) / 8 is touched |
| Bitmask.CheckLateDelivery | rvv_query4.cpp:24-48 | for any strip lengths, bit i of the result is set iff it was set before or commitdate[i] < receiptdate[i] for i < length; no byte past (length + 7) / 8 is touched |
| Bitmask.LateStrip | rvv_query4.cpp:37-45 | the lanes of one strip extend the marking by exactly those rows: the result is the mask marked with every flag up to the strip's end |
| Bitmask.ShippingStrip | rvv_query12.cpp:94-108 | the lanes of one strip extend the marking by exactly those rows, each flag being the four-way date test |
| Kernels.StripComputeLanes | rvv_query9.cpp:82-104 | each lane of one vector strip holds the kernel's scalar formula applied to that lane's inputs |
| Kernels.RunKernel | rvv_query1.cpp:26-39 | a strip-mined element-wise kernel writes exactly the formula into every index below n and leaves the rest of the output as it was |
| Kernels.ComputeDiscPrice | rvv_query1.cpp:20-41 | `compute_disc_price_rvv`: result[k] = price[k] * (1 - discount[k]) for k < n, nothing written at or past n |
| Kernels.ComputeCharge | rvv_query1.cpp:43-63 | `compute_charge_rvv`: result[k] = disc_price[k] * (1 + tax[k]) for k < n, nothing written at or past n |
| Kernels.ComputeSupplyCost | rvv_query9.cpp:107-125 | `compute_supply_cost_rvv`: result[k] = supplycost[k] * quantity[k] for k < n, nothing written at or past n |
| Kernels.ComputeProfit | rvv_query9.cpp:128-146 | `compute_profit_rvv`: result[k] = disc_price[k] - supply_cost[k] for k < n, nothing written at or past n |
| Kernels.BatchProcessProfit | rvv_query9.cpp:149-170 | the three kernels in a row give profit[k] = price[k] * (1 - discount[k]) - supplycost[k] * quantity[k], the scalar Q9 formula |
| Kernels.AddUndisturbedSum | rvv_query1.cpp:79-82 | a tail-undisturbed vector add of a strip raises the total of the accumulator lanes by the strip's sum |
| Kernels.SumRvv | rvv_query1.cpp:65-99 | with tail-undisturbed adds, `sum_rvv` returns the sum of data[0 .. n) for any strip lengths, and 0 for n = 0 |
| Kernels.RevenueStrip | rvv_query6.cpp:31-36 | a strip's lane products add the strip's share to the running revenue |
| Kernels.ComputeRevenueRvv | rvv_query6.cpp:20-46 | with tail-undisturbed adds, `compute_revenue_rvv` returns the sum of price[k] * discount[k] over k < length, and 0 for length 0 |
| Kernels.SumRvvTailAgnosticWrong | rvv_query1.cpp:79-96 | with the adds tail-agnostic as written, one element on a two-lane machine sums wrongly whenever the clobbered tail lane is not 0 |
| Kernels.RevenueRvvTailAgnosticWrong | rvv_query6.cpp:28-42 | the same one-row input makes `compute_revenue_rvv` as written return a wrong revenue |
| Ordering.StrLessIsStrictTotal | query4.cpp:31-33 | `std::string` `operator<` (lexicographic by character) is a strict total order |
| Ordering.LexIsStrictTotal | query1.cpp:30-35 | comparing the first component, then the second, is a strict total order when both component orders are |
| OrdMap.GetSpec | query4.cpp:152 | a lookup in the association list finds a key iff some entry has it, and returns that entry's value |
| OrdMap.Put | query12.cpp:207 | `m[k] = v` keeps the list ascending, makes k map to v and leaves every other key's lookup unchanged |
| OrdMap.PutKeys | query4.cpp:173 | `m[k] = v` adds exactly k to the keys, growing the map by one entry iff k was absent |
| OrdMap.Extensionality | query12.cpp:223-229 | two ascending association lists that agree on every lookup are equal |
| OrdMap.SortByKey | query12.cpp:229 | the sort returns a permutation of its input in non-decreasing key order |
| OrdMap.SortEntries | query4.cpp:180-188 | sorting a map's entries by any strict total order keeps every lookup and leaves the keys strictly ascending |
| OrdMap.SortAscending | query1.cpp:260-268 | sorting entries that are already strictly ascending in the same order changes nothing |
| Lookup.LastWinsSpec | query12.cpp:93-110 | after the store loop, a key is present iff some row stored it, and its value is that of the last row storing it |
| Lookup.LastWinsUnaffected | query9.cpp:201-209 | rows that store other keys do not change a key's presence or value |
| Lookup.CollectSpec | query4.cpp:91-112 | a key is in the set built by `insert` iff some row inserted it |
| GroupBy.AggregateGet | query12.cpp:202-215 | after the grouped fold, a key has an entry iff it had one before or some row has that key, and the entry is the fold of that key's rows over its old value or the initial value |
| GroupBy.AggregateTotal | query12.cpp:211-217 | when each row adds one to exactly one group's counter, the counters over all groups add up to the number of keyed rows |
| GroupBy.CountKeyedConcat | query12.cpp:217 | the number of keyed rows is additive over a split of the rows |
| GroupBy.SumOfPermutation | query1.cpp:239-245 | a sum over rows does not depend on the order of the rows |
| GroupBy.AddAllGet | rvv_query9.cpp:625 | after adding amounts into a map, each key's entry is its old value plus the sum of its amounts, and exists iff it existed or some amount has that key |
| GroupBy.AddAllSameSums | rvv_query9.cpp:614-626 | two lists of amounts with the same keys and the same per-key sums give the same map |
| GroupBy.IndexListsGet | rvv_query1.cpp:213-225 | the per-key index lists map each key that occurs to exactly the ascending positions holding it |
| GroupBy.IndexListsPartition | rvv_query9.cpp:592-594 | the index lists partition the row positions: position i is in a list iff the list's key is row i's key, and every list is non-empty |
| GroupBy.PartitionSum | rvv_query9.cpp:614-625 | summing per index list and then per resolved key gives each key the same total as summing row by row |
| GroupBy.GroupTotalsKeys | rvv_query9.cpp:614-625 | a resolved key has a per-list total iff some row's key resolves to it |
| Query1.KeyLessIsStrictTotal | query1.cpp:30-35 | `GroupKey::operator<` (return flag, then line status) is a strict total order |
| Query1.Average | query1.cpp:250-257 | finalisation keeps the sums and the count, sets each average so that average times count is the sum when the count is positive, and changes nothing otherwise |
| Query1.AddRow | query1.cpp:199-246 | a row with a null or late ship date changes nothing; otherwise it is counted as accepted and adds its amounts to its group, which starts at zero |
| Query1.AddAmounts | query1.cpp:239-245 | a kept row's group entry, zero when the key is new, gains the row's five amounts and one to its count: one step of the aggregation |
| Query1.ScanChunk | query1.cpp:199-246 | the inner loop leaves the groups of its chunk's accepted rows added in, and the accepted count raised by their number |
| Query1.Run | query1.cpp:133-269 | the program's report is the finalised group map sorted by key, every row is processed, and `rows_accepted` counts the rows with a ship date on or before the cutoff |
| Query1.GroupsGet | query1.cpp:239-245 | a key has a group iff it has accepted rows, and the group holds the column totals of exactly those rows |
| Query1.ReportGet | query1.cpp:250-269 | a key's report row is the averaged totals of its accepted rows, present iff there are such rows |
| Query1.AcceptedTotal | query1.cpp:214-245 | `rows_accepted` equals the sum of `count_order` over the report |
| Query1.Query1Answer | query1.cpp:133-269 | a key is reported iff some accepted row has it; its row holds that group's totals and averages with a positive count; the counts add up to `rows_accepted` |
| Query1.FinalizedRows | query1.cpp:249-257 | after the averages pass, a key has a row iff its group is non-empty, and that row holds the averages of the group's totals |
| Query1.RowOrderIrrelevant | query1.cpp:199-246 | over exact arithmetic the report does not depend on the order of the line items |
| RvvQuery1.Extract | rvv_query1.cpp:171-199 | lane j of the four value vectors holds row j's decimals read at the price column's scale, or 0 when the price column is not DECIMAL128 |
| RvvQuery1.ComputeLanes | rvv_query1.cpp:159-207 | the six per-row vectors hold each filtered row's quantity, price, discount, discounted price and charge |
| RvvQuery1.Partition | rvv_query1.cpp:213-225 | the group map is the per-key list of row positions |
| RvvQuery1.SumGroups | rvv_query1.cpp:239-280 | with tail-undisturbed adds, each key's printed row is the gathered sums of its rows, their averages over the group size, and the group size |
| RvvQuery1.Run | rvv_query1.cpp:128-294 | with tail-undisturbed adds, the printed groups are in key order with their sums and averages; when all decimal columns share the price column's scale they equal the scalar report |
| RvvQuery1.FilteredAccepted | rvv_query1.cpp:140-149 | the shipdate filter keeps exactly the rows the scalar loop accepts, in order |
| RvvQuery1.GroupRowIsScalar | rvv_query1.cpp:244-279 | gathering and summing a group's lanes gives the scalar totals and averages of that group |
| RvvQuery1.SameAsScalar | rvv_query1.cpp:184-197 | when every decimal column has the price column's scale, the vector report equals the scalar report |
| RvvQuery1.RvvReportAscending | rvv_query1.cpp:228-232 | the groups are visited in strictly ascending key order, one per key |
| Query4.QualifyingOrderKeysSpec | query4.cpp:91-112 | an order key is in `qualifying_orderkeys` iff one of its line items has no null key or date and was received after its commit date |
| Query4.PriorityCounts | query4.cpp:152-177 | the priority counts form a map with strictly ascending keys |
| Query4.Summarise | query4.cpp:180-188 | the result rows are strictly ascending by priority |
| Query4.PriorityCountsGet | query4.cpp:171-173 | a priority has a count iff some order is counted under it, and the count is the number of such orders |
| Query4.SummaryCounts | query4.cpp:180-188 | a priority has a result row iff it has counted orders, its count is that number and at least 1, and the counts add up to the counted orders |
| Query4.Query4Answer | query4.cpp:152-188 | each priority's count is the number of non-null orders in [start, end) with a late line item, each order counted once; the total is at most the number of orders |
| RvvQuery4.FilterOrders | rvv_query4.cpp:100-126 | the date filter keeps exactly the orders in [start, end) |
| RvvQuery4.LateOrderKeys | rvv_query4.cpp:131-161 | `late_order_keys` is exactly the set of raw order keys of the line items whose raw commit date is before their raw receipt date |
| RvvQuery4.Run | rvv_query4.cpp:100-195 | the printed counts are those of the filtered orders whose raw key is late, in priority order; with no nulls in the columns read unchecked they equal the scalar answer |
| RvvQuery4.OccurrencesAgree | rvv_query4.cpp:171-181 | counting the filtered orders counts the same orders per priority as the scalar date test |
| RvvQuery4.SameAsScalar | rvv_query4.cpp:153-181 | with no null keys, dates or priorities, the vector answer equals the scalar answer |
| Query6.QualifyingMembers | query6.cpp:162-181 | a line item is kept iff its four cells are non-null, its ship date is in [start, end), its discount in [0.05, 0.07] and its quantity below 24 |
| Query6.ScanRow | query6.cpp:159-187 | one row adds price times discount and one qualified row exactly when it qualifies, and nothing otherwise |
| Query6.ScanChunk | query6.cpp:159-198 | the inner loop adds the revenue and the number of its chunk's qualifying rows |
| Query6.Run | query6.cpp:107-199 | the revenue is the sum of price times discount over the qualifying rows, `rows_qualified` counts them, and every row is processed |
| Query6.RevenueConcat | query6.cpp:184-185 | revenue is additive over a split of the rows |
| Query6.QualifyingConcat | query6.cpp:118-199 | the filter distributes over a split of the rows, so the chunking does not matter |
| Query6.NonQualifyingAddsNothing | query6.cpp:162-167 | a row with a null cell or outside the WHERE clause changes neither the revenue nor the count |
| Query6.AllQualify | query6.cpp:179-186 | when every row qualifies, the filter keeps all of them |
| RvvQuery6.FilteredMembers | rvv_query6.cpp:88-161 | the combined filter keeps a row iff its ship date, quantity and discount are non-null and pass the WHERE clause; the price takes no part |
| RvvQuery6.FilteredIsQualifying | rvv_query6.cpp:148-161 | when every passing row has a price, the filtered rows are the scalar qualifying rows |
| RvvQuery6.RevenueOfFiltered | rvv_query6.cpp:177-188 | summing the lane products of the filtered rows is the scalar revenue when both columns are read at the scale they share |
| RvvQuery6.Run | rvv_query6.cpp:88-188 | with tail-undisturbed adds, the revenue is the sum of price times discount over the filtered rows, both read at the price column's scale; with prices present and equal scales it is the scalar revenue |
| RvvQuery6.SameAsScalar | rvv_query6.cpp:174-185 | with every passing row priced and the discount at the price's scale, both variants give the same revenue |
| Query9.FindFrom | query9.cpp:92-94 | the search returns the first position at or after i where t occurs in s, or none when there is none |
| Query9.ContainsSubstringSpec | query9.cpp:92-94 | `contains_substring(s, t)` holds iff t occurs in s at some position |
| Query9.GreenPartsSpec | query9.cpp:145-162 | a part key is green iff some part row with non-null key and name has that key and a name containing "green" |
| Query9.NationMapSpec | query9.cpp:201-209 | a nation key is mapped iff some row with both columns non-null has it, and it maps to the last such row's name |
| Query9.SupplierNationMapSpec | query9.cpp:247-255 | a supplier key is mapped iff some row with both columns non-null has it, and it maps to the last such row's nation key |
| Query9.PartsuppCostSpec | query9.cpp:304-318 | a (part, supplier) pair has a cost iff its part is green and some non-null row has the pair, and the cost is the last such row's decoded supply cost |
| Query9.OrderYearMapSpec | query9.cpp:359-370 | an order key is mapped iff some row with both columns non-null has it, and it maps to the year of the last such row's date |
| Query9.BuildLookups | query9.cpp:313-318 | every pair in the supply cost map has a green part |
| Query9.ContributionSpec | query9.cpp:445-497 | a line item contributes iff its six columns are non-null, its part is green and its order, supplier and (part, supplier) pair are known; it then adds price * (1 - discount) - supplycost * quantity to (nation name or "", year) |
| Query9.OrdersAreStrictTotal | query9.cpp:34-56 | `NationYearKey::operator<` (nation, then year ascending) and `Query9Result::operator<` (nation ascending, then year descending) are strict total orders |
| Query9.Profits | query9.cpp:483-497 | the profit map has strictly ascending (nation, year) keys |
| Query9.Summarise | query9.cpp:502-512 | the results are strictly ordered by nation ascending, then year descending |
| Query9.PresentSpec | query9.cpp:497 | `rows_qualified` counts exactly the contributing rows, and the kept contributions are exactly those of contributing rows |
| Query9.Query9Answer | query9.cpp:483-512 | a (nation, year) pair is reported iff some row contributes to it, its profit is the sum of those rows' contributions, and `rows_qualified` counts the contributing rows |
| Query9.ResultRows | query9.cpp:500-508 | the result list has a row for a (nation, year) pair iff the map holds that key, and the row's `sum_profit` is the map's value |
| Query9.ProfitsConcat | query9.cpp:442-499 | the profit map after more rows is the earlier map with the new contributions added in |
| RvvQuery9.PairLessIsStrictTotal | rvv_query9.cpp:534 | the (nation key, year) order of `nation_year_indices` is a strict total order |
| RvvQuery9.BatchIndex | rvv_query9.cpp:592-594 | the batch's index lists form a map with strictly ascending (nation key, year) keys |
| RvvQuery9.SumIndices | rvv_query9.cpp:619-622 | the loop over an index list sums the batch profits at exactly those positions |
| RvvQuery9.BatchProfits | rvv_query9.cpp:601-611 | the kernel run over the batch yields every staged row's profit by the scalar formula |
| RvvQuery9.AddGroups | rvv_query9.cpp:614-626 | looping over the index lists adds each list's profit sum to its (nation name, year) total |
| RvvQuery9.Flush | rvv_query9.cpp:599-634 | a flush adds every staged row's profit to its (nation name, year) total |
| RvvQuery9.FlushTotals | rvv_query9.cpp:614-625 | adding per index list gives the same totals as adding the staged rows one by one; keys sharing a nation name merge |
| RvvQuery9.PendingSnoc | rvv_query9.cpp:586-594 | staging a row appends its position to exactly one index list and its profit to the pending contributions |
| RvvQuery9.ScanRow | rvv_query9.cpp:536-635 | a row that does not qualify changes nothing; a qualifying row adds its profit, now or at a later flush; the batch stays below BATCH_SIZE = 1024 |
| RvvQuery9.ScanChunk | rvv_query9.cpp:526-670 | after a chunk and its leftover flush, every contributing row's profit is added exactly once and `rows_qualified` counts them |
| RvvQuery9.Run | rvv_query9.cpp:483-684 | the vector program's output equals the scalar program's on every input |
| Query12.OrderPrioritiesSpec | query12.cpp:93-110 | an order key has a priority iff some orders row with both columns non-null has it, and it is the last such row's priority |
| Query12.Contributions | query12.cpp:151-179 | only ship modes in {"MAIL", "SHIP"} ever contribute |
| Query12.Summarise | query12.cpp:223-229 | the results are strictly ascending by ship mode and report the processed row count |
| Query12.TallyFold | query12.cpp:202-215 | folding the counters over a mode's rows gives its high and low counts, which add up to its rows |
| Query12.SummaryCounts | query12.cpp:202-229 | a mode has a result row iff some line item of that mode qualifies, and the row holds its high and low counts |
| Query12.SummaryTotal | query12.cpp:211-217 | high plus low summed over all result rows equals `rows_qualified`, the number of qualifying line items |
| Query12.Query12Answer | query12.cpp:156-229 | every line item is processed; the results are the target modes with a qualifying line item, each with its high and low counts |
| RvvQuery12.ChunkContributions | rvv_query12.cpp:214-273 | per chunk, the mask built by the vector writer and read back gives each row's date test on its raw date values |
| RvvQuery12.DateMask | rvv_query12.cpp:217-231 | the zeroed buffer of (n + 7) / 8 bytes, after the vector writer, has bit i set iff row i passes the four date conditions |
| RvvQuery12.ScanChunks | rvv_query12.cpp:206-274 | over all chunks, the per-mode counts aggregate every row's contribution, `rows_qualified` counts the contributing rows and `rows_processed` all rows |
| RvvQuery12.Run | rvv_query12.cpp:197-283 | the output is the per-mode counts over the raw-date test, in mode order; when no date is null it equals the scalar output |
| RvvQuery12.SameAsScalar | rvv_query12.cpp:222-242 | with no null date slot, every line item adds the same in both variants |
| RvvQuery12.NullDateCounted | rvv_query12.cpp:222-242 | a line item with a null ship date whose raw slot passes the test is counted by the vector variant and skipped by the scalar one |

## Left out

- File and Parquet I/O, schema lookups, argument parsing, timing and console output: all of `main` and `RunQueryN` outside the row loops. Tables are given as values.
- `date_string_to_days`: it depends on the local time zone through `mktime`. The date bounds are integer day numbers passed in.
- `days_to_year`: it calls `gmtime`. It is a function argument of Q9.
- Floating point: `double` and `float` rounding, `pow`, `Decimal128::ToDouble` and the float narrowing in rvv Q1, Q6 and Q9 are all exact `real` arithmetic. So every sum is exact and row-order independent, which the programs' floats are not.
- The vector reduction `vfredusum` is an exact sum of all VLMAX lanes. Its unordered rounding is not modelled.
- Kernels.SumRvv: the contract assumes the accumulating adds leave tail lanes undisturbed. The adds as written are tail-agnostic, which Findings covers.
- Kernels.ComputeRevenueRvv: the contract makes the same tail-undisturbed assumption as `SumRvv`.
- RvvQuery1.SumGroups: its sums come from `Kernels.SumRvv`, so it inherits the tail-undisturbed accumulate. The `sum_rvv` as written is tail-agnostic (see Findings).
- RvvQuery1.Run: it sums through `RvvQuery1.SumGroups` and inherits the same tail-undisturbed accumulate.
- RvvQuery6.Run: its revenue comes from `Kernels.ComputeRevenueRvv`, so it inherits the tail-undisturbed accumulate. The `compute_revenue_rvv` as written is tail-agnostic (see Findings).
- Arrow compute calls (`CallFunction`, `Filter`, `And`, `Decimal128::FromReal`): each is modelled as the row filter it is meant to compute. Comparing decimals with the `FromReal` thresholds is modelled as comparing exact decoded values.
- RvvQuery6.Passes: rounding of 0.05, 0.07 and 24 by `FromReal` at a column scale below 2 is not modelled.
- RvvQuery6.Passes: a discount or quantity column that is not DECIMAL128 is compared by the program against `float64` thresholds parsed from "0.05", "0.07" and "24". The model reads every column as a 16-byte decimal slot decoded at scale 2, so it does not model columns of another physical type.
- Filtered tables read through `chunk(0)` (rvv Q1, Q4 and Q6) are taken as one chunk holding all filtered rows. The model does not decide how Arrow chunks a filter's output.
- RvvQuery4.LateOrderKeys: it requires every line item to sit in the first chunk. The program reads `chunk(0)` for `num_rows()` rows, which is out of bounds otherwise.
- RvvQuery4.Run: it requires the same first-chunk layout, for the same reason.
- RvvQuery6.Run: it requires the price and discount columns to be DECIMAL128. The program casts them without a check.
- Integer widths: keys, dates and counters are unbounded integers. The programs' `int32_t`/`int64_t` fields cannot overflow on TPC-H data.
- The unused thread pools and Q9's unused `BatchInfo` struct are not modelled. Neither is the `new`/`delete` of scratch arrays.
- The `nation_map[nationkey]` lookup in Q9 is `operator[]`. On an unknown key it inserts an empty name. The insertion cannot be observed: any later `operator[]` on the same key yields the same empty name, and the map is never iterated. The model keeps the empty name the lookup yields, not the insertion.
- Ordering.StrLess: strings are taken as decoded, valid UTF-8, as Arrow string columns hold. The model compares characters, while `std::string::operator<` compares bytes as `unsigned char`. The two orders agree on valid UTF-8. The same reading covers `Query9.ContainsSubstring`.

## Findings

| source | as written | input that shows it | evidently intended | confidence | as-written member | corrected member |
|---|---|---|---|---|---|---|
| rvv_query1.cpp:79-96 | `sum_rvv` accumulates with the tail-agnostic `vfadd`, then reduces over all VLMAX lanes. A lane past vl may then hold a clobbered value, such as the all-ones NaN that section 3.4.3 of the RISC-V "V" Vector Extension 1.0 allows. | one element on a two-lane machine: vl = 1, so lane 1 is in the tail and may be overwritten | the tail-undisturbed add (the `_tu` intrinsic), so that lanes past vl keep their partial sums | medium, not executed | Kernels.SumRvvTailAgnosticWrong | Kernels.SumRvv |
| rvv_query6.cpp:28-42 | `compute_revenue_rvv` accumulates the lane products the same way, so the same clobbered tail lane enters the reduction | price [2.0], discount [0.5] on a two-lane machine | the tail-undisturbed add | medium, not executed | Kernels.RevenueRvvTailAgnosticWrong | Kernels.ComputeRevenueRvv |
