# A verified model of the vectorised query engine

The repository is a columnar SQL engine: a storage format of checksummed blocks with
zone maps, a planner that turns a SELECT into a join tree and optimises it, and a
vectorised executor whose joins and aggregations run on morsels claimed by worker
goroutines. This project models the parts where its correctness is hardest to see, in
Dafny 4.11, and proves what the engine promises of them. `dafny verify dfyconfig.toml`
checks the whole project.

What the modules are about, hardest first:

- **Hash joins.** `RowStores` and `JoinTables` are the in-place row store and the
  open-addressed table, as classes over arrays. `SharedTables` says what a partitioned
  build side means; `SharedBuilds` builds one as objects, by a serial drain or by the two
  passes of the parallel build; `ParallelBuild` is those two passes as a transition system
  over every interleaving. `HashJoins` is the streaming probe, proved to be the
  nested-loop join, and the equi-join by key cells, for every partition count and every
  build path.
- **Planning.** `JoinPlans` classifies the WHERE conjuncts and grows the left-deep join
  tree; `Optimizer` pushes predicates and prunes columns. `Sql`, `Plans` and `Counting`
  give expressions and plans their meaning, as sequences and multisets of rows.
- **Aggregation.** `Aggregates`, `HashAggregates`, `ParallelAggregates` and `IntKeys`:
  folding, merging and packed dictionary keys, all against one fold of the input rows;
  `AggregateMeanings` says what that fold is, in counts, sums and extremes of the cells.
  `RowKeys` and `Distincts`: the composite key encoding and the operator that relies on it.
- **Scanning and morsels.** `Scans`, `ZoneMaps` and `Morsels`: pruned scans, and pipelines
  that are reset rather than rebuilt.
- **Storage.** `ColumnWindows` and `ColumnStores`: columns written as blocks and read back
  through a window. `BufferPools`: who owns a read buffer. `Codecs`, `Footers`, `Wire`:
  the formats. `Kernels`, `Bits` and `LiteralCaches`: expressions on packed bitmaps.
- **SQL text.** `Pratt`: the precedence parser against the printer.

Concurrency is modelled as transition systems whose runs are all interleavings of the
workers' steps. Code that updates arrays and fields is modelled by classes and methods with
loops, proved against functions whose laws are then proved as lemmas. The hash function,
the checksum, and every operator the model does not open up are arbitrary functions, so
each result holds for any choice of them.

## Model

| member | source | states |
|---|---|---|
| ParallelBuild.ParallelEqualsSerial | exec/parallel_join.go:389-552 | whatever the interleaving, worker counts, morsel size and partition count, a finished build holds exactly the rows whose key cell is not NULL and gives each number key, in order, the rows whose key cell is that number, as a serial drain does; the row-limit error ends a run only when more than 2^31 - 1 rows have a key |
| ParallelBuild.RaceFree | exec/parallel_join.go:351-379 | in every reachable state no two workers may write the same bucket, list, store row or partition slot |
| ParallelBuild.WritesOwn | exec/parallel_join.go:432-548 | a worker's step changes no shared location but its own |
| ParallelBuild.NeverStuck | exec/parallel_join.go:427-551 | until the build is finished or refused, some worker or the coordinator can step |
| ParallelBuild.EachRowInAChain | exec/parallel_join.go:511-548 | every stored row is reachable from some partition's table |
| ParallelBuild.NoRowInTwoChains | exec/parallel_join.go:511-548 | and from only one place: one table, one key, one position |
| ParallelBuild.ScheduleFree | exec/parallel_join.go:370-379 | every finished run leaves the very same store and tables, row index by row index |
| SharedTables.SerialMatches | exec/parallel_join.go:224-271 | for every partition count a probe of the serial build meets exactly its key's drained rows, in drain order |
| SharedTables.DrainMeans | exec/join.go:188-241 | a drain visits exactly the rows whose key cell is not NULL, in order, each with the number in that cell |
| SharedTables.ByKeyMeans | exec/join.go:188-241 | a key's drained rows are the rows whose key cell is that number, in order |
| SharedBuilds.ForEachBuildRow | exec/join.go:188-241 | the visited payloads are the rows whose key cell is not NULL, batch by batch in selection order, each carrying its own key cell |
| SharedBuilds.BuildRadix | exec/parallel_join.go:235-271 | the store and its numParts tables mean the serial build; refused exactly when more than 2^31 - 1 rows have a key; neither the store nor a table outgrows a presize that covers its rows |
| SharedBuilds.BuildFromScan | exec/join.go:157-186 | a scan's row bound covers the drain, so a scan-rooted build neither reallocates its store nor rehashes its table |
| SharedBuilds.PartitionMorsel | exec/parallel_join.go:322-347 | a morsel's own store and per-partition lists hold exactly its drained rows, in order |
| SharedBuilds.AssembleParts | exec/parallel_join.go:465-551 | pass 2 over any delivered buckets leaves the store and tables the transition system's runs leave, and no table rehashes |
| SharedBuilds.BuildParallel | exec/parallel_join.go:389-552 | both passes on objects end, exactly when the drain is within the row limit, in the build side every finished run ends in |
| HashJoins.ProbeBuilt | exec/parallel_join.go:557-581 | a probe of any build side that gives each key its drained rows, read to the end, is the nested-loop join in order, and an equi-join by the key cells alone: a build row beside a probe row comes out as often as the two rows occur if both keys are the same number, and otherwise not at all |
| HashJoins.RunHashJoin | exec/join.go:84-186 | for every partition count the serially built join is the nested-loop join and the equi-join by key cells, NULL keys meeting nothing; it fails exactly when more than 2^31 - 1 build rows have a key |
| HashJoins.RunParallelJoin | exec/parallel_join.go:842-856 | so is the join over the parallel build's objects |
| HashJoins.ParallelBuildJoins | exec/parallel_join.go:374-379 | so is a probe of what any run of the parallel build leaves, for every schedule |
| HashJoins.NestedLoopIsEquiJoin | exec/join.go:84-155 | the nested-loop join has each pair of rows with equal number keys as often as its two rows occur, and no other row |
| Batches.RowsMean | exec/batch.go:71-93 | the rows of a batch, by its columns: physical row i, or the i-th selected one, across the vectors |
| HashJoins.HashJoin.Next | exec/join.go:84-155 | each call hands over the next pending rows, never none and at most 1024, and ends exactly when nothing is pending |
| HashJoins.HashJoin.EmitMatches | exec/join.go:243-269 | an emitted block is exactly the front of what was pending, cut column by column |
| HashJoins.HashJoin.Reset | exec/join.go:419-425 | after a reset only the new probe stream's join rows are pending |
| JoinTables.JoinHashTable.Insert | exec/join_table.go:496-517 | a row joins the end of its key's chain and no other chain changes; a rehash happens only at the load limit |
| JoinTables.JoinHashTable.Grow | exec/join_table.go:546-559 | a rehash moves slots and changes no chain |
| JoinTables.JoinHashTable.LookupHashed | exec/join_table.go:529-541 | the head row of a key that is present, noRow exactly when it is absent; the probe ends |
| JoinTables.JoinHashTable.Walk | exec/join.go:132-150 | following links from the head visits exactly the key's rows, first to last |
| JoinTables.JoinTableCapacity | exec/join_table.go:461-476 | the smallest power of two, from the floor up, whose load limit admits the keys |
| RowStores.RowStore.Reserve | exec/join_table.go:235-254 | the next index and a blank row, every other row and link kept; refused exactly at 2^31 - 1 rows; growth copies fewer than twice the rows |
| RowStores.RowStore.AppendFrom | exec/join_table.go:328-335 | the new row reads back as the cells given, all others as before |
| RowStores.RowStore.SetFrom | exec/join_table.go:373-383 | one row becomes the source row, all others stay |
| JoinPlans.BuildMultiTablePlan | planner/build.go:259-302 | the plan denotes exactly the multiset of cross-product rows on which WHERE is TRUE, tests every conjunct exactly as often as it was written, and is refused exactly when some set of tables with the first but not all is left by no conjunct a = b between two INT64 or two DATE columns |
| JoinPlans.PlanMeaning | planner/build.go:245-302 | the multiset half, of the plan as a function |
| JoinPlans.PlanTestsOnce | planner/build.go:245-302 | each conjunct goes to one scan, one join or the residual filter, and to no second place |
| JoinPlans.PlanRefused | planner/build.go:372-420 | that refusal, of the plan as a function |
| JoinPlans.BuildJoinTree | planner/build.go:372-420 | the tree loop ends in the grown left-deep tree and returns the terms of the edges it did not use |
| JoinPlans.SplitWhere | planner/build.go:259-302 | the classification loop sends equalities of two INT64 or two DATE columns of two tables to the join keys, other terms of several tables to the residual and the rest to the scan of their table, each in the order written |
| JoinPlans.SplitSorted | planner/build.go:259-302 | the same of the split as a function |
| JoinPlans.DisconnectedMeans | planner/build.go:372-420 | the edges leave some table unreached exactly when the WHERE clause itself does |
| Optimizer.OptimizeMeaning | planner/optimizer.go:9-13 | the optimised plan yields the same rows in the same order, every node still finds its columns, and no scan reads a column nothing names, provided no Distinct loses a column of its input |
| Optimizer.PushMeaning | planner/optimizer.go:19-52 | merging filters into scans changes neither rows nor columns |
| Optimizer.PushComplete | planner/optimizer.go:19-52 | no filter is left standing on a scan |
| Optimizer.PruneMeaning | planner/optimizer.go:69-203 | pruning keeps the row sequence on every column an ancestor needs |
| Optimizer.PruneScoped | planner/optimizer.go:69-203 | no node loses a column it reads |
| Optimizer.PruneLean | planner/optimizer.go:69-203 | no scan is left reading a column that neither its own predicate nor a node above it names; one with no named column reads them all |
| Optimizer.PushPrunes | planner/optimizer.go:19-145 | pruning keeps the same columns before and after pushdown |
| Optimizer.DistinctExactly | planner/optimizer.go:136-139 | for a projection over Distinct over a scan, optimising is right for all rows exactly when the projection names every scan column, or none |
| Optimizer.DistinctUnderNarrowing | planner/optimizer.go:136-139 | the failing inputs: two rows equal on what the projection reads are two rows before and one after |
| Optimizer.UniqueStrings | planner/optimizer.go:250-260 | in-place compaction leaves the first occurrence of each name, in order |
| ParallelAggregates.ParallelEqualsSerial | exec/parallel.go:124-210 | for every schedule and every arrival order of the partials the merged groups are the serial fold of all rows, and each group's accumulators are the counts, sums modulo 2^64 and extremes of its input cells |
| Aggregates.FoldPermutation | exec/parallel.go:124-210 | the fold depends only on the multiset of rows, with wrapping sums |
| Aggregates.MergeIsFold | exec/parallel.go:237-314 | merging a partial is folding the rows it was made from |
| AggregateMeanings.FoldCellsMean | exec/agg_intkey.go:303-365 | folding cells gives the number of non-NULL ones, the int64 congruent to their sum, a least or greatest one that is among them, and for text the first or last in byte order |
| AggregateMeanings.FoldGroupsMean | exec/aggregate.go:364-562 | folding rows gives one group a distinct key, whose accumulators are those values of the group's own rows |
| AggregateMeanings.LessMeans | exec/aggregate.go:314-326 | the string order is byte order: the smaller byte at the first difference, or the end, comes first |
| HashAggregates.HashAggregate.Run | exec/aggregate.go:194-220 | any batches: one output row for each distinct group, no group left out, each aggregate cell the count, wrapped sum or extreme of the group's input cells and NULL exactly when all of those are; without GROUP BY exactly one row, over rows or over none |
| HashAggregates.HashAggregate.Accumulate | exec/aggregate.go:364-562 | one batch is the fold of its rows on the column path and on the row path; the ungrouped path opens its group even for a batch without rows |
| HashAggregates.GroupedAnswer | exec/aggregate.go:783-887 | reading out the groups of a fold answers GROUP BY in terms of the input rows |
| HashAggregates.GlobalAnswer | exec/aggregate.go:964-985 | reading out the one group answers the ungrouped aggregate |
| HashAggregates.HashAggregate.AccumulateDirect | exec/aggregate.go:570-748 | folding column by column, COUNT(*) in one step, is folding row by row |
| HashAggregates.HashAggregate.Merge | exec/parallel.go:237-314 | the merged groups, those of one side included, each key listed once |
| HashAggregates.HashAggregate.OneGlobalRow | exec/aggregate.go:964-985 | an ungrouped aggregate reads out as exactly one row |
| IntKeys.AggregateKeyed | exec/agg_intkey.go:206-290 | batches with any dictionaries, NULL keys and an overflow at any point give exactly the groups of the string-key path, with accumulators that are the counts, sums and extremes of the input cells |
| IntKeys.UnpackPack | exec/agg_intkey.go:138-195 | a packed key gives back the code of each column |
| IntKeys.PackedFits | exec/agg_intkey.go:136-160 | a packed key fits in 64 bits |
| IntKeys.IntKeyAggregate.Materialize | exec/agg_intkey.go:162-195 | moving to string keys loses and merges no group |
| RowKeys.EncodeInjective | exec/aggregate.go:756-781 | different rows have different keys |
| RowKeys.BuildKey | exec/distinct.go:79-100 | the byte loop builds that key |
| Distincts.Distinct.Next | exec/distinct.go:27-67 | each call hands over the next first occurrences; the end means none are left |
| Distincts.FreshOnce | exec/distinct.go:27-67 | every input row comes out, and no row twice |
| ZoneMaps.PrunedScan | planner/physical.go:660-735 | filtering the pruned scan is filtering the full scan |
| ZoneMaps.PruneSound | planner/physical.go:669-806 | a row group is pruned only when its predicate is TRUE of none of its rows, for any nesting of AND, OR, comparisons and BETWEEN |
| ZoneMaps.OrderingExact | planner/physical.go:698-790 | for an ordering on a column with statistics a group is kept exactly when some row of it passes |
| ZoneMaps.EqualityExact | planner/physical.go:698-790 | for an equality, exactly when some value is at most the number and some at least |
| ZoneMaps.WriteStats | storage/writer.go:205-251 | the writer's statistics bound exactly the non-NULL values of the row group |
| Scans.TableScan.Next | exec/scan.go:217-310 | each block is the front of what is pending, at most 1024 rows, pruned groups skipped |
| Scans.TableScan.RowCountBound | exec/row_bound.go:67-82 | from metadata alone, exactly the number of rows the scan's range yields |
| Morsels.Work | exec/morsel.go:77-145 | each completed morsel yields what the operators make of the rows stored in exactly its row groups; morsels that tile the file yield the whole pipeline's rows; and on every exit every opened pipeline is closed exactly once |
| Morsels.ResetIsFresh | exec/morsel.go:47-75 | a reset pipeline emits exactly what a new one would: what its operators make of the rows in its range |
| Morsels.BuildReads | exec/scan.go:217-254 | a pipeline built over a range emits what its operators make of the unpruned rows of that range |
| Morsels.RangesConcat | exec/scan.go:441-446 | cutting a range in two cuts the rows emitted over it in two |
| Morsels.ClaimedInAnyOrder | exec/parallel.go:26-36 | whoever claims which morsel, morsels that tile the row groups give every row of the whole pipeline exactly as often as one pipeline over the file |
| ColumnWindows.ColumnReader.NextBlock | storage/rowgroup.go:101-171 | whatever the prefetch cap, a block read through the window is the block read straight from the file |
| ColumnWindows.ColumnReader.Window | storage/rowgroup.go:55-87 | the bytes handed out are the file's at that offset, and none past the section |
| ColumnWindows.ReadSection | storage/rowgroup.go:101-171 | a written section read to its end gives every block as written, in order |
| ColumnStores.WriteInt64Blocks | storage/writer.go:205-226 | the blocks are a well-formed section holding every row's value and NULL flag |
| ColumnStores.Int64RoundTrip | storage/writer.go:205-226 | what is read back is what was written, for any row count, surrounding bytes and prefetch cap |
| ColumnStores.WriteBoolBlocks | storage/writer.go:350-365 | run-length blocks with at most one run a row, as the reader requires |
| ColumnStores.BoolRoundTrip | storage/writer.go:350-365 | the same round trip for BOOL columns |
| ColumnStores.SubBitmap | storage/writer.go:474-484 | row i of the sub-bitmap is row start + i of the bitmap |
| BufferPools.HeldExclusively | storage/reader.go:131-278 | in every run a buffer a column reads through is in no pool class, on no free list and with no other column |
| BufferPools.PooledFits | storage/reader.go:106-158 | a pooled buffer has its class's exact capacity, so it fits every request of that class |
| Kernels.Eval | exec/expr.go:262-1500 | for every tree the byte-at-a-time result at each physical row is the row-by-row three-valued value, which is TRUE and FALSE when the parts' values say so by the operators themselves |
| Kernels.RowValMeans | exec/expr.go:262-1500 | row by row: comparisons, BETWEEN (TRUE exactly for lo <= x <= hi), IN, AND, OR, NOT and CASE by the values of their parts |
| Kernels.CmpKernel | exec/expr.go:320-510 | whole bytes and the tail rows alike: NULL unless both validity bits are set, and otherwise the bit is ==, !=, <, <=, > or >= of the two values |
| Kernels.InKernel | exec/expr.go:1243-1302 | IN row by row: NULL stays NULL, a match is TRUE, no match is NULL when the list has one |
| Kernels.NullKernel | exec/expr.go:1185-1220 | IS NULL and IS NOT NULL are never NULL and read the validity bit |
| Kernels.FoldKernel | exec/expr.go:1047-1144 | AND and OR a byte at a time by the SQL truth tables |
| Kernels.FilterStack | exec/filter.go:49-78 | stacked filters leave, in order, exactly the rows where every predicate is TRUE |
| LiteralCaches.ValueLiteral.Eval | exec/expr.go:88-183 | a reused literal vector holds the value at every row of every batch length |
| LiteralCaches.BoolLiteral.Eval | exec/expr.go:88-183 | the same for packed booleans, trailing bits clear |
| LiteralCaches.SetAllValid | exec/scratch.go:197-205 | exactly the first n bits are set |
| Pratt.RoundTrip | sql/format.go:38-90 | printing then parsing is the identity exactly when no ordering comparison has an equality as its left operand |
| Pratt.ReadsBack | sql/parser.go:303-511 | what a printed expression reads back as, for the whole fragment |
| Pratt.EqualityUnderOrdering | sql/format.go:49-80 | the smallest failure: (a = b) < c reads back as a = (b < c) |
| Pratt.Parser.NextExpr | sql/parser.go:303-476 | the cursor-moving parser computes the specified parse |
| Pratt.Ladder | sql/parser.go:281-476 | a word of names and operators parses to the one expression with those tokens whose operators nest by OR < AND < equality < ordering < sum < product, one level from the left |
| Pratt.LadderOfTwo | sql/parser.go:281-301 | x op1 y op2 z: the second operator takes the middle name exactly when it binds tighter |
| Codecs.RoundTripRLE | storage/codec.go:248-336 | run-length encoding then decoding returns every value and NULL flag |
| Codecs.Dictionary.Get | storage/codec.go:162-193 | each code gives its own string, cached or not |
| Codecs.UnmarshalDictionary | storage/codec.go:216-239 | a marshalled dictionary unmarshals to the same strings; bytes whose last four are not the checksum of the others are refused |
| Codecs.DecodeRLEBool | storage/codec.go:295-336 | encoded runs decode to their flags; bytes whose last four are not the checksum of the others are refused |
| Wire.VerifyExactly | internal/encoding/crc.go:26-40 | a buffer is accepted exactly when its last four bytes are the little-endian checksum of the rest, which is then returned |
| ColumnWindows.CheckedExactly | storage/rowgroup.go:122-144 | a block is returned exactly when its last four bytes are its checksum |
| Footers.FooterRoundTrip | storage/reader.go:295-408 | a file ending in a marshalled footer yields that footer's metadata |
| Footers.FooterChecks | storage/reader.go:295-335 | what is accepted ends in a body, its checksum, its length and the magic number, and yields what that body parses to |
| Footers.ReadBody | storage/reader.go:336-408 | the two directory loops compute the specified parse |

## Left out

- Optimizer.OptimizeMeaning: the condition on Distinct is shown exact only for a projection over Distinct over a scan (Optimizer.DistinctExactly); deeper plans have the sufficient condition. Row order under Sort and the groups of Aggregate are arbitrary functions of what those operators read.
- Pratt.RoundTrip: columns, int64 literals and binary operators; not unary minus, NOT, LIKE, IN, BETWEEN, CASE or calls.
- ZoneMaps.PruneSound: INT64 and DATE columns with integer literals; not FLOAT64 zones, fractional literals or the string statistics, whose comparisons round.
- Kernels.Eval: INT64, DATE and BOOL; not floating-point comparison, arithmetic, casts, LIKE or StringEqExpr.
- Aggregates.FoldPermutation: COUNT, integer SUM with wrap-around, MIN and MAX of integers, dates and strings. Floating-point SUM and AVG are order dependent in the source too; COUNT DISTINCT and AVG are not modelled. The count of non-NULL inputs is an unbounded natural.
- HashAggregates.HashAggregate.Accumulate: the per-key maps of accumulators, counts and strings are one map of groups; the packed-key path is IntKeys, which has its own entry point.
- Morsels.Work: pipelines are values of a tree of operator states; pooled decode buffers and their aliasing are not part of them.
- BufferPools.HeldExclusively: buffers are identities with capacities; their bytes are the subject of ColumnWindows.
- SharedBuilds.ForEachBuildRow: the visitor's calls are a sequence, handled after the drain rather than during it. SharedBuilds.BuildParallel takes the workers' steps in one order; ParallelBuild has all of them.
- HashJoins.HashJoin.Next: BOOL payload columns are numbers; which Go vector type a column is rebuilt as is not modelled.
- Footers.FooterRoundTrip: CRC32 is an arbitrary function, as everywhere, so that corruption it does not notice is not ruled out.
- Errors of the operating system, contexts and cancellation, file I/O, and closing of files.
- The lexer, name resolution, HAVING, ORDER BY and LIMIT planning, and the physical planner other than its zone predicates.
- Sort, Limit and Project as operators, the catalog, the command line and the benchmarks.
