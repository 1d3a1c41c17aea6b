# db-benchmark core, modelled in Dafny

This project models the backend-independent core of the `db-benchmark` suite.
The suite times five storage engines under three workloads: growth scalability,
sustained load and substring search. The model covers:

- the latency accumulator `BenchmarkResult` and its statistics. These are exact
  `real` arithmetic, with numpy's linear-interpolation percentiles.
- the test protocols of `BaseBenchmark`: data loading, warmup, the scalability
  test, the placeholder load test and the substring-search test.
- the orchestrator `BenchmarkRunner` and the stage sequence of `main`. This
  includes the real load test and its two-level summary.
- the client-side loops of the Cassandra and CouchDB adapters.

The storage engine behind the protocols is a `Backend` object
(`backends.dfy`). Every capability call is appended to a ghost trace together
with its reply. A reply is any answer that fits the call: a non-negative
elapsed time, a record count, plain completion, or a raised exception. The
protocols are specified by the events they add to that trace and the rows they
return. Python exceptions become `Result`/`Outcome` values, and their
propagation is written out. Random draws are nondeterministic choices
constrained to the generator's range. A `random.sample` or
`np.random.choice(..., replace=False)` draw is the first k elements of some
rearrangement of the pool. It fails with ValueError when the pool is too small.

Files: `wrappers.dfy`, `records.dfy` (records, errors), `text.dfy` (lower-casing,
`in`, `replace`), `sequences.dfy` (chunking), `statistics.dfy`,
`accumulator.dfy`, `backends.dfy`, `protocols.dfy`, `runner.dfy`,
`cassandra.dfy`, `couchdb.dfy`.

Details of the code that the model keeps as written:

- Warmup batch sizes are 10 to 29. `np.random.randint(10, 30)` excludes 30.
- Warmup samples with replacement from the first 50 records of `data[:1000]`.
- The base-class `run_load_test` queries `['placeholder'] * batch_size`; it does
  not query real codigos. The runner's own load test does use real codigos, and
  its `batch_size` argument is never read.
- The scalability table reports `records_in_db` as whatever `get_record_count`
  answers. The model proves that round k inserts exactly the k-th whole batch, so
  the records inserted after round k are `data[:k*batch_size]`. It does not
  prove that the engine's count grows, because that count comes from the engine.
- The Cassandra filter checks `len(results) >= limit` only after appending, so a
  `limit` of 0 or below still returns one match (`Cap`).

## Model

| member | source | states |
|---|---|---|
| Records.GetOrEmpty | scripts/benchmarks/cassandra_benchmark.py:139-156 | `record.get(key, '')`: the field's value when present, the empty string otherwise |
| Records.CodigosOf | scripts/benchmarks/base_benchmark.py:112 | succeeds exactly when every record has a `codigo`, and then yields each record's codigo in order; otherwise KeyError |
| Text.Lower | scripts/benchmarks/cassandra_benchmark.py:212 | lower-casing keeps the length and folds each character on its own |
| Text.Contains | scripts/benchmarks/cassandra_benchmark.py:212 | `p in s` is true exactly when `p` occurs in `s` at some position |
| Text.ContainsIgnoringCase | scripts/benchmarks/couchdb_benchmark.py:202 | `p.lower() in s.lower()` is true exactly when the lower-cased pattern occurs in the lower-cased text |
| Text.RemoveAll | scripts/benchmarks/base_benchmark.py:51 | `str.replace(p, '')` never lengthens the string, leaves it unchanged when `p` does not occur, and shortens it by at least `len(p)` when `p` occurs |
| Text.RemoveFirst | scripts/benchmarks/base_benchmark.py:51 | in `x + p + y`, when no occurrence of `p` starts inside `x`, removing every `p` keeps `x` whole, drops that `p` and goes on removing in `y` |
| Sequences.ChunksCover | scripts/benchmark_runner.py:157-160 | the slices `s[i:i+size]` for i = 0, size, 2·size, … put back together are `s`: every element once, in order |
| Sequences.ChunksSized | scripts/benchmark_runner.py:157-160 | every slice is non-empty and at most `size` long, and only the last may be shorter |
| Statistics.SmallestIsLeast | scripts/benchmarks/base_benchmark.py:38 | `np.min` is one of the samples and no sample is below it |
| Statistics.LargestIsGreatest | scripts/benchmarks/base_benchmark.py:39 | `np.max` is one of the samples and no sample is above it |
| Statistics.MeanBetween | scripts/benchmarks/base_benchmark.py:35 | `np.mean` lies between the minimum and the maximum |
| Statistics.InsertSorted | scripts/benchmarks/base_benchmark.py:36-41 | inserting into ascending samples keeps them ascending and adds exactly that sample |
| Statistics.SortSorts | scripts/benchmarks/base_benchmark.py:36-41 | the sorted samples used for order statistics are ascending and a permutation of the samples |
| Statistics.SortedEnds | scripts/benchmarks/base_benchmark.py:36-41 | the first and last order statistics are the minimum and the maximum |
| Statistics.SortOfSorted | scripts/benchmarks/base_benchmark.py:36-41 | samples already in ascending order are their own sorted order |
| Statistics.Rank | scripts/benchmarks/base_benchmark.py:40-41 | the rank q·(n−1) splits into an index inside the samples and a fraction in [0, 1), which is 0 at the last index |
| Statistics.QuantileBetween | scripts/benchmarks/base_benchmark.py:40-41 | a percentile of sorted samples lies between the two order statistics around its rank |
| Statistics.QuantileBetweenExtremes | scripts/benchmarks/base_benchmark.py:40-41 | every percentile lies between the minimum and the maximum |
| Statistics.RankMonotone | scripts/benchmarks/base_benchmark.py:40-41 | a larger q never gives an earlier rank |
| Statistics.QuantileMonotone | scripts/benchmarks/base_benchmark.py:40-41 | percentiles never decrease as q grows, so p95 ≤ p99 |
| Statistics.MedianIsHalfQuantile | scripts/benchmarks/base_benchmark.py:36 | `np.median` (middle sample, or mean of the two middle ones) equals the linear 0.5-quantile |
| Statistics.FiveSamplesMean | scripts/benchmarks/base_benchmark.py:35-39 | worked example of numpy's definitions: for latencies 10, 20, 30, 40, 50: mean 30, minimum 10, maximum 50 |
| Statistics.FiveSamplesQuantiles | scripts/benchmarks/base_benchmark.py:36-41 | worked example of numpy's linear percentiles: for latencies 10, 20, 30, 40, 50: median 30, p95 48, p99 49.6 |
| Accumulator.BenchmarkResult.constructor | scripts/benchmarks/base_benchmark.py:17-20 | a new accumulator holds no latencies and no errors |
| Accumulator.BenchmarkResult.AddLatency | scripts/benchmarks/base_benchmark.py:22-23 | appends the latency and leaves the errors unchanged |
| Accumulator.BenchmarkResult.AddError | scripts/benchmarks/base_benchmark.py:25-26 | appends the error and leaves the latencies unchanged |
| Accumulator.BenchmarkResult.GetStatistics | scripts/benchmarks/base_benchmark.py:28-43 | `{}` exactly when no latency was added, however many errors were; otherwise count and error_count are the list lengths, min and max are the extreme samples, and min ≤ mean, median ≤ max and min ≤ p95 ≤ p99 ≤ max |
| Backends.Backend.constructor | scripts/benchmarks/base_benchmark.py:49-53 | a new adapter has made no call and is named from its class name |
| Backends.Backend.Perform | scripts/benchmarks/base_benchmark.py:55-93 | each capability call is logged with a reply that fits it: a non-negative time, a non-negative count, completion, or an exception |
| Backends.DbNameOfAdapterClass | scripts/benchmarks/base_benchmark.py:51 | for the adapter classes `<Engine>Benchmark`, `db_name` is the lower-cased engine part |
| Backends.InsertedAppend | scripts/benchmarks/base_benchmark.py:134 | the records inserted by two runs of calls are those of the first run followed by those of the second |
| Backends.CompletedOrRaised | scripts/benchmarks/base_benchmark.py:185-191 | when every call either completed or raised, completed plus raised equals the number of calls |
| Protocols.SummaryBetween | scripts/benchmarks/base_benchmark.py:155-158 | the mean, median, p95 and p99 of a row lie between the extreme latencies, with p95 ≤ p99 |
| Protocols.LoadTestData | scripts/benchmarks/base_benchmark.py:95-105 | `data[:limit]` when `limit` is truthy: a prefix of the data of the length a Python slice gives; no limit or 0 keeps everything |
| Protocols.SampleWithoutReplacement | scripts/benchmarks/base_benchmark.py:144 | k elements from distinct positions of the pool, or ValueError exactly when the pool has fewer than k |
| Protocols.SampleWithReplacement | scripts/benchmarks/base_benchmark.py:117 | k elements each taken from the pool, or ValueError exactly when the pool is empty and k > 0 |
| Protocols.Take | scripts/benchmarks/base_benchmark.py:112 | `s[:n]` is a prefix of length min(n, len(s)) |
| Protocols.Warmup | scripts/benchmarks/base_benchmark.py:107-122 | one query per iteration of 10 to 29 codigos, all from the first 50 records; query exceptions are swallowed; a missing codigo raises KeyError, and an empty sample raises ValueError before any query; no teardown call is made |
| Protocols.QueryInsertedSoFar | scripts/benchmarks/base_benchmark.py:140-148 | 10 completed queries of 20 codigos from records at distinct positions of the inserted prefix; it fails only with ValueError on a prefix under 20 records (before any query), KeyError when a record of the prefix lacks a codigo, or the exception of its last call |
| Protocols.OffsetIsProduct | scripts/benchmarks/base_benchmark.py:133 | the start of batch k is k·batch_size |
| Protocols.NextBatch | scripts/benchmarks/base_benchmark.py:133-143 | the first k batches followed by batch k are the first k + 1 batches |
| Protocols.ScalabilityBlocksExtend | scripts/benchmarks/base_benchmark.py:131-160 | appending the next round keeps every earlier round in its place |
| Protocols.ScalabilityBlockAt | scripts/benchmarks/base_benchmark.py:131-160 | round k of the table inserted the k-th whole batch, has batch_number k + 1, and queried the first k + 1 batches |
| Protocols.InsertedByBlock | scripts/benchmarks/base_benchmark.py:134-148 | a round inserts exactly its batch, because only its first call inserts |
| Protocols.BatchesFit | scripts/benchmarks/base_benchmark.py:129 | `len(data) // batch_size` whole batches fit, leaving `len(data) % batch_size` records over |
| Protocols.RoundOfEvents | scripts/benchmarks/base_benchmark.py:132-160 | an insert, a count and 10 queries make one round, and the round's row reports them |
| Protocols.ScalabilityRound | scripts/benchmarks/base_benchmark.py:132-160 | one round: insert the batch, count, then 10 query rounds over everything inserted so far; the row summarises those 10 latencies; it fails only with the sampling errors above or the exception of its last call |
| Protocols.ScalabilityStep | scripts/benchmarks/base_benchmark.py:131-160 | one more loop iteration keeps the trace equal to the rounds so far, and their inserts equal to the first whole batches; a failure is a sampling error on the prefix inserted so far or the exception of the last call |
| Protocols.RunScalabilityTest | scripts/benchmarks/base_benchmark.py:124-162 | `len(data) // batch_size` rows, numbered 1 up; round k inserts `data[k·bs:(k+1)·bs]`; the trailing `len(data) % bs` records are never inserted; it fails only as `ScalabilityFails` lists: batch size 0 raises ZeroDivisionError, 1 to 19 raises ValueError at the first draw, a record without codigo raises KeyError, or an engine call raised last; no teardown call is made |
| Protocols.Placeholders | scripts/benchmarks/base_benchmark.py:187 | `['placeholder'] * batch_size`: batch_size copies of the string, or none when batch_size is not positive |
| Protocols.LoadIteration | scripts/benchmarks/base_benchmark.py:179-195 | 50 queries; each completed one adds its latency, each raised one adds its message |
| Protocols.RunLoadTest | scripts/benchmarks/base_benchmark.py:164-211 | a count, then 50·num_iterations queries of the placeholder list; the statistics are exactly count, mean, median, min, max, p95 and p99 of the completed latencies and the number of raised queries, and empty exactly when no query completed |
| Protocols.RowOf | scripts/benchmarks/base_benchmark.py:229-237 | a pattern gets one row when some search completed and none otherwise |
| Protocols.SubstringRowsStep | scripts/benchmarks/base_benchmark.py:219-237 | searching the next pattern appends that pattern's row, if any, at the end |
| Protocols.SubstringRowsCount | scripts/benchmarks/base_benchmark.py:219-237 | rows plus all-failure patterns equals the number of patterns |
| Protocols.SubstringRowsReport | scripts/benchmarks/base_benchmark.py:229-237 | each row names a searched pattern, with 1 ≤ iterations ≤ searches made, and iterations equal to that pattern's completed searches |
| Protocols.SubstringRowsInOrder | scripts/benchmarks/base_benchmark.py:219-237 | when every pattern had a completed search, the rows follow the patterns one to one, in order |
| Protocols.SearchPattern | scripts/benchmarks/base_benchmark.py:220-237 | `iterations` searches of the pattern with limit 100, and that pattern's row; no teardown call is made |
| Protocols.RunSubstringSearchTest | scripts/benchmarks/base_benchmark.py:213-239 | each pattern searched `iterations` times in order; the table is the rows of the patterns with a completed search; no teardown call is made |
| Runner.InsertInChunks | scripts/benchmark_runner.py:157-160 | `insert_batch` on `data[i:i+1000]` for i = 0, 1000, …: every record inserted once, in order, with a shorter tail; on failure, every slice before the failing one was inserted, the failing call was the insert of the next slice, and its exception propagates |
| Runner.InsertStep | scripts/benchmark_runner.py:158-160 | sending `data[i:end]` moves one slice from pending to sent, and the records inserted become `data[:end]` |
| Runner.MeasuredIteration | scripts/benchmark_runner.py:180-208 | 50 completed queries, each of 20 to 30 codigos from distinct positions of all codigos; the row reports the 50 latencies; fewer than 20 codigos raises ValueError before any query; it fails only with ValueError when there are fewer than 30 codigos or with the exception of its last call |
| Runner.MeasuredLoad | scripts/benchmark_runner.py:179-208 | exactly num_iterations detail rows, row k numbered k + 1 and built from iteration k's 50 queries; a failure needs at least one iteration and is a sampling ValueError or the last call's exception |
| Runner.MeasuredRowsExtend | scripts/benchmark_runner.py:199-208 | appending the next iteration's row keeps every earlier row in place |
| Runner.LoadSummaryOf | scripts/benchmark_runner.py:210-226 | the one summary row with its fixed columns; KeyError exactly when there are no detail rows |
| Runner.IterationRowInOrder | scripts/benchmark_runner.py:199-208 | each detail row has min ≤ mean, median ≤ max and min ≤ p95 ≤ p99 ≤ max |
| Runner.ExtremesDominated | scripts/benchmark_runner.py:221-224 | when one column bounds another entry by entry, their minima and maxima keep that order |
| Runner.WithinColumns | scripts/benchmark_runner.py:221-224 | a figure inside one column's range is inside the range of any columns that bound it |
| Runner.SummaryWithinExtremes | scripts/benchmark_runner.py:221-224 | mean of means, median of medians and the 0.95/0.99 quantiles of the per-iteration p95/p99 all lie between the fastest and the slowest query of any iteration |
| Runner.MeasuredRowsInOrder | scripts/benchmark_runner.py:198-208 | every detail row of a measured load is in order and counts 50 queries |
| Runner.PrepareLoad | scripts/benchmark_runner.py:152-169 | insert all records in slices of 1000, count once, then warm up on the first 1000 records only when warmup_iterations > 0; a failure is the last call's exception or, with warmup, a missing codigo among the first 50 records or an empty data set |
| Runner.BenchmarkRunner.constructor | scripts/benchmark_runner.py:98-106 | a runner for a configured engine takes that engine's configuration and has no adapter yet |
| Runner.NewRunner | scripts/benchmark_runner.py:98-100 | ValueError exactly when the engine name is not configured |
| Runner.BenchmarkRunner.Initialize | scripts/benchmark_runner.py:108-112 | the adapter is stored before `connect`, so it exists even when the connect raised |
| Runner.BenchmarkRunner.Cleanup | scripts/benchmark_runner.py:114-117 | with an adapter, appends exactly one `disconnect` call, and fails exactly when it raised; without one, does nothing |
| Runner.BenchmarkRunner.SetUpSchema | scripts/benchmark_runner.py:125 | calls `setup_schema` on the adapter, whose exception propagates |
| Runner.BenchmarkRunner.RunScalabilityTest | scripts/benchmark_runner.py:119-141 | schema setup first, then the scalability protocol on the loaded data, with no teardown call; it fails only as `ScalabilityFails` lists for that data |
| Runner.BenchmarkRunner.RunLoadTest | scripts/benchmark_runner.py:143-240 | schema, chunked insert, count, optional warmup, num_iterations detail rows and the summary computed from them, with no teardown call; it fails only as `LoadFails` lists: the last call raised, a record lacks a codigo, fewer than 30 records, or no iterations |
| Runner.BenchmarkRunner.RunSubstringTest | scripts/benchmark_runner.py:242-269 | counts first, loads and inserts the data only when the count is 0, then runs the substring protocol, with no teardown call; it fails only with the exception of its last call |
| Runner.PlanOrder | scripts/benchmark_runner.py:298-316 | initialize comes first; then scalability, load and substring in that order ('all' selects the three); teardown comes last when its flag is set |
| Runner.PlanSelects | scripts/benchmark_runner.py:305-316 | each stage is attempted exactly when the test choice or the teardown flag selects it |
| Runner.RunStage | scripts/benchmark_runner.py:305-316 | the events one stage adds, per stage: a test starts with its own first call and never tears down, and its outcome is the result of the runner method, with that method's failure cases, row counts and summary; teardown adds exactly one `teardown` call and passes exactly when it completed |
| Runner.RunSteps | scripts/benchmark_runner.py:305-319 | stages run in order until one fails; the trace grows by each stage's events in turn; every stage before the last attempted passed; a teardown call appears only as the last call, when the teardown stage was reached |
| Runner.RanPrefix | scripts/benchmark_runner.py:298-319 | the stages attempted are a prefix of the plan that stops only at a failure |
| Runner.AttemptPlan | scripts/benchmark_runner.py:298-319 | `initialize`, then the planned stages in order until one fails; the trace is `connect` followed by the stages' events |
| Runner.PlanRan | scripts/benchmark_runner.py:298-319 | `initialize` and the steps after it leave an orderly prefix of the plan, and a teardown call exactly when the flag is set and every earlier stage passed |
| Runner.RunPlan | scripts/benchmark_runner.py:298-324 | the adapter's trace is `connect`, each attempted stage's events, then `disconnect`; there is a `teardown` call only when the flag is set and every earlier stage passed, and then it is the call just before `disconnect`; a cleanup failure replaces the result |
| Runner.RunBenchmarks | scripts/benchmark_runner.py:289-324 | an unknown engine raises before any adapter exists; otherwise the run is connect, the events of a prefix of the plan, then disconnect, with a teardown call only as `RunPlan` says |
| Cassandra.Session.Execute | scripts/benchmarks/cassandra_benchmark.py:120-127 | each statement, including a `prepare` request, is logged with its answer, either rows or an exception |
| Cassandra.BindRow | scripts/benchmarks/cassandra_benchmark.py:138-157 | the bound tuple has one value for each of the 18 columns |
| Cassandra.BindRowColumns | scripts/benchmarks/cassandra_benchmark.py:138-157 | column j carries the record's field of that name, or '' when the field is missing; codigo comes first and cliente is twelfth |
| Cassandra.BindAllAppend | scripts/benchmarks/cassandra_benchmark.py:137-157 | binding two runs of records binds the first run, then the second |
| Cassandra.BatchesBindAll | scripts/benchmarks/cassandra_benchmark.py:133-159 | the batches bind every record exactly once, in input order; each batch holds 1 to 50 rows, and only the last may hold fewer than 50 |
| Cassandra.InsertBatch | scripts/benchmarks/cassandra_benchmark.py:115-163 | prepares the INSERT first, even for no data, and a failed prepare propagates before any batch; then executes exactly the batch statements of the 50-record chunks in order, every one answered, on success; on failure, the batches sent are the leading chunks in order, all answered but the last, whose exception propagates |
| Cassandra.ChunkStep | scripts/benchmarks/cassandra_benchmark.py:134-137 | taking `data[i:i+50]` moves the first pending chunk to the sent ones |
| Cassandra.SentOneMore | scripts/benchmarks/cassandra_benchmark.py:134-159 | executing one more batch extends the statements sent by that chunk's statement |
| Cassandra.AnswersAppend | scripts/benchmarks/cassandra_benchmark.py:176-179 | the rows of one more lookup are appended after the earlier rows |
| Cassandra.QueryByCodigo | scripts/benchmarks/cassandra_benchmark.py:165-184 | prepares the SELECT first, even for no codigos, and a failed prepare propagates before any lookup; then one lookup per codigo, in order, with the rows concatenated; on failure, the lookups sent are for the leading codigos in order, all answered but the last, whose exception propagates |
| Cassandra.Cap | scripts/benchmarks/cassandra_benchmark.py:214-215 | the result count that stops the scan is `limit`, but at least 1 |
| Cassandra.MatchingSelects | scripts/benchmarks/cassandra_benchmark.py:208-213 | the matching rows are an order-preserving subsequence of the rows, each with a cliente containing the pattern ignoring case |
| Cassandra.MatchingStep | scripts/benchmarks/cassandra_benchmark.py:209-213 | examining one more row adds it to the matches exactly when it matches |
| Cassandra.MatchingPrefix | scripts/benchmarks/cassandra_benchmark.py:209-215 | the matches of a longer prefix extend those of a shorter one |
| Cassandra.FilterRows | scripts/benchmarks/cassandra_benchmark.py:208-215 | the result is the first `Cap(limit)` matching rows; AttributeError exactly when the scan reaches a row whose cliente is not a string |
| Cassandra.StopsAtCap | scripts/benchmarks/cassandra_benchmark.py:214-215 | once `Cap(limit)` matches are held, later rows cannot change the result or make the scan fail |
| Cassandra.NoFailureBefore | scripts/benchmarks/cassandra_benchmark.py:209-213 | a scan that examined every row without error cannot fail |
| Cassandra.FilterSelects | scripts/benchmarks/cassandra_benchmark.py:208-215 | the result is an order-preserving subsequence of the fetched rows, all matching, and at most max(limit, 1) long |
| Cassandra.QueryByClienteSubstring | scripts/benchmarks/cassandra_benchmark.py:186-220 | the LIKE query first; only if it raises, the plain query of `limit * 10` rows; then the filter over the rows that came back |
| Cassandra.Cluster.Shutdown | scripts/benchmarks/cassandra_benchmark.py:58 | counts one more shutdown |
| Cassandra.CassandraAdapter.Connect | scripts/benchmarks/cassandra_benchmark.py:30-37 | the cluster attribute is set before the session is opened, so it exists even when connect raised |
| Cassandra.CassandraAdapter.Disconnect | scripts/benchmarks/cassandra_benchmark.py:55-59 | shuts the cluster down only when the attribute has been set |
| CouchDB.Database.Update | scripts/benchmarks/couchdb_benchmark.py:157 | one bulk request with exactly these documents is logged; it completes or raises |
| CouchDB.Database.View | scripts/benchmarks/couchdb_benchmark.py:173 | a view request yields its rows, or raises after some of them |
| CouchDB.Database.AllDocIds | scripts/benchmarks/couchdb_benchmark.py:196 | listing the document ids yields ids or raises |
| CouchDB.Database.Fetch | scripts/benchmarks/couchdb_benchmark.py:201 | `db[doc_id]` yields one document or raises |
| CouchDB.Document | scripts/benchmarks/couchdb_benchmark.py:150-153 | a copy of the record with `_id` = codigo_starttime_position and `created_at` = start time; every other field is the record's own |
| CouchDB.MakeDocuments | scripts/benchmarks/couchdb_benchmark.py:148-154 | exactly one document per record, in order, built from that record and its position; no two documents share an `_id` |
| CouchDB.InsertBatch | scripts/benchmarks/couchdb_benchmark.py:143-161 | builds the documents, then sends one bulk update of exactly those documents; its exception propagates |
| CouchDB.Strip | scripts/benchmarks/couchdb_benchmark.py:176-177 | removes `_id` and `_rev` and keeps every other field unchanged |
| CouchDB.QueryByCodigo | scripts/benchmarks/couchdb_benchmark.py:163-185 | one view request per codigo, in order; the rows handed over are stripped and collected; a request that raises is skipped, not propagated |
| CouchDB.StripAllAppend | scripts/benchmarks/couchdb_benchmark.py:170-178 | stripping two runs of documents strips the first run, then the second |
| CouchDB.CollectedStripped | scripts/benchmarks/couchdb_benchmark.py:170-180 | the results are every delivered row, in order, stripped; no result carries `_id` or `_rev` |
| CouchDB.Quota | scripts/benchmarks/couchdb_benchmark.py:197-198 | the count at which the scan stops is `limit`, and 0 when `limit` is negative |
| CouchDB.FoundMatches | scripts/benchmarks/couchdb_benchmark.py:196-209 | every result has a string cliente containing the pattern ignoring case, carries no `_id` or `_rev`, and came from its own fetch |
| CouchDB.FailedFetchSkipped | scripts/benchmarks/couchdb_benchmark.py:210-211 | a fetch that raised contributes nothing, and the scan continues |
| CouchDB.ScanStep | scripts/benchmarks/couchdb_benchmark.py:200-211 | one document of the scan: a match is kept stripped and counted, and a failed fetch is skipped |
| CouchDB.QueryByClienteSubstring | scripts/benchmarks/couchdb_benchmark.py:187-216 | ids are listed first, and that exception propagates; documents are then fetched in id order while fewer than `limit` results are held; at most `limit` results, none when `limit` ≤ 0, and the scan stops early only at `limit` |
| CouchDB.Server.Holds | scripts/benchmarks/couchdb_benchmark.py:139 | `name in server` is true exactly when the server holds that database, unless the request raises; the databases are unchanged |
| CouchDB.Server.Delete | scripts/benchmarks/couchdb_benchmark.py:140 | `del server[name]` removes exactly that database when it succeeds, raises when it is absent, and otherwise leaves the databases between the old ones and the old ones without it |
| CouchDB.CouchdbAdapter.Teardown | scripts/benchmarks/couchdb_benchmark.py:136-141 | asks whether the database exists first; deletes it only when it does; on success the database is gone and nothing else changed; a request that raises propagates |

## Left out

- Driver and network behaviour is not modelled: psycopg2, pymongo, couchdb, the Cassandra driver and `requests`. Each engine is a `Backend`, `Session` or `Database` object whose replies are unconstrained apart from their shape. The CQL text, the index and view definitions, and the CouchDB JavaScript map functions run inside the engines.
- Wall-clock time is not modelled. `time.time`, `time.sleep`, tqdm progress bars and logging are left out. Elapsed times are arbitrary non-negative reals chosen by the engine or the adapter. The CouchDB start time is a parameter, and its float-to-text formatting inside `_id` is kept structured (`DocId`).
- The random generators are not modelled as distributions. Draws are nondeterministic choices within the generator's range. Uniformity and seeding are not modelled.
- `std` is not modelled, because it needs a square root. All statistics are exact reals rather than IEEE floats, so rounding is not captured.
- pandas DataFrames, `save_results`, CSV writing and the `timestamp` columns are not modelled. Rows are Dafny datatypes, and a file name's timestamp would need the clock.
- `load_test_data` is modelled only after `json.load`, as the parsed record list. File reading and JSON parsing are I/O.
- The click command-line parsing is not modelled. `main`'s options are parameters, and `--test` is a `TestChoice`.
- CouchDB.Database.Update: the per-document results of the bulk update are not modelled. The adapter at scripts/benchmarks/couchdb_benchmark.py:157 ignores them, so a document the server refuses goes unnoticed.
- CouchDB.Server.Delete: when the request raises for a database that exists, the model only bounds what is left. The server may or may not have removed it.
- `Text.Lower` folds ASCII letters only. Python's `str.lower` also folds other Unicode letters.
- `get_all_codigos` and `optimize_for_load_test` are not modelled. The modelled runner never calls them.
- The Cassandra and CouchDB `connect`, `setup_schema` and `get_record_count` are not modelled beyond the `cluster` guard. They only forward calls to the driver.
- The other adapters and the reporting tools are not part of this model. These are the PostgreSQL, MongoDB and ScyllaDB adapters, the optimized concurrent adapters, `compare_results.py` and the connection test scripts.
- Runner.BenchmarkRunner.RunScalabilityTest: the result is tied to the protocol's own guarantees only when `batch_size` > 0. For other batch sizes the protocol's own contract applies.
