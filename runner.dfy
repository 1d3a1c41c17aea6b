/**
 * The orchestrator (`BenchmarkRunner` and `main`): the per-engine
 * configuration table, the runner's adapter lifecycle (create, connect,
 * disconnect), the three test drivers around the protocols (including the
 * real load test with its two-level summary), and the fixed sequence `main`
 * runs them in, with cleanup in `finally`.
 */
module Runner {
  import opened Wrappers
  import opened Records
  import opened Text
  import opened Statistics
  import opened Backends
  import opened Sequences
  import opened Protocols

  /** Where an engine keeps the benchmark tables: a relational database or a Cassandra keyspace. */
  datatype Namespace = Database(name: string) | Keyspace(name: string)

  /** One entry of `DB_CONFIGS`: the adapter class and the connection settings handed to it. */
  datatype DbConfig = DbConfig(
    adapterClass: string,
    host: string,
    port: nat,
    namespace: Namespace,
    user: Option<string>,
    password: Option<string>)

  /** `DB_CONFIGS`: the five engines the runner knows, keyed by their command-line name. */
  const DbConfigs: map<string, DbConfig> := map[
    "postgres" := DbConfig("PostgresBenchmark", "localhost", 5432, Database("benchmark_db"), Some("benchmark"), Some("benchmark123")),
    "mongodb" := DbConfig("MongodbBenchmark", "localhost", 27017, Database("benchmark_db"), Some("benchmark"), Some("benchmark123")),
    "couchdb" := DbConfig("CouchdbBenchmark", "localhost", 5984, Database("benchmark_db"), Some("benchmark"), Some("benchmark123")),
    "cassandra" := DbConfig("CassandraBenchmark", "localhost", 9042, Keyspace("benchmark_ks"), None, None),
    "scylladb" := DbConfig("ScylladbBenchmark", "localhost", 9043, Keyspace("benchmark_ks"), None, None)
  ]

  /** The size of the slices the runner inserts the data file in. */
  const InsertChunk := 1000

  /** Completed inserts of `chunks`, one event per chunk, in order. */
  ghost predicate InsertsOf(events: seq<Event>, chunks: seq<seq<Record>>) {
    && |events| == |chunks|
    && forall j :: 0 <= j < |events| ==> events[j].call == InsertBatch(chunks[j]) && events[j].reply.Timed?
  }

  /**
   * The insert loop of `run_load_test` and `run_substring_test`:
   * `insert_batch(data[i:i+1000])` for i = 0, 1000, 2000, ...; the first
   * insert that raises ends the loop and the exception propagates.
   */
  method InsertInChunks(b: Backend, data: seq<Record>) returns (r: Outcome, ghost inserts: seq<Event>)
    modifies b
    ensures b.trace == old(b.trace) + inserts
    ensures NoTeardownSince(b.trace, |old(b.trace)|)
    ensures r.Pass? ==> InsertsOf(inserts, Chunks(data, InsertChunk)) && Inserted(inserts) == data
    ensures r.Fail? ==>
      var n := |inserts| - 1;
      && 0 <= n < |Chunks(data, InsertChunk)|
      && InsertsOf(inserts[..n], Chunks(data, InsertChunk)[..n])
      && inserts[n].call == InsertBatch(Chunks(data, InsertChunk)[n])
      && RaisedSince(b.trace, |old(b.trace)|, r.error)
  {
    inserts := [];
    ghost var sent: seq<seq<Record>> := [];
    var i := 0;
    while i < |data|
      invariant 0 <= i <= |data|
      invariant sent + Chunks(data[i..], InsertChunk) == Chunks(data, InsertChunk)
      invariant b.trace == old(b.trace) + inserts
      invariant InsertsOf(inserts, sent)
      invariant Inserted(inserts) == data[..i]
      invariant NoTeardownSince(b.trace, |old(b.trace)|)
    {
      var end := if i + InsertChunk < |data| then i + InsertChunk else |data|;
      var batch := data[i..end];
      var took := b.Perform(InsertBatch(batch));
      ghost var e := Event(InsertBatch(batch), took);
      Regroup(old(b.trace), inserts, [e]);
      if !took.Timed? {
        FailedChunk(data, i, end, sent);
        assert (inserts + [e])[..|inserts|] == inserts;
        inserts := inserts + [e];
        return Fail(BackendError(took.message)), inserts;
      }
      InsertStep(data, i, end, sent, inserts, e);
      sent := sent + [batch];
      inserts := inserts + [e];
      i := end;
    }
    assert data[i..] == [] && data[..i] == data;
    assert sent == Chunks(data, InsertChunk);
    r := Pass;
  }

  /** The chunks from position `i` on: the slice `data[i:end]`, then the chunks from `end` on. */
  lemma NextChunk(data: seq<Record>, i: nat, end: nat)
    requires i < |data| && end == (if i + InsertChunk < |data| then i + InsertChunk else |data|)
    ensures Chunks(data[i..], InsertChunk) == [data[i..end]] + Chunks(data[end..], InsertChunk)
  {
    var rest := data[i..];
    var n := if |rest| < InsertChunk then |rest| else InsertChunk;
    assert rest[..n] == data[i..end] && rest[n..] == data[end..];
  }

  /** When `data[i:end]` is the next chunk to send, the chunks sent so far are the leading ones. */
  lemma FailedChunk(data: seq<Record>, i: nat, end: nat, sent: seq<seq<Record>>)
    requires i < |data| && end == (if i + InsertChunk < |data| then i + InsertChunk else |data|)
    requires sent + Chunks(data[i..], InsertChunk) == Chunks(data, InsertChunk)
    ensures |sent| < |Chunks(data, InsertChunk)|
    ensures Chunks(data, InsertChunk)[..|sent|] == sent
    ensures Chunks(data, InsertChunk)[|sent|] == data[i..end]
  {
    NextChunk(data, i, end);
    assert (sent + Chunks(data[i..], InsertChunk))[|sent|] == data[i..end];
  }

  /** Sending `data[i:end]` moves one chunk from the pending chunks to the sent ones. */
  lemma InsertStep(data: seq<Record>, i: nat, end: nat, sent: seq<seq<Record>>, inserts: seq<Event>, e: Event)
    requires i < |data| && end == (if i + InsertChunk < |data| then i + InsertChunk else |data|)
    requires sent + Chunks(data[i..], InsertChunk) == Chunks(data, InsertChunk)
    requires InsertsOf(inserts, sent) && Inserted(inserts) == data[..i]
    requires e == Event(InsertBatch(data[i..end]), e.reply) && e.reply.Timed?
    ensures sent + [data[i..end]] + Chunks(data[end..], InsertChunk) == Chunks(data, InsertChunk)
    ensures InsertsOf(inserts + [e], sent + [data[i..end]])
    ensures Inserted(inserts + [e]) == data[..end]
  {
    NextChunk(data, i, end);
    Regroup(sent, [data[i..end]], Chunks(data[end..], InsertChunk));
    InsertedAppend(inserts, [e]);
    assert Inserted([e]) == data[i..end] by {
      assert [e][1..] == [];
    }
    assert data[..i] + data[i..end] == data[..end];
    var both := inserts + [e];
    forall j | 0 <= j < |both|
      ensures both[j].call == InsertBatch((sent + [data[i..end]])[j]) && both[j].reply.Timed?
    {
      if j < |inserts| {
        assert both[j] == inserts[j] && (sent + [data[i..end]])[j] == sent[j];
      }
    }
  }

  /** One row of the detailed load-test table. */
  datatype IterationRow = IterationRow(iteration: nat, latency: LatencySummary, min: real, max: real, queriesCount: nat)

  /** The row an iteration's latencies produce. */
  function IterationRowOf(number: nat, latencies: seq<real>): IterationRow
    requires latencies != []
  {
    IterationRow(number, Summarize(latencies), Smallest(latencies), Largest(latencies), |latencies|)
  }

  /** A measured query: 20 to 30 codigos at distinct positions of all loaded codigos, completed. */
  ghost predicate MeasuredQuery(e: Event, codigos: seq<Value>) {
    && e.call.QueryByCodigo?
    && 20 <= |e.call.codigos| <= 30
    && multiset(e.call.codigos) <= multiset(codigos)
    && e.reply.Timed?
  }

  /** The 50 measured queries of one iteration. */
  ghost predicate MeasuredBlock(block: seq<Event>, codigos: seq<Value>) {
    && |block| == 50
    && forall m :: 0 <= m < |block| ==> MeasuredQuery(block[m], codigos)
  }

  /**
   * One iteration of the measured load: 50 queries, each of `randint(20, 30)`
   * codigos drawn by `random.sample`; a sample larger than the codigo list
   * raises ValueError and a failing query propagates.
   */
  method MeasuredIteration(b: Backend, codigos: seq<Value>, number: nat)
    returns (r: Result<IterationRow>, ghost block: seq<Event>)
    modifies b
    ensures old(b.trace) <= b.trace
    ensures |codigos| < 20 ==> r.Failure? && r.error.ValueError? && b.trace == old(b.trace)
    ensures NoTeardownSince(b.trace, |old(b.trace)|)
    ensures r.Failure? ==> (r.error.ValueError? && |codigos| < 30) || RaisedSince(b.trace, |old(b.trace)|, r.error)
    ensures r.Success? ==> b.trace == old(b.trace) + block && MeasuredBlock(block, codigos)
    ensures r.Success? ==> r.value == IterationRowOf(number, Durations(block)) && r.value.queriesCount == 50
  {
    block := [];
    var latencies: seq<real> := [];
    var j := 0;
    while j < 50
      invariant 0 <= j <= 50 && |block| == j
      invariant b.trace == old(b.trace) + block
      invariant forall m :: 0 <= m < j ==> MeasuredQuery(block[m], codigos)
      invariant latencies == Durations(block) && |latencies| == j
      invariant |codigos| < 20 ==> j == 0
      invariant NoTeardownSince(b.trace, |old(b.trace)|)
    {
      var size: nat :| 20 <= size <= 30;
      var picked := SampleWithoutReplacement(codigos, size);
      if picked.Failure? {
        return Failure(picked.error), block;
      }
      var took := b.Perform(QueryByCodigo(picked.value));
      if !took.Timed? {
        return Failure(BackendError(took.message)), block;
      }
      ghost var e := Event(QueryByCodigo(picked.value), took);
      DurationsAppend(block, [e]);
      Regroup(old(b.trace), block, [e]);
      forall m | 0 <= m <= j ensures MeasuredQuery((block + [e])[m], codigos) {
        if m < j {
          assert (block + [e])[m] == block[m];
        }
      }
      block := block + [e];
      latencies := latencies + [took.seconds];
      j := j + 1;
    }
    r := Success(IterationRowOf(number, latencies));
  }

  /** Iteration k (from 0) of the measured load is reported as row k + 1. */
  ghost predicate MeasuredRows(rows: seq<IterationRow>, blocks: seq<seq<Event>>, codigos: seq<Value>) {
    && |rows| == |blocks|
    && forall k :: 0 <= k < |blocks| ==>
         && MeasuredBlock(blocks[k], codigos)
         && rows[k] == IterationRowOf(k + 1, Durations(blocks[k]))
  }

  /** The `num_iterations` iterations of the measured load, one detailed row each. */
  method MeasuredLoad(b: Backend, codigos: seq<Value>, numIterations: int)
    returns (r: Result<seq<IterationRow>>, ghost blocks: seq<seq<Event>>)
    modifies b
    ensures old(b.trace) <= b.trace
    ensures numIterations > 0 && |codigos| < 20 ==> r.Failure? && r.error.ValueError?
    ensures NoTeardownSince(b.trace, |old(b.trace)|)
    ensures r.Failure? ==>
      && numIterations > 0
      && ((r.error.ValueError? && |codigos| < 30) || RaisedSince(b.trace, |old(b.trace)|, r.error))
    ensures r.Success? ==>
      && |r.value| == (if numIterations > 0 then numIterations else 0)
      && b.trace == old(b.trace) + Flatten(blocks)
      && MeasuredRows(r.value, blocks, codigos)
  {
    blocks := [];
    var rows: seq<IterationRow> := [];
    var i := 0;
    while i < numIterations
      invariant 0 <= i && (numIterations > 0 ==> i <= numIterations) && (numIterations <= 0 ==> i == 0)
      invariant |rows| == i
      invariant b.trace == old(b.trace) + Flatten(blocks)
      invariant MeasuredRows(rows, blocks, codigos)
      invariant |codigos| < 20 ==> i == 0
      invariant NoTeardownSince(b.trace, |old(b.trace)|)
    {
      ghost var done := b.trace;
      var row, block := MeasuredIteration(b, codigos, i + 1);
      NoTeardownChain(done, b.trace, |old(b.trace)|);
      if row.Failure? {
        return Failure(row.error), blocks;
      }
      FlattenAppend(blocks, block);
      Regroup(old(b.trace), Flatten(blocks), block);
      MeasuredRowsExtend(rows, blocks, codigos, row.value, block);
      rows := rows + [row.value];
      blocks := blocks + [block];
      i := i + 1;
    }
    r := Success(rows);
  }

  lemma MeasuredRowsExtend(rows: seq<IterationRow>, blocks: seq<seq<Event>>, codigos: seq<Value>, row: IterationRow, block: seq<Event>)
    requires MeasuredRows(rows, blocks, codigos)
    requires MeasuredBlock(block, codigos) && row == IterationRowOf(|blocks| + 1, Durations(block))
    ensures MeasuredRows(rows + [row], blocks + [block], codigos)
  {
    forall k | 0 <= k < |blocks| + 1
      ensures MeasuredBlock((blocks + [block])[k], codigos)
      ensures (rows + [row])[k] == IterationRowOf(k + 1, Durations((blocks + [block])[k]))
    {
      if k < |blocks| {
        assert (blocks + [block])[k] == blocks[k] && (rows + [row])[k] == rows[k];
      }
    }
  }

  /** The single row of the load-test summary table. */
  datatype LoadSummary = LoadSummary(
    database: string,
    totalIterations: int,
    queriesPerIteration: nat,
    batchSizeMin: nat,
    batchSizeMax: nat,
    overallMean: real,
    overallMedian: real,
    overallP95: real,
    overallP99: real)

  /** The columns of the detailed table the summary reads. */
  function MeanColumn(rows: seq<IterationRow>): (c: seq<real>)
    ensures |c| == |rows| && forall k :: 0 <= k < |rows| ==> c[k] == rows[k].latency.mean
  {
    seq(|rows|, k requires 0 <= k < |rows| => rows[k].latency.mean)
  }

  function MedianColumn(rows: seq<IterationRow>): (c: seq<real>)
    ensures |c| == |rows| && forall k :: 0 <= k < |rows| ==> c[k] == rows[k].latency.median
  {
    seq(|rows|, k requires 0 <= k < |rows| => rows[k].latency.median)
  }

  function P95Column(rows: seq<IterationRow>): (c: seq<real>)
    ensures |c| == |rows| && forall k :: 0 <= k < |rows| ==> c[k] == rows[k].latency.p95
  {
    seq(|rows|, k requires 0 <= k < |rows| => rows[k].latency.p95)
  }

  function P99Column(rows: seq<IterationRow>): (c: seq<real>)
    ensures |c| == |rows| && forall k :: 0 <= k < |rows| ==> c[k] == rows[k].latency.p99
  {
    seq(|rows|, k requires 0 <= k < |rows| => rows[k].latency.p99)
  }

  function MinColumn(rows: seq<IterationRow>): (c: seq<real>)
    ensures |c| == |rows| && forall k :: 0 <= k < |rows| ==> c[k] == rows[k].min
  {
    seq(|rows|, k requires 0 <= k < |rows| => rows[k].min)
  }

  function MaxColumn(rows: seq<IterationRow>): (c: seq<real>)
    ensures |c| == |rows| && forall k :: 0 <= k < |rows| ==> c[k] == rows[k].max
  {
    seq(|rows|, k requires 0 <= k < |rows| => rows[k].max)
  }

  /**
   * The summary of the detailed rows: the mean of the per-iteration means,
   * the median of the per-iteration medians, and the 0.95 and 0.99 quantiles
   * of the per-iteration p95 and p99 values. With no rows the table has no
   * 'mean_latency' column and reading it raises KeyError.
   */
  function LoadSummaryOf(database: string, numIterations: int, rows: seq<IterationRow>): (r: Result<LoadSummary>)
    ensures r.Failure? <==> rows == []
    ensures r.Failure? ==> r.error == KeyError("mean_latency")
    ensures r.Success? ==>
      && r.value.database == database && r.value.totalIterations == numIterations
      && r.value.queriesPerIteration == 50 && r.value.batchSizeMin == 20 && r.value.batchSizeMax == 30
  {
    if rows == [] then Failure(KeyError("mean_latency"))
    else Success(LoadSummary(database, numIterations, 50, 20, 30,
      Mean(MeanColumn(rows)), Median(MedianColumn(rows)),
      Quantile(P95Column(rows), 0.95), Quantile(P99Column(rows), 0.99)))
  }

  /** A row whose figures lie in order between its extremes, as every iteration row's do. */
  ghost predicate RowInOrder(row: IterationRow) {
    && row.min <= row.latency.mean <= row.max
    && row.min <= row.latency.median <= row.max
    && row.min <= row.latency.p95 <= row.latency.p99 <= row.max
  }

  lemma IterationRowInOrder(number: nat, latencies: seq<real>)
    requires latencies != []
    ensures RowInOrder(IterationRowOf(number, latencies))
  {
    SummaryBetween(latencies);
  }

  /** When each entry of `lo` bounds the same entry of `hi`, the extremes keep that order. */
  lemma {:induction false} ExtremesDominated(lo: seq<real>, hi: seq<real>)
    requires |lo| == |hi| && lo != []
    requires forall k :: 0 <= k < |lo| ==> lo[k] <= hi[k]
    ensures Smallest(lo) <= Smallest(hi) && Largest(lo) <= Largest(hi)
  {
    SmallestIsLeast(lo);
    SmallestIsLeast(hi);
    LargestIsGreatest(lo);
    LargestIsGreatest(hi);
    var j :| 0 <= j < |hi| && hi[j] == Smallest(hi);
    assert Smallest(lo) <= lo[j];
    var m :| 0 <= m < |lo| && lo[m] == Largest(lo);
    assert hi[m] <= Largest(hi);
  }

  /** A figure between the least and the greatest of a column lies between any column that bounds it. */
  lemma WithinColumns(x: real, col: seq<real>, mins: seq<real>, maxs: seq<real>)
    requires col != [] && |col| == |mins| == |maxs|
    requires Smallest(col) <= x <= Largest(col)
    requires forall k :: 0 <= k < |col| ==> mins[k] <= col[k] <= maxs[k]
    ensures Smallest(mins) <= x <= Largest(maxs)
  {
    ExtremesDominated(mins, col);
    ExtremesDominated(col, maxs);
  }

  /**
   * Every overall figure of the summary lies between the fastest query of any
   * iteration and the slowest query of any iteration.
   */
  lemma SummaryWithinExtremes(database: string, numIterations: int, rows: seq<IterationRow>)
    requires rows != [] && forall k :: 0 <= k < |rows| ==> RowInOrder(rows[k])
    ensures var s := LoadSummaryOf(database, numIterations, rows).value;
      && Smallest(MinColumn(rows)) <= s.overallMean <= Largest(MaxColumn(rows))
      && Smallest(MinColumn(rows)) <= s.overallMedian <= Largest(MaxColumn(rows))
      && Smallest(MinColumn(rows)) <= s.overallP95 <= Largest(MaxColumn(rows))
      && Smallest(MinColumn(rows)) <= s.overallP99 <= Largest(MaxColumn(rows))
  {
    var mins, maxs := MinColumn(rows), MaxColumn(rows);
    MeanBetween(MeanColumn(rows));
    WithinColumns(Mean(MeanColumn(rows)), MeanColumn(rows), mins, maxs);
    MedianIsHalfQuantile(MedianColumn(rows));
    QuantileBetweenExtremes(MedianColumn(rows), 0.5);
    WithinColumns(Median(MedianColumn(rows)), MedianColumn(rows), mins, maxs);
    QuantileBetweenExtremes(P95Column(rows), 0.95);
    WithinColumns(Quantile(P95Column(rows), 0.95), P95Column(rows), mins, maxs);
    QuantileBetweenExtremes(P99Column(rows), 0.99);
    WithinColumns(Quantile(P99Column(rows), 0.99), P99Column(rows), mins, maxs);
  }

  /** The rows of a measured load are each in order, so its summary lies within the extremes. */
  lemma MeasuredRowsInOrder(rows: seq<IterationRow>, blocks: seq<seq<Event>>, codigos: seq<Value>)
    requires MeasuredRows(rows, blocks, codigos)
    ensures forall k :: 0 <= k < |rows| ==> RowInOrder(rows[k]) && rows[k].queriesCount == 50
  {
    forall k | 0 <= k < |rows| ensures RowInOrder(rows[k]) && rows[k].queriesCount == 50 {
      assert MeasuredBlock(blocks[k], codigos);
      forall m | 0 <= m < |blocks[k]| ensures blocks[k][m].reply.Timed? {
        assert MeasuredQuery(blocks[k][m], codigos);
      }
      DurationsOfAllTimed(blocks[k]);
      IterationRowInOrder(k + 1, Durations(blocks[k]));
    }
  }

  /**
   * The database a load test starts from: every record inserted in chunks of
   * 1000, then one record count, then the warmup queries (none when
   * `warmup_iterations` is not positive), all drawn from the codigos of the
   * first 50 records.
   */
  ghost predicate Prepared(data: seq<Record>, warmupIterations: int, inserts: seq<Event>, count: Event, warm: seq<Event>) {
    && InsertsOf(inserts, Chunks(data, InsertChunk)) && Inserted(inserts) == data
    && count.call == RecordCount && count.reply.Counted?
    && |warm| == (if warmupIterations > 0 then warmupIterations else 0)
    && (warm != [] ==> CodigosOf(Take(data, 50)).Success?)
    && forall i :: 0 <= i < |warm| ==> WarmupQuery(warm[i], CodigosOf(Take(data, 50)).value)
  }

  /**
   * The preparation phase of the runner's load test: insert the data 1000
   * records at a time, log the record count, and warm up on the first 1000
   * records when `warmup_iterations` > 0; the first exception propagates.
   */
  method PrepareLoad(b: Backend, data: seq<Record>, warmupIterations: int)
    returns (r: Outcome, ghost inserts: seq<Event>, ghost count: Event, ghost warm: seq<Event>)
    modifies b
    ensures old(b.trace) <= b.trace
    ensures NoTeardownSince(b.trace, |old(b.trace)|)
    ensures r.Fail? ==>
      || RaisedSince(b.trace, |old(b.trace)|, r.error)
      || (warmupIterations > 0 && r.error == KeyError("codigo") && CodigosOf(Take(data, 50)).Failure?)
      || (warmupIterations > 0 && r.error.ValueError? && data == [])
    ensures r.Pass? ==> b.trace == old(b.trace) + inserts + [count] + warm && Prepared(data, warmupIterations, inserts, count, warm)
  {
    count, warm := Event(RecordCount, Done), [];
    var loaded;
    loaded, inserts := InsertInChunks(b, data);
    if loaded.Fail? {
      return loaded, inserts, count, warm;
    }
    var total := b.Perform(RecordCount);
    count := Event(RecordCount, total);
    if total.Raised? {
      return Fail(BackendError(total.message)), inserts, count, warm;
    }
    if warmupIterations > 0 {
      ghost var before := b.trace;
      var warmed := Warmup(b, Take(data, InsertChunk), warmupIterations);
      NoTeardownChain(before, b.trace, |old(b.trace)|);
      assert Take(Take(data, InsertChunk), 50) == Take(data, 50);
      if warmed.Fail? {
        return warmed, inserts, count, warm;
      }
      warm := b.trace[|before|..];
      assert b.trace == before + warm;
      forall i | 0 <= i < |warm| ensures WarmupQuery(warm[i], CodigosOf(Take(data, 50)).value) {
        assert warm[i] == b.trace[|before| + i];
      }
    }
    r := Pass;
  }

  /**
   * From position `n` on, the trace holds a call to `first` followed only by
   * calls that are not teardowns: what every test stage does to its adapter.
   */
  ghost predicate StartsWith(trace: seq<Event>, n: nat, first: Call) {
    && n < |trace|
    && trace[n].call == first
    && NoTeardownSince(trace, n)
  }

  /**
   * The only ways the runner's load test fails on a trace that stood at `n`
   * events: a call to the engine raised and ended the test, some record lacks
   * its codigo, there are too few records to draw 30 codigos from (or none to
   * warm up on), or no iteration ran, leaving the summary without its
   * 'mean_latency' column.
   */
  ghost predicate LoadFails(error: Error, trace: seq<Event>, n: nat, data: seq<Record>, numIterations: int) {
    || RaisedSince(trace, n, error)
    || (error == KeyError("codigo") && CodigosOf(data).Failure?)
    || (error.ValueError? && |data| < 30)
    || (error == KeyError("mean_latency") && numIterations <= 0)
  }

  /** A `BenchmarkRunner`: the engine it was built for and, once initialized, its adapter. */
  class BenchmarkRunner {
    const dbName: string
    /** The parsed contents of the data file. */
    const fileData: seq<Record>
    const config: DbConfig
    var benchmark: Backend?

    /** `__init__` for a known engine; `NewRunner` is the constructor call that may raise. */
    constructor (dbName: string, fileData: seq<Record>)
      requires dbName in DbConfigs
      ensures this.dbName == dbName && this.fileData == fileData
      ensures config == DbConfigs[dbName] && benchmark == null
    {
      this.dbName := dbName;
      this.fileData := fileData;
      config := DbConfigs[dbName];
      benchmark := null;
    }

    /**
     * `initialize`: the adapter is created and stored before `connect` is
     * called, so a failed connect still leaves an adapter to disconnect.
     */
    method Initialize() returns (r: Outcome)
      modifies this
      ensures benchmark != null && fresh(benchmark)
      ensures benchmark.dbName == DbName(config.adapterClass)
      ensures |benchmark.trace| == 1 && benchmark.trace[0].call == Connect
      ensures r.Pass? <==> benchmark.trace[0].reply.Done?
      ensures r.Fail? ==> benchmark.trace[0].reply.Raised? && r.error == BackendError(benchmark.trace[0].reply.message)
    {
      var adapter := new Backend(config.adapterClass);
      benchmark := adapter;
      var reply := adapter.Perform(Connect);
      r := if reply.Raised? then Fail(BackendError(reply.message)) else Pass;
    }

    /** `cleanup`: disconnect the adapter if there is one; nothing otherwise. */
    method Cleanup() returns (r: Outcome, ghost reply: Reply)
      modifies benchmark
      ensures benchmark == null ==> r == Pass
      ensures benchmark != null ==>
        && benchmark.trace == old(benchmark.trace) + [Event(Disconnect, reply)]
        && (r.Pass? <==> reply.Done?)
        && (r.Fail? ==> reply.Raised? && r.error == BackendError(reply.message))
    {
      r, reply := Pass, Done;
      if benchmark != null {
        var answer := benchmark.Perform(Disconnect);
        reply := answer;
        if answer.Raised? {
          r := Fail(BackendError(answer.message));
        }
      }
    }

    /** `setup_schema`, whose exception propagates; AttributeError before `initialize`. */
    method SetUpSchema() returns (r: Outcome, ghost reply: Reply)
      modifies benchmark
      ensures benchmark == null ==> r == Fail(AttributeError("setup_schema"))
      ensures benchmark != null ==>
        && benchmark.trace == old(benchmark.trace) + [Event(SetupSchema, reply)]
        && (r.Pass? <==> reply.Done?)
        && (r.Fail? ==> reply.Raised? && r.error == BackendError(reply.message))
    {
      reply := Done;
      if benchmark == null {
        return Fail(AttributeError("setup_schema")), reply;
      }
      var answer := benchmark.Perform(SetupSchema);
      reply := answer;
      r := if answer.Raised? then Fail(BackendError(answer.message)) else Pass;
    }

    /**
     * `run_scalability_test`: set up the schema, load the data file (cut to
     * `max_records` when given), and run the scalability protocol on it.
     */
    method RunScalabilityTest(maxRecords: Option<int>, batchSize: int)
      returns (r: Result<seq<ScalabilityRow>>, ghost blocks: seq<seq<Event>>)
      modifies benchmark
      ensures benchmark == null ==> r == Failure(AttributeError("setup_schema"))
      ensures benchmark != null ==> old(benchmark.trace) <= benchmark.trace
      ensures benchmark != null ==> StartsWith(benchmark.trace, |old(benchmark.trace)|, SetupSchema)
      ensures benchmark != null && r.Failure? ==>
        ScalabilityFails(r.error, benchmark.trace, |old(benchmark.trace)|, LoadTestData(fileData, maxRecords), batchSize)
      ensures benchmark != null && r.Success? && batchSize > 0 ==>
        && |old(benchmark.trace)| < |benchmark.trace|
        && benchmark.trace[|old(benchmark.trace)|] == Event(SetupSchema, Done)
        && |r.value| == |LoadTestData(fileData, maxRecords)| / batchSize
        && ScalabilityProgress(old(benchmark.trace) + [Event(SetupSchema, Done)], benchmark.trace,
                               LoadTestData(fileData, maxRecords), batchSize, blocks, r.value)
    {
      blocks := [];
      var setup, _ := SetUpSchema();
      if setup.Fail? {
        return Failure(setup.error), blocks;
      }
      var b := benchmark;
      ghost var schema := b.trace;
      var data := LoadTestData(fileData, maxRecords);
      r, blocks := Protocols.RunScalabilityTest(b, data, batchSize);
      NoTeardownChain(schema, b.trace, |old(b.trace)|);
    }

    /**
     * `run_load_test` of the runner: set up the schema, load the data and
     * prepare the database with it, collect every codigo, then run
     * `num_iterations` iterations of 50 measured queries and summarise them.
     * Every exception propagates. The `batch_size` argument is not used.
     */
    method RunLoadTest(numIterations: int, batchSize: int, maxRecords: Option<int>, warmupIterations: int)
      returns (r: Result<(seq<IterationRow>, LoadSummary)>, ghost inserts: seq<Event>, ghost count: Event,
               ghost warm: seq<Event>, ghost blocks: seq<seq<Event>>)
      modifies benchmark
      ensures benchmark == null ==> r == Failure(AttributeError("setup_schema"))
      ensures benchmark != null ==> old(benchmark.trace) <= benchmark.trace
      ensures benchmark != null ==> StartsWith(benchmark.trace, |old(benchmark.trace)|, SetupSchema)
      ensures benchmark != null && r.Failure? ==>
        LoadFails(r.error, benchmark.trace, |old(benchmark.trace)|, LoadTestData(fileData, maxRecords), numIterations)
      ensures r.Success? ==> numIterations > 0 && benchmark != null
      ensures r.Success? ==>
        var data := LoadTestData(fileData, maxRecords);
        && benchmark.trace == old(benchmark.trace) + [Event(SetupSchema, Done)] + inserts + [count] + warm + Flatten(blocks)
        && Prepared(data, warmupIterations, inserts, count, warm)
        && CodigosOf(data).Success?
        && |r.value.0| == numIterations
        && MeasuredRows(r.value.0, blocks, CodigosOf(data).value)
        && r.value.1 == LoadSummaryOf(dbName, numIterations, r.value.0).value
    {
      inserts, count, warm, blocks := [], Event(RecordCount, Done), [], [];
      var setup, _ := SetUpSchema();
      if setup.Fail? {
        return Failure(setup.error), inserts, count, warm, blocks;
      }
      var b := benchmark;
      ghost var schema := b.trace;
      var data := LoadTestData(fileData, maxRecords);
      var prepared;
      prepared, inserts, count, warm := PrepareLoad(b, data, warmupIterations);
      NoTeardownChain(schema, b.trace, |old(b.trace)|);
      if prepared.Fail? {
        MissingCodigoInPrefix(data, |Take(data, 50)|);
        return Failure(prepared.error), inserts, count, warm, blocks;
      }
      var codigos := CodigosOf(data);
      if codigos.Failure? {
        return Failure(codigos.error), inserts, count, warm, blocks;
      }
      ghost var ready := b.trace;
      var rows;
      rows, blocks := MeasuredLoad(b, codigos.value, numIterations);
      NoTeardownChain(ready, b.trace, |old(b.trace)|);
      if rows.Failure? {
        return Failure(rows.error), inserts, count, warm, blocks;
      }
      var summary := LoadSummaryOf(dbName, numIterations, rows.value);
      if summary.Failure? {
        return Failure(summary.error), inserts, count, warm, blocks;
      }
      r := Success((rows.value, summary.value));
    }

    /**
     * `run_substring_test`: count the records; only an empty database is
     * loaded from the data file (1000 records at a time) before the
     * substring-search protocol runs.
     */
    method RunSubstringTest(patterns: seq<string>, iterations: int, maxRecords: Option<int>)
      returns (r: Result<seq<SubstringRow>>, ghost count: Event, ghost inserts: seq<Event>, ghost blocks: seq<seq<Event>>)
      modifies benchmark
      ensures benchmark == null ==> r == Failure(AttributeError("get_record_count"))
      ensures benchmark != null ==> old(benchmark.trace) <= benchmark.trace
      ensures benchmark != null ==> StartsWith(benchmark.trace, |old(benchmark.trace)|, RecordCount)
      ensures benchmark != null && r.Failure? ==> RaisedSince(benchmark.trace, |old(benchmark.trace)|, r.error)
      ensures r.Success? ==>
        && benchmark != null && count.call == RecordCount && count.reply.Counted?
        && (count.reply.n != 0 ==> inserts == [])
        && (count.reply.n == 0 ==> Inserted(inserts) == LoadTestData(fileData, maxRecords))
        && benchmark.trace == old(benchmark.trace) + [count] + inserts + Flatten(blocks)
        && |blocks| == |patterns|
        && r.value == SubstringRows(patterns, blocks)
    {
      count, inserts, blocks := Event(RecordCount, Done), [], [];
      if benchmark == null {
        return Failure(AttributeError("get_record_count")), count, inserts, blocks;
      }
      var b := benchmark;
      var total := b.Perform(RecordCount);
      count := Event(RecordCount, total);
      if total.Raised? {
        return Failure(BackendError(total.message)), count, inserts, blocks;
      }
      ghost var counted := b.trace;
      if total.n == 0 {
        var data := LoadTestData(fileData, maxRecords);
        var loaded;
        loaded, inserts := InsertInChunks(b, data);
        NoTeardownChain(counted, b.trace, |old(b.trace)|);
        if loaded.Fail? {
          return Failure(loaded.error), count, inserts, blocks;
        }
      }
      assert b.trace == old(b.trace) + [count] + inserts;
      ghost var loadedTrace := b.trace;
      var rows;
      rows, blocks := RunSubstringSearchTest(b, patterns, iterations);
      NoTeardownChain(loadedTrace, b.trace, |old(b.trace)|);
      Regroup(old(b.trace) + [count], inserts, Flatten(blocks));
      r := Success(rows);
    }
  }

  /**
   * The construction `BenchmarkRunner(db_name, data_file)`, which raises
   * ValueError for an engine that is not configured.
   */
  method NewRunner(dbName: string, fileData: seq<Record>) returns (r: Result<BenchmarkRunner>)
    ensures r.Failure? <==> dbName !in DbConfigs
    ensures r.Failure? ==> r.error == ValueError("Unknown database: " + dbName)
    ensures r.Success? ==>
      && fresh(r.value) && r.value.benchmark == null
      && r.value.dbName == dbName && r.value.config == DbConfigs[dbName]
  {
    if dbName !in DbConfigs {
      return Failure(ValueError("Unknown database: " + dbName));
    }
    var runner := new BenchmarkRunner(dbName, fileData);
    r := Success(runner);
  }

  /** The `--test` choice. */
  datatype TestChoice = Scalability | Load | Substring | All

  /** The stages of a run, in the order `main` performs them. */
  datatype Stage = InitializeStage | ScalabilityStage | LoadStage | SubstringStage | TeardownStage

  /** The stages `main` attempts after `initialize`, for a test choice and teardown flag. */
  function Steps(test: TestChoice, teardown: bool): (s: seq<Stage>)
    ensures InitializeStage !in s
    ensures forall k :: 0 <= k < |s| ==> (s[k] == TeardownStage <==> teardown && k == |s| - 1)
    ensures teardown ==> s != []
  {
    (if test == Scalability || test == All then [ScalabilityStage] else [])
    + (if test == Load || test == All then [LoadStage] else [])
    + (if test == Substring || test == All then [SubstringStage] else [])
    + (if teardown then [TeardownStage] else [])
  }

  /** Every stage `main` attempts, in order. */
  function Plan(test: TestChoice, teardown: bool): seq<Stage> {
    [InitializeStage] + Steps(test, teardown)
  }

  /**
   * The plan starts with `initialize`, runs the selected tests in the fixed
   * order scalability, load, substring ('all' selects the three), and ends
   * with teardown exactly when the flag is set.
   */
  lemma PlanOrder(test: TestChoice, teardown: bool)
    ensures Plan(test, teardown)[0] == InitializeStage && InitializeStage !in Plan(test, teardown)[1..]
    ensures teardown ==> Plan(test, teardown)[|Plan(test, teardown)| - 1] == TeardownStage
    ensures test == All ==> Plan(test, teardown)[..4] == [InitializeStage, ScalabilityStage, LoadStage, SubstringStage]
  {
    assert Plan(test, teardown)[1..] == Steps(test, teardown);
  }

  /** A stage is attempted exactly when the test choice or the teardown flag selects it. */
  lemma PlanSelects(test: TestChoice, teardown: bool)
    ensures TeardownStage in Plan(test, teardown) <==> teardown
    ensures ScalabilityStage in Plan(test, teardown) <==> test == Scalability || test == All
    ensures LoadStage in Plan(test, teardown) <==> test == Load || test == All
    ensures SubstringStage in Plan(test, teardown) <==> test == Substring || test == All
  {
  }

  /** The patterns `main` searches for in the substring test. */
  const SubstringPatterns: seq<string> :=
    ["empresa", "ltda", "silva", "santos", "oliveira", "software", "sistemas", "consultoria", "servicos", "comercio"]

  /** The outcome of a stage, from the result of the runner method that performs it. */
  function Completed<R>(r: Result<R>): (o: Outcome)
    ensures o.Pass? <==> r.Success?
    ensures o.Fail? ==> o.error == r.error
  {
    if r.Success? then Pass else Fail(r.error)
  }

  /** What a stage hands back: the result of the test it ran, or nothing for teardown. */
  datatype StageReport =
    | ScalabilityReport(scalability: Result<seq<ScalabilityRow>>)
    | LoadReport(load: Result<(seq<IterationRow>, LoadSummary)>)
    | SubstringReport(substring: Result<seq<SubstringRow>>)
    | TornDown

  /**
   * The calls a stage makes on the adapter, `events`, given its outcome:
   * initialize and teardown make one call each, `connect` and `teardown`, and
   * pass exactly when it completes; each test starts with its own first call
   * (`setup_schema`, or the record count for the substring test) and never
   * tears down; the substring test fails only when its last call raised.
   */
  ghost predicate StageEvents(stage: Stage, events: seq<Event>, o: Outcome) {
    match stage
    case InitializeStage => |events| == 1 && events[0].call == Connect && (o.Pass? <==> events[0].reply.Done?)
    case ScalabilityStage => StartsWith(events, 0, SetupSchema)
    case LoadStage => StartsWith(events, 0, SetupSchema)
    case SubstringStage => StartsWith(events, 0, RecordCount) && (o.Fail? ==> RaisedSince(events, 0, o.error))
    case TeardownStage => |events| == 1 && events[0].call == Teardown && (o.Pass? <==> events[0].reply.Done?)
  }

  /** What a test did from position `n` of the trace on, seen as the events it added. */
  lemma StageSlice(trace: seq<Event>, n: nat, first: Call, o: Outcome)
    requires StartsWith(trace, n, first)
    ensures StartsWith(trace[n..], 0, first)
    ensures o.Fail? && RaisedSince(trace, n, o.error) ==> RaisedSince(trace[n..], 0, o.error)
  {
    var events := trace[n..];
    forall j | 0 <= j < |events| ensures !events[j].call.Teardown? {
      assert events[j] == trace[n + j];
    }
  }

  /** Stage `stage` of a run with these settings, on an initialized runner. */
  method RunStage(runner: BenchmarkRunner, stage: Stage, maxRecords: Option<int>, batchSize: int, iterations: int, warmup: int)
    returns (o: Outcome, report: StageReport, ghost events: seq<Event>)
    requires stage != InitializeStage
    modifies runner.benchmark
    ensures runner.benchmark == null ==> o.Fail? && o.error.AttributeError?
    ensures runner.benchmark != null ==>
      && runner.benchmark.trace == old(runner.benchmark.trace) + events
      && StageEvents(stage, events, o)
    ensures stage == ScalabilityStage ==> report.ScalabilityReport? && o == Completed(report.scalability)
    ensures stage == LoadStage ==> report.LoadReport? && o == Completed(report.load)
    ensures stage == SubstringStage ==> report.SubstringReport? && o == Completed(report.substring)
    ensures stage == TeardownStage ==> report == TornDown
    ensures stage == ScalabilityStage && runner.benchmark != null && o.Fail? ==>
      ScalabilityFails(o.error, runner.benchmark.trace, |old(runner.benchmark.trace)|,
                       LoadTestData(runner.fileData, maxRecords), batchSize)
    ensures stage == ScalabilityStage && report.ScalabilityReport? && report.scalability.Success? && batchSize > 0 ==>
      |report.scalability.value| == |LoadTestData(runner.fileData, maxRecords)| / batchSize
    ensures stage == LoadStage && runner.benchmark != null && o.Fail? ==>
      LoadFails(o.error, runner.benchmark.trace, |old(runner.benchmark.trace)|,
                LoadTestData(runner.fileData, maxRecords), iterations)
    ensures stage == LoadStage && report.LoadReport? && report.load.Success? ==>
      && |report.load.value.0| == iterations
      && LoadSummaryOf(runner.dbName, iterations, report.load.value.0) == Success(report.load.value.1)
    ensures stage == SubstringStage && report.SubstringReport? && report.substring.Success? ==> |report.substring.value| <= |SubstringPatterns|
  {
    ghost var before := if runner.benchmark != null then runner.benchmark.trace else [];
    events := [];
    match stage {
      case ScalabilityStage =>
        var r, _ := runner.RunScalabilityTest(maxRecords, batchSize);
        o, report := Completed(r), ScalabilityReport(r);
        if runner.benchmark != null {
          StageSlice(runner.benchmark.trace, |before|, SetupSchema, o);
        }
      case LoadStage =>
        var r, _, _, _, _ := runner.RunLoadTest(iterations, 25, maxRecords, warmup);
        o, report := Completed(r), LoadReport(r);
        if runner.benchmark != null {
          StageSlice(runner.benchmark.trace, |before|, SetupSchema, o);
        }
      case SubstringStage =>
        var r, _, _, blocks := runner.RunSubstringTest(SubstringPatterns, 100, maxRecords);
        o, report := Completed(r), SubstringReport(r);
        if r.Success? {
          SubstringRowsCount(SubstringPatterns, blocks);
        }
        if runner.benchmark != null {
          StageSlice(runner.benchmark.trace, |before|, RecordCount, o);
        }
      case TeardownStage =>
        report := TornDown;
        if runner.benchmark == null {
          o := Fail(AttributeError("teardown"));
        } else {
          var reply := runner.benchmark.Perform(Teardown);
          o := if reply.Raised? then Fail(BackendError(reply.message)) else Pass;
        }
    }
    if runner.benchmark != null {
      events := runner.benchmark.trace[|before|..];
      assert runner.benchmark.trace == before + events;
    }
  }

  /**
   * Since position `n` of the trace: no teardown call at all, or, when the
   * teardown stage was the last one attempted (`tornDown`), exactly one, made
   * last, which completed exactly when that stage's outcome `o` passed.
   */
  ghost predicate TeardownLast(trace: seq<Event>, n: nat, tornDown: bool, o: Outcome) {
    if tornDown then
      && n < |trace|
      && NoTeardownSince(trace[..|trace| - 1], n)
      && trace[|trace| - 1].call == Teardown
      && (o.Pass? <==> trace[|trace| - 1].reply.Done?)
    else
      NoTeardownSince(trace, n)
  }

  /**
   * The stages attempted, `ran`, are a non-empty prefix of `plan`, one
   * outcome each; every stage but the last passed, and the last passed only
   * when the whole plan ran.
   */
  ghost predicate RanInOrder(plan: seq<Stage>, ran: seq<Stage>, outcomes: seq<Outcome>) {
    && ran != [] && ran <= plan && |outcomes| == |ran|
    && (forall k :: 0 <= k < |ran| - 1 ==> outcomes[k].Pass?)
    && (outcomes[|ran| - 1].Pass? ==> ran == plan)
  }

  /** A stage run after a stretch without teardowns leaves the trace as `TeardownLast` says. */
  lemma StageStep(prev: seq<Event>, events: seq<Event>, n: nat, stage: Stage, o: Outcome)
    requires n <= |prev| && NoTeardownSince(prev, n)
    requires stage != InitializeStage && StageEvents(stage, events, o)
    ensures TeardownLast(prev + events, n, stage == TeardownStage, o)
  {
    var trace := prev + events;
    if stage == TeardownStage {
      assert trace[..|trace| - 1] == prev;
    } else {
      forall j | n <= j < |trace| ensures !trace[j].call.Teardown? {
        if j >= |prev| {
          assert trace[j] == events[j - |prev|];
        }
      }
    }
  }

  /**
   * The stages after `initialize`, in order, until one of them fails: one
   * outcome per stage attempted, all passing but possibly the last, and the
   * run ends early only at a failure. The trace grows by each stage's events
   * in turn, and a teardown, which can only be the last step, is the last call.
   */
  method RunSteps(runner: BenchmarkRunner, steps: seq<Stage>, maxRecords: Option<int>, batchSize: int, iterations: int, warmup: int)
    returns (outcomes: seq<Outcome>, ghost segments: seq<seq<Event>>)
    requires InitializeStage !in steps && runner.benchmark != null
    requires forall k :: 0 <= k < |steps| - 1 ==> steps[k] != TeardownStage
    modifies runner.benchmark
    ensures runner.benchmark.trace == old(runner.benchmark.trace) + Flatten(segments)
    ensures |outcomes| <= |steps| && |segments| == |outcomes|
    ensures forall k :: 0 <= k < |outcomes| ==> StageEvents(steps[k], segments[k], outcomes[k])
    ensures forall k :: 0 <= k < |outcomes| - 1 ==> outcomes[k].Pass?
    ensures |outcomes| < |steps| ==> outcomes != [] && outcomes[|outcomes| - 1].Fail?
    ensures TeardownLast(runner.benchmark.trace, |old(runner.benchmark.trace)|,
                         outcomes != [] && steps[|outcomes| - 1] == TeardownStage,
                         if outcomes == [] then Pass else outcomes[|outcomes| - 1])
  {
    outcomes, segments := [], [];
    var k := 0;
    while k < |steps|
      invariant 0 <= k <= |steps| && |outcomes| == k && |segments| == k
      invariant runner.benchmark.trace == old(runner.benchmark.trace) + Flatten(segments)
      invariant forall m :: 0 <= m < k ==> outcomes[m].Pass? && StageEvents(steps[m], segments[m], outcomes[m])
      invariant TeardownLast(runner.benchmark.trace, |old(runner.benchmark.trace)|,
                             k > 0 && steps[k - 1] == TeardownStage, if k == 0 then Pass else outcomes[k - 1])
    {
      ghost var prev := runner.benchmark.trace;
      var o, _, events := RunStage(runner, steps[k], maxRecords, batchSize, iterations, warmup);
      StageStep(prev, events, |old(runner.benchmark.trace)|, steps[k], o);
      FlattenAppend(segments, events);
      Regroup(old(runner.benchmark.trace), Flatten(segments), events);
      ghost var passed, done := outcomes, segments;
      outcomes, segments := outcomes + [o], segments + [events];
      forall m | 0 <= m <= k ensures StageEvents(steps[m], segments[m], outcomes[m]) {
        if m < k {
          assert outcomes[m] == passed[m] && segments[m] == done[m];
        }
      }
      if o.Fail? {
        forall m | 0 <= m < k ensures outcomes[m].Pass? {
          assert outcomes[m] == passed[m];
        }
        return;
      }
      forall m | 0 <= m <= k ensures outcomes[m].Pass? {
        assert m < k ==> outcomes[m] == passed[m];
      }
      k := k + 1;
    }
  }

  /** The steps after `initialize`: a teardown, if any, comes last. */
  ghost predicate TeardownAtEnd(steps: seq<Stage>, teardown: bool) {
    && InitializeStage !in steps
    && (teardown ==> steps != [])
    && (forall k :: 0 <= k < |steps| ==> (steps[k] == TeardownStage <==> teardown && k == |steps| - 1))
  }

  /** The outcomes of `initialize` and of the stages after it make an orderly prefix of the plan. */
  lemma RanPrefix(steps: seq<Stage>, o: Outcome, rest: seq<Outcome>)
    requires o.Fail? ==> rest == []
    requires |rest| <= |steps|
    requires forall k :: 0 <= k < |rest| - 1 ==> rest[k].Pass?
    requires |rest| < |steps| ==> o.Fail? || (rest != [] && rest[|rest| - 1].Fail?)
    ensures RanInOrder([InitializeStage] + steps, ([InitializeStage] + steps)[..|rest| + 1], [o] + rest)
  {
    var plan, outcomes := [InitializeStage] + steps, [o] + rest;
    forall k | 0 <= k < |outcomes| - 1 ensures outcomes[k].Pass? {
      if k > 0 {
        assert outcomes[k] == rest[k - 1];
      }
    }
    if outcomes[|outcomes| - 1].Pass? {
      assert plan[..|rest| + 1] == plan;
    }
  }

  /** The stage reached after `n` steps is the teardown exactly when the flag is set and the whole plan ran. */
  lemma WholePlanTornDown(steps: seq<Stage>, teardown: bool, n: nat)
    requires TeardownAtEnd(steps, teardown) && n <= |steps|
    ensures (n > 0 && steps[n - 1] == TeardownStage) <==> (teardown && ([InitializeStage] + steps)[..n + 1] == [InitializeStage] + steps)
  {
    var plan := [InitializeStage] + steps;
    if n == |steps| {
      assert plan[..n + 1] == plan;
    } else {
      assert |plan[..n + 1]| < |plan|;
    }
  }

  /**
   * After `initialize` and the stages after it, seen from the adapter's
   * `trace`: the stages attempted, `ran`, are an orderly prefix of the
   * `plan`, each after the first with its own events, and the trace holds a
   * teardown call, as its last call, exactly when the flag is set and the
   * whole plan ran.
   */
  ghost predicate Attempted(plan: seq<Stage>, teardown: bool, trace: seq<Event>,
                            ran: seq<Stage>, outcomes: seq<Outcome>, segments: seq<seq<Event>>) {
    && RanInOrder(plan, ran, outcomes)
    && |segments| == |ran| - 1
    && (forall k :: 0 <= k < |segments| ==> StageEvents(ran[k + 1], segments[k], outcomes[k + 1]))
    && TeardownLast(trace, 1, teardown && ran == plan, outcomes[|outcomes| - 1])
  }

  /**
   * What `initialize` and the stages after it leave behind, seen against the
   * plan `initialize` followed by `steps`.
   */
  lemma PlanRan(steps: seq<Stage>, teardown: bool, o: Outcome, rest: seq<Outcome>, segments: seq<seq<Event>>, trace: seq<Event>,
                ran: seq<Stage>, outcomes: seq<Outcome>)
    requires TeardownAtEnd(steps, teardown)
    requires o.Fail? ==> rest == []
    requires |rest| <= |steps| && |segments| == |rest|
    requires ran == ([InitializeStage] + steps)[..|rest| + 1] && outcomes == [o] + rest
    requires forall k :: 0 <= k < |rest| ==> StageEvents(steps[k], segments[k], rest[k])
    requires forall k :: 0 <= k < |rest| - 1 ==> rest[k].Pass?
    requires |rest| < |steps| ==> o.Fail? || (rest != [] && rest[|rest| - 1].Fail?)
    requires TeardownLast(trace, 1, rest != [] && steps[|rest| - 1] == TeardownStage,
                          if rest == [] then Pass else rest[|rest| - 1])
    ensures Attempted([InitializeStage] + steps, teardown, trace, ran, outcomes, segments)
  {
    RanPrefix(steps, o, rest);
    forall k | 0 <= k < |segments| ensures StageEvents(ran[k + 1], segments[k], outcomes[k + 1]) {
      assert ran[k + 1] == steps[k] && outcomes[k + 1] == rest[k];
    }
    WholePlanTornDown(steps, teardown, |rest|);
    if rest != [] {
      assert outcomes[|outcomes| - 1] == rest[|rest| - 1];
    }
  }

  /**
   * The adapter's whole trace, ending with `disconnect`: when the run tore
   * down, the call just before `disconnect` is the one `teardown`, and it
   * completed exactly when the last outcome `o` passed; otherwise there is no
   * `teardown` call anywhere.
   */
  ghost predicate TeardownBeforeDisconnect(trace: seq<Event>, tornDown: bool, o: Outcome) {
    if tornDown then
      && |trace| >= 2
      && NoTeardownSince(trace[..|trace| - 2], 0)
      && trace[|trace| - 2].call == Teardown
      && (o.Pass? <==> trace[|trace| - 2].reply.Done?)
    else
      NoTeardownSince(trace, 0)
  }

  /** `connect`, then the stages, then `disconnect`, neither of which is a teardown. */
  lemma Disconnected(connect: Event, stages: seq<Event>, last: Event, tornDown: bool, o: Outcome)
    requires !connect.call.Teardown? && !last.call.Teardown?
    requires TeardownLast([connect] + stages, 1, tornDown, o)
    ensures var all := [connect] + stages + [last];
      && |all| >= 2 && all[0] == connect && all[|all| - 1] == last
      && all == [all[0]] + stages + [all[|all| - 1]]
      && TeardownBeforeDisconnect(all, tornDown, o)
  {
    var trace := [connect] + stages;
    var all := trace + [last];
    if tornDown {
      assert all[..|all| - 2] == trace[..|trace| - 1];
      assert all[|all| - 2] == trace[|trace| - 1];
    } else {
      forall j | 0 <= j < |all| ensures !all[j].call.Teardown? {
        if 0 < j < |trace| {
          assert all[j] == trace[j];
        }
      }
    }
  }

  /**
   * The `try` block of `main` on a freshly constructed runner: `initialize`,
   * then the planned stages in order until one raises. The adapter's trace is
   * the `connect` call followed by each attempted stage's events.
   */
  method AttemptPlan(runner: BenchmarkRunner, test: TestChoice, maxRecords: Option<int>,
                     batchSize: int, iterations: int, warmup: int, teardown: bool)
    returns (outcomes: seq<Outcome>, ghost ran: seq<Stage>, ghost connect: Event, ghost segments: seq<seq<Event>>)
    modifies runner
    ensures runner.benchmark != null && fresh(runner.benchmark)
    ensures runner.benchmark.trace == [connect] + Flatten(segments)
    ensures connect.call == Connect && |outcomes| >= 1 && (outcomes[0].Pass? <==> connect.reply.Done?)
    ensures Attempted(Plan(test, teardown), teardown, runner.benchmark.trace, ran, outcomes, segments)
  {
    var o := runner.Initialize();
    connect := runner.benchmark.trace[0];
    assert runner.benchmark.trace == [connect];
    var steps := Steps(test, teardown);
    assert TeardownAtEnd(steps, teardown);
    if o.Fail? {
      outcomes, ran, segments := [o], Plan(test, teardown)[..1], [];
      PlanRan(steps, teardown, o, [], [], [connect], ran, outcomes);
      return;
    }
    var rest;
    rest, segments := RunSteps(runner, steps, maxRecords, batchSize, iterations, warmup);
    outcomes, ran := [o] + rest, Plan(test, teardown)[..|rest| + 1];
    PlanRan(steps, teardown, o, rest, segments, runner.benchmark.trace, ran, outcomes);
  }

  /**
   * The body of `main`'s `try`/`finally` on a freshly constructed runner:
   * `AttemptPlan`, then `cleanup`, whose own exception, if any, replaces the
   * one propagated.
   */
  method RunPlan(runner: BenchmarkRunner, test: TestChoice, maxRecords: Option<int>,
                 batchSize: int, iterations: int, warmup: int, teardown: bool)
    returns (r: Outcome, ghost ran: seq<Stage>, ghost outcomes: seq<Outcome>, cleanup: Outcome,
             ghost adapter: Backend, ghost segments: seq<seq<Event>>)
    modifies runner
    ensures RanInOrder(Plan(test, teardown), ran, outcomes)
    ensures r == (if cleanup.Fail? then cleanup else outcomes[|outcomes| - 1])
    ensures |adapter.trace| >= 2
    ensures adapter.trace == [adapter.trace[0]] + Flatten(segments) + [adapter.trace[|adapter.trace| - 1]]
    ensures adapter.trace[0].call == Connect && adapter.trace[|adapter.trace| - 1].call == Disconnect
    ensures outcomes[0].Pass? <==> adapter.trace[0].reply.Done?
    ensures cleanup.Pass? <==> adapter.trace[|adapter.trace| - 1].reply.Done?
    ensures |segments| == |ran| - 1
    ensures forall k :: 0 <= k < |segments| ==> StageEvents(ran[k + 1], segments[k], outcomes[k + 1])
    ensures TeardownBeforeDisconnect(adapter.trace, teardown && ran == Plan(test, teardown), outcomes[|outcomes| - 1])
  {
    var all;
    ghost var connect;
    all, ran, connect, segments := AttemptPlan(runner, test, maxRecords, batchSize, iterations, warmup, teardown);
    outcomes, adapter := all, runner.benchmark;
    ghost var reply;
    cleanup, reply := runner.Cleanup();
    Disconnected(connect, Flatten(segments), Event(Disconnect, reply), teardown && ran == Plan(test, teardown), all[|all| - 1]);
    r := if cleanup.Fail? then cleanup else all[|all| - 1];
  }



  /**
   * `main`: the runner is constructed outside the `try`, so an unknown engine
   * raises before any adapter exists; otherwise the plan runs as `RunPlan` says.
   */
  method RunBenchmarks(dbName: string, test: TestChoice, fileData: seq<Record>, maxRecords: Option<int>,
                       batchSize: int, iterations: int, warmup: int, teardown: bool)
    returns (r: Outcome, ghost ran: seq<Stage>, ghost outcomes: seq<Outcome>, cleanup: Outcome,
             ghost adapter: Backend?, ghost segments: seq<seq<Event>>)
    ensures dbName !in DbConfigs ==> r == Fail(ValueError("Unknown database: " + dbName)) && ran == [] && adapter == null
    ensures dbName in DbConfigs ==>
      && RanInOrder(Plan(test, teardown), ran, outcomes)
      && r == (if cleanup.Fail? then cleanup else outcomes[|outcomes| - 1])
      && adapter != null && |adapter.trace| >= 2
      && adapter.trace[0].call == Connect && adapter.trace[|adapter.trace| - 1].call == Disconnect
      && adapter.trace == [adapter.trace[0]] + Flatten(segments) + [adapter.trace[|adapter.trace| - 1]]
      && (outcomes[0].Pass? <==> adapter.trace[0].reply.Done?)
      && (cleanup.Pass? <==> adapter.trace[|adapter.trace| - 1].reply.Done?)
      && |segments| == |ran| - 1
      && (forall k :: 0 <= k < |segments| ==> StageEvents(ran[k + 1], segments[k], outcomes[k + 1]))
      && TeardownBeforeDisconnect(adapter.trace, teardown && ran == Plan(test, teardown), outcomes[|outcomes| - 1])
  {
    ran, outcomes, cleanup, adapter, segments := [], [], Pass, null, [];
    var made := NewRunner(dbName, fileData);
    if made.Failure? {
      return Fail(made.error), ran, outcomes, cleanup, adapter, segments;
    }
    ghost var a: Backend;
    r, ran, outcomes, cleanup, a, segments := RunPlan(made.value, test, maxRecords, batchSize, iterations, warmup, teardown);
    adapter := a;
  }
}
