/**
 * The backend-independent test protocols of `BaseBenchmark`: loading the data
 * file, warmup, the scalability test, the placeholder load test and the
 * substring-search test. Each drives a `Backend` and is specified by the events
 * it adds to the backend's trace and the rows it returns.
 */
module Protocols {
  import opened Wrappers
  import opened Records
  import opened Statistics
  import opened Accumulator
  import opened Backends
  import opened Sequences

  /** Mean, median, p95 and p99 of one group of latencies, as the result tables report them. */
  datatype LatencySummary = LatencySummary(mean: real, median: real, p95: real, p99: real)

  function Summarize(xs: seq<real>): LatencySummary
    requires xs != []
  {
    LatencySummary(Mean(xs), Median(xs), Quantile(xs, 0.95), Quantile(xs, 0.99))
  }

  /** Every figure of a summary lies between the extreme latencies, and p95 ≤ p99. */
  lemma SummaryBetween(xs: seq<real>)
    requires xs != []
    ensures Smallest(xs) <= Summarize(xs).mean <= Largest(xs)
    ensures Smallest(xs) <= Summarize(xs).median <= Largest(xs)
    ensures Smallest(xs) <= Summarize(xs).p95 <= Summarize(xs).p99 <= Largest(xs)
  {
    MeanBetween(xs);
    MedianIsHalfQuantile(xs);
    QuantileBetweenExtremes(xs, 0.5);
    QuantileBetweenExtremes(xs, 0.95);
    QuantileBetweenExtremes(xs, 0.99);
    QuantileMonotone(xs, 0.95, 0.99);
  }

  /**
   * `load_test_data` once the JSON array is parsed: `data[:limit]` when `limit`
   * is truthy. A limit of 0 (falsy) keeps everything; a negative limit drops
   * that many records from the end, as a Python slice does.
   */
  function LoadTestData(data: seq<Record>, limit: Option<int>): (r: seq<Record>)
    ensures r <= data
    ensures limit.None? || limit == Some(0) ==> r == data
    ensures limit.Some? && limit.value > 0 ==> |r| == if limit.value < |data| then limit.value else |data|
    ensures limit.Some? && limit.value < 0 ==> |r| == if -limit.value < |data| then |data| + limit.value else 0
  {
    match limit
    case None => data
    case Some(k) =>
      if k == 0 then data
      else if k > 0 then data[..if k < |data| then k else |data|]
      else data[..if -k < |data| then |data| + k else 0]
  }

  /**
   * `np.random.choice(pool, size=k, replace=False)` and `random.sample(pool, k)`:
   * k elements at distinct positions of the pool, that is, the first k of some
   * rearrangement of it; ValueError when the pool is smaller than k.
   */
  method SampleWithoutReplacement<T(==)>(pool: seq<T>, k: nat) returns (r: Result<seq<T>>)
    ensures r.Failure? <==> k > |pool|
    ensures r.Failure? ==> r.error.ValueError?
    ensures r.Success? ==> |r.value| == k && multiset(r.value) <= multiset(pool)
  {
    if k > |pool| {
      return Failure(ValueError("sample larger than population"));
    }
    assert multiset(pool) == multiset(pool);
    var arranged: seq<T> :| multiset(arranged) == multiset(pool);
    assert |arranged| == |multiset(arranged)| == |pool|;
    assert arranged == arranged[..k] + arranged[k..];
    r := Success(arranged[..k]);
  }

  /**
   * `np.random.choice(pool, size=k, replace=True)`: k elements of the pool,
   * repeats allowed; ValueError when the pool is empty and k > 0.
   */
  method SampleWithReplacement<T(==)>(pool: seq<T>, k: nat) returns (r: Result<seq<T>>)
    ensures r.Failure? <==> pool == [] && k > 0
    ensures r.Failure? ==> r.error.ValueError?
    ensures r.Success? ==> |r.value| == k && forall j :: 0 <= j < k ==> r.value[j] in pool
  {
    if pool == [] && k > 0 {
      return Failure(ValueError("a cannot be empty unless no samples are taken"));
    }
    ghost var repeated := if k == 0 then [] else seq(k, _ => pool[0]);
    assert |repeated| == k && forall j :: 0 <= j < k ==> repeated[j] in pool;
    var picks: seq<T> :| |picks| == k && forall j :: 0 <= j < k ==> picks[j] in pool;
    r := Success(picks);
  }

  /** The first `n` elements, or all of them when there are fewer (`s[:n]`, n ≥ 0). */
  function Take<T>(s: seq<T>, n: nat): (r: seq<T>)
    ensures r <= s && |r| == if n < |s| then n else |s|
  {
    if n < |s| then s[..n] else s
  }

  /** One warmup query: 10 to 29 codigos, each one of the sampled codigos. */
  ghost predicate WarmupQuery(e: Event, pool: seq<Value>) {
    && e.call.QueryByCodigo?
    && 10 <= |e.call.codigos| < 30
    && forall j :: 0 <= j < |e.call.codigos| ==> e.call.codigos[j] in pool
  }

  /**
   * `warmup`: the codigos of the first 50 records are the pool (KeyError if one
   * lacks 'codigo'); each iteration queries a batch of `randint(10, 30)` codigos
   * drawn with replacement, ignoring whatever the query raises. The draw sits
   * outside the `try`, so an empty pool raises ValueError on the first iteration.
   */
  method Warmup(b: Backend, sample: seq<Record>, iterations: int) returns (r: Outcome)
    modifies b
    ensures old(b.trace) <= b.trace
    ensures CodigosOf(Take(sample, 50)).Failure? ==> r == Fail(KeyError("codigo")) && b.trace == old(b.trace)
    ensures sample == [] && iterations > 0 ==> r.Fail? && r.error.ValueError? && b.trace == old(b.trace)
    ensures r.Pass? <==> CodigosOf(Take(sample, 50)).Success? && (sample != [] || iterations <= 0)
    ensures NoTeardownSince(b.trace, |old(b.trace)|)
    ensures r.Pass? ==>
      && |b.trace| == |old(b.trace)| + (if iterations > 0 then iterations else 0)
      && forall i :: |old(b.trace)| <= i < |b.trace| ==> WarmupQuery(b.trace[i], CodigosOf(Take(sample, 50)).value)
  {
    var pool := CodigosOf(Take(sample, 50));
    if pool.Failure? {
      return Fail(pool.error);
    }
    var i := 0;
    while i < iterations
      invariant 0 <= i && (iterations > 0 ==> i <= iterations)
      invariant |b.trace| == |old(b.trace)| + i && old(b.trace) <= b.trace
      invariant forall m :: |old(b.trace)| <= m < |b.trace| ==> WarmupQuery(b.trace[m], pool.value)
      invariant NoTeardownSince(b.trace, |old(b.trace)|)
      invariant pool.value == [] ==> i == 0
      invariant iterations <= 0 ==> i == 0
    {
      var batchSize: int :| 10 <= batchSize < 30;
      var picks := SampleWithReplacement(pool.value, batchSize);
      if picks.Failure? {
        return Fail(picks.error);
      }
      var _ := b.Perform(QueryByCodigo(picks.value));
      i := i + 1;
    }
    r := Pass;
  }

  /** Every event of the run completed with an elapsed time. */
  ghost predicate AllTimed(events: seq<Event>) {
    forall j :: 0 <= j < |events| ==> events[j].reply.Timed?
  }

  lemma {:induction false} DurationsOfAllTimed(events: seq<Event>)
    requires AllTimed(events)
    ensures |Durations(events)| == |events|
    ensures forall j :: 0 <= j < |events| ==> Durations(events)[j] == events[j].reply.seconds
  {
    if events != [] {
      DurationsOfAllTimed(events[1..]);
    }
  }

  /** `codigos` are the codigos of records drawn from `pool` at distinct positions. */
  ghost predicate DrawnFrom(codigos: seq<Value>, pool: seq<Record>) {
    exists picked: seq<Record> :: multiset(picked) <= multiset(pool) && CodigosOf(picked) == Success(codigos)
  }

  /** The records of a run of events that inserts nothing. */
  lemma {:induction false} InsertedNothing(events: seq<Event>)
    requires forall j :: 0 <= j < |events| ==> !events[j].call.InsertBatch?
    ensures Inserted(events) == []
  {
    if events != [] {
      InsertedNothing(events[1..]);
    }
  }

  /** The 10 completed queries of one scalability batch, each of 20 codigos drawn from `pool`. */
  ghost predicate ScalabilityQueries(queries: seq<Event>, pool: seq<Record>) {
    && |queries| == 10
    && AllTimed(queries)
    && forall m :: 0 <= m < |queries| ==>
         && queries[m].call.QueryByCodigo?
         && |queries[m].call.codigos| == 20
         && DrawnFrom(queries[m].call.codigos, pool)
  }

  /**
   * The query phase of one scalability batch: 10 rounds, each drawing 20
   * records at distinct positions of `pool` and querying their codigos. A pool
   * of fewer than 20 records raises ValueError before any query.
   */
  method QueryInsertedSoFar(b: Backend, pool: seq<Record>) returns (r: Result<seq<real>>, ghost queries: seq<Event>)
    modifies b
    ensures old(b.trace) <= b.trace
    ensures |pool| < 20 ==> r.Failure? && b.trace == old(b.trace)
    ensures NoTeardownSince(b.trace, |old(b.trace)|)
    ensures r.Failure? ==>
      || (r.error.ValueError? && |pool| < 20)
      || (r.error == KeyError("codigo") && CodigosOf(pool).Failure?)
      || RaisedSince(b.trace, |old(b.trace)|, r.error)
    ensures r.Success? ==> b.trace == old(b.trace) + queries && ScalabilityQueries(queries, pool)
    ensures r.Success? ==> r.value == Durations(queries) && |r.value| == 10
  {
    queries := [];
    var latencies: seq<real> := [];
    var j := 0;
    while j < 10
      invariant 0 <= j <= 10 && |queries| == j
      invariant b.trace == old(b.trace) + queries
      invariant AllTimed(queries)
      invariant forall m :: 0 <= m < j ==>
        && queries[m].call.QueryByCodigo?
        && |queries[m].call.codigos| == 20
        && DrawnFrom(queries[m].call.codigos, pool)
      invariant latencies == Durations(queries)
      invariant |pool| < 20 ==> j == 0
      invariant NoTeardownSince(b.trace, |old(b.trace)|)
    {
      var picked := SampleWithoutReplacement(pool, 20);
      if picked.Failure? {
        return Failure(picked.error), queries;
      }
      var codigos := CodigosOf(picked.value);
      if codigos.Failure? {
        MissingCodigoIn(picked.value, pool);
        return Failure(codigos.error), queries;
      }
      assert DrawnFrom(codigos.value, pool);
      var took := b.Perform(QueryByCodigo(codigos.value));
      if !took.Timed? {
        return Failure(BackendError(took.message)), queries;
      }
      ghost var e := Event(QueryByCodigo(codigos.value), took);
      Regroup(old(b.trace), queries, [e]);
      QueryStep(queries, e, pool);
      queries := queries + [e];
      latencies := latencies + [took.seconds];
      j := j + 1;
    }
    DurationsOfAllTimed(queries);
    r := Success(latencies);
  }

  /** A record without a codigo among records taken from `pool` is a record of `pool` without one. */
  lemma MissingCodigoIn(picked: seq<Record>, pool: seq<Record>)
    requires multiset(picked) <= multiset(pool)
    ensures CodigosOf(picked).Failure? ==> CodigosOf(pool).Failure?
  {
    if CodigosOf(picked).Failure? {
      var i :| 0 <= i < |picked| && "codigo" !in picked[i];
      assert picked[i] in multiset(picked);
      var k :| 0 <= k < |pool| && pool[k] == picked[i];
    }
  }

  /** A record without a codigo among the first `n` records is a record of the whole data without one. */
  lemma MissingCodigoInPrefix(data: seq<Record>, n: nat)
    requires n <= |data|
    ensures CodigosOf(data[..n]).Failure? ==> CodigosOf(data).Failure?
  {
    if CodigosOf(data[..n]).Failure? {
      var i :| 0 <= i < n && "codigo" !in data[..n][i];
      assert data[..n][i] == data[i];
    }
  }

  /** One more timed query of 20 codigos drawn from the pool keeps the query phase's invariants. */
  lemma QueryStep(queries: seq<Event>, e: Event, pool: seq<Record>)
    requires AllTimed(queries)
    requires forall m :: 0 <= m < |queries| ==>
      && queries[m].call.QueryByCodigo?
      && |queries[m].call.codigos| == 20
      && DrawnFrom(queries[m].call.codigos, pool)
    requires e.reply.Timed? && e.call.QueryByCodigo? && |e.call.codigos| == 20 && DrawnFrom(e.call.codigos, pool)
    ensures AllTimed(queries + [e])
    ensures forall m :: 0 <= m < |queries| + 1 ==>
      && (queries + [e])[m].call.QueryByCodigo?
      && |(queries + [e])[m].call.codigos| == 20
      && DrawnFrom((queries + [e])[m].call.codigos, pool)
    ensures Durations(queries + [e]) == Durations(queries) + [e.reply.seconds]
  {
    DurationsAppend(queries, [e]);
    assert Durations([e]) == [e.reply.seconds];
    forall m | 0 <= m < |queries| + 1 ensures (queries + [e])[m] == if m < |queries| then queries[m] else e {
    }
  }

  /** Where batch k starts: `k * batch_size`, counted up one batch at a time. */
  function Offset(batchSize: nat, k: nat): nat {
    if k == 0 then 0 else Offset(batchSize, k - 1) + batchSize
  }

  lemma {:induction false} OffsetIsProduct(batchSize: nat, k: nat)
    ensures Offset(batchSize, k) == k * batchSize
  {
    if k > 0 {
      OffsetIsProduct(batchSize, k - 1);
    }
  }

  /** The k-th whole batch (from 0), `data[k*batch_size:(k+1)*batch_size]`. */
  function WholeBatch(data: seq<Record>, batchSize: nat, k: nat): seq<Record>
    requires Offset(batchSize, k + 1) <= |data|
  {
    data[Offset(batchSize, k)..Offset(batchSize, k + 1)]
  }

  /** The records of the first k whole batches, `data[:k*batch_size]`. */
  function FirstBatches(data: seq<Record>, batchSize: nat, k: nat): seq<Record>
    requires Offset(batchSize, k) <= |data|
  {
    data[..Offset(batchSize, k)]
  }

  /** The first k batches followed by batch k are the first k + 1 batches. */
  lemma NextBatch(data: seq<Record>, batchSize: nat, k: nat)
    requires Offset(batchSize, k + 1) <= |data|
    ensures Offset(batchSize, k) <= |data|
    ensures FirstBatches(data, batchSize, k) + WholeBatch(data, batchSize, k) == FirstBatches(data, batchSize, k + 1)
  {
    assert data[..Offset(batchSize, k)] + data[Offset(batchSize, k)..Offset(batchSize, k + 1)] == data[..Offset(batchSize, k + 1)];
  }

  /** One row of the scalability table. */
  datatype ScalabilityRow = ScalabilityRow(batchNumber: nat, recordsInDb: int, insertTime: real, query: LatencySummary)

  /**
   * The 12 events of one scalability round: the insert of exactly `batch`, a
   * record count, then 10 completed queries of 20 codigos drawn from `pool`;
   * the row reports them.
   */
  ghost predicate RoundBlock(block: seq<Event>, batch: seq<Record>, pool: seq<Record>, row: ScalabilityRow) {
    && |block| == 12
    && block[0] == Event(InsertBatch(batch), Timed(row.insertTime))
    && block[1] == Event(RecordCount, Counted(row.recordsInDb))
    && ScalabilityQueries(block[2..], pool)
    && Durations(block[2..]) != []
    && row.query == Summarize(Durations(block[2..]))
  }

  /**
   * Round k (counted from 0) inserts the k-th whole batch and queries every
   * record of the first k + 1 batches.
   */
  ghost predicate ScalabilityBlock(block: seq<Event>, data: seq<Record>, batchSize: nat, k: nat, row: ScalabilityRow) {
    && Offset(batchSize, k + 1) <= |data|
    && row.batchNumber == k + 1
    && RoundBlock(block, WholeBatch(data, batchSize, k), FirstBatches(data, batchSize, k + 1), row)
  }

  /** Every round so far is the round its position says it is, built up one round at a time. */
  ghost predicate ScalabilityBlocks(blocks: seq<seq<Event>>, data: seq<Record>, batchSize: nat, rows: seq<ScalabilityRow>)
    decreases |blocks|
  {
    && |blocks| == |rows|
    && (blocks != [] ==>
         && ScalabilityBlocks(blocks[..|blocks| - 1], data, batchSize, rows[..|rows| - 1])
         && ScalabilityBlock(blocks[|blocks| - 1], data, batchSize, |blocks| - 1, rows[|rows| - 1]))
  }

  /** Appending the next round keeps every earlier round in its place. */
  lemma ScalabilityBlocksExtend(blocks: seq<seq<Event>>, data: seq<Record>, batchSize: nat, rows: seq<ScalabilityRow>,
                                block: seq<Event>, row: ScalabilityRow)
    requires ScalabilityBlocks(blocks, data, batchSize, rows)
    requires Offset(batchSize, |blocks| + 1) <= |data| && row.batchNumber == |blocks| + 1
    requires RoundBlock(block, WholeBatch(data, batchSize, |blocks|), FirstBatches(data, batchSize, |blocks| + 1), row)
    ensures ScalabilityBlocks(blocks + [block], data, batchSize, rows + [row])
  {
    var bs, rs := blocks + [block], rows + [row];
    assert ScalabilityBlock(block, data, batchSize, |blocks|, row);
    assert bs[|bs| - 1] == block && rs[|rs| - 1] == row;
    assert bs[..|bs| - 1] == blocks && rs[..|rs| - 1] == rows;
  }

  /** Round k of the table is the k-th round of the test, for every k. */
  lemma {:induction false} ScalabilityBlockAt(blocks: seq<seq<Event>>, data: seq<Record>, batchSize: nat, rows: seq<ScalabilityRow>, k: nat)
    requires ScalabilityBlocks(blocks, data, batchSize, rows) && k < |blocks|
    ensures ScalabilityBlock(blocks[k], data, batchSize, k, rows[k])
    decreases |blocks|
  {
    if k < |blocks| - 1 {
      ScalabilityBlockAt(blocks[..|blocks| - 1], data, batchSize, rows[..|rows| - 1], k);
    }
  }

  /** An insert followed by events that insert nothing inserts exactly its batch. */
  lemma InsertedByBlock(block: seq<Event>, batch: seq<Record>)
    requires |block| >= 1 && block[0].call == InsertBatch(batch) && block[0].reply.Timed?
    requires forall j :: 1 <= j < |block| ==> !block[j].call.InsertBatch?
    ensures Inserted(block) == batch
  {
    assert block == [block[0]] + block[1..];
    InsertedNothing(block[1..]);
    InsertedAppend([block[0]], block[1..]);
  }

  /** At most n / d whole batches of d fit into n, leaving n % d over. */
  lemma BatchesFit(n: nat, d: nat, a: nat)
    requires d > 0 && a <= n / d
    ensures Offset(d, a) <= n
    ensures a == n / d ==> n - Offset(d, a) == n % d
  {
    OffsetIsProduct(d, a);
    OffsetIsProduct(d, n / d);
    OffsetGrows(d, a, n / d);
  }

  lemma {:induction false} OffsetGrows(batchSize: nat, a: nat, b: nat)
    requires a <= b
    ensures Offset(batchSize, a) <= Offset(batchSize, b)
    decreases b
  {
    if a < b {
      OffsetGrows(batchSize, a, b - 1);
    }
  }

  /** A completed insert, a count and the 10 queries make up one round's events. */
  lemma RoundOfEvents(block: seq<Event>, batch: seq<Record>, pool: seq<Record>, inserted: Reply, counted: Reply, queries: seq<Event>, row: ScalabilityRow)
    requires inserted.Timed? && counted.Counted? && ScalabilityQueries(queries, pool) && Durations(queries) != []
    requires block == [Event(InsertBatch(batch), inserted), Event(RecordCount, counted)] + queries
    requires row == ScalabilityRow(row.batchNumber, counted.n, inserted.seconds, Summarize(Durations(queries)))
    ensures RoundBlock(block, batch, pool, row)
    ensures Inserted(block) == batch
  {
    assert block[2..] == queries;
    InsertedByBlock(block, batch);
  }

  /** Two events then more, appended one after another or all at once. */
  lemma TwoThenMore(trace: seq<Event>, first: Event, second: Event, more: seq<Event>)
    ensures trace + [first] + [second] + more == trace + ([first, second] + more)
  {
  }

  lemma Regroup<T>(a: seq<T>, b: seq<T>, c: seq<T>)
    ensures a + b + c == a + (b + c)
  {
  }

  /**
   * One round of `run_scalability_test`: insert `batch`, count the records,
   * then time 10 queries over `pool`, everything inserted so far.
   */
  method ScalabilityRound(b: Backend, batch: seq<Record>, pool: seq<Record>, number: nat)
    returns (r: Result<ScalabilityRow>, ghost block: seq<Event>)
    modifies b
    ensures old(b.trace) <= b.trace
    ensures |pool| < 20 ==> r.Failure?
    ensures NoTeardownSince(b.trace, |old(b.trace)|)
    ensures r.Failure? ==>
      || (r.error.ValueError? && |pool| < 20)
      || (r.error == KeyError("codigo") && CodigosOf(pool).Failure?)
      || RaisedSince(b.trace, |old(b.trace)|, r.error)
    ensures r.Success? ==> b.trace == old(b.trace) + block && RoundBlock(block, batch, pool, r.value)
    ensures r.Success? ==> r.value.batchNumber == number && Inserted(block) == batch
  {
    block := [];
    ghost var before := b.trace;
    var inserted := b.Perform(InsertBatch(batch));
    if !inserted.Timed? {
      return Failure(BackendError(inserted.message)), block;
    }
    var currentSize := b.Perform(RecordCount);
    if !currentSize.Counted? {
      return Failure(BackendError(currentSize.message)), block;
    }
    ghost var counted := b.trace;
    var latencies, queries := QueryInsertedSoFar(b, pool);
    NoTeardownChain(counted, b.trace, |old(b.trace)|);
    if latencies.Failure? {
      return Failure(latencies.error), block;
    }
    block := [Event(InsertBatch(batch), inserted), Event(RecordCount, currentSize)] + queries;
    TwoThenMore(before, block[0], block[1], queries);
    r := Success(ScalabilityRow(number, currentSize.n, inserted.seconds, Summarize(latencies.value)));
    RoundOfEvents(block, batch, pool, inserted, currentSize, queries, r.value);
  }

  /**
   * After `blocks` rounds of the scalability test, started from trace `before`:
   * the trace holds exactly those rounds, each the round its position says it
   * is, and together they inserted exactly the first `|blocks|` whole batches.
   */
  ghost predicate ScalabilityProgress(before: seq<Event>, after: seq<Event>, data: seq<Record>, batchSize: nat,
                                      blocks: seq<seq<Event>>, rows: seq<ScalabilityRow>) {
    && after == before + Flatten(blocks)
    && ScalabilityBlocks(blocks, data, batchSize, rows)
    && Offset(batchSize, |blocks|) <= |data|
    && Inserted(Flatten(blocks)) == FirstBatches(data, batchSize, |blocks|)
  }

  /** One more iteration of the scalability loop, which keeps its progress. */
  method ScalabilityStep(b: Backend, data: seq<Record>, batchSize: nat, ghost before: seq<Event>,
                         rows: seq<ScalabilityRow>, ghost blocks: seq<seq<Event>>)
    returns (r: Result<seq<ScalabilityRow>>, ghost blocks': seq<seq<Event>>)
    requires batchSize > 0 && Offset(batchSize, |blocks| + 1) <= |data|
    requires ScalabilityProgress(before, b.trace, data, batchSize, blocks, rows)
    modifies b
    ensures old(b.trace) <= b.trace
    ensures blocks == [] && batchSize < 20 ==> r.Failure?
    ensures NoTeardownSince(b.trace, |old(b.trace)|)
    ensures r.Failure? ==>
      || (r.error.ValueError? && Offset(batchSize, |blocks| + 1) < 20)
      || (r.error == KeyError("codigo") && CodigosOf(data).Failure?)
      || RaisedSince(b.trace, |old(b.trace)|, r.error)
    ensures r.Success? ==> |blocks'| == |blocks| + 1 && ScalabilityProgress(before, b.trace, data, batchSize, blocks', r.value)
  {
    var k := |rows|;
    NextBatch(data, batchSize, k);
    var row, block := ScalabilityRound(b, WholeBatch(data, batchSize, k), FirstBatches(data, batchSize, k + 1), k + 1);
    blocks' := blocks;
    if row.Failure? {
      MissingCodigoInPrefix(data, Offset(batchSize, k + 1));
      return Failure(row.error), blocks';
    }
    ScalabilityBlocksExtend(blocks, data, batchSize, rows, block, row.value);
    InsertedAppend(Flatten(blocks), block);
    FlattenAppend(blocks, block);
    Regroup(before, Flatten(blocks), block);
    blocks' := blocks + [block];
    r := Success(rows + [row.value]);
  }

  /**
   * The only ways the scalability test fails on a trace that stood at `n`
   * events: a call to the engine raised and ended the test, the batch size is
   * zero, the batch size is too small to draw 20 records from, or some record
   * lacks its codigo.
   */
  ghost predicate ScalabilityFails(error: Error, trace: seq<Event>, n: nat, data: seq<Record>, batchSize: int) {
    || RaisedSince(trace, n, error)
    || (error == ZeroDivisionError && batchSize == 0)
    || (error.ValueError? && 0 < batchSize < 20)
    || (error == KeyError("codigo") && CodigosOf(data).Failure?)
  }

  /**
   * `run_scalability_test`: `len(data) // batch_size` whole batches, each
   * inserted, counted and queried in turn; the trailing `len(data) % batch_size`
   * records are never inserted. A zero batch size raises ZeroDivisionError, a
   * negative one yields no batches, and a batch size below 20 raises ValueError
   * at the first draw of 20 codigos.
   */
  method RunScalabilityTest(b: Backend, data: seq<Record>, batchSize: int)
    returns (r: Result<seq<ScalabilityRow>>, ghost blocks: seq<seq<Event>>)
    modifies b
    ensures old(b.trace) <= b.trace
    ensures batchSize == 0 ==> r == Failure(ZeroDivisionError) && b.trace == old(b.trace)
    ensures batchSize < 0 ==> r == Success([]) && b.trace == old(b.trace)
    ensures 0 < batchSize < 20 && batchSize <= |data| ==> r.Failure?
    ensures NoTeardownSince(b.trace, |old(b.trace)|)
    ensures r.Failure? ==> ScalabilityFails(r.error, b.trace, |old(b.trace)|, data, batchSize)
    ensures r.Success? && batchSize > 0 ==>
      && |r.value| == |blocks| == |data| / batchSize
      && ScalabilityProgress(old(b.trace), b.trace, data, batchSize, blocks, r.value)
      && |data| - |Inserted(Flatten(blocks))| == |data| % batchSize
  {
    blocks := [];
    if batchSize == 0 {
      return Failure(ZeroDivisionError), blocks;
    } else if batchSize < 0 {
      // floor division by a negative batch size is never positive: no batches
      return Success([]), blocks;
    }
    var totalBatches := |data| / batchSize;
    var rows: seq<ScalabilityRow> := [];
    while |rows| < totalBatches
      invariant |rows| == |blocks| <= totalBatches
      invariant ScalabilityProgress(old(b.trace), b.trace, data, batchSize, blocks, rows)
      invariant batchSize < 20 ==> blocks == []
      invariant NoTeardownSince(b.trace, |old(b.trace)|)
      decreases totalBatches - |rows|
    {
      BatchesFit(|data|, batchSize, |blocks| + 1);
      ghost var done := b.trace;
      var next;
      next, blocks := ScalabilityStep(b, data, batchSize, old(b.trace), rows, blocks);
      NoTeardownChain(done, b.trace, |old(b.trace)|);
      if next.Failure? {
        return Failure(next.error), blocks;
      }
      rows := next.value;
    }
    BatchesFit(|data|, batchSize, |blocks|);
    r := Success(rows);
  }

  /** `['placeholder'] * batch_size`: the codigo list of every load-test query. */
  function Placeholders(batchSize: int): (codigos: seq<Value>)
    ensures |codigos| == if batchSize > 0 then batchSize else 0
    ensures forall j :: 0 <= j < |codigos| ==> codigos[j] == Str("placeholder")
  {
    if batchSize > 0 then seq(batchSize, _ => Str("placeholder")) else []
  }

  /** The single row of the load-test table; `stats` is empty when no query completed. */
  datatype LoadTestRow = LoadTestRow(database: string, iterations: int, queriesPerIteration: nat, batchSize: int, stats: Option<Stats>)

  /**
   * One iteration of `run_load_test`: 50 queries of `codigos`; each that
   * completes adds its latency to `result`, each that raises its message.
   */
  method LoadIteration(b: Backend, result: BenchmarkResult, codigos: seq<Value>) returns (ghost queries: seq<Event>)
    modifies b, result
    ensures |queries| == 50
    ensures b.trace == old(b.trace) + queries
    ensures forall m :: 0 <= m < |queries| ==> queries[m].call == QueryByCodigo(codigos)
    ensures forall m :: 0 <= m < |queries| ==> queries[m].reply.Timed? || queries[m].reply.Raised?
    ensures result.latencies == old(result.latencies) + Durations(queries)
    ensures result.errors == old(result.errors) + Errors(queries)
  {
    queries := [];
    var j := 0;
    while j < 50
      invariant 0 <= j <= 50 && |queries| == j
      invariant b.trace == old(b.trace) + queries
      invariant forall m :: 0 <= m < |queries| ==> queries[m].call == QueryByCodigo(codigos)
      invariant forall m :: 0 <= m < |queries| ==> queries[m].reply.Timed? || queries[m].reply.Raised?
      invariant result.latencies == old(result.latencies) + Durations(queries)
      invariant result.errors == old(result.errors) + Errors(queries)
    {
      var took := b.Perform(QueryByCodigo(codigos));
      ghost var e := Event(QueryByCodigo(codigos), took);
      DurationsAppend(queries, [e]);
      ErrorsAppend(queries, [e]);
      Regroup(old(b.trace), queries, [e]);
      if took.Timed? {
        Regroup(old(result.latencies), Durations(queries), [took.seconds]);
        result.AddLatency(took.seconds);
      } else {
        Regroup(old(result.errors), Errors(queries), [took.message]);
        result.AddError(took.message);
      }
      queries := queries + [e];
      j := j + 1;
    }
  }

  /**
   * `run_load_test`: a record count (whose failure propagates), then 50
   * placeholder queries per iteration; each completed query adds its latency
   * and each raised one its message to a fresh `BenchmarkResult`, whose
   * statistics make up the row.
   */
  method RunLoadTest(b: Backend, numIterations: int, batchSize: int)
    returns (r: Result<LoadTestRow>, ghost count: Event, ghost queries: seq<Event>)
    modifies b
    ensures b.trace == old(b.trace) + [count] + queries
    ensures count.call == RecordCount
    ensures r.Failure? <==> count.reply.Raised?
    ensures r.Failure? ==> r.error == BackendError(count.reply.message) && queries == []
    ensures r.Success? ==>
      && |queries| == 50 * (if numIterations > 0 then numIterations else 0)
      && (forall m :: 0 <= m < |queries| ==> queries[m].call == QueryByCodigo(Placeholders(batchSize)))
    ensures r.Success? ==>
      && r.value.database == b.dbName && r.value.iterations == numIterations
      && r.value.queriesPerIteration == 50 && r.value.batchSize == batchSize
      && (r.value.stats.None? <==> Durations(queries) == [])
    ensures r.Success? ==>
      var d := Durations(queries);
      r.value.stats ==
        if d == [] then None
        else Some(Stats(|d|, Mean(d), Median(d), Smallest(d), Largest(d),
                        Quantile(d, 0.95), Quantile(d, 0.99), |Errors(queries)|))
    ensures r.Success? && r.value.stats.Some? ==>
      && r.value.stats.value.count == |Durations(queries)|
      && r.value.stats.value.errorCount == |Errors(queries)|
      && r.value.stats.value.count + r.value.stats.value.errorCount == |queries|
      && r.value.stats.value.min in Durations(queries) && r.value.stats.value.max in Durations(queries)
      && Ordered(r.value.stats.value)
  {
    queries := [];
    var total := b.Perform(RecordCount);
    count := Event(RecordCount, total);
    if total.Raised? {
      return Failure(BackendError(total.message)), count, queries;
    }
    var result := new BenchmarkResult();
    var codigos := Placeholders(batchSize);
    var i := 0;
    while i < numIterations
      invariant 0 <= i && (numIterations > 0 ==> i <= numIterations)
      invariant numIterations <= 0 ==> i == 0
      invariant |queries| == 50 * i
      invariant b.trace == old(b.trace) + [count] + queries
      invariant forall m :: 0 <= m < |queries| ==> queries[m].call == QueryByCodigo(codigos)
      invariant forall m :: 0 <= m < |queries| ==> queries[m].reply.Timed? || queries[m].reply.Raised?
      invariant result.latencies == Durations(queries) && result.errors == Errors(queries)
    {
      ghost var more := LoadIteration(b, result, codigos);
      Regroup(old(b.trace) + [count], queries, more);
      DurationsAppend(queries, more);
      ErrorsAppend(queries, more);
      forall m | 0 <= m < |queries + more|
        ensures (queries + more)[m].call == QueryByCodigo(codigos)
        ensures (queries + more)[m].reply.Timed? || (queries + more)[m].reply.Raised?
      {
        if m < |queries| {
          assert (queries + more)[m] == queries[m];
        } else {
          assert (queries + more)[m] == more[m - |queries|];
        }
      }
      queries := queries + more;
      i := i + 1;
    }
    CompletedOrRaised(queries);
    r := Success(LoadTestRow(b.dbName, numIterations, 50, batchSize, result.GetStatistics()));
  }

  /** One row of the substring-search table: the pattern, its latency summary and how many searches completed. */
  datatype SubstringRow = SubstringRow(substring: string, latency: LatencySummary, iterations: nat)

  /** The row a pattern's searches produce: none when every search raised. */
  function RowOf(pattern: string, block: seq<Event>): (rows: seq<SubstringRow>)
    ensures |rows| == if Durations(block) == [] then 0 else 1
  {
    var latencies := Durations(block);
    if latencies == [] then [] else [SubstringRow(pattern, Summarize(latencies), |latencies|)]
  }

  /** The substring-search table for patterns searched as `blocks` record, pattern by pattern. */
  function SubstringRows(patterns: seq<string>, blocks: seq<seq<Event>>): (rows: seq<SubstringRow>)
    requires |patterns| == |blocks|
    decreases |patterns|
  {
    if patterns == [] then []
    else
      var n := |patterns| - 1;
      SubstringRows(patterns[..n], blocks[..n]) + RowOf(patterns[n], blocks[n])
  }

  /** Searching the next pattern adds that pattern's row, if any, at the end. */
  lemma SubstringRowsStep(patterns: seq<string>, blocks: seq<seq<Event>>, block: seq<Event>)
    requires |blocks| < |patterns|
    ensures SubstringRows(patterns[..|blocks| + 1], blocks + [block])
      == SubstringRows(patterns[..|blocks|], blocks) + RowOf(patterns[|blocks|], block)
  {
    var k := |blocks|;
    assert patterns[..k + 1][..k] == patterns[..k] && (blocks + [block])[..k] == blocks;
  }

  /** The number of patterns all of whose searches raised. */
  function Silent(blocks: seq<seq<Event>>): nat
    decreases |blocks|
  {
    if blocks == [] then 0
    else Silent(blocks[..|blocks| - 1]) + (if Durations(blocks[|blocks| - 1]) == [] then 1 else 0)
  }

  /** Every pattern yields a row except those whose searches all raised. */
  lemma {:induction false} SubstringRowsCount(patterns: seq<string>, blocks: seq<seq<Event>>)
    requires |patterns| == |blocks|
    ensures |SubstringRows(patterns, blocks)| + Silent(blocks) == |patterns|
    decreases |patterns|
  {
    if patterns != [] {
      var n := |patterns| - 1;
      SubstringRowsCount(patterns[..n], blocks[..n]);
    }
  }

  /** Each row reports a pattern that was searched, and at least one and at most all of its searches. */
  lemma {:induction false} SubstringRowsReport(patterns: seq<string>, blocks: seq<seq<Event>>, k: nat)
    requires |patterns| == |blocks| && k < |SubstringRows(patterns, blocks)|
    ensures SubstringRows(patterns, blocks)[k].substring in patterns
    ensures exists p :: (0 <= p < |patterns| && patterns[p] == SubstringRows(patterns, blocks)[k].substring &&
                         1 <= SubstringRows(patterns, blocks)[k].iterations == |Durations(blocks[p])| <= |blocks[p]|)
    decreases |patterns|
  {
    var n := |patterns| - 1;
    var front := SubstringRows(patterns[..n], blocks[..n]);
    if k < |front| {
      SubstringRowsReport(patterns[..n], blocks[..n], k);
      var p :| 0 <= p < n && patterns[..n][p] == front[k].substring &&
        1 <= front[k].iterations == |Durations(blocks[..n][p])| <= |blocks[..n][p]|;
      assert patterns[p] == front[k].substring && blocks[..n][p] == blocks[p];
    } else {
      assert SubstringRows(patterns, blocks)[k] == RowOf(patterns[n], blocks[n])[0];
    }
  }

  /** Rows that follow all but the last pattern, then one row for the last, follow all of them. */
  lemma RowsFollowPatterns(front: seq<SubstringRow>, last: SubstringRow, patterns: seq<string>)
    requires |front| + 1 == |patterns| && last.substring == patterns[|front|]
    requires forall p :: 0 <= p < |front| ==> front[p].substring == patterns[p]
    ensures forall p :: 0 <= p < |patterns| ==> (front + [last])[p].substring == patterns[p]
  {
  }

  /** When some search of every pattern completed, the rows follow the patterns one to one. */
  lemma {:induction false} SubstringRowsInOrder(patterns: seq<string>, blocks: seq<seq<Event>>)
    requires |patterns| == |blocks|
    requires forall p :: 0 <= p < |blocks| ==> Durations(blocks[p]) != []
    ensures |SubstringRows(patterns, blocks)| == |patterns|
    ensures forall p :: 0 <= p < |patterns| ==> SubstringRows(patterns, blocks)[p].substring == patterns[p]
    decreases |patterns|
  {
    if patterns != [] {
      var n := |patterns| - 1;
      var ps, bs := patterns[..n], blocks[..n];
      assert forall p :: 0 <= p < n ==> bs[p] == blocks[p];
      SubstringRowsInOrder(ps, bs);
      var front := SubstringRows(ps, bs);
      var latencies := Durations(blocks[n]);
      assert latencies != [];
      var last := SubstringRow(patterns[n], Summarize(latencies), |latencies|);
      assert SubstringRows(patterns, blocks) == front + [last];
      RowsFollowPatterns(front, last, patterns);
    }
  }

  /** The searches of one pattern: `iterations` calls (none when it is not positive), each with limit 100. */
  ghost predicate SearchesOf(block: seq<Event>, pattern: string, iterations: int) {
    && |block| == (if iterations > 0 then iterations else 0)
    && forall m :: 0 <= m < |block| ==> block[m].call == QueryBySubstring(pattern, 100)
  }

  /**
   * The inner loop of `run_substring_search_test` for one pattern: the row of
   * its completed searches, or none when all of them raised.
   */
  method SearchPattern(b: Backend, pattern: string, iterations: int) returns (row: seq<SubstringRow>, ghost block: seq<Event>)
    modifies b
    ensures b.trace == old(b.trace) + block
    ensures SearchesOf(block, pattern, iterations)
    ensures NoTeardownSince(b.trace, |old(b.trace)|)
    ensures row == RowOf(pattern, block)
  {
    block := [];
    var latencies: seq<real> := [];
    var j := 0;
    while j < iterations
      invariant 0 <= j && (iterations > 0 ==> j <= iterations) && (iterations <= 0 ==> j == 0)
      invariant |block| == j
      invariant b.trace == old(b.trace) + block
      invariant forall m :: 0 <= m < j ==> block[m].call == QueryBySubstring(pattern, 100)
      invariant latencies == Durations(block)
      invariant NoTeardownSince(b.trace, |old(b.trace)|)
    {
      var took := b.Perform(QueryBySubstring(pattern, 100));
      ghost var e := Event(QueryBySubstring(pattern, 100), took);
      DurationsAppend(block, [e]);
      Regroup(old(b.trace), block, [e]);
      if took.Timed? {
        latencies := latencies + [took.seconds];
      }
      block := block + [e];
      j := j + 1;
    }
    row := if latencies == [] then [] else [SubstringRow(pattern, Summarize(latencies), |latencies|)];
  }

  /** Searching one more pattern extends the searches made so far, pattern by pattern. */
  lemma SearchesExtend(blocks: seq<seq<Event>>, block: seq<Event>, patterns: seq<string>, iterations: int)
    requires |blocks| < |patterns|
    requires forall p :: 0 <= p < |blocks| ==> SearchesOf(blocks[p], patterns[p], iterations)
    requires SearchesOf(block, patterns[|blocks|], iterations)
    ensures forall p :: 0 <= p < |blocks| + 1 ==> SearchesOf((blocks + [block])[p], patterns[p], iterations)
  {
    forall p | 0 <= p < |blocks| + 1 ensures SearchesOf((blocks + [block])[p], patterns[p], iterations) {
      if p < |blocks| {
        assert (blocks + [block])[p] == blocks[p];
      }
    }
  }

  /**
   * `run_substring_search_test`: `iterations` searches of each pattern, each
   * with the default limit of 100; a search that raises is skipped, and a
   * pattern whose searches all raised gets no row.
   */
  method RunSubstringSearchTest(b: Backend, patterns: seq<string>, iterations: int)
    returns (rows: seq<SubstringRow>, ghost blocks: seq<seq<Event>>)
    modifies b
    ensures b.trace == old(b.trace) + Flatten(blocks)
    ensures |blocks| == |patterns|
    ensures forall p :: 0 <= p < |blocks| ==> SearchesOf(blocks[p], patterns[p], iterations)
    ensures NoTeardownSince(b.trace, |old(b.trace)|)
    ensures rows == SubstringRows(patterns, blocks)
  {
    rows, blocks := [], [];
    var k := 0;
    while k < |patterns|
      invariant 0 <= k <= |patterns| && |blocks| == k
      invariant b.trace == old(b.trace) + Flatten(blocks)
      invariant forall p :: 0 <= p < k ==> SearchesOf(blocks[p], patterns[p], iterations)
      invariant rows == SubstringRows(patterns[..k], blocks)
      invariant NoTeardownSince(b.trace, |old(b.trace)|)
    {
      ghost var done := b.trace;
      var row, block := SearchPattern(b, patterns[k], iterations);
      NoTeardownChain(done, b.trace, |old(b.trace)|);
      rows := rows + row;
      SubstringRowsStep(patterns, blocks, block);
      FlattenAppend(blocks, block);
      Regroup(old(b.trace), Flatten(blocks), block);
      SearchesExtend(blocks, block, patterns, iterations);
      blocks := blocks + [block];
      k := k + 1;
    }
    assert patterns[..k] == patterns;
  }
}
