/**
 * The latency accumulator (`BenchmarkResult`): an append-only list of latencies
 * and an append-only list of error messages, summarised on demand.
 */
module Accumulator {
  import opened Wrappers
  import opened Statistics

  /** The dictionary `get_statistics` returns when there is at least one latency. */
  datatype Stats = Stats(
    count: nat,
    mean: real,
    median: real,
    min: real,
    max: real,
    p95: real,
    p99: real,
    errorCount: nat)

  /** The ordering facts every statistics dictionary satisfies. */
  ghost predicate Ordered(st: Stats) {
    && st.min <= st.mean <= st.max
    && st.min <= st.median <= st.max
    && st.min <= st.p95 <= st.p99 <= st.max
  }

  class BenchmarkResult {
    var latencies: seq<real>
    var errors: seq<string>

    constructor ()
      ensures latencies == [] && errors == []
    {
      latencies := [];
      errors := [];
    }

    /** `add_latency`: appends and changes nothing else. */
    method AddLatency(latency: real)
      modifies this
      ensures latencies == old(latencies) + [latency]
      ensures errors == old(errors)
    {
      latencies := latencies + [latency];
    }

    /** `add_error`: appends and changes nothing else. */
    method AddError(error: string)
      modifies this
      ensures errors == old(errors) + [error]
      ensures latencies == old(latencies)
    {
      errors := errors + [error];
    }

    /**
     * `get_statistics`: `{}` (None) exactly when no latency was added, however
     * many errors were; otherwise count and error_count are the list lengths,
     * min and max are the extreme samples, and mean, median, p95 and p99 lie
     * in order between them.
     */
    function GetStatistics(): (r: Option<Stats>)
      reads this
      ensures r.None? <==> latencies == []
      ensures r.Some? ==> r.value.count == |latencies| && r.value.errorCount == |errors|
      ensures r.Some? ==> r.value.min in latencies && r.value.max in latencies
      ensures r.Some? ==> forall i :: 0 <= i < |latencies| ==> r.value.min <= latencies[i] <= r.value.max
      ensures r.Some? ==> Ordered(r.value)
    {
      if latencies == [] then None
      else
        SmallestIsLeast(latencies);
        LargestIsGreatest(latencies);
        MeanBetween(latencies);
        MedianIsHalfQuantile(latencies);
        QuantileBetweenExtremes(latencies, 0.5);
        QuantileBetweenExtremes(latencies, 0.95);
        QuantileBetweenExtremes(latencies, 0.99);
        QuantileMonotone(latencies, 0.95, 0.99);
        Some(Stats(
          count := |latencies|,
          mean := Mean(latencies),
          median := Median(latencies),
          min := Smallest(latencies),
          max := Largest(latencies),
          p95 := Quantile(latencies, 0.95),
          p99 := Quantile(latencies, 0.99),
          errorCount := |errors|))
    }
  }
}
