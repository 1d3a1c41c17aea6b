/**
 * The backend capability contract every storage adapter implements, seen from
 * the benchmark core: each operation is recorded in a ghost trace together with
 * its reply, and the reply is any one that fits the operation (a non-negative
 * elapsed time, a record count, plain completion, or a raised exception).
 */
module Backends {
  import opened Records
  import opened Text
  import opened Sequences

  datatype Call =
    | Connect
    | Disconnect
    | SetupSchema
    | Teardown
    | InsertBatch(records: seq<Record>)
    | QueryByCodigo(codigos: seq<Value>)
    | QueryBySubstring(pattern: string, limit: int)
    | RecordCount

  datatype Reply =
    | Done
    | Timed(seconds: real)
    | Counted(n: int)
    | Raised(message: string)

  datatype Event = Event(call: Call, reply: Reply)

  /** The replies a call can produce: every call may raise; otherwise it returns what its signature says. */
  predicate Fits(c: Call, r: Reply) {
    match r
    case Raised(_) => true
    case Timed(s) => (c.InsertBatch? || c.QueryByCodigo? || c.QueryBySubstring?) && s >= 0.0
    case Counted(n) => c.RecordCount? && n >= 0
    case Done => c.Connect? || c.Disconnect? || c.SetupSchema? || c.Teardown?
  }

  /** `self.__class__.__name__.replace('Benchmark', '').lower()`. */
  function DbName(className: string): string {
    Lower(RemoveAll(className, "Benchmark"))
  }

  /** Removing a suffix occurrence of `p` from `x + p` gives `x` when no character of `x` can start `p`. */
  lemma RemoveTrailing(x: string, p: string)
    requires p != []
    requires forall i :: 0 <= i < |x| ==> x[i] != p[0]
    ensures RemoveAll(x + p, p) == x
  {
    forall i | 0 <= i < |x|
      ensures !OccursAt(p, x + p + [], i)
    {
      assert (x + p + [])[i] == x[i];
    }
    RemoveFirst(x, p, []);
    assert x + p + [] == x + p;
  }

  /**
   * An adapter class `<Engine>Benchmark` whose engine part holds no 'B' (Postgres,
   * Mongodb, Couchdb, Cassandra, Scylladb) gets the lower-cased engine part as its name.
   */
  lemma DbNameOfAdapterClass(x: string)
    requires forall i :: 0 <= i < |x| ==> x[i] != 'B'
    ensures DbName(x + "Benchmark") == Lower(x)
  {
    RemoveTrailing(x, "Benchmark");
  }

  /** One adapter instance (`BaseBenchmark` subclass) bound to one storage engine. */
  class Backend {
    const dbName: string
    ghost var trace: seq<Event>

    constructor (className: string)
      ensures dbName == DbName(className)
      ensures trace == []
    {
      dbName := DbName(className);
      trace := [];
    }

    /** Invoke one capability; the engine answers with any reply that fits the call. */
    method Perform(c: Call) returns (reply: Reply)
      modifies this
      ensures Fits(c, reply)
      ensures trace == old(trace) + [Event(c, reply)]
    {
      assert Fits(c, Raised("backend error"));
      reply :| Fits(c, reply);
      trace := trace + [Event(c, reply)];
    }
  }

  /** No call at position `n` of the trace or later is a teardown. */
  ghost predicate NoTeardownSince(trace: seq<Event>, n: nat) {
    forall j :: n <= j < |trace| ==> !trace[j].call.Teardown?
  }

  /** The trace grew past position `n`, and its last call raised the exception `error`. */
  ghost predicate RaisedSince(trace: seq<Event>, n: nat, error: Error) {
    && n < |trace|
    && trace[|trace| - 1].reply.Raised?
    && error == BackendError(trace[|trace| - 1].reply.message)
  }

  /** A run free of teardowns followed by another one is free of teardowns. */
  lemma NoTeardownChain(first: seq<Event>, trace: seq<Event>, n: nat)
    requires n <= |first| && first <= trace
    requires NoTeardownSince(first, n) && NoTeardownSince(trace, |first|)
    ensures NoTeardownSince(trace, n)
  {
    forall j | n <= j < |trace| ensures !trace[j].call.Teardown? {
      if j < |first| {
        assert trace[j] == first[j];
      }
    }
  }

  /** The records one event inserted: those of a batch insert that completed. */
  function InsertedBy(e: Event): seq<Record> {
    if e.call.InsertBatch? && e.reply.Timed? then e.call.records else []
  }

  /** The records successfully inserted by a run of events, in order. */
  function Inserted(events: seq<Event>): seq<Record> {
    if events == [] then [] else InsertedBy(events[0]) + Inserted(events[1..])
  }

  lemma {:induction false} InsertedAppend(a: seq<Event>, b: seq<Event>)
    ensures Inserted(a + b) == Inserted(a) + Inserted(b)
  {
    if a != [] {
      var head := InsertedBy(a[0]);
      assert (a + b)[0] == a[0];
      assert (a + b)[1..] == a[1..] + b;
      InsertedAppend(a[1..], b);
      calc {
        Inserted(a + b);
        head + Inserted(a[1..] + b);
        head + (Inserted(a[1..]) + Inserted(b));
        (head + Inserted(a[1..])) + Inserted(b);
      }
    } else {
      assert a + b == b;
    }
  }

  /** The elapsed times of the events that completed, in order. */
  function Durations(events: seq<Event>): (d: seq<real>)
    ensures |d| <= |events|
  {
    if events == [] then []
    else (if events[0].reply.Timed? then [events[0].reply.seconds] else []) + Durations(events[1..])
  }

  lemma {:induction false} DurationsAppend(a: seq<Event>, b: seq<Event>)
    ensures Durations(a + b) == Durations(a) + Durations(b)
  {
    if a != [] {
      assert (a + b)[1..] == a[1..] + b;
      DurationsAppend(a[1..], b);
    } else {
      assert a + b == b;
    }
  }

  /** The messages of the events that raised, in order. */
  function Errors(events: seq<Event>): (m: seq<string>)
    ensures |m| <= |events|
  {
    if events == [] then []
    else (if events[0].reply.Raised? then [events[0].reply.message] else []) + Errors(events[1..])
  }

  lemma {:induction false} ErrorsAppend(a: seq<Event>, b: seq<Event>)
    ensures Errors(a + b) == Errors(a) + Errors(b)
  {
    if a != [] {
      assert (a + b)[1..] == a[1..] + b;
      ErrorsAppend(a[1..], b);
    } else {
      assert a + b == b;
    }
  }

  /** When every call either completed or raised, each one is counted exactly once. */
  lemma {:induction false} CompletedOrRaised(events: seq<Event>)
    requires forall j :: 0 <= j < |events| ==> events[j].reply.Timed? || events[j].reply.Raised?
    ensures |Durations(events)| + |Errors(events)| == |events|
  {
    if events != [] {
      CompletedOrRaised(events[1..]);
    }
  }
}
