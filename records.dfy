/**
 * The data the benchmarks move around: JSON-like records (service tickets) whose
 * fields are strings, numbers or null, and the exceptions the Python code can raise.
 */
module Records {

  /** A JSON scalar as it appears in the ticket data file or in a stored document. */
  datatype Value =
    | Null
    | Str(s: string)
    | Num(x: real)
      /** The CouchDB `_id` string `f"{codigo}_{start_time}_{position}"`; kept
          structured because float-to-text formatting is not modelled. */
    | DocId(codigo: Value, startTime: real, position: nat)

  /** One record: a dictionary from field name to value. */
  type Record = map<string, Value>

  /** The exceptions the modelled code raises or lets through. */
  datatype Error =
    | ValueError(message: string)        // unknown database, sample larger than population, empty sample
    | KeyError(key: string)              // record['codigo'] on a record without it, empty DataFrame column
    | ZeroDivisionError                  // len(data) // 0
    | AttributeError(name: string)       // calling a string method on a value that is not a string
    | BackendError(message: string)      // anything a storage driver raises

  /** `record.get(key, '')`. */
  function GetOrEmpty(r: Record, key: string): (v: Value)
    ensures key in r ==> v == r[key]
    ensures key !in r ==> v == Str("")
  {
    if key in r then r[key] else Str("")
  }

  /**
   * `[record['codigo'] for record in records]`: fails with KeyError as soon as
   * one record has no 'codigo' field.
   */
  function CodigosOf(records: seq<Record>): (r: Result<seq<Value>>)
    ensures r.Success? <==> forall i :: 0 <= i < |records| ==> "codigo" in records[i]
    ensures r.Failure? ==> r.error == KeyError("codigo")
    ensures r.Success? ==> |r.value| == |records|
    ensures r.Success? ==> forall i :: 0 <= i < |records| ==> r.value[i] == records[i]["codigo"]
  {
    if records == [] then Success([])
    else if "codigo" !in records[0] then Failure(KeyError("codigo"))
    else
      match CodigosOf(records[1..])
      case Failure(e) => Failure(e)
      case Success(rest) => Success([records[0]["codigo"]] + rest)
  }

  /** A value, or the exception that replaced it. */
  datatype Result<+R> = Success(value: R) | Failure(error: Error)

  /** The completion of a procedure that returns nothing: normal, or by an exception. */
  datatype Outcome = Pass | Fail(error: Error)
}
