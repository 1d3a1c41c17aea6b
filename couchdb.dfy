/**
 * The client-side loops of the CouchDB adapter: building one document per
 * record for a bulk update, collecting the rows of the `by_codigo` view for
 * each codigo while skipping the lookups that raise, the scan over every
 * document id that keeps case-insensitive cliente matches until `limit` of
 * them are found, and the guarded `teardown`. The database handle is a class
 * that logs every request it serves together with what it answered.
 */
module CouchDB {
  import opened Records
  import opened Text
  import opened Protocols

  /** Requests the adapter sends to its database. */
  datatype Request =
    | BulkUpdate(documents: seq<Record>)   // db.update(documents)
    | ViewByCodigo(codigo: Value)          // db.view('queries/by_codigo', key=codigo)
    | AllIds                               // for doc_id in db
    | Get(id: Value)                       // db[doc_id]

  /**
   * What a request produced: documents, document ids, or an exception raised
   * after `delivered` documents had already been handed to the caller.
   */
  datatype Answer =
    | Docs(docs: seq<Record>)
    | Ids(ids: seq<Value>)
    | Raised(delivered: seq<Record>, error: Error)

  datatype Exchange = Exchange(request: Request, answer: Answer)

  /** A database handle: any request may be answered or may raise. */
  class Database {
    ghost var log: seq<Exchange>

    constructor ()
      ensures log == []
    {
      log := [];
    }

    /**
     * `db.update(documents)`: one bulk request, which completes or raises. The
     * per-document results it returns are not modelled, since the adapter
     * ignores them.
     */
    method Update(documents: seq<Record>) returns (r: Outcome)
      modifies this
      ensures r.Fail? ==> r.error.BackendError?
      ensures log == old(log) + [Exchange(BulkUpdate(documents), if r.Pass? then Docs([]) else Raised([], r.error))]
    {
      var raises: bool :| true;
      if raises {
        var message: string :| |message| >= 0;
        r := Fail(BackendError(message));
      } else {
        r := Pass;
      }
      log := log + [Exchange(BulkUpdate(documents), if r.Pass? then Docs([]) else Raised([], r.error))];
    }

    /** Iterating a view: all its rows' values, or an exception after some of them. */
    method View(codigo: Value) returns (a: Answer)
      modifies this
      ensures a.Docs? || (a.Raised? && a.error.BackendError?)
      ensures log == old(log) + [Exchange(ViewByCodigo(codigo), a)]
    {
      var raises: bool :| true;
      var rows: seq<Record> :| |rows| >= 0;
      if raises {
        var message: string :| |message| >= 0;
        a := Raised(rows, BackendError(message));
      } else {
        a := Docs(rows);
      }
      log := log + [Exchange(ViewByCodigo(codigo), a)];
    }

    /** Listing the document ids; an exception here is outside any `try`. */
    method AllDocIds() returns (a: Answer)
      modifies this
      ensures a.Ids? || (a.Raised? && a.delivered == [] && a.error.BackendError?)
      ensures log == old(log) + [Exchange(AllIds, a)]
    {
      var raises: bool :| true;
      if raises {
        var message: string :| |message| >= 0;
        a := Raised([], BackendError(message));
      } else {
        var ids: seq<Value> :| |ids| >= 0;
        a := Ids(ids);
      }
      log := log + [Exchange(AllIds, a)];
    }

    /** `db[doc_id]`: one document, or an exception (deleted meanwhile, unreachable). */
    method Fetch(id: Value) returns (a: Answer)
      modifies this
      ensures (a.Docs? && |a.docs| == 1) || (a.Raised? && a.delivered == [] && a.error.BackendError?)
      ensures log == old(log) + [Exchange(Get(id), a)]
    {
      var raises: bool :| true;
      if raises {
        var message: string :| |message| >= 0;
        a := Raised([], BackendError(message));
      } else {
        var doc: Record :| |doc| >= 0;
        a := Docs([doc]);
      }
      log := log + [Exchange(Get(id), a)];
    }
  }

  /**
   * The document `insert_batch` builds for the record at `position`: a copy
   * of the record whose `_id` is `codigo_starttime_position` (with '' for a
   * missing codigo) and whose `created_at` is the start time; every other
   * field is the record's own.
   */
  function Document(record: Record, startTime: real, position: nat): (doc: Record)
    ensures doc.Keys == record.Keys + {"_id", "created_at"}
    ensures "_id" in doc && "created_at" in doc
    ensures doc["_id"] == DocId(GetOrEmpty(record, "codigo"), startTime, position)
    ensures doc["created_at"] == Num(startTime)
    ensures forall k :: k in record && k != "_id" && k != "created_at" ==> doc[k] == record[k]
  {
    record["_id" := DocId(GetOrEmpty(record, "codigo"), startTime, position)]["created_at" := Num(startTime)]
  }

  /**
   * The document loop of `insert_batch`: exactly one document per record, in
   * order, built from that record and its position; so no two documents of a
   * batch share an `_id`. The records themselves are values and stay as they were.
   */
  method MakeDocuments(data: seq<Record>, startTime: real) returns (documents: seq<Record>)
    ensures |documents| == |data|
    ensures forall i :: 0 <= i < |data| ==> documents[i] == Document(data[i], startTime, i)
    ensures forall i, j :: 0 <= i < j < |data| ==>
      "_id" in documents[i] && "_id" in documents[j] && documents[i]["_id"] != documents[j]["_id"]
  {
    documents := [];
    var i := 0;
    while i < |data|
      invariant 0 <= i <= |data| && |documents| == i
      invariant forall k :: 0 <= k < i ==> documents[k] == Document(data[k], startTime, k)
    {
      documents := documents + [Document(data[i], startTime, i)];
      i := i + 1;
    }
  }

  /**
   * `insert_batch`: build the documents, then one bulk update, whose exception
   * propagates. The clock reading is the `startTime` parameter; the elapsed
   * time reported is any non-negative number.
   */
  method InsertBatch(db: Database, data: seq<Record>, startTime: real)
    returns (r: Result<real>, ghost documents: seq<Record>)
    modifies db
    ensures |documents| == |data|
    ensures forall i :: 0 <= i < |data| ==> documents[i] == Document(data[i], startTime, i)
    ensures |db.log| == |old(db.log)| + 1 && db.log[..|old(db.log)|] == old(db.log)
    ensures db.log[|old(db.log)|].request == BulkUpdate(documents)
    ensures r.Success? <==> db.log[|old(db.log)|].answer.Docs?
    ensures r.Success? ==> r.value >= 0.0
    ensures r.Failure? ==> r.error.BackendError?
  {
    var built := MakeDocuments(data, startTime);
    documents := built;
    var stored := db.Update(built);
    if stored.Fail? {
      return Failure(stored.error), documents;
    }
    var elapsed: real :| elapsed >= 0.0;
    r := Success(elapsed);
  }

  /** `doc.pop('_id', None); doc.pop('_rev', None)`: the document without CouchDB's bookkeeping fields. */
  function Strip(doc: Record): (d: Record)
    ensures "_id" !in d && "_rev" !in d
    ensures forall k :: k in doc && k != "_id" && k != "_rev" ==> k in d && d[k] == doc[k]
    ensures forall k :: k in d ==> k in doc
  {
    doc - {"_id", "_rev"}
  }

  /** Each document of a run, stripped. */
  function StripAll(docs: seq<Record>): (ds: seq<Record>)
    ensures |ds| == |docs|
  {
    seq(|docs|, k requires 0 <= k < |docs| => Strip(docs[k]))
  }

  /** The rows a view request handed over before it finished or raised. */
  function Rows(a: Answer): seq<Record> {
    match a
    case Docs(docs) => docs
    case Ids(_) => []
    case Raised(delivered, _) => delivered
  }

  /** The results `query_by_codigo` collects from a run of view requests: every row handed over, stripped, in order. */
  function Collected(views: seq<Exchange>): seq<Record>
    decreases |views|
  {
    if views == [] then []
    else
      var n := |views| - 1;
      Collected(views[..n]) + StripAll(Rows(views[n].answer))
  }

  /**
   * `query_by_codigo`: one view request per codigo; the rows of each are
   * stripped and appended as they arrive, and an exception only abandons the
   * rest of that codigo's rows. Nothing raises out of the loop.
   */
  method QueryByCodigo(db: Database, codigos: seq<Value>) returns (results: seq<Record>, ghost views: seq<Exchange>)
    modifies db
    ensures db.log == old(db.log) + views
    ensures |views| == |codigos|
    ensures forall k :: 0 <= k < |codigos| ==> views[k].request == ViewByCodigo(codigos[k])
    ensures results == Collected(views)
  {
    views := [];
    results := [];
    var i := 0;
    while i < |codigos|
      invariant 0 <= i <= |codigos| && |views| == i
      invariant db.log == old(db.log) + views
      invariant forall k :: 0 <= k < i ==> views[k].request == ViewByCodigo(codigos[k])
      invariant results == Collected(views)
    {
      var a := db.View(codigos[i]);
      ghost var e := Exchange(ViewByCodigo(codigos[i]), a);
      Regroup(old(db.log), views, [e]);
      assert (views + [e])[..i] == views;
      forall k | 0 <= k <= i ensures (views + [e])[k].request == ViewByCodigo(codigos[k]) {
        if k < i {
          assert (views + [e])[k] == views[k];
        }
      }
      views := views + [e];
      results := results + StripAll(Rows(a));
      i := i + 1;
    }
  }

  lemma StripAllAppend(a: seq<Record>, b: seq<Record>)
    ensures StripAll(a + b) == StripAll(a) + StripAll(b)
  {
    assert forall j :: 0 <= j < |a + b| ==> StripAll(a + b)[j] == (StripAll(a) + StripAll(b))[j];
  }

  /**
   * Whatever the view requests answered, the collected results are exactly
   * the delivered rows, in order, each with `_id` and `_rev` removed; so no
   * result carries either field.
   */
  lemma {:induction false} CollectedStripped(views: seq<Exchange>)
    ensures Collected(views) == StripAll(Flattened(views))
    ensures forall j :: 0 <= j < |Collected(views)| ==> "_id" !in Collected(views)[j] && "_rev" !in Collected(views)[j]
    decreases |views|
  {
    if views != [] {
      var n := |views| - 1;
      CollectedStripped(views[..n]);
      StripAllAppend(Flattened(views[..n]), Rows(views[n].answer));
    }
  }

  /** Every row the view requests handed over, unstripped, in order. */
  function Flattened(views: seq<Exchange>): seq<Record>
    decreases |views|
  {
    if views == [] then []
    else
      var n := |views| - 1;
      Flattened(views[..n]) + Rows(views[n].answer)
  }

  /**
   * The test of `query_by_cliente_substring`: the document has a 'cliente'
   * that is a string containing the pattern, ignoring case. A cliente that is
   * not a string makes `.lower()` raise inside the `try`, so it never matches.
   */
  predicate Matches(doc: Record, pattern: string) {
    "cliente" in doc && doc["cliente"].Str? && ContainsIgnoringCase(pattern, doc["cliente"].s)
  }

  /** The results a run of fetches yields: each fetched document that matches, stripped, in order; failed fetches yield nothing. */
  function Found(gets: seq<Exchange>, pattern: string): seq<Record>
    decreases |gets|
  {
    if gets == [] then []
    else
      var n := |gets| - 1;
      var a := gets[n].answer;
      Found(gets[..n], pattern) + (if a.Docs? && |a.docs| == 1 && Matches(a.docs[0], pattern) then [Strip(a.docs[0])] else [])
  }

  /** The count limit at which the scan stops: `count >= limit` holds from the start when `limit <= 0`. */
  function Quota(limit: int): (q: nat)
    ensures limit >= 0 ==> q == limit
    ensures limit < 0 ==> q == 0
  {
    if limit >= 0 then limit else 0
  }

  /**
   * Every result of the scan has a string cliente containing the pattern
   * ignoring case, carries neither `_id` nor `_rev`, and came from a
   * distinct fetch.
   */
  lemma {:induction false} FoundMatches(gets: seq<Exchange>, pattern: string)
    ensures |Found(gets, pattern)| <= |gets|
    ensures forall j :: 0 <= j < |Found(gets, pattern)| ==>
      var d := Found(gets, pattern)[j];
      "_id" !in d && "_rev" !in d && "cliente" in d && d["cliente"].Str? && ContainsIgnoringCase(pattern, d["cliente"].s)
    decreases |gets|
  {
    if gets != [] {
      var n := |gets| - 1;
      FoundMatches(gets[..n], pattern);
      var front := Found(gets[..n], pattern);
      var a := gets[n].answer;
      if a.Docs? && |a.docs| == 1 && Matches(a.docs[0], pattern) {
        forall j | 0 <= j < |front| + 1
          ensures var d := (front + [Strip(a.docs[0])])[j];
            "_id" !in d && "_rev" !in d && "cliente" in d && d["cliente"].Str? && ContainsIgnoringCase(pattern, d["cliente"].s)
        {
          if j < |front| {
            assert (front + [Strip(a.docs[0])])[j] == front[j];
          }
        }
      } else {
        assert front + [] == front;
      }
    }
  }

  /** A fetch that raised contributes nothing, and the scan goes on with the next id. */
  lemma FailedFetchSkipped(gets: seq<Exchange>, e: Exchange, pattern: string)
    requires e.answer.Raised?
    ensures Found(gets + [e], pattern) == Found(gets, pattern)
  {
    assert (gets + [e])[..|gets|] == gets;
  }

  /**
   * `query_by_cliente_substring`: list the document ids (an exception here
   * propagates), then, for each id while fewer than `limit` results are
   * held, fetch the document and keep a stripped copy when it matches;
   * a fetch that raises is skipped.
   */
  method QueryByClienteSubstring(db: Database, substring: string, limit: int)
    returns (r: Result<seq<Record>>, ghost ids: seq<Value>, ghost gets: seq<Exchange>)
    modifies db
    ensures |db.log| > |old(db.log)| && db.log[|old(db.log)|].request == AllIds
    ensures r.Failure? <==> db.log[|old(db.log)|].answer.Raised?
    ensures r.Failure? ==> |db.log| == |old(db.log)| + 1 && r.error.BackendError?
    ensures r.Success? ==>
      && db.log[|old(db.log)|].answer == Ids(ids)
      && db.log == old(db.log) + [Exchange(AllIds, Ids(ids))] + gets
      && |gets| <= |ids|
      && (forall k :: 0 <= k < |gets| ==> gets[k].request == Get(ids[k]))
      && r.value == Found(gets, substring)
      && |r.value| <= Quota(limit)
      && (|gets| < |ids| ==> |r.value| == Quota(limit))
      && (gets != [] ==> |Found(gets[..|gets| - 1], substring)| < Quota(limit))
  {
    gets := [];
    ids := [];
    var listing := db.AllDocIds();
    if listing.Raised? {
      return Failure(listing.error), ids, gets;
    }
    var docIds := listing.ids;
    ids := docIds;
    ghost var start := db.log;
    var results: seq<Record> := [];
    var count := 0;
    var i := 0;
    while i < |docIds|
      invariant 0 <= i <= |docIds| && |gets| == i
      invariant db.log == start + gets
      invariant forall k :: 0 <= k < i ==> gets[k].request == Get(ids[k])
      invariant results == Found(gets, substring) && count == |results| <= Quota(limit)
      invariant gets != [] ==> |Found(gets[..|gets| - 1], substring)| < Quota(limit)
    {
      if count >= limit {
        break;
      }
      ghost var before := gets;
      var a := db.Fetch(docIds[i]);
      results, count, gets := ScanStep(docIds, i, gets, a, results, count, substring, limit);
      Regroup(start, before, [Exchange(Get(docIds[i]), a)]);
      i := i + 1;
    }
    r := Success(results);
  }

  /**
   * One document of the scan, fetched while `count < limit`: keep its
   * stripped copy and count it when it matches, skip it when the fetch raised.
   */
  method ScanStep(ghost ids: seq<Value>, i: nat, ghost gets: seq<Exchange>, a: Answer, results: seq<Record>, count: nat, substring: string, limit: int)
    returns (results': seq<Record>, count': nat, ghost gets': seq<Exchange>)
    requires i < |ids| && |gets| == i && count < limit
    requires (a.Docs? && |a.docs| == 1) || (a.Raised? && a.delivered == [])
    requires forall k :: 0 <= k < i ==> gets[k].request == Get(ids[k])
    requires results == Found(gets, substring) && count == |results| <= Quota(limit)
    ensures gets' == gets + [Exchange(Get(ids[i]), a)]
    ensures forall k :: 0 <= k <= i ==> gets'[k].request == Get(ids[k])
    ensures results' == Found(gets', substring) && count' == |results'| <= Quota(limit)
    ensures |Found(gets'[..|gets'| - 1], substring)| < Quota(limit)
  {
    gets' := gets + [Exchange(Get(ids[i]), a)];
    assert gets'[..i] == gets;
    forall k | 0 <= k <= i ensures gets'[k].request == Get(ids[k]) {
      if k < i {
        assert gets'[k] == gets[k];
      }
    }
    results', count' := results, count;
    if a.Docs? {
      var doc := a.docs[0];
      if "cliente" in doc && doc["cliente"].Str? && ContainsIgnoringCase(substring, doc["cliente"].s) {
        results' := results + [Strip(doc)];
        count' := count + 1;
      }
    }
  }

  /** Requests the adapter sends to its server. */
  datatype ServerRequest =
    | Lookup(name: string)   // name in server
    | Remove(name: string)   // del server[name]

  datatype ServerExchange = ServerExchange(request: ServerRequest, outcome: Outcome)

  /**
   * The CouchDB server: the names of the databases it holds, and a log of the
   * requests it was sent. Either request is an HTTP call and may raise.
   */
  class Server {
    var databases: set<string>
    ghost var log: seq<ServerExchange>

    constructor (databases: set<string>)
      ensures this.databases == databases && log == []
    {
      this.databases := databases;
      log := [];
    }

    /** `name in server`: whether the server holds that database, unless the request raises. */
    method Holds(name: string) returns (r: Result<bool>)
      modifies this
      ensures databases == old(databases)
      ensures r.Success? ==> (r.value <==> name in databases)
      ensures r.Failure? ==> r.error.BackendError?
      ensures log == old(log) + [ServerExchange(Lookup(name), if r.Success? then Pass else Fail(r.error))]
    {
      var raises: bool :| true;
      if raises {
        var message: string :| |message| >= 0;
        r := Failure(BackendError(message));
      } else {
        r := Success(name in databases);
      }
      log := log + [ServerExchange(Lookup(name), if r.Success? then Pass else Fail(r.error))];
    }

    /**
     * `del server[name]`: removes the database. It raises when there is none of
     * that name, and may raise otherwise too, with the database gone or not.
     */
    method Delete(name: string) returns (r: Outcome)
      modifies this
      ensures name !in old(databases) ==> r.Fail?
      ensures r.Fail? ==> r.error.BackendError?
      ensures r.Pass? ==> databases == old(databases) - {name}
      ensures r.Fail? ==> old(databases) - {name} <= databases <= old(databases)
      ensures log == old(log) + [ServerExchange(Remove(name), r)]
    {
      if name !in databases {
        r := Fail(BackendError("Database does not exist."));
      } else {
        var raises: bool :| true;
        var removed: bool :| true;
        if raises {
          var message: string :| |message| >= 0;
          r := Fail(BackendError(message));
        } else {
          r := Pass;
        }
        if r.Pass? || removed {
          databases := databases - {name};
        }
      }
      log := log + [ServerExchange(Remove(name), r)];
    }
  }

  /** The adapter's handle on its server and the name of its database (`benchmark_db` unless configured). */
  class CouchdbAdapter {
    const server: Server
    const dbName: string

    constructor (server: Server, dbName: string)
      ensures this.server == server && this.dbName == dbName
    {
      this.server := server;
      this.dbName := dbName;
    }

    /**
     * `teardown`: delete the database only when the server holds it. A missing
     * database is never an error, so a second teardown is as harmless as the
     * first; the call fails only when one of its server requests raised.
     */
    method Teardown() returns (r: Outcome)
      modifies server
      ensures r.Pass? ==> server.databases == old(server.databases) - {dbName}
      ensures r.Fail? ==> old(server.databases) - {dbName} <= server.databases <= old(server.databases)
      ensures |server.log| > |old(server.log)| && r == server.log[|server.log| - 1].outcome
      ensures server.log[|old(server.log)|].request == Lookup(dbName)
      ensures dbName !in old(server.databases) ==> server.log == old(server.log) + [ServerExchange(Lookup(dbName), r)]
      ensures dbName in old(server.databases) && r.Pass? ==>
        server.log == old(server.log) + [ServerExchange(Lookup(dbName), Pass), ServerExchange(Remove(dbName), Pass)]
    {
      var held := server.Holds(dbName);
      if held.Failure? {
        return Fail(held.error);
      }
      r := Pass;
      if held.value {
        r := server.Delete(dbName);
      }
    }
  }
}
