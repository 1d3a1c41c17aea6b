/**
 * The client-side loops of the Cassandra adapter: batched inserts of 50 bound
 * rows per statement, one primary-key lookup per codigo, the case-insensitive
 * filter that finishes a substring search, and the `disconnect` guard. The
 * driver session is a class that logs every statement it executes together
 * with its answer, which may be any rows or an exception.
 */
module Cassandra {
  import opened Records
  import opened Text
  import opened Sequences
  import opened Protocols

  /** The 18 columns each insert binds, in the order of the INSERT statement. */
  const Columns: seq<string> := [
    "codigo", "titulo", "data_inicio", "data_fim", "origem", "contato", "email",
    "descricao", "atendente", "atendente_equipe", "atendente_unidade",
    "cliente", "produto", "situacao", "classificacao", "sub_classificacao",
    "tipo", "prioridade"]

  /** Statements the adapter sends; the CQL text is represented by its parameters. */
  datatype Statement =
    | PrepareInsert                         // session.prepare of the 18-column INSERT
    | PrepareSelect                         // session.prepare of SELECT * ... WHERE codigo = ?
    | Batch(rows: seq<seq<Value>>)          // a BatchStatement of bound inserts
    | SelectByCodigo(codigo: Value)         // SELECT * ... WHERE codigo = ?
    | SelectLike(pattern: string, limit: int)  // ... WHERE cliente LIKE '%pattern%' LIMIT limit
    | SelectAny(limit: int)                 // ... LIMIT limit (the fallback)

  /** One statement and what the cluster answered: rows, or the exception it raised. */
  datatype Exchange = Exchange(statement: Statement, answer: Result<seq<Record>>)

  /**
   * A driver session: executing a statement yields any rows or raises.
   * Preparing a statement is a round trip too, sent through the same log.
   */
  class Session {
    ghost var log: seq<Exchange>

    constructor ()
      ensures log == []
    {
      log := [];
    }

    method Execute(s: Statement) returns (r: Result<seq<Record>>)
      modifies this
      ensures log == old(log) + [Exchange(s, r)]
    {
      var raises: bool :| true;
      if raises {
        var message: string :| |message| >= 0;
        r := Failure(BackendError(message));
      } else {
        var rows: seq<Record> :| |rows| >= 0;
        r := Success(rows);
      }
      log := log + [Exchange(s, r)];
    }
  }

  /** The tuple bound for one record: each column's value, or '' when the record lacks it. */
  function BindRow(record: Record): (row: seq<Value>)
    ensures |row| == |Columns|
  {
    seq(|Columns|, j requires 0 <= j < |Columns| => GetOrEmpty(record, Columns[j]))
  }

  /**
   * Column j of a bound tuple carries the record's field of that name, and an
   * absent field is bound as the empty string; in particular the key column
   * comes first and 'cliente' is the twelfth.
   */
  lemma BindRowColumns(record: Record, j: nat)
    requires j < |Columns|
    ensures Columns[j] in record ==> BindRow(record)[j] == record[Columns[j]]
    ensures Columns[j] !in record ==> BindRow(record)[j] == Str("")
    ensures BindRow(record)[0] == GetOrEmpty(record, "codigo") && BindRow(record)[11] == GetOrEmpty(record, "cliente")
  {
  }

  /** The tuples of a run of records, in order. */
  function BindAll(records: seq<Record>): (rows: seq<seq<Value>>)
    ensures |rows| == |records|
  {
    seq(|records|, j requires 0 <= j < |records| => BindRow(records[j]))
  }

  /** The batch statement of each chunk, in order. */
  function BatchesOf(chunks: seq<seq<Record>>): (stmts: seq<Statement>)
    ensures |stmts| == |chunks|
  {
    seq(|chunks|, k requires 0 <= k < |chunks| => Batch(BindAll(chunks[k])))
  }

  /** The statements of an exchange log, in order. */
  function StatementsOf(log: seq<Exchange>): (stmts: seq<Statement>)
    ensures |stmts| == |log|
  {
    seq(|log|, k requires 0 <= k < |log| => log[k].statement)
  }

  /** The rows a run of batches binds, concatenated. */
  function BoundRows(stmts: seq<Statement>): seq<seq<Value>>
    requires forall k :: 0 <= k < |stmts| ==> stmts[k].Batch?
  {
    if stmts == [] then [] else stmts[0].rows + BoundRows(stmts[1..])
  }

  lemma {:induction false} BindAllAppend(a: seq<Record>, b: seq<Record>)
    ensures BindAll(a + b) == BindAll(a) + BindAll(b)
  {
    assert forall j :: 0 <= j < |a + b| ==> BindAll(a + b)[j] == (BindAll(a) + BindAll(b))[j];
  }

  /**
   * Cutting the data into chunks of 50 and binding each chunk binds every
   * record exactly once, in input order, at most 50 to a statement, and only
   * the last statement may hold fewer than 50.
   */
  lemma {:induction false} BatchesBindAll(data: seq<Record>)
    ensures BoundRows(BatchesOf(Chunks(data, 50))) == BindAll(data)
    ensures forall k :: 0 <= k < |Chunks(data, 50)| ==> 0 < |BatchesOf(Chunks(data, 50))[k].rows| <= 50
    ensures forall k :: 0 <= k < |Chunks(data, 50)| - 1 ==> |BatchesOf(Chunks(data, 50))[k].rows| == 50
    decreases |data|
  {
    ChunksSized(data, 50);
    if data != [] {
      var n := if |data| < 50 then |data| else 50;
      var cs := Chunks(data, 50);
      BatchesBindAll(data[n..]);
      assert cs == [data[..n]] + Chunks(data[n..], 50);
      assert BatchesOf(cs)[1..] == BatchesOf(Chunks(data[n..], 50));
      BindAllAppend(data[..n], data[n..]);
      assert data == data[..n] + data[n..];
    }
  }

  /**
   * `insert_batch`: the INSERT is prepared first, even for no data, and a
   * failed prepare propagates before any batch. Then, for i = 0, 50, 100, ...,
   * one BatchStatement binding `data[i:i+50]` is executed; the first one that
   * raises ends the insert and propagates. The elapsed time is any
   * non-negative number.
   */
  method InsertBatch(session: Session, data: seq<Record>) returns (r: Result<real>, ghost prepare: Exchange, ghost batches: seq<Exchange>)
    modifies session
    ensures session.log == old(session.log) + [prepare] + batches
    ensures prepare.statement == PrepareInsert
    ensures prepare.answer.Failure? ==> r == Failure(prepare.answer.error) && batches == []
    ensures r.Success? ==>
      && prepare.answer.Success?
      && StatementsOf(batches) == BatchesOf(Chunks(data, 50))
      && (forall k :: 0 <= k < |batches| ==> batches[k].answer.Success?)
      && r.value >= 0.0
    ensures r.Failure? && prepare.answer.Success? ==>
      && 0 < |batches| <= |Chunks(data, 50)|
      && StatementsOf(batches) == BatchesOf(Chunks(data, 50)[..|batches|])
      && (forall k :: 0 <= k < |batches| - 1 ==> batches[k].answer.Success?)
      && batches[|batches| - 1].answer == Failure(r.error)
  {
    var prepared := session.Execute(PrepareInsert);
    prepare, batches := Exchange(PrepareInsert, prepared), [];
    if prepared.Failure? {
      return Failure(prepared.error), prepare, batches;
    }
    ghost var sent: seq<seq<Record>> := [];
    var i := 0;
    while i < |data|
      invariant 0 <= i <= |data|
      invariant sent + Chunks(data[i..], 50) == Chunks(data, 50)
      invariant session.log == old(session.log) + [prepare] + batches
      invariant StatementsOf(batches) == BatchesOf(sent) && |batches| == |sent|
      invariant forall k :: 0 <= k < |batches| ==> batches[k].answer.Success?
    {
      var end := if i + 50 < |data| then i + 50 else |data|;
      var chunk := data[i..end];
      var statement := Batch(BindAll(chunk));
      var answer := session.Execute(statement);
      ghost var e := Exchange(statement, answer);
      Regroup(old(session.log) + [prepare], batches, [e]);
      BatchStep(data, i, end, sent, batches, e);
      if answer.Failure? {
        LeadingChunks(sent + [chunk], Chunks(data[end..], 50), Chunks(data, 50));
        batches := batches + [e];
        return Failure(answer.error), prepare, batches;
      }
      batches, sent := batches + [e], sent + [chunk];
      i := end;
    }
    assert data[i..] == [];
    assert sent + [] == sent == Chunks(data, 50);
    var elapsed: real :| elapsed >= 0.0;
    r := Success(elapsed);
  }

  /** The chunks sent so far are the leading chunks. */
  lemma LeadingChunks(sent: seq<seq<Record>>, pending: seq<seq<Record>>, chunks: seq<seq<Record>>)
    requires sent + pending == chunks
    ensures |sent| <= |chunks| && chunks[..|sent|] == sent
  {
    assert (sent + pending)[..|sent|] == sent;
  }

  /** Sending the batch of `data[i:end]` moves the first pending chunk to the sent ones. */
  lemma BatchStep(data: seq<Record>, i: nat, end: nat, sent: seq<seq<Record>>, batches: seq<Exchange>, e: Exchange)
    requires i < |data| && end == (if i + 50 < |data| then i + 50 else |data|)
    requires sent + Chunks(data[i..], 50) == Chunks(data, 50)
    requires StatementsOf(batches) == BatchesOf(sent)
    requires e.statement == Batch(BindAll(data[i..end]))
    ensures sent + [data[i..end]] + Chunks(data[end..], 50) == Chunks(data, 50)
    ensures StatementsOf(batches + [e]) == BatchesOf(sent + [data[i..end]])
  {
    ChunkStep(data, i, end, sent);
    SentOneMore(batches, e, sent, data[i..end]);
  }

  /** Taking `data[i:end]` moves the first pending chunk to the sent ones. */
  lemma ChunkStep(data: seq<Record>, i: nat, end: nat, sent: seq<seq<Record>>)
    requires i < |data| && end == (if i + 50 < |data| then i + 50 else |data|)
    requires sent + Chunks(data[i..], 50) == Chunks(data, 50)
    ensures sent + [data[i..end]] + Chunks(data[end..], 50) == Chunks(data, 50)
  {
    var rest := data[i..];
    var n := if |rest| < 50 then |rest| else 50;
    var chunk := data[i..end];
    assert rest[..n] == chunk;
    assert rest[n..] == data[end..];
    assert Chunks(rest, 50) == [rest[..n]] + Chunks(rest[n..], 50);
    calc {
      Chunks(data, 50);
      sent + Chunks(rest, 50);
      sent + ([chunk] + Chunks(data[end..], 50));
      { Regroup(sent, [chunk], Chunks(data[end..], 50)); }
      sent + [chunk] + Chunks(data[end..], 50);
    }
  }

  /** One more executed batch extends the statements sent so far by its statement. */
  lemma SentOneMore(batches: seq<Exchange>, e: Exchange, sent: seq<seq<Record>>, chunk: seq<Record>)
    requires e.statement == Batch(BindAll(chunk)) && StatementsOf(batches) == BatchesOf(sent)
    ensures StatementsOf(batches + [e]) == BatchesOf(sent + [chunk])
  {
    forall k | 0 <= k <= |batches| ensures StatementsOf(batches + [e])[k] == BatchesOf(sent + [chunk])[k] {
      if k < |batches| {
        assert (batches + [e])[k] == batches[k];
        assert StatementsOf(batches)[k] == BatchesOf(sent)[k];
      }
    }
  }

  /** The rows a run of successful lookups returned, concatenated. */
  function Answers(log: seq<Exchange>): seq<Record>
    requires forall k :: 0 <= k < |log| ==> log[k].answer.Success?
  {
    if log == [] then [] else log[0].answer.value + Answers(log[1..])
  }

  lemma {:induction false} AnswersAppend(a: seq<Exchange>, e: Exchange)
    requires forall k :: 0 <= k < |a| ==> a[k].answer.Success?
    requires e.answer.Success?
    ensures Answers(a + [e]) == Answers(a) + e.answer.value
  {
    if a == [] {
      assert [e][1..] == [];
    } else {
      assert (a + [e])[1..] == a[1..] + [e];
      AnswersAppend(a[1..], e);
    }
  }

  /**
   * `query_by_codigo`: the SELECT is prepared first, even for no codigos, and
   * a failed prepare propagates before any lookup. Then one lookup per
   * codigo, in input order, whose rows are appended to the result; a lookup
   * that raises propagates. No codigo, no lookup and no rows.
   */
  method QueryByCodigo(session: Session, codigos: seq<Value>)
    returns (r: Result<seq<Record>>, ghost prepare: Exchange, ghost lookups: seq<Exchange>)
    modifies session
    ensures session.log == old(session.log) + [prepare] + lookups
    ensures prepare.statement == PrepareSelect
    ensures prepare.answer.Failure? ==> r == Failure(prepare.answer.error) && lookups == []
    ensures codigos == [] && prepare.answer.Success? ==> r == Success([]) && lookups == []
    ensures r.Success? ==>
      && prepare.answer.Success?
      && |lookups| == |codigos|
      && (forall k :: 0 <= k < |codigos| ==> lookups[k].statement == SelectByCodigo(codigos[k]) && lookups[k].answer.Success?)
      && r.value == Answers(lookups)
    ensures r.Failure? && prepare.answer.Success? ==>
      && 0 < |lookups| <= |codigos|
      && (forall k :: 0 <= k < |lookups| ==> lookups[k].statement == SelectByCodigo(codigos[k]))
      && (forall k :: 0 <= k < |lookups| - 1 ==> lookups[k].answer.Success?)
      && lookups[|lookups| - 1].answer == Failure(r.error)
  {
    var prepared := session.Execute(PrepareSelect);
    prepare, lookups := Exchange(PrepareSelect, prepared), [];
    if prepared.Failure? {
      return Failure(prepared.error), prepare, lookups;
    }
    var results: seq<Record> := [];
    var i := 0;
    while i < |codigos|
      invariant 0 <= i <= |codigos| && |lookups| == i
      invariant session.log == old(session.log) + [prepare] + lookups
      invariant forall k :: 0 <= k < i ==> lookups[k].statement == SelectByCodigo(codigos[k]) && lookups[k].answer.Success?
      invariant results == Answers(lookups)
    {
      var answer := session.Execute(SelectByCodigo(codigos[i]));
      ghost var e := Exchange(SelectByCodigo(codigos[i]), answer);
      Regroup(old(session.log) + [prepare], lookups, [e]);
      if answer.Failure? {
        forall k | 0 <= k <= i ensures (lookups + [e])[k].statement == SelectByCodigo(codigos[k]) {
          if k < i {
            assert (lookups + [e])[k] == lookups[k];
          }
        }
        lookups := lookups + [e];
        return Failure(answer.error), prepare, lookups;
      }
      AnswersAppend(lookups, e);
      forall k | 0 <= k <= i ensures (lookups + [e])[k].statement == SelectByCodigo(codigos[k]) && (lookups + [e])[k].answer.Success? {
        if k < i {
          assert (lookups + [e])[k] == lookups[k];
        }
      }
      lookups := lookups + [e];
      results := results + answer.value;
      i := i + 1;
    }
    r := Success(results);
  }

  /** `row_dict.get('cliente', '')`. */
  function Cliente(row: Record): Value {
    GetOrEmpty(row, "cliente")
  }

  /** The row's cliente is a string containing the pattern, ignoring case. */
  predicate Matches(row: Record, pattern: string) {
    Cliente(row).Str? && ContainsIgnoringCase(pattern, Cliente(row).s)
  }

  /** All matching rows, in order: the reference the filter is measured against. */
  function Matching(rows: seq<Record>, pattern: string): seq<Record>
    decreases |rows|
  {
    if rows == [] then []
    else
      var n := |rows| - 1;
      Matching(rows[..n], pattern) + (if Matches(rows[n], pattern) then [rows[n]] else [])
  }

  /** The number of results that ends the scan: `limit`, but the check follows an append, so at least 1. */
  function Cap(limit: int): (c: nat)
    ensures c >= 1 && (limit >= 1 ==> c == limit)
  {
    if limit >= 1 then limit else 1
  }

  /** `xs` can be obtained from `ys` by deleting elements: an order-preserving selection. */
  ghost predicate SubsequenceOf<T>(xs: seq<T>, ys: seq<T>)
    decreases |ys|
  {
    if xs == [] then true
    else if ys == [] then false
    else if xs[|xs| - 1] == ys[|ys| - 1] then SubsequenceOf(xs[..|xs| - 1], ys[..|ys| - 1])
    else SubsequenceOf(xs, ys[..|ys| - 1])
  }

  lemma MatchingSelects(rows: seq<Record>, pattern: string)
    ensures SubsequenceOf(Matching(rows, pattern), rows)
    ensures forall k :: 0 <= k < |Matching(rows, pattern)| ==> Matches(Matching(rows, pattern)[k], pattern)
  {
    MatchingSubsequence(rows, pattern);
    MatchingAllMatch(rows, pattern);
  }

  /** The matching rows are a selection from the rows. */
  lemma {:induction false} MatchingSubsequence(rows: seq<Record>, pattern: string)
    ensures SubsequenceOf(Matching(rows, pattern), rows)
    decreases |rows|
  {
    if rows != [] {
      var n := |rows| - 1;
      var front := Matching(rows[..n], pattern);
      MatchingSubsequence(rows[..n], pattern);
      assert rows[..n] + [rows[n]] == rows;
      if Matches(rows[n], pattern) {
        assert Matching(rows, pattern) == front + [rows[n]];
        SubsequenceKeep(front, rows[..n], rows[n]);
      } else {
        assert Matching(rows, pattern) == front + [];
        assert front + [] == front;
        SubsequenceDrop(front, rows[..n], rows[n]);
      }
    }
  }

  /** Every matching row matches. */
  lemma {:induction false} MatchingAllMatch(rows: seq<Record>, pattern: string)
    ensures forall k :: 0 <= k < |Matching(rows, pattern)| ==> Matches(Matching(rows, pattern)[k], pattern)
    decreases |rows|
  {
    if rows != [] {
      var n := |rows| - 1;
      var front := Matching(rows[..n], pattern);
      MatchingAllMatch(rows[..n], pattern);
      if Matches(rows[n], pattern) {
        var kept := front + [rows[n]];
        assert Matching(rows, pattern) == kept;
        forall k | 0 <= k < |kept| ensures Matches(kept[k], pattern) {
          if k < |front| {
            assert kept[k] == front[k];
          }
        }
      } else {
        assert Matching(rows, pattern) == front;
      }
    }
  }

  /** Keeping the element appended to `ys` extends a selection from `ys` by it. */
  lemma SubsequenceKeep<T>(xs: seq<T>, ys: seq<T>, y: T)
    requires SubsequenceOf(xs, ys)
    ensures SubsequenceOf(xs + [y], ys + [y])
  {
    var zs, ws := xs + [y], ys + [y];
    assert zs[..|zs| - 1] == xs && zs[|zs| - 1] == y;
    assert ws[..|ws| - 1] == ys && ws[|ws| - 1] == y;
  }

  /** A selection from `ys` is also a selection from `ys` with one more element at the end. */
  lemma {:induction false} SubsequenceDrop<T>(xs: seq<T>, ys: seq<T>, y: T)
    requires SubsequenceOf(xs, ys)
    ensures SubsequenceOf(xs, ys + [y])
    decreases |ys|, 1
  {
    if xs != [] {
      var zs := ys + [y];
      assert zs[..|zs| - 1] == ys;
      if xs[|xs| - 1] == y {
        SubsequenceShorter(xs, ys);
      }
    }
  }

  /** Dropping the last element of a selection keeps it a selection. */
  lemma {:induction false} SubsequenceShorter<T>(xs: seq<T>, ys: seq<T>)
    requires xs != [] && SubsequenceOf(xs, ys)
    ensures SubsequenceOf(xs[..|xs| - 1], ys)
    decreases |ys|, 0
  {
    var n := |ys| - 1;
    if xs[|xs| - 1] == ys[n] {
      SubsequenceDrop(xs[..|xs| - 1], ys[..n], ys[n]);
      assert ys[..n] + [ys[n]] == ys;
    } else {
      SubsequenceShorter(xs, ys[..n]);
      SubsequenceDrop(xs[..|xs| - 1], ys[..n], ys[n]);
      assert ys[..n] + [ys[n]] == ys;
    }
  }

  /** Examining one more row adds it to the matches exactly when it matches. */
  lemma MatchingStep(rows: seq<Record>, pattern: string, i: nat)
    requires i < |rows|
    ensures Matching(rows[..i + 1], pattern) == Matching(rows[..i], pattern) + (if Matches(rows[i], pattern) then [rows[i]] else [])
  {
    assert rows[..i + 1][..i] == rows[..i];
  }

  /** The matches of a longer prefix extend those of a shorter one. */
  lemma {:induction false} MatchingPrefix(rows: seq<Record>, pattern: string, i: nat, j: nat)
    requires i <= j <= |rows|
    ensures Matching(rows[..i], pattern) <= Matching(rows[..j], pattern)
    decreases j
  {
    if i < j {
      MatchingPrefix(rows, pattern, i, j - 1);
      assert rows[..j][..j - 1] == rows[..j - 1];
    }
  }

  /**
   * Row `i` makes the filter raise: the scan reaches it, holding fewer than
   * `Cap(limit)` matches, and its cliente is not a string.
   */
  ghost predicate RaisesAt(rows: seq<Record>, pattern: string, limit: int, i: int) {
    0 <= i < |rows| && !Cliente(rows[i]).Str? && |Matching(rows[..i], pattern)| < Cap(limit)
  }

  /** Some row makes the filter raise. */
  ghost predicate FilterRaises(rows: seq<Record>, pattern: string, limit: int) {
    exists i :: RaisesAt(rows, pattern, limit, i)
  }

  /**
   * The filter loop of `query_by_cliente_substring` over the fetched rows:
   * keep each row whose cliente contains the pattern ignoring case, and stop
   * right after the result reaches `limit`. Lower-casing a cliente that is not
   * a string raises AttributeError outside any `try`.
   */
  method FilterRows(rows: seq<Record>, pattern: string, limit: int) returns (r: Result<seq<Record>>)
    ensures r.Failure? <==> FilterRaises(rows, pattern, limit)
    ensures r.Failure? ==> r.error == AttributeError("lower")
    ensures r.Success? ==> r.value == Take(Matching(rows, pattern), Cap(limit))
  {
    var results: seq<Record> := [];
    var i := 0;
    while i < |rows|
      invariant 0 <= i <= |rows|
      invariant results == Matching(rows[..i], pattern) && |results| < Cap(limit)
      invariant forall j :: 0 <= j < i ==> Cliente(rows[j]).Str?
    {
      var cliente := Cliente(rows[i]);
      if !cliente.Str? {
        RaisesHere(rows, pattern, limit, i);
        return Failure(AttributeError("lower"));
      }
      var keep := ContainsIgnoringCase(pattern, cliente.s);
      FilterStep(rows, pattern, limit, i, results, keep);
      if keep {
        results := results + [rows[i]];
        if |results| >= limit {
          StopsAtCap(rows, pattern, limit, i + 1);
          break;
        }
      }
      i := i + 1;
    }
    if |results| < Cap(limit) {
      assert rows[..i] == rows;
      NoFailureBefore(rows, pattern, limit, |rows|);
    }
    r := Success(results);
  }

  /** A row whose cliente is not a string, reached with fewer than `Cap(limit)` matches, makes the filter raise. */
  lemma RaisesHere(rows: seq<Record>, pattern: string, limit: int, i: nat)
    requires i < |rows| && !Cliente(rows[i]).Str? && |Matching(rows[..i], pattern)| < Cap(limit)
    ensures FilterRaises(rows, pattern, limit)
  {
    assert RaisesAt(rows, pattern, limit, i);
  }

  /** Examining a row with a string cliente keeps the loop's view of the matches exact. */
  lemma FilterStep(rows: seq<Record>, pattern: string, limit: int, i: nat, results: seq<Record>, keep: bool)
    requires i < |rows| && Cliente(rows[i]).Str? && keep == ContainsIgnoringCase(pattern, Cliente(rows[i]).s)
    requires results == Matching(rows[..i], pattern) && |results| < Cap(limit)
    requires forall j :: 0 <= j < i ==> Cliente(rows[j]).Str?
    ensures keep ==> Matching(rows[..i + 1], pattern) == results + [rows[i]]
    ensures keep && |results| + 1 >= limit ==> |results| + 1 == Cap(limit)
    ensures !keep ==> Matching(rows[..i + 1], pattern) == results
    ensures forall j :: 0 <= j < i + 1 ==> Cliente(rows[j]).Str?
  {
    MatchingStep(rows, pattern, i);
  }

  /** Once the first `stop` rows hold `Cap(limit)` matches, the later rows can neither fail the scan nor change its result. */
  lemma StopsAtCap(rows: seq<Record>, pattern: string, limit: int, stop: nat)
    requires stop <= |rows| && |Matching(rows[..stop], pattern)| == Cap(limit)
    requires forall j :: 0 <= j < stop ==> Cliente(rows[j]).Str?
    ensures Matching(rows[..stop], pattern) == Take(Matching(rows, pattern), Cap(limit))
    ensures !FilterRaises(rows, pattern, limit)
  {
    MatchingPrefix(rows, pattern, stop, |rows|);
    assert rows[..|rows|] == rows;
    forall i | stop <= i < |rows| ensures |Matching(rows[..i], pattern)| >= Cap(limit) {
      MatchingPrefix(rows, pattern, stop, i);
    }
  }

  /** When every row was examined without error, no row made the scan fail. */
  lemma NoFailureBefore(rows: seq<Record>, pattern: string, limit: int, stop: nat)
    requires stop == |rows| && forall j :: 0 <= j < stop ==> Cliente(rows[j]).Str?
    requires |Matching(rows, pattern)| < Cap(limit)
    ensures !FilterRaises(rows, pattern, limit)
    ensures Matching(rows, pattern) == Take(Matching(rows, pattern), Cap(limit))
  {
  }

  /**
   * Every result of a successful filter is a fetched row, kept in fetch order,
   * whose cliente contains the pattern ignoring case; there are at most
   * `max(limit, 1)` of them.
   */
  lemma FilterSelects(rows: seq<Record>, pattern: string, limit: int)
    ensures SubsequenceOf(Take(Matching(rows, pattern), Cap(limit)), rows)
    ensures |Take(Matching(rows, pattern), Cap(limit))| <= Cap(limit)
    ensures forall k :: 0 <= k < |Take(Matching(rows, pattern), Cap(limit))| ==>
      Matches(Take(Matching(rows, pattern), Cap(limit))[k], pattern)
  {
    var all := Matching(rows, pattern);
    MatchingSelects(rows, pattern);
    var kept := Take(all, Cap(limit));
    SubsequencePrefix(all, rows, |kept|);
    assert all[..|kept|] == kept;
    forall k | 0 <= k < |kept| ensures Matches(kept[k], pattern) {
      assert kept[k] == all[k];
    }
  }

  /** Every prefix of a selection is a selection. */
  lemma {:induction false} SubsequencePrefix<T>(xs: seq<T>, ys: seq<T>, m: nat)
    requires SubsequenceOf(xs, ys) && m <= |xs|
    ensures SubsequenceOf(xs[..m], ys)
    decreases |xs| - m
  {
    if m == |xs| {
      assert xs[..m] == xs;
    } else {
      SubsequenceShorter(xs, ys);
      SubsequencePrefix(xs[..|xs| - 1], ys, m);
      assert xs[..|xs| - 1][..m] == xs[..m];
    }
  }

  /**
   * `query_by_cliente_substring`: a LIKE query limited to `limit` rows; if it
   * raises, a plain query of `limit * 10` rows instead (whose own exception
   * propagates); then the filter over whatever rows came back.
   */
  method QueryByClienteSubstring(session: Session, substring: string, limit: int)
    returns (r: Result<seq<Record>>, ghost fetched: seq<Record>)
    modifies session
    ensures old(session.log) < session.log
    ensures session.log[|old(session.log)|].statement == SelectLike(substring, limit)
    ensures session.log[|old(session.log)|].answer.Failure? <==> |session.log| == |old(session.log)| + 2
    ensures |session.log| == |old(session.log)| + 2 ==> session.log[|old(session.log)| + 1].statement == SelectAny(limit * 10)
    ensures session.log[|session.log| - 1].answer.Success? ==>
      && fetched == session.log[|session.log| - 1].answer.value
      && (r.Failure? <==> FilterRaises(fetched, substring, limit))
      && (r.Success? ==> r.value == Take(Matching(fetched, substring), Cap(limit)))
    ensures session.log[|session.log| - 1].answer.Failure? ==> r == Failure(session.log[|session.log| - 1].answer.error)
  {
    fetched := [];
    var answer := session.Execute(SelectLike(substring, limit));
    if answer.Failure? {
      answer := session.Execute(SelectAny(limit * 10));
      if answer.Failure? {
        return Failure(answer.error), fetched;
      }
    }
    fetched := answer.value;
    r := FilterRows(answer.value, substring, limit);
  }

  /** The cluster handle: shut down at most as often as `shutdown` was called. */
  class Cluster {
    var shutdowns: nat

    constructor ()
      ensures shutdowns == 0
    {
      shutdowns := 0;
    }

    method Shutdown()
      modifies this
      ensures shutdowns == old(shutdowns) + 1
    {
      shutdowns := shutdowns + 1;
    }
  }

  /** The adapter's connection state: the `cluster` attribute exists once `connect` has created it. */
  class CassandraAdapter {
    var cluster: Cluster?

    constructor ()
      ensures cluster == null
    {
      cluster := null;
    }

    /**
     * `connect`: the cluster object is created and stored first; opening the
     * session may then raise, leaving the attribute set.
     */
    method Connect(reachable: bool) returns (r: Outcome)
      modifies this
      ensures cluster != null && fresh(cluster) && cluster.shutdowns == 0
      ensures r.Pass? <==> reachable
    {
      cluster := new Cluster();
      r := if reachable then Pass else Fail(BackendError("could not open a session"));
    }

    /** `disconnect`: shut the cluster down when the attribute exists; do nothing otherwise. */
    method Disconnect()
      modifies cluster
      ensures cluster != null ==> cluster.shutdowns == old(cluster.shutdowns) + 1
    {
      if cluster != null {
        cluster.Shutdown();
      }
    }
  }
}
