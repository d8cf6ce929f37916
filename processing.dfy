/** The per-row pipeline of a bulk-clone job: for each spreadsheet row a
    duplicate check against the whole audit history, the clone, a commit
    or a rollback, and one ledger row; and the path that records every row
    as failed when no Oracle connection can be had. */
module Processing {
  import opened Wrappers
  import opened Values
  import opened Seqs
  import opened OracleStore
  import opened OracleErrors
  import opened Clone
  import opened AuditStore
  import opened JobQueries
  import opened JsObjects
  import opened ColumnMapping

  /** A parsed spreadsheet row: header to cell value (`null` for an empty
      cell). */
  type SheetRow = map<string, Value>

  /** `row[key]`: a header the sheet does not have reads as `undefined`. */
  function CellAt(row: SheetRow, key: string): Value {
    if key in row then row[key] else Undefined
  }

  /** `row[mapping.field]`: the cell under the column the mapping names for
      `field`, the mapping value being turned into a property key. */
  function Cell(row: SheetRow, mapping: Entries, field: string): Value {
    CellAt(row, ValueToString(Lookup(mapping, field)))
  }

  /** `toNumberOrZero`: `Number(v)` when that is finite, 0 otherwise. */
  function ToNumberOrZero(v: Value): (r: Value)
    ensures r.Num?
    ensures JsNumber(v).Some? ==> JsNumber(r) == JsNumber(v)
    ensures JsNumber(v).None? ==> r == Num(0)
  {
    Num(JsNumber(v).GetOr(0))
  }

  /** Coercing twice is coercing once. */
  lemma ToNumberOrZeroIdempotent(v: Value)
    ensures ToNumberOrZero(ToNumberOrZero(v)) == ToNumberOrZero(v)
  {
  }

  /** How a row ended: a clone with its new product code, or the message
      of the error that stopped it. */
  datatype RowOutcome = Cloned(id: int) | Rejected(message: string)

  /** `message === 'DUPLICADO_HISTORICO' ? 'DUPLICADO_HISTORICO' :
      'ERROR_ORACLE'` */
  function StatusOfMessage(message: string): AuditStatus {
    if message == DUPLICATE_SENTINEL then DuplicadoHistorico else ErrorOracle
  }

  /** The ledger row `registrarAuditoria` writes: a falsy new code and a
      falsy message are stored as NULL, and `success_antecessor` holds the
      predecessor on SUCCESS rows only. The submitter is not stored. */
  function Record(jobId: int, rowNumber: int, antecessor: Value, novo: Value, status: AuditStatus,
                  error: Option<string>, esp: Value, cla: Value, sub: Value): AuditRecord
  {
    AuditRecord(jobId, rowNumber, antecessor, if Truthy(novo) then novo else Null, status,
                if error == Some("") then None else error, esp, cla, sub,
                if status == Success then antecessor else Null)
  }

  /** The ledger row for row `index` of the sheet once its outcome is known. */
  function RowRecord(jobId: int, index: nat, row: SheetRow, mapping: Entries, outcome: RowOutcome): AuditRecord {
    var a := Cell(row, mapping, PREDECESSOR_FIELD);
    var esp := Cell(row, mapping, SPECIES_FIELD);
    var cla := Cell(row, mapping, CLASS_FIELD);
    var sub := Cell(row, mapping, SUBCLASS_FIELD);
    match outcome
    case Cloned(id) => Record(jobId, index + 1, a, Num(id), Success, None, esp, cla, sub)
    case Rejected(m) => Record(jobId, index + 1, a, Null, StatusOfMessage(m), Some(m), esp, cla, sub)
  }

  /** `success_antecessor = ? AND status = 'SUCCESS'` */
  function SucceededFor(antecessor: Value): AuditRow -> bool {
    (a: AuditRow) => a.rec.status == Success && SqlEq(a.rec.successAntecessor, antecessor)
  }

  /** The duplicate check: some job already cloned this predecessor. */
  function HasPriorSuccess(ledger: seq<AuditRow>, antecessor: Value): (b: bool)
    ensures b <==> exists i :: 0 <= i < |ledger| && SucceededFor(antecessor)(ledger[i])
  {
    var found := Filter(ledger, SucceededFor(antecessor));
    if found == [] then false
    else
      assert exists i :: 0 <= i < |ledger| && ledger[i] == found[0];
      true
  }

  /** The duplicate check sees a new ledger row exactly when that row is a
      SUCCESS for the same predecessor. */
  lemma PriorSuccessAfterAppend(ledger: seq<AuditRow>, a: AuditRow, antecessor: Value)
    ensures HasPriorSuccess(ledger + [a], antecessor) <==>
      HasPriorSuccess(ledger, antecessor) || (a.rec.status == Success && SqlEq(a.rec.successAntecessor, antecessor))
  {
    if HasPriorSuccess(ledger, antecessor) {
      var i :| 0 <= i < |ledger| && SucceededFor(antecessor)(ledger[i]);
      assert (ledger + [a])[i] == ledger[i];
    }
    if HasPriorSuccess(ledger + [a], antecessor) {
      var i :| 0 <= i < |ledger + [a]| && SucceededFor(antecessor)((ledger + [a])[i]);
      if i < |ledger| {
        assert (ledger + [a])[i] == ledger[i];
      }
    }
    assert (ledger + [a])[|ledger|] == a;
  }

  /** What a ledger row contributes to later duplicate checks: a SUCCESS row
      makes its predecessor a duplicate, no other row makes anything one. */
  lemma RecordFeedsDuplicateCheck(jobId: int, index: nat, row: SheetRow, mapping: Entries,
                                  outcome: RowOutcome, id: int, x: Value)
    ensures var rec := RowRecord(jobId, index, row, mapping, outcome);
      SucceededFor(x)(AuditRow(id, rec)) <==> outcome.Cloned? && SqlEq(Cell(row, mapping, PREDECESSOR_FIELD), x)
  {
  }

  /** The message recorded when no connection can be had. */
  function ConnectionMessage(message: Option<string>): string {
    message.GetOr("ERROR_ORACLE_CONNECTION")
  }

  /** The ledger row `registrarFalhaConexao` writes for row `index`. */
  function FailureRecord(jobId: int, index: nat, row: SheetRow, mapping: Entries, message: string): AuditRecord {
    Record(jobId, index + 1,
           ToNumberOrZero(Cell(row, mapping, PREDECESSOR_FIELD)), Null, ErrorOracle, Some(message),
           ToNumberOrZero(Cell(row, mapping, SPECIES_FIELD)),
           ToNumberOrZero(Cell(row, mapping, CLASS_FIELD)),
           ToNumberOrZero(Cell(row, mapping, SUBCLASS_FIELD)))
  }

  /** The ledger rows of a connection failure, ids from `firstId` on. */
  function FailureRows(firstId: int, jobId: int, rows: seq<SheetRow>, mapping: Entries, message: string)
    : seq<AuditRow>
  {
    MapIndexed(rows, FailureRow(firstId, jobId, mapping, message))
  }

  /** The ledger row of sheet row `i`, its id counted from `firstId`. */
  function FailureRow(firstId: int, jobId: int, mapping: Entries, message: string): (nat, SheetRow) -> AuditRow {
    (i: nat, row: SheetRow) => AuditRow(firstId + i, FailureRecord(jobId, i, row, mapping, message))
  }

  /** A connection failure records every row, in sheet order, as an
      ERROR_ORACLE row of the job with no new product, the message, and
      the predecessor and classification coerced to finite numbers; none
      of these rows is ever taken for a prior success. */
  lemma FailureRowsShape(firstId: int, jobId: int, rows: seq<SheetRow>, mapping: Entries, message: string, x: Value)
    ensures var f := FailureRows(firstId, jobId, rows, mapping, message);
      && |f| == |rows|
      && (forall i :: 0 <= i < |f| ==>
            && f[i].rec.jobId == jobId && f[i].rec.rowNumber == i + 1
            && f[i].rec.status == ErrorOracle && f[i].rec.novo == Null
            && f[i].rec.error == (if message == "" then None else Some(message))
            && f[i].rec.antecessor == ToNumberOrZero(Cell(rows[i], mapping, PREDECESSOR_FIELD))
            && f[i].rec.especie == ToNumberOrZero(Cell(rows[i], mapping, SPECIES_FIELD))
            && f[i].rec.classe == ToNumberOrZero(Cell(rows[i], mapping, CLASS_FIELD))
            && f[i].rec.subclasse == ToNumberOrZero(Cell(rows[i], mapping, SUBCLASS_FIELD))
            && f[i].rec.antecessor.Num? && f[i].rec.especie.Num? && f[i].rec.classe.Num? && f[i].rec.subclasse.Num?
            && f[i].rec.successAntecessor == Null)
      && !HasPriorSuccess(f, x)
  {
  }

  /** `registrarFalhaConexao`: one ERROR_ORACLE row per sheet row. */
  method RegisterConnectionFailure(audit: AuditDb, jobId: int, rows: seq<SheetRow>, mapping: Entries, message: string)
    requires audit.Valid()
    modifies audit`rows, audit`nextRowId
    ensures audit.Valid()
    ensures audit.rows == old(audit.rows) + FailureRows(old(audit.nextRowId), jobId, rows, mapping, message)
    ensures audit.nextRowId == old(audit.nextRowId) + |rows|
  {
    ghost var first := audit.nextRowId;
    for i := 0 to |rows|
      invariant audit.Valid()
      invariant audit.nextRowId == first + i
      invariant audit.rows == old(audit.rows) + FailureRows(first, jobId, rows[..i], mapping, message)
    {
      var rec := FailureRecord(jobId, i, rows[i], mapping, message);
      var id := audit.AppendAudit(rec);
      FailureRowsStep(old(audit.rows), first, jobId, rows, i, mapping, message);
    }
    assert rows[..|rows|] == rows;
  }

  /** One more failure row extends the ledger by that row's record. */
  lemma FailureRowsStep(base: seq<AuditRow>, first: int, jobId: int, rows: seq<SheetRow>, i: nat, mapping: Entries, message: string)
    requires i < |rows|
    ensures base + FailureRows(first, jobId, rows[..i], mapping, message) + [AuditRow(first + i, FailureRecord(jobId, i, rows[i], mapping, message))]
         == base + FailureRows(first, jobId, rows[..i + 1], mapping, message)
  {
    var f := FailureRow(first, jobId, mapping, message);
    var x := AuditRow(first + i, FailureRecord(jobId, i, rows[i], mapping, message));
    assert f(i, rows[i]) == x;
    MapIndexedSnoc(rows, f, i);
    AppendAssoc(base, FailureRows(first, jobId, rows[..i], mapping, message), [x]);
  }

  /** The Oracle side of one row: the duplicate check against the ledger,
      the clone of the predecessor for company 4 only, a commit on success
      and a rollback on any error. A rejection that is not a duplicate
      records the message of the error the clone threw, returned as
      `thrown`; with an unknown classification that is the classification
      error, unless the session guard failed first. */
  method CloneRow(db: OracleDb, ledger: seq<AuditRow>, skip: bool,
                  antecessor: Value, esp: Value, cla: Value, sub: Value)
    returns (outcome: RowOutcome, ghost thrown: Option<CloneError>)
    modifies db`work, db`durable, db`seqProduto, db`seqUniPro, db`sessionCompany, db`trace
    ensures HasPriorSuccess(ledger, antecessor) ==>
      && outcome == Rejected(DUPLICATE_SENTINEL)
      && db.seqProduto == old(db.seqProduto) && db.seqUniPro == old(db.seqUniPro)
    ensures outcome.Rejected? ==> db.work == db.durable == old(db.durable)
    ensures outcome.Rejected? && !HasPriorSuccess(ledger, antecessor) ==>
      thrown.Some? && outcome.message == Message(thrown.value)
    ensures !HasPriorSuccess(ledger, antecessor) && !ClassificationExists(db.subClas, esp, cla, sub) ==>
      && outcome.Rejected? && thrown.Some?
      && (thrown.value == InvalidClassification(esp, cla, sub) || SessionError(thrown.value))
      && (skip ==> thrown.value == InvalidClassification(esp, cla, sub))
      && db.seqProduto == old(db.seqProduto) && db.seqUniPro == old(db.seqUniPro)
    ensures outcome.Cloned? ==>
      && !HasPriorSuccess(ledger, antecessor)
      && outcome.id == old(db.seqProduto) && outcome.id != 0
      && db.durable == db.work
      && ClonedFrom(db.catalog, old(db.work), db.work, antecessor, esp, cla, sub, outcome.id, old(db.seqUniPro), true)
    ensures EndsWith(db.trace, if outcome.Cloned? then Stmt.Commit else Stmt.Rollback)
  {
    if HasPriorSuccess(ledger, antecessor) {
      outcome := RejectDuplicate(db);
      thrown := None;
    } else {
      outcome, thrown := CloneAndSettle(db, skip, antecessor, esp, cla, sub);
    }
  }

  /** A predecessor cloned before: nothing is written, and the session is
      rolled back. */
  method RejectDuplicate(db: OracleDb) returns (outcome: RowOutcome)
    modifies db`work, db`trace
    ensures outcome == Rejected(DUPLICATE_SENTINEL)
    ensures db.work == db.durable
    ensures EndsWith(db.trace, Stmt.Rollback)
  {
    db.Rollback();
    outcome := Rejected(DUPLICATE_SENTINEL);
  }

  /** A clone for company 4 only, committed when it succeeds and rolled
      back when it throws, the message of the error it threw (`thrown`)
      becoming the outcome. */
  method CloneAndSettle(db: OracleDb, skip: bool, antecessor: Value, esp: Value, cla: Value, sub: Value)
    returns (outcome: RowOutcome, ghost thrown: Option<CloneError>)
    modifies db`work, db`durable, db`seqProduto, db`seqUniPro, db`sessionCompany, db`trace
    ensures outcome.Rejected? ==> db.work == db.durable == old(db.durable)
    ensures outcome.Rejected? <==> thrown.Some?
    ensures outcome.Rejected? ==> outcome.message == Message(thrown.value)
    ensures !ClassificationExists(db.subClas, esp, cla, sub) ==>
      && outcome.Rejected?
      && (thrown.value == InvalidClassification(esp, cla, sub) || SessionError(thrown.value))
      && (skip ==> thrown.value == InvalidClassification(esp, cla, sub))
      && db.seqProduto == old(db.seqProduto) && db.seqUniPro == old(db.seqUniPro)
    ensures outcome.Cloned? ==>
      && outcome.id == old(db.seqProduto) && outcome.id != 0
      && db.durable == db.work
      && ClonedFrom(db.catalog, old(db.work), db.work, antecessor, esp, cla, sub, outcome.id, old(db.seqUniPro), true)
    ensures EndsWith(db.trace, if outcome.Cloned? then Stmt.Commit else Stmt.Rollback)
  {
    var cloned := CloneProduct(db, skip, antecessor, esp, cla, sub, true);
    if cloned.Ok? {
      db.Commit();
      outcome, thrown := Cloned(cloned.value), None;
    } else {
      db.Rollback();
      outcome, thrown := Rejected(Message(cloned.error)), Some(cloned.error);
    }
  }

  /** One iteration of the row loop, on row `index` of `rows`: the Oracle
      side, then the ledger row, whatever the outcome. `n0` and `firstId`
      are the ledger length and next ledger id before the first row. */
  method ProcessRow(audit: AuditDb, db: OracleDb, skip: bool, jobId: int, index: nat, rows: seq<SheetRow>, mapping: Entries,
                    ghost n0: int, ghost firstId: int)
    returns (outcome: RowOutcome, ghost thrown: Option<CloneError>)
    requires audit.Valid()
    requires index < |rows| && |audit.rows| == n0 + index && audit.nextRowId == firstId + index
    requires LoggedUpTo(audit.rows, n0, firstId, index, jobId, rows, mapping)
    modifies audit`rows, audit`nextRowId
    modifies db`work, db`durable, db`seqProduto, db`seqUniPro, db`sessionCompany, db`trace
    ensures audit.Valid()
    ensures LoggedUpTo(audit.rows, n0, firstId, index + 1, jobId, rows, mapping)
    ensures audit.nextRowId == old(audit.nextRowId) + 1
    ensures audit.rows == old(audit.rows) + [AuditRow(old(audit.nextRowId), RowRecord(jobId, index, rows[index], mapping, outcome))]
    ensures db.work == db.durable
    ensures HasPriorSuccess(old(audit.rows), Cell(rows[index], mapping, PREDECESSOR_FIELD)) ==> outcome == Rejected(DUPLICATE_SENTINEL)
    ensures outcome.Rejected? && !HasPriorSuccess(old(audit.rows), Cell(rows[index], mapping, PREDECESSOR_FIELD)) ==>
      && outcome.message != DUPLICATE_SENTINEL
      && thrown.Some? && outcome.message == Message(thrown.value)
    ensures outcome.Cloned? ==> outcome.id != 0 && !HasPriorSuccess(old(audit.rows), Cell(rows[index], mapping, PREDECESSOR_FIELD))
  {
    var row := rows[index];
    ghost var before := audit.rows;
    outcome, thrown := CloneRow(db, audit.rows, skip, Cell(row, mapping, PREDECESSOR_FIELD), Cell(row, mapping, SPECIES_FIELD),
                                Cell(row, mapping, CLASS_FIELD), Cell(row, mapping, SUBCLASS_FIELD));
    var _ := audit.AppendAudit(RowRecord(jobId, index, row, mapping, outcome));
    LoggedStep(before, outcome, n0, firstId, index, jobId, rows, mapping);
  }

  /** What the ledger row of sheet row `k` says, read against the ledger as
      it stood when the row was processed (`ledger[..n0 + k]`). */
  ghost predicate RowLogged(ledger: seq<AuditRow>, n0: int, firstId: int, k: int, jobId: int, row: SheetRow, mapping: Entries)
    requires 0 <= n0 && 0 <= k && n0 + k < |ledger|
  {
    var a := ledger[n0 + k];
    var antecessor := Cell(row, mapping, PREDECESSOR_FIELD);
    && a.id == firstId + k
    && a.rec.jobId == jobId && a.rec.rowNumber == k + 1
    && a.rec.antecessor == antecessor
    && a.rec.especie == Cell(row, mapping, SPECIES_FIELD)
    && a.rec.classe == Cell(row, mapping, CLASS_FIELD)
    && a.rec.subclasse == Cell(row, mapping, SUBCLASS_FIELD)
    && (a.rec.status == Success || a.rec.status == DuplicadoHistorico || a.rec.status == ErrorOracle)
    && (a.rec.status == Success ==> a.rec.novo.Num? && a.rec.novo.n != 0 && a.rec.error.None? &&
                                    a.rec.successAntecessor == antecessor)
    && (a.rec.status != Success ==> a.rec.novo == Null && a.rec.successAntecessor == Null)
    && (a.rec.status == DuplicadoHistorico <==> HasPriorSuccess(ledger[..n0 + k], antecessor))
  }

  /** A logged row stays logged when the ledger grows. */
  lemma RowLoggedExtends(ledger: seq<AuditRow>, a: AuditRow, n0: int, firstId: int, k: int, jobId: int,
                         row: SheetRow, mapping: Entries)
    requires 0 <= n0 && 0 <= k && n0 + k < |ledger|
    requires RowLogged(ledger, n0, firstId, k, jobId, row, mapping)
    ensures RowLogged(ledger + [a], n0, firstId, k, jobId, row, mapping)
  {
    assert (ledger + [a])[..n0 + k] == ledger[..n0 + k];
    assert (ledger + [a])[n0 + k] == ledger[n0 + k];
  }

  /** Rows `0 .. i-1` of the sheet are logged after the first `n0` ledger
      rows. */
  ghost predicate LoggedUpTo(ledger: seq<AuditRow>, n0: int, firstId: int, i: int, jobId: int,
                             rows: seq<SheetRow>, mapping: Entries)
    decreases i
  {
    && 0 <= n0 && 0 <= i <= |rows| && n0 + i <= |ledger|
    && (i > 0 ==> LoggedUpTo(ledger, n0, firstId, i - 1, jobId, rows, mapping) &&
                  RowLogged(ledger, n0, firstId, i - 1, jobId, rows[i - 1], mapping))
  }

  /** Every row below `i` is logged. */
  lemma {:induction false} LoggedAt(ledger: seq<AuditRow>, n0: int, firstId: int, i: int, jobId: int,
                                    rows: seq<SheetRow>, mapping: Entries, k: int)
    requires LoggedUpTo(ledger, n0, firstId, i, jobId, rows, mapping)
    requires 0 <= k < i
    ensures n0 + k < |ledger| && RowLogged(ledger, n0, firstId, k, jobId, rows[k], mapping)
    decreases i
  {
    if k < i - 1 {
      LoggedAt(ledger, n0, firstId, i - 1, jobId, rows, mapping, k);
    }
  }

  /** Rows already logged stay logged when the ledger grows. */
  lemma {:induction false} LoggedExtends(ledger: seq<AuditRow>, a: AuditRow, n0: int, firstId: int, i: int, jobId: int,
                                         rows: seq<SheetRow>, mapping: Entries)
    requires LoggedUpTo(ledger, n0, firstId, i, jobId, rows, mapping)
    ensures LoggedUpTo(ledger + [a], n0, firstId, i, jobId, rows, mapping)
    decreases i
  {
    if i > 0 {
      LoggedExtends(ledger, a, n0, firstId, i - 1, jobId, rows, mapping);
      RowLoggedExtends(ledger, a, n0, firstId, i - 1, jobId, rows[i - 1], mapping);
    }
  }

  /** The ledger row of a row whose outcome agrees with the duplicate check
      logs that row. */
  lemma ProcessedRowLogged(ledger: seq<AuditRow>, outcome: RowOutcome, n0: int, firstId: int, k: int,
                           jobId: int, row: SheetRow, mapping: Entries)
    requires 0 <= n0 && 0 <= k && n0 + k == |ledger|
    requires HasPriorSuccess(ledger, Cell(row, mapping, PREDECESSOR_FIELD)) ==> outcome == Rejected(DUPLICATE_SENTINEL)
    requires outcome.Rejected? && !HasPriorSuccess(ledger, Cell(row, mapping, PREDECESSOR_FIELD)) ==>
      outcome.message != DUPLICATE_SENTINEL
    requires outcome.Cloned? ==> outcome.id != 0 && !HasPriorSuccess(ledger, Cell(row, mapping, PREDECESSOR_FIELD))
    ensures RowLogged(ledger + [AuditRow(firstId + k, RowRecord(jobId, k, row, mapping, outcome))],
                      n0, firstId, k, jobId, row, mapping)
  {
    var l := ledger + [AuditRow(firstId + k, RowRecord(jobId, k, row, mapping, outcome))];
    assert l[..n0 + k] == ledger;
  }

  /** Appending the ledger row of row `i`, with an outcome that agrees with
      the duplicate check, logs one more row. */
  lemma LoggedStep(ledger: seq<AuditRow>, outcome: RowOutcome, n0: int, firstId: int, i: int, jobId: int,
                   rows: seq<SheetRow>, mapping: Entries)
    requires LoggedUpTo(ledger, n0, firstId, i, jobId, rows, mapping)
    requires |ledger| == n0 + i && i < |rows|
    requires HasPriorSuccess(ledger, Cell(rows[i], mapping, PREDECESSOR_FIELD)) ==> outcome == Rejected(DUPLICATE_SENTINEL)
    requires outcome.Rejected? && !HasPriorSuccess(ledger, Cell(rows[i], mapping, PREDECESSOR_FIELD)) ==>
      outcome.message != DUPLICATE_SENTINEL
    requires outcome.Cloned? ==> outcome.id != 0 && !HasPriorSuccess(ledger, Cell(rows[i], mapping, PREDECESSOR_FIELD))
    ensures var l := ledger + [AuditRow(firstId + i, RowRecord(jobId, i, rows[i], mapping, outcome))];
      LoggedUpTo(l, n0, firstId, i + 1, jobId, rows, mapping) && l[..n0] == ledger[..n0]
  {
    var a := AuditRow(firstId + i, RowRecord(jobId, i, rows[i], mapping, outcome));
    LoggedExtends(ledger, a, n0, firstId, i, jobId, rows, mapping);
    ProcessedRowLogged(ledger, outcome, n0, firstId, i, jobId, rows[i], mapping);
    LoggedCons(ledger + [a], n0, firstId, i, jobId, rows, mapping);
  }

  /** Logging row `i` after rows `0 .. i-1` logs rows `0 .. i`. */
  lemma LoggedCons(ledger: seq<AuditRow>, n0: int, firstId: int, i: int, jobId: int,
                   rows: seq<SheetRow>, mapping: Entries)
    requires LoggedUpTo(ledger, n0, firstId, i, jobId, rows, mapping)
    requires i < |rows| && n0 + i < |ledger|
    requires RowLogged(ledger, n0, firstId, i, jobId, rows[i], mapping)
    ensures LoggedUpTo(ledger, n0, firstId, i + 1, jobId, rows, mapping)
  {
  }

  /** Whether the pool handed out a connection, or the message of the error
      it raised (`None` for an error without one). */
  datatype Connection = Connected | ConnectionFailed(message: Option<string>)

  /** The row loop of `processarPlanilha` on an open connection. */
  method ProcessRows(audit: AuditDb, db: OracleDb, skip: bool, jobId: int, rows: seq<SheetRow>, mapping: Entries)
    requires audit.Valid()
    modifies audit`rows, audit`nextRowId
    modifies db`work, db`durable, db`seqProduto, db`seqUniPro, db`sessionCompany, db`trace
    ensures audit.Valid()
    ensures |rows| > 0 ==> db.work == db.durable
    ensures audit.nextRowId == old(audit.nextRowId) + |rows|
    ensures |audit.rows| == |old(audit.rows)| + |rows|
    ensures audit.rows[..|old(audit.rows)|] == old(audit.rows)
    ensures LoggedUpTo(audit.rows, |old(audit.rows)|, old(audit.nextRowId), |rows|, jobId, rows, mapping)
  {
    ghost var n0 := |audit.rows|;
    ghost var firstId := audit.nextRowId;
    for i := 0 to |rows|
      invariant audit.Valid()
      invariant |audit.rows| == n0 + i && audit.nextRowId == firstId + i
      invariant audit.rows[..n0] == old(audit.rows)
      invariant i > 0 ==> db.work == db.durable
      invariant LoggedUpTo(audit.rows, n0, firstId, i, jobId, rows, mapping)
    {
      var outcome, thrown := ProcessRow(audit, db, skip, jobId, i, rows, mapping, n0, firstId);
    }
  }

  /** `processarPlanilha`. When no connection can be had, every row is
      recorded as failed and the error is passed on; otherwise every row is
      processed in order, one row's failure does not stop the next, each
      row gets exactly one ledger row, and the connection is closed. */
  method ProcessSpreadsheet(audit: AuditDb, db: OracleDb, connection: Connection, skip: bool,
                            jobId: int, rows: seq<SheetRow>, mapping: Entries)
    returns (r: Outcome<string>)
    requires audit.Valid()
    modifies audit`rows, audit`nextRowId
    modifies db`work, db`durable, db`seqProduto, db`seqUniPro, db`sessionCompany, db`trace, db`closed
    ensures audit.Valid()
    ensures connection.ConnectionFailed? ==>
      && r == Fail(ConnectionMessage(connection.message))
      && audit.rows == old(audit.rows) + FailureRows(old(audit.nextRowId), jobId, rows, mapping, ConnectionMessage(connection.message))
      && unchanged(db)
    ensures connection.Connected? ==>
      && r.Pass?
      && db.closed
      && (|rows| > 0 ==> db.work == db.durable)
      && |audit.rows| == |old(audit.rows)| + |rows|
      && audit.rows[..|old(audit.rows)|] == old(audit.rows)
      && LoggedUpTo(audit.rows, |old(audit.rows)|, old(audit.nextRowId), |rows|, jobId, rows, mapping)
  {
    if connection.ConnectionFailed? {
      var message := ConnectionMessage(connection.message);
      RegisterConnectionFailure(audit, jobId, rows, mapping, message);
      return Fail(message);
    }
    ProcessRows(audit, db, skip, jobId, rows, mapping);
    db.Close();
    return Pass;
  }

  /** Within one job, a predecessor that succeeds is a duplicate at any
      later row that names it again: its SUCCESS row is in the ledger
      before that row's duplicate check runs. */
  lemma SecondOccurrenceIsDuplicate(ledger: seq<AuditRow>, n0: int, firstId: int, n: int, jobId: int,
                                    rows: seq<SheetRow>, mapping: Entries, k: int, m: int)
    requires LoggedUpTo(ledger, n0, firstId, n, jobId, rows, mapping)
    requires 0 <= k < m < n
    requires n0 + k < |ledger| && ledger[n0 + k].rec.status == Success
    requires SqlEq(Cell(rows[k], mapping, PREDECESSOR_FIELD), Cell(rows[m], mapping, PREDECESSOR_FIELD))
    ensures n0 + m < |ledger| && ledger[n0 + m].rec.status == DuplicadoHistorico
  {
    LoggedAt(ledger, n0, firstId, n, jobId, rows, mapping, k);
    LoggedAt(ledger, n0, firstId, n, jobId, rows, mapping, m);
    assert ledger[..n0 + m][n0 + k] == ledger[n0 + k];
    assert SucceededFor(Cell(rows[m], mapping, PREDECESSOR_FIELD))(ledger[..n0 + m][n0 + k]);
  }

  /** Every ledger row the loop wrote belongs to the job. */
  lemma LoggedRowsOfJob(ledger: seq<AuditRow>, n0: int, firstId: int, n: int, jobId: int,
                        rows: seq<SheetRow>, mapping: Entries)
    requires LoggedUpTo(ledger, n0, firstId, n, jobId, rows, mapping)
    ensures forall k :: n0 <= k < n0 + n ==> k < |ledger| && ledger[k].rec.jobId == jobId
  {
    forall k | n0 <= k < n0 + n ensures k < |ledger| && ledger[k].rec.jobId == jobId {
      LoggedAt(ledger, n0, firstId, n, jobId, rows, mapping, k - n0);
    }
  }

  /** Once a job's rows are all in the ledger, and the ledger held none of
      its rows before, its summary shows every row processed and nothing
      remaining. */
  lemma {:induction false} CompletedJobSummary(jobs: seq<Job>, before: seq<AuditRow>, added: seq<AuditRow>, jobId: int)
    requires FindJob(jobs, jobId).Some? && FindJob(jobs, jobId).value.totalRows == |added|
    requires forall i :: 0 <= i < |before| ==> before[i].rec.jobId != jobId
    requires forall i :: 0 <= i < |added| ==> added[i].rec.jobId == jobId
    ensures var s := GetJobSummary(jobs, before + added, jobId).value;
      s.processed == |added| && s.success + s.errors == |added| && s.remaining == 0
  {
    CountAppend(before, added, OfJob(jobId));
    CountAllOrNone(before, OfJob(jobId), false);
    CountAllOrNone(added, OfJob(jobId), true);
    CountFilter(before + added, OfJob(jobId));
  }
}
