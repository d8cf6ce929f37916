/** The decisions of the HTTP layer: reading the column mapping of an
    upload, admitting or refusing the upload, running the job and
    finalising its status, the classification check endpoint, and the
    checks on the `jobId` and `recentLimit` parameters. */
module Server {
  import opened Wrappers
  import opened Values
  import opened Text
  import opened Seqs
  import opened Identifiers
  import opened ColumnMapping
  import opened JsObjects
  import opened OracleStore
  import opened Clone
  import opened AuditStore
  import opened JobQueries
  import opened Processing

  // ---------------------------------------------------------------------
  // The column mapping

  /** The mapping already has every required field as an own key. */
  predicate HasFieldKeys(o: Entries) {
    HasKey(o, PREDECESSOR_FIELD) && HasKey(o, SPECIES_FIELD) && HasKey(o, CLASS_FIELD) && HasKey(o, SUBCLASS_FIELD)
  }

  /** Entry `e` (column, field) names `field` as the field its column holds. */
  predicate NamesField(e: (string, Value), field: string) {
    Truthy(e.1) && ValueToString(e.1) == field
  }

  /** The field-to-column object built from the column-to-field entries `o`:
      entries with a falsy field are skipped, and a later column replaces an
      earlier one for the same field. */
  function Inverted(o: Entries): (r: Entries)
    ensures DistinctKeys(r)
  {
    if o == [] then []
    else
      var rest := Inverted(o[..|o| - 1]);
      var e := o[|o| - 1];
      if Truthy(e.1) then
        PutLookup(rest, ValueToString(e.1), Str(e.0), "");
        Put(rest, ValueToString(e.1), Str(e.0))
      else rest
  }

  /** What `normalizeMapping` returns: nothing for a falsy mapping, the
      mapping itself when it already has the field keys, the inverted
      object otherwise. */
  function NormalizedMapping(m: Option<Entries>): Option<Entries> {
    match m
    case None => None
    case Some(o) => if HasFieldKeys(o) then Some(o) else Some(Inverted(o))
  }

  /** `normalizeMapping`. `None` stands for a falsy mapping. */
  method NormalizeMapping(m: Option<Entries>) returns (r: Option<Entries>)
    ensures r == NormalizedMapping(m)
  {
    if m.None? {
      return None;
    }
    var o := m.value;
    if HasFieldKeys(o) {
      return Some(o);
    }
    var inverted: Entries := [];
    for i := 0 to |o|
      invariant inverted == Inverted(o[..i])
    {
      assert o[..i + 1][..i] == o[..i];
      var (column, field) := o[i];
      if Truthy(field) {
        inverted := Put(inverted, ValueToString(field), Str(column));
      }
    }
    assert o[..|o|] == o;
    return Some(inverted);
  }

  /** The inverted object has a field exactly when some entry names it;
      otherwise looking the field up gives `undefined`. */
  lemma {:induction false} InvertedHasKey(o: Entries, field: string)
    ensures HasKey(Inverted(o), field) <==> exists i :: 0 <= i < |o| && NamesField(o[i], field)
    ensures (forall i :: 0 <= i < |o| ==> !NamesField(o[i], field)) ==> Lookup(Inverted(o), field) == Undefined
  {
    if o != [] {
      var init := o[..|o| - 1];
      var e := o[|o| - 1];
      InvertedHasKey(init, field);
      var rest := Inverted(init);
      if Truthy(e.1) {
        PutLookup(rest, ValueToString(e.1), Str(e.0), field);
      }
      if exists i :: 0 <= i < |o| && NamesField(o[i], field) {
        var i :| 0 <= i < |o| && NamesField(o[i], field);
        if i < |o| - 1 {
          assert NamesField(init[i], field);
        }
      }
      if HasKey(rest, field) {
        var i :| 0 <= i < |init| && NamesField(init[i], field);
        assert o[i] == init[i];
      }
    }
  }

  /** The inverted object maps a field to the column of the last entry that
      names it. */
  lemma {:induction false} InvertedLast(o: Entries, field: string, j: int)
    requires 0 <= j < |o| && NamesField(o[j], field)
    requires forall i :: j < i < |o| ==> !NamesField(o[i], field)
    ensures Lookup(Inverted(o), field) == Str(o[j].0)
  {
    var init := o[..|o| - 1];
    var e := o[|o| - 1];
    var rest := Inverted(init);
    if j == |o| - 1 {
      PutLookup(rest, field, Str(e.0), field);
    } else {
      assert init[j] == o[j];
      assert forall i :: j < i < |init| ==> init[i] == o[i];
      InvertedLast(init, field, j);
      if Truthy(e.1) {
        PutLookup(rest, ValueToString(e.1), Str(e.0), field);
      }
    }
  }

  /** The required fields a mapping leaves falsy, in the order they are
      listed. */
  function MissingFields(m: Entries): (missing: seq<string>)
    ensures forall i :: 0 <= i < |missing| ==> missing[i] in REQUIRED_MAPPING_FIELDS && !Truthy(Lookup(m, missing[i]))
    ensures forall i :: 0 <= i < |REQUIRED_MAPPING_FIELDS| && !Truthy(Lookup(m, REQUIRED_MAPPING_FIELDS[i])) ==>
      REQUIRED_MAPPING_FIELDS[i] in missing
    ensures Subsequence(missing, REQUIRED_MAPPING_FIELDS)
  {
    var missing := Filter(REQUIRED_MAPPING_FIELDS, (field: string) => !Truthy(Lookup(m, field)));
    FilterSubsequence(REQUIRED_MAPPING_FIELDS, (field: string) => !Truthy(Lookup(m, field)));
    missing
  }

  // ---------------------------------------------------------------------
  // Admitting an upload

  /** The `mapping` form field: absent or empty, not valid JSON, or the
      parsed value (`None` when that value is falsy). */
  datatype MappingField = NoMappingText | Unparsable | Parsed(value: Option<Entries>)

  datatype Rejection = NoFile | JobActive | MalformedMapping | MissingMapping | IncompleteMapping(missing: seq<string>) | EmptySheet

  /** The HTTP status of a refusal. */
  function StatusCode(r: Rejection): int {
    if r == JobActive then 409 else 400
  }

  /** The upload checks, in the handler's order; on success, the
      normalised mapping the job will use. */
  function CheckUpload(hasFile: bool, active: Option<Job>, mapping: MappingField, rows: seq<SheetRow>)
    : (r: Result<Entries, Rejection>)
    ensures r.Ok? <==>
      && hasFile && active.None? && mapping.Parsed? && mapping.value.Some?
      && MissingFields(NormalizedMapping(mapping.value).value) == [] && rows != []
    ensures r.Ok? ==> Some(r.value) == NormalizedMapping(mapping.value)
    ensures r.Ok? ==> forall i :: 0 <= i < |REQUIRED_MAPPING_FIELDS| ==> Truthy(Lookup(r.value, REQUIRED_MAPPING_FIELDS[i]))
    ensures r == Err(NoFile) <==> !hasFile
    ensures r == Err(JobActive) <==> hasFile && active.Some?
    ensures r == Err(MalformedMapping) <==> hasFile && active.None? && mapping.Unparsable?
    ensures r == Err(MissingMapping) <==> hasFile && active.None? && (mapping.NoMappingText? || mapping == Parsed(None))
    ensures r.Err? && r.error.IncompleteMapping? <==>
      && hasFile && active.None? && mapping.Parsed? && mapping.value.Some?
      && MissingFields(NormalizedMapping(mapping.value).value) != []
    ensures r.Err? && r.error.IncompleteMapping? ==>
      && r.error.missing != [] && mapping.Parsed? && mapping.value.Some?
      && r.error.missing == MissingFields(NormalizedMapping(mapping.value).value)
    ensures r == Err(EmptySheet) <==>
      && hasFile && active.None? && mapping.Parsed? && mapping.value.Some?
      && MissingFields(NormalizedMapping(mapping.value).value) == [] && rows == []
  {
    if !hasFile then Err(NoFile)
    else if active.Some? then Err(JobActive)
    else
      match mapping
      case Unparsable => Err(MalformedMapping)
      case NoMappingText => Err(MissingMapping)
      case Parsed(None) => Err(MissingMapping)
      case Parsed(Some(o)) =>
        var normalized := NormalizedMapping(Some(o)).value;
        var missing := MissingFields(normalized);
        if missing != [] then Err(IncompleteMapping(missing))
        else if rows == [] then Err(EmptySheet)
        else Ok(normalized)
  }

  /** The submitter recorded on the job: `uploadedBy || 'desconhecido'`. */
  function Uploader(uploadedBy: Option<string>): (u: string)
    ensures u != ""
    ensures uploadedBy.Some? && uploadedBy.value != "" ==> u == uploadedBy.value
    ensures uploadedBy.None? || uploadedBy.value == "" ==> u == "desconhecido"
  {
    if uploadedBy.None? || uploadedBy.value == "" then "desconhecido" else uploadedBy.value
  }

  datatype UploadRequest = UploadRequest(hasFile: bool, filename: string, mapping: MappingField,
                                         uploadedBy: Option<string>, rows: seq<SheetRow>)

  datatype UploadResponse = Refused(status: int, reason: Rejection) | Started(jobId: int)

  /** The synchronous part of the upload handler: the checks, then one
      PROCESSING job for the sheet. A refusal creates no job. */
  method AdmitUpload(audit: AuditDb, req: UploadRequest, now: int) returns (resp: UploadResponse, mapping: Entries)
    requires audit.Valid()
    modifies audit`jobs, audit`nextJobId
    ensures audit.Valid()
    ensures var check := CheckUpload(req.hasFile, GetActiveJob(old(audit.jobs)), req.mapping, req.rows);
      && (check.Err? ==> resp == Refused(StatusCode(check.error), check.error) && audit.jobs == old(audit.jobs))
      && (check.Ok? ==>
            && resp == Started(old(audit.nextJobId)) && mapping == check.value
            && audit.jobs == old(audit.jobs) +
                 [Job(resp.jobId, req.filename, Uploader(req.uploadedBy), |req.rows|, Processing, now, None)])
  {
    var check := CheckUpload(req.hasFile, GetActiveJob(audit.jobs), req.mapping, req.rows);
    if check.Err? {
      return Refused(StatusCode(check.error), check.error), [];
    }
    var normalized := NormalizeMapping(req.mapping.value);
    mapping := normalized.value;
    var id := audit.CreateJob(req.filename, Uploader(req.uploadedBy), |req.rows|, now);
    resp := Started(id);
  }

  /** The background task: process the sheet, then mark the job COMPLETED
      when processing finished and FAILED when it raised. */
  method RunJob(audit: AuditDb, db: OracleDb, connection: Connection, skip: bool, jobId: int,
                rows: seq<SheetRow>, mapping: Entries, finishedAt: int)
    requires audit.Valid()
    modifies audit`jobs, audit`rows, audit`nextRowId
    modifies db`work, db`durable, db`seqProduto, db`seqUniPro, db`sessionCompany, db`trace, db`closed
    ensures audit.Valid()
    ensures audit.jobs == SetStatus(old(audit.jobs), jobId, if connection.Connected? then Completed else Failed, finishedAt)
    ensures |audit.rows| == |old(audit.rows)| + |rows| && audit.rows[..|old(audit.rows)|] == old(audit.rows)
  {
    var outcome := ProcessSpreadsheet(audit, db, connection, skip, jobId, rows, mapping);
    if outcome.Pass? {
      audit.UpdateJobStatus(jobId, Completed, finishedAt);
    } else {
      audit.UpdateJobStatus(jobId, Failed, finishedAt);
    }
  }

  /** `POST /api/jobs/upload`, with the background run carried out right
      after the response. */
  method HandleUpload(audit: AuditDb, db: OracleDb, req: UploadRequest, now: int, connection: Connection,
                      skip: bool, finishedAt: int)
    returns (resp: UploadResponse)
    requires audit.Valid()
    modifies audit`jobs, audit`nextJobId, audit`rows, audit`nextRowId
    modifies db`work, db`durable, db`seqProduto, db`seqUniPro, db`sessionCompany, db`trace, db`closed
    ensures audit.Valid()
    ensures resp.Refused? ==> audit.jobs == old(audit.jobs) && audit.rows == old(audit.rows) && unchanged(db)
    ensures resp.Refused? ==>
      && resp.status == StatusCode(resp.reason)
      && Err(resp.reason) == CheckUpload(req.hasFile, GetActiveJob(old(audit.jobs)), req.mapping, req.rows)
    ensures resp.Started? ==>
      && resp.jobId == old(audit.nextJobId)
      && audit.jobs == old(audit.jobs) +
           [Job(resp.jobId, req.filename, Uploader(req.uploadedBy), |req.rows|,
                if connection.Connected? then Completed else Failed, now, Some(finishedAt))]
      && |audit.rows| == |old(audit.rows)| + |req.rows|
  {
    assert forall i :: 0 <= i < |audit.jobs| ==> audit.jobs[i].id == JobIds(audit.jobs)[i];
    var mapping;
    resp, mapping := AdmitUpload(audit, req, now);
    if resp.Started? {
      ghost var created := audit.jobs;
      RunJob(audit, db, connection, skip, resp.jobId, req.rows, mapping, finishedAt);
      FinalStatusOfNewJob(old(audit.jobs), created[|created| - 1], if connection.Connected? then Completed else Failed, finishedAt);
    }
  }

  /** Finalising the job just appended changes that job only. */
  lemma FinalStatusOfNewJob(jobs: seq<Job>, created: Job, status: JobStatus, now: int)
    requires forall i :: 0 <= i < |jobs| ==> jobs[i].id < created.id
    ensures SetStatus(jobs + [created], created.id, status, now) == jobs + [WithStatus(created, status, now)]
  {
  }

  // ---------------------------------------------------------------------
  // Classification check

  /** `CD_ESPECIE = :esp AND CD_CLASSE = :cla AND CD_SUB_CLA = :sub` */
  function MatchesTriple(esp: Value, cla: Value, sub: Value): Row -> bool {
    (r: Row) => SqlEq(Get(r, "CD_ESPECIE"), esp) && SqlEq(Get(r, "CD_CLASSE"), cla) && SqlEq(Get(r, "CD_SUB_CLA"), sub)
  }

  /** `SELECT COUNT(*) FROM dbamv.sub_clas WHERE …` */
  function CountSubClas(subClas: seq<Row>, esp: Value, cla: Value, sub: Value): (n: nat)
    ensures n == 0 <==> !ClassificationExists(subClas, esp, cla, sub)
  {
    var matching := Filter(subClas, MatchesTriple(esp, cla, sub));
    assert matching != [] ==> matching[0] in subClas;
    |matching|
  }

  datatype ValidateResponse = ValidateBadRequest | ValidateFailed | ClassificationInvalid | ClassificationValid

  /** `POST /api/validate-subclas`: 400 unless all four inputs are given;
      500 when no connection can be had; otherwise a count of matching
      classifications, and when there is none the audit row is marked
      ERROR_VALIDACAO. */
  method ValidateSubclas(audit: AuditDb, db: OracleDb, connection: Connection,
                         esp: Value, cla: Value, sub: Value, auditId: Value)
    returns (resp: ValidateResponse)
    requires audit.Valid()
    modifies audit`rows, db`trace, db`closed
    ensures audit.Valid()
    ensures !(Truthy(esp) && Truthy(cla) && Truthy(sub) && Truthy(auditId)) ==>
      resp == ValidateBadRequest && audit.rows == old(audit.rows) && db.closed == old(db.closed)
    ensures Truthy(esp) && Truthy(cla) && Truthy(sub) && Truthy(auditId) && connection.ConnectionFailed? ==>
      resp == ValidateFailed && audit.rows == old(audit.rows)
    ensures Truthy(esp) && Truthy(cla) && Truthy(sub) && Truthy(auditId) && connection.Connected? ==>
      && db.closed
      && (resp == ClassificationInvalid <==> !ClassificationExists(db.subClas, esp, cla, sub))
      && (resp == ClassificationValid <==> ClassificationExists(db.subClas, esp, cla, sub))
      && audit.rows == (if resp == ClassificationInvalid then MarkInvalid(old(audit.rows), auditId) else old(audit.rows))
  {
    if !(Truthy(esp) && Truthy(cla) && Truthy(sub) && Truthy(auditId)) {
      return ValidateBadRequest;
    }
    if connection.ConnectionFailed? {
      return ValidateFailed;
    }
    db.trace := db.trace + [SelectSubClas(esp, cla, sub)];
    var count := CountSubClas(db.subClas, esp, cla, sub);
    if count == 0 {
      audit.MarkValidationError(auditId);
      resp := ClassificationInvalid;
    } else {
      resp := ClassificationValid;
    }
    db.Close();
  }

  /** The table and column names `markValidationError` uses when no
      override is configured pass `safeIdentifier`. */
  lemma DefaultAuditIdentifiersSafe()
    ensures SafeIdentifier("AUDIT_PRODUTO", "DB_AUDIT_TABLE") == Ok("AUDIT_PRODUTO")
    ensures SafeIdentifier("id", "DB_AUDIT_ID_COLUMN") == Ok("id")
    ensures SafeIdentifier("status", "DB_AUDIT_STATUS_COLUMN") == Ok("status")
  {
    assert IsIdentifier("AUDIT_PRODUTO");
    assert IsIdentifier("id");
    assert IsIdentifier("status");
  }

  // ---------------------------------------------------------------------
  // Query parameters

  /** The `jobId` route parameter: accepted when `Number` of it is finite
      and positive. */
  function JobIdParam(s: string): (r: Option<int>)
    ensures r.Some? <==> ParseNumber(s).Some? && ParseNumber(s).value > 0
    ensures r.Some? ==> r.value == ParseNumber(s).value
  {
    match ParseNumber(s)
    case None => None
    case Some(n) => if n > 0 then Some(n) else None
  }

  /** A positive id written out in decimal is accepted as itself. */
  lemma JobIdParamOfRendered(n: int)
    requires n > 0
    ensures JobIdParam(IntToString(n)) == Some(n)
  {
    NumberOfRenderedInt(n);
  }

  /** `recentLimit`: `Number(query || 5)` when finite and positive, else 5. */
  function RecentLimit(query: Option<string>): (limit: nat)
    ensures limit > 0
    ensures query.Some? && query.value != "" && ParseNumber(query.value).Some? && ParseNumber(query.value).value > 0 ==>
      limit == ParseNumber(query.value).value
    ensures !(query.Some? && query.value != "" && ParseNumber(query.value).Some? && ParseNumber(query.value).value > 0) ==>
      limit == 5
  {
    var n := if query.None? || query.value == "" then Some(5) else ParseNumber(query.value);
    if n.Some? && n.value > 0 then n.value else 5
  }

  /** A positive limit written out in decimal is used as given. */
  lemma RecentLimitOfRendered(n: int)
    requires n > 0
    ensures RecentLimit(Some(IntToString(n))) == n
  {
    NumberOfRenderedInt(n);
  }

  /** `GET /api/jobs/active`: the active job and at most `recentLimit` of
      the newest jobs. */
  function ActiveJobs(jobs: seq<Job>, query: Option<string>): (r: (Option<Job>, seq<Job>))
    ensures r.0.None? <==> forall i :: 0 <= i < |jobs| ==> jobs[i].status != Processing
    ensures r.0.Some? ==> r.0.value in jobs && r.0.value.status == Processing
    ensures r.0.Some? ==> forall i :: 0 <= i < |jobs| && jobs[i].status == Processing ==>
      jobs[i].createdAt <= r.0.value.createdAt
    ensures |r.1| == if RecentLimit(query) < |jobs| then RecentLimit(query) else |jobs|
    ensures SortedBy(r.1, NewestFirst()) && multiset(r.1) <= multiset(jobs)
    ensures forall x, y :: x in multiset(jobs) - multiset(r.1) && y in r.1 ==> x.createdAt <= y.createdAt
    ensures r.0.Some? && |r.1| < RecentLimit(query) ==> r.0.value in r.1
  {
    var active := GetActiveJob(jobs);
    var recent := GetRecentJobs(jobs, RecentLimit(query));
    RecentJobsAreNewest(jobs, RecentLimit(query));
    assert active.Some? && |recent| < RecentLimit(query) ==> active.value in multiset(jobs);
    (active, recent)
  }

  datatype SummaryResponse = SummaryBadRequest | SummaryNotFound | SummaryFound(summary: Summary)

  /** `GET /api/jobs/:jobId/summary` */
  function JobSummaryEndpoint(jobs: seq<Job>, rows: seq<AuditRow>, param: string): (r: SummaryResponse)
    ensures r.SummaryBadRequest? <==> JobIdParam(param).None?
    ensures r.SummaryNotFound? <==> JobIdParam(param).Some? && FindJob(jobs, JobIdParam(param).value).None?
    ensures r.SummaryFound? ==> Some(r.summary) == GetJobSummary(jobs, rows, JobIdParam(param).value)
    ensures r.SummaryFound? ==>
      var id := JobIdParam(param).value;
      && r.summary.total == FindJob(jobs, id).value.totalRows
      && r.summary.processed == |Filter(rows, OfJob(id))|
      && r.summary.success + r.summary.errors == r.summary.processed && r.summary.remaining >= 0
  {
    match JobIdParam(param)
    case None => SummaryBadRequest
    case Some(id) =>
      match GetJobSummary(jobs, rows, id)
      case None => SummaryNotFound
      case Some(s) => SummaryFound(s)
  }

  /** `GET /api/jobs/:jobId/details`: `None` is the 400 answer. */
  function JobDetailsEndpoint(rows: seq<AuditRow>, param: string): (r: Option<seq<AuditRow>>)
    ensures r.None? <==> JobIdParam(param).None?
    ensures r.Some? ==> forall i :: 0 <= i < |r.value| ==>
      r.value[i] in rows && r.value[i].rec.jobId == JobIdParam(param).value && r.value[i].rec.status != Success
    ensures r.Some? ==> forall i :: 0 <= i < |rows| && rows[i].rec.jobId == JobIdParam(param).value && rows[i].rec.status != Success ==>
      rows[i] in r.value
    ensures r.Some? ==>
      && multiset(r.value) == multiset(Filter(rows, FailedIn(JobIdParam(param).value)))
      && SortedBy(r.value, RowNumber())
  {
    match JobIdParam(param)
    case None => None
    case Some(id) => Some(GetJobErrors(rows, id))
  }
}
