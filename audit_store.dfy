/** The MariaDB audit store: the AUDIT_JOB table of bulk-clone jobs and the
    AUDIT_PRODUTO ledger of per-row outcomes, with the statements the
    services issue against them. */
module AuditStore {
  import opened Wrappers
  import opened Values

  datatype JobStatus = Processing | Completed | Failed

  /** A row of AUDIT_JOB. Timestamps are opaque instants supplied by the
      caller (the store's `NOW()`). */
  datatype Job = Job(id: int, filename: string, uploadedBy: string, totalRows: int,
                     status: JobStatus, createdAt: int, finishedAt: Option<int>)

  /** The values the `status` column of AUDIT_PRODUTO takes. */
  datatype AuditStatus = Success | ErrorValidacao | ErrorOracle | DuplicadoHistorico

  /** The columns of an AUDIT_PRODUTO row the pipeline writes. */
  datatype AuditRecord = AuditRecord(
    jobId: int, rowNumber: int, antecessor: Value, novo: Value, status: AuditStatus,
    error: Option<string>, especie: Value, classe: Value, subclasse: Value,
    successAntecessor: Value)

  /** A ledger row with its auto-increment id. */
  datatype AuditRow = AuditRow(id: int, rec: AuditRecord)

  /** `SELECT … FROM AUDIT_JOB WHERE id = ?`: the job with that id, if any. */
  function FindJob(jobs: seq<Job>, id: int): (r: Option<Job>)
    ensures r.Some? ==> r.value in jobs && r.value.id == id
    ensures r.None? <==> forall i :: 0 <= i < |jobs| ==> jobs[i].id != id
  {
    if jobs == [] then None
    else if jobs[0].id == id then Some(jobs[0])
    else FindJob(jobs[1..], id)
  }

  /** The job after `SET status = ?, finished_at = CASE WHEN ? IN
      ('COMPLETED','FAILED') THEN NOW() ELSE finished_at END`. */
  function WithStatus(j: Job, status: JobStatus, now: int): Job {
    j.(status := status,
       finishedAt := if status == Completed || status == Failed then Some(now) else j.finishedAt)
  }

  /** `UPDATE AUDIT_JOB … WHERE id = ?` applied to every row. */
  function SetStatus(jobs: seq<Job>, id: int, status: JobStatus, now: int): (r: seq<Job>)
    ensures |r| == |jobs|
  {
    seq(|jobs|, i requires 0 <= i < |jobs| =>
      if jobs[i].id == id then WithStatus(jobs[i], status, now) else jobs[i])
  }

  /** `UPDATE AUDIT_JOB SET status = 'FAILED', finished_at = NOW()
      WHERE id = ? AND status = 'PROCESSING'` applied to every row. */
  function Cancel(jobs: seq<Job>, id: int, now: int): (r: seq<Job>)
    ensures |r| == |jobs|
  {
    seq(|jobs|, i requires 0 <= i < |jobs| =>
      if jobs[i].id == id && jobs[i].status == Processing
      then jobs[i].(status := Failed, finishedAt := Some(now))
      else jobs[i])
  }

  /** `id = ?` for an integer key and a bound JSON value, read through
      `Number()` of the value: numbers, booleans and numeric strings match
      the id they denote; NULL never matches. */
  predicate IdMatches(id: int, v: Value) {
    !IsSqlNull(v) && JsNumber(v) == Some(id)
  }

  /** `UPDATE AUDIT_PRODUTO SET status = 'ERROR_VALIDACAO' WHERE id = ?`
      applied to every ledger row. */
  function MarkInvalid(rows: seq<AuditRow>, auditId: Value): (r: seq<AuditRow>)
    ensures |r| == |rows|
  {
    seq(|rows|, i requires 0 <= i < |rows| =>
      if IdMatches(rows[i].id, auditId)
      then rows[i].(rec := rows[i].rec.(status := ErrorValidacao))
      else rows[i])
  }

  /** Auto-increment ids are positive, increasing in insertion order and
      below the next id to hand out. */
  ghost predicate IdsIncreasing(ids: seq<int>, next: int) {
    && (forall i :: 0 <= i < |ids| ==> 0 < ids[i] < next)
    && (forall i, j :: 0 <= i < j < |ids| ==> ids[i] < ids[j])
    && next > 0
  }

  lemma IdsIncreasingAppend(ids: seq<int>, next: int)
    requires IdsIncreasing(ids, next)
    ensures IdsIncreasing(ids + [next], next + 1)
  {
  }

  function JobIds(jobs: seq<Job>): seq<int> {
    seq(|jobs|, i requires 0 <= i < |jobs| => jobs[i].id)
  }

  function RowIds(rows: seq<AuditRow>): seq<int> {
    seq(|rows|, i requires 0 <= i < |rows| => rows[i].id)
  }

  class AuditDb {
    var jobs: seq<Job>
    var rows: seq<AuditRow>
    var nextJobId: int
    var nextRowId: int

    ghost predicate Valid()
      reads this
    {
      IdsIncreasing(JobIds(jobs), nextJobId) && IdsIncreasing(RowIds(rows), nextRowId)
    }

    constructor ()
      ensures Valid()
      ensures jobs == [] && rows == [] && nextJobId == 1 && nextRowId == 1
    {
      jobs, rows := [], [];
      nextJobId, nextRowId := 1, 1;
    }

    /** `createJob`: one PROCESSING job with the given filename, uploader and
        row count; its insert id is returned. */
    method CreateJob(filename: string, uploadedBy: string, totalRows: int, now: int) returns (id: int)
      requires Valid()
      modifies this`jobs, this`nextJobId
      ensures Valid()
      ensures id == old(nextJobId) && id > 0 && nextJobId == id + 1
      ensures jobs == old(jobs) + [Job(id, filename, uploadedBy, totalRows, Processing, now, None)]
    {
      id := nextJobId;
      jobs := jobs + [Job(id, filename, uploadedBy, totalRows, Processing, now, None)];
      nextJobId := nextJobId + 1;
      assert JobIds(jobs) == JobIds(old(jobs)) + [id];
      IdsIncreasingAppend(JobIds(old(jobs)), id);
    }

    /** `updateJobStatus`. */
    method UpdateJobStatus(id: int, status: JobStatus, now: int)
      requires Valid()
      modifies this`jobs
      ensures Valid()
      ensures jobs == SetStatus(old(jobs), id, status, now)
    {
      jobs := SetStatus(jobs, id, status, now);
      assert JobIds(jobs) == JobIds(old(jobs));
    }

    /** `cancelJob`. */
    method CancelJob(id: int, now: int)
      requires Valid()
      modifies this`jobs
      ensures Valid()
      ensures jobs == Cancel(old(jobs), id, now)
    {
      jobs := Cancel(jobs, id, now);
      assert JobIds(jobs) == JobIds(old(jobs));
    }

    /** `INSERT INTO AUDIT_PRODUTO …`: one ledger row, its id returned. */
    method AppendAudit(rec: AuditRecord) returns (id: int)
      requires Valid()
      modifies this`rows, this`nextRowId
      ensures Valid()
      ensures id == old(nextRowId) && id > 0 && nextRowId == id + 1
      ensures rows == old(rows) + [AuditRow(id, rec)]
    {
      id := nextRowId;
      rows := rows + [AuditRow(id, rec)];
      nextRowId := nextRowId + 1;
      assert RowIds(rows) == RowIds(old(rows)) + [id];
      IdsIncreasingAppend(RowIds(old(rows)), id);
    }

    /** `markValidationError` with the default table and column names. */
    method MarkValidationError(auditId: Value)
      requires Valid()
      modifies this`rows
      ensures Valid()
      ensures rows == MarkInvalid(old(rows), auditId)
    {
      rows := MarkInvalid(rows, auditId);
      assert RowIds(rows) == RowIds(old(rows));
    }
  }

  /** A freshly created job is found under its id, and the jobs that were
      there before are found as they were. */
  lemma {:induction false} CreatedJobFound(jobs: seq<Job>, created: Job, id: int)
    requires forall i :: 0 <= i < |jobs| ==> jobs[i].id < created.id
    ensures FindJob(jobs + [created], created.id) == Some(created)
    ensures id != created.id ==> FindJob(jobs + [created], id) == FindJob(jobs, id)
  {
    if jobs != [] {
      assert (jobs + [created])[1..] == jobs[1..] + [created];
      CreatedJobFound(jobs[1..], created, id);
    } else {
      assert (jobs + [created]) == [created];
    }
  }

  /** `updateJobStatus` changes the job with that id and no other: its new
      status is the one given, and `finished_at` becomes `now` exactly when
      that status is COMPLETED or FAILED. */
  lemma {:induction false} SetStatusOnlyTarget(jobs: seq<Job>, id: int, status: JobStatus, now: int, other: int)
    ensures var r := SetStatus(jobs, id, status, now);
      && (FindJob(jobs, id).None? ==> r == jobs)
      && (FindJob(jobs, id).Some? ==> FindJob(r, id) == Some(WithStatus(FindJob(jobs, id).value, status, now)))
      && (other != id ==> FindJob(r, other) == FindJob(jobs, other))
  {
    var r := SetStatus(jobs, id, status, now);
    if jobs != [] {
      assert r[1..] == SetStatus(jobs[1..], id, status, now);
      SetStatusOnlyTarget(jobs[1..], id, status, now, other);
    }
  }

  /** `cancelJob` turns a PROCESSING job into FAILED with `finished_at`
      set, leaves a finished or unknown job as it is, and never touches
      another job. */
  lemma {:induction false} CancelOnlyProcessing(jobs: seq<Job>, id: int, now: int, other: int)
    ensures var r := Cancel(jobs, id, now);
      && (FindJob(jobs, id).None? ==> r == jobs)
      && (FindJob(jobs, id).Some? && FindJob(jobs, id).value.status == Processing ==>
            FindJob(r, id) == Some(FindJob(jobs, id).value.(status := Failed, finishedAt := Some(now))))
      && (FindJob(jobs, id).Some? && FindJob(jobs, id).value.status != Processing ==>
            FindJob(r, id) == FindJob(jobs, id))
      && (other != id ==> FindJob(r, other) == FindJob(jobs, other))
  {
    var r := Cancel(jobs, id, now);
    if jobs != [] {
      assert r[1..] == Cancel(jobs[1..], id, now);
      CancelOnlyProcessing(jobs[1..], id, now, other);
    }
  }

  /** With unique ids, a cancel of a job that is not PROCESSING, or of an
      unknown id, changes nothing at all. */
  lemma CancelNoOp(jobs: seq<Job>, id: int, now: int)
    requires forall i :: 0 <= i < |jobs| && jobs[i].id == id ==> jobs[i].status != Processing
    ensures Cancel(jobs, id, now) == jobs
  {
  }

  /** Marking a ledger row invalid changes only the status of the rows with
      that id; ids, every other column and every other row stay. */
  lemma MarkInvalidOnlyTarget(rows: seq<AuditRow>, auditId: Value, i: int)
    requires 0 <= i < |rows|
    ensures var r := MarkInvalid(rows, auditId);
      && r[i].id == rows[i].id
      && r[i].rec == (if IdMatches(rows[i].id, auditId) then rows[i].rec.(status := ErrorValidacao) else rows[i].rec)
      && (r[i].rec.status == ErrorValidacao <==> IdMatches(rows[i].id, auditId) || rows[i].rec.status == ErrorValidacao)
  {
  }
}
