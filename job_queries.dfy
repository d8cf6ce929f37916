/** The read-only queries of the job service over the audit store: the
    active job, the recent jobs, a job's progress summary and its error
    rows. */
module JobQueries {
  import opened Wrappers
  import opened Seqs
  import opened AuditStore

  function ProcessingJob(): Job -> bool {
    (j: Job) => j.status == Processing
  }

  /** `ORDER BY created_at DESC` as an ascending key. */
  function NewestFirst(): Job -> int {
    (j: Job) => -j.createdAt
  }

  /** `getAllProcessingJobs`: every PROCESSING job and no other, newest
      first. */
  function GetAllProcessingJobs(jobs: seq<Job>): (r: seq<Job>)
    ensures SortedBy(r, NewestFirst())
    ensures multiset(r) == multiset(Filter(jobs, ProcessingJob()))
    ensures forall i :: 0 <= i < |r| ==> r[i] in jobs && r[i].status == Processing
    ensures forall i :: 0 <= i < |jobs| && jobs[i].status == Processing ==> jobs[i] in r
  {
    var processing := Filter(jobs, ProcessingJob());
    var r := SortBy(processing, NewestFirst());
    assert forall i :: 0 <= i < |r| ==> r[i] in processing by {
      forall i | 0 <= i < |r| ensures r[i] in processing {
        assert r[i] in multiset(r);
      }
    }
    assert forall i :: 0 <= i < |jobs| && jobs[i].status == Processing ==> jobs[i] in r by {
      forall i | 0 <= i < |jobs| && jobs[i].status == Processing ensures jobs[i] in r {
        assert jobs[i] in multiset(processing);
      }
    }
    r
  }

  /** `getActiveJob`: the most recently created PROCESSING job, or none when
      no job is PROCESSING. */
  function GetActiveJob(jobs: seq<Job>): (r: Option<Job>)
    ensures r.None? <==> forall i :: 0 <= i < |jobs| ==> jobs[i].status != Processing
    ensures r.Some? ==> r.value in jobs && r.value.status == Processing
    ensures r.Some? ==> forall i :: 0 <= i < |jobs| && jobs[i].status == Processing ==>
      jobs[i].createdAt <= r.value.createdAt
  {
    var p := GetAllProcessingJobs(jobs);
    if p == [] then None
    else
      assert forall i :: 0 <= i < |jobs| && jobs[i].status == Processing ==> jobs[i].createdAt <= p[0].createdAt by {
        forall i | 0 <= i < |jobs| && jobs[i].status == Processing ensures jobs[i].createdAt <= p[0].createdAt {
          var k :| 0 <= k < |p| && p[k] == jobs[i];
          assert k == 0 || NewestFirst()(p[0]) <= NewestFirst()(p[k]);
        }
      }
      Some(p[0])
  }

  /** `getRecentJobs`: at most `limit` jobs, newest first. */
  function GetRecentJobs(jobs: seq<Job>, limit: nat): (r: seq<Job>)
    ensures |r| == if limit < |jobs| then limit else |jobs|
    ensures SortedBy(r, NewestFirst())
    ensures forall i :: 0 <= i < |r| ==> r[i] in jobs
    ensures multiset(r) <= multiset(jobs)
    ensures limit >= |jobs| ==> multiset(r) == multiset(jobs)
  {
    var sorted := SortBy(jobs, NewestFirst());
    PrefixHoldsSmallest(sorted, limit, NewestFirst());
    var r := Take(sorted, limit);
    TakeSubMultiset(sorted, limit);
    assert forall i :: 0 <= i < |r| ==> r[i] in jobs by {
      forall i | 0 <= i < |r| ensures r[i] in jobs {
        assert r[i] in multiset(sorted);
      }
    }
    r
  }

  /** The jobs `getRecentJobs` leaves out are none of them newer than any
      job it returns. */
  lemma RecentJobsAreNewest(jobs: seq<Job>, limit: nat)
    ensures var r := GetRecentJobs(jobs, limit);
      forall x, y :: x in multiset(jobs) - multiset(r) && y in r ==> x.createdAt <= y.createdAt
  {
    var sorted := SortBy(jobs, NewestFirst());
    PrefixHoldsSmallest(sorted, limit, NewestFirst());
    var r := GetRecentJobs(jobs, limit);
    assert r == Take(sorted, limit);
    forall x, y | x in multiset(jobs) - multiset(r) && y in r ensures x.createdAt <= y.createdAt {
      assert NewestFirst()(y) <= NewestFirst()(x);
    }
  }

  /** The progress counters of one job. */
  datatype Summary = Summary(total: int, processed: int, success: int, errors: int, remaining: int)

  function OfJob(jobId: int): AuditRow -> bool {
    (a: AuditRow) => a.rec.jobId == jobId
  }

  function SucceededIn(jobId: int): AuditRow -> bool {
    (a: AuditRow) => a.rec.jobId == jobId && a.rec.status == Success
  }

  /** `job_id = ? AND status <> 'SUCCESS'`. */
  function FailedIn(jobId: int): AuditRow -> bool {
    (a: AuditRow) => a.rec.jobId == jobId && a.rec.status != Success
  }

  /** `getJobSummary`: none for an unknown job; otherwise the job's total,
      the number of its ledger rows, split into SUCCESS rows and all others,
      and what is left, never negative. */
  function GetJobSummary(jobs: seq<Job>, rows: seq<AuditRow>, jobId: int): (r: Option<Summary>)
    ensures r.None? <==> FindJob(jobs, jobId).None?
    ensures r.Some? ==>
      var s := r.value;
      && s.total == FindJob(jobs, jobId).value.totalRows
      && s.processed == |Filter(rows, OfJob(jobId))|
      && s.success == |Filter(rows, SucceededIn(jobId))|
      && s.errors == |Filter(rows, FailedIn(jobId))|
      && s.success + s.errors == s.processed
      && s.remaining >= 0
      && (s.processed <= s.total ==> s.remaining == s.total - s.processed)
      && (s.processed >= s.total ==> s.remaining == 0)
  {
    match FindJob(jobs, jobId)
    case None => None
    case Some(job) =>
      var processed := Count(rows, OfJob(jobId));
      var success := Count(rows, SucceededIn(jobId));
      var errors := Count(rows, FailedIn(jobId));
      CountPartition(rows, OfJob(jobId), SucceededIn(jobId), FailedIn(jobId));
      CountFilter(rows, OfJob(jobId));
      CountFilter(rows, SucceededIn(jobId));
      CountFilter(rows, FailedIn(jobId));
      var total := job.totalRows;
      Some(Summary(total, processed, success, errors, if total - processed > 0 then total - processed else 0))
  }

  /** `row_number` as a sort key. */
  function RowNumber(): AuditRow -> int {
    (a: AuditRow) => a.rec.rowNumber
  }

  /** `getJobErrors`: exactly the job's ledger rows whose status is not
      SUCCESS, by ascending row number. */
  function GetJobErrors(rows: seq<AuditRow>, jobId: int): (r: seq<AuditRow>)
    ensures SortedBy(r, RowNumber())
    ensures multiset(r) == multiset(Filter(rows, FailedIn(jobId)))
    ensures forall i :: 0 <= i < |r| ==> r[i] in rows && r[i].rec.jobId == jobId && r[i].rec.status != Success
    ensures forall i :: 0 <= i < |rows| && rows[i].rec.jobId == jobId && rows[i].rec.status != Success ==> rows[i] in r
  {
    var failed := Filter(rows, FailedIn(jobId));
    var r := SortBy(failed, RowNumber());
    assert forall i :: 0 <= i < |r| ==> r[i] in failed by {
      forall i | 0 <= i < |r| ensures r[i] in failed {
        assert r[i] in multiset(r);
      }
    }
    assert forall i :: 0 <= i < |rows| && FailedIn(jobId)(rows[i]) ==> rows[i] in r by {
      forall i | 0 <= i < |rows| && FailedIn(jobId)(rows[i]) ensures rows[i] in r {
        assert rows[i] in multiset(failed);
      }
    }
    r
  }

  /** The error listing of a job has as many rows as its summary counts
      errors. */
  lemma JobErrorsMatchSummary(jobs: seq<Job>, rows: seq<AuditRow>, jobId: int)
    requires FindJob(jobs, jobId).Some?
    ensures |GetJobErrors(rows, jobId)| == GetJobSummary(jobs, rows, jobId).value.errors
  {
    var r := GetJobErrors(rows, jobId);
    assert |r| == |multiset(r)|;
  }
}
