/** GET /api/employee/job-history: the jobs of the caller's company with their job type and the
    number of applications to each, newest posting first. */
module JobHistoryRoute {
  import opened Wrappers
  import opened Lists
  import opened Http
  import opened Schema
  import opened Auth
  import ApplyRoute

  datatype Posting = Posting(job: Job, typeName: string, applicationCount: nat)

  function ForJob(jobId: int): JobRequest -> bool {
    (r: JobRequest) => r.jobId == jobId
  }

  /** `COALESCE(jr_count.request_count, 0)`: the number of requests for the job. */
  function ApplicationCount(t: Tables, jobId: int): nat {
    |Filter(t.requests, ForJob(jobId))|
  }

  /** A job of the company joined with its job type; None when the type is missing. */
  function PostingOf(t: Tables, companyId: int): Job -> Option<Posting> {
    (j: Job) =>
      if j.companyId != companyId then None
      else match JobTypeById(t, j.typeId)
        case None => None
        case Some(jt) => Some(Posting(j, jt.name, ApplicationCount(t, j.id)))
  }

  /** ORDER BY j.job_posted_date DESC. */
  function NewestFirst(x: Posting): seq<int> {
    [-x.job.posted]
  }

  const Failed := "Failed to fetch job history"

  function History(t: Tables, header: Option<string>, verify: Verifier): (r: Response<seq<Posting>>)
    ensures Authenticate(header, verify).NoToken? ==> r == Fail(401, TokenRequired)
    ensures Authenticate(header, verify).BadToken? ==> r == Fail(500, Failed)
    ensures Authenticate(header, verify).Caller? ==>
      (r == Fail(404, "Employee not found") <==>
       EmployeeOf(t, Authenticate(header, verify).payload.userId).None?)
    ensures (Authenticate(header, verify).Caller?
             && EmployeeOf(t, Authenticate(header, verify).payload.userId).Some?) ==> r.Success? && r.status == 200
    ensures r.Success? ==>
      && Authenticate(header, verify).Caller?
      && EmployeeOf(t, Authenticate(header, verify).payload.userId).Some?
      && SortedBy(r.body, NewestFirst)
  {
    match Authenticate(header, verify)
    case NoToken => Fail(401, TokenRequired)
    case BadToken => Fail(500, Failed)
    case Caller(p) =>
      match EmployeeOf(t, p.userId)
      case None => Fail(404, "Employee not found")
      case Some(e) => Success(200, SortBy(Collect(t.jobs, PostingOf(t, e.companyId)), NewestFirst))
  }

  /** The history lists exactly the company's jobs whose job type exists, each with the number
      of applications to it. */
  lemma CompanyJobsOnly(t: Tables, header: Option<string>, verify: Verifier, x: Posting)
    requires History(t, header, verify).Success?
    ensures var company := EmployeeOf(t, Authenticate(header, verify).payload.userId).value.companyId;
      x in History(t, header, verify).body <==>
        && x.job in t.jobs && x.job.companyId == company
        && JobTypeById(t, x.job.typeId) == Some(JobType(x.job.typeId, x.typeName))
        && x.applicationCount == ApplicationCount(t, x.job.id)
  {
    var company := EmployeeOf(t, Authenticate(header, verify).payload.userId).value.companyId;
    var f := PostingOf(t, company);
    var rows := Collect(t.jobs, f);
    var body := History(t, header, verify).body;
    assert body == SortBy(rows, NewestFirst);
    assert x in body <==> x in rows by {
      assert x in body <==> x in multiset(body);
      assert x in rows <==> x in multiset(rows);
    }
    CollectMember(t.jobs, f, x);
    PostingOfMeans(t, company, x);
  }

  /** A posting is produced from a job exactly when it is that job's, of the company, with its
      job type's name and its application count. */
  lemma PostingOfMeans(t: Tables, company: int, x: Posting)
    ensures (exists j :: j in t.jobs && PostingOf(t, company)(j) == Some(x)) <==>
      && x.job in t.jobs && x.job.companyId == company
      && JobTypeById(t, x.job.typeId) == Some(JobType(x.job.typeId, x.typeName))
      && x.applicationCount == ApplicationCount(t, x.job.id)
  {
    var f := PostingOf(t, company);
    if j :| j in t.jobs && f(j) == Some(x) {
      var jt := JobTypeById(t, j.typeId).value;
      assert jt in t.jobTypes && jt.id == j.typeId;
    }
    if && x.job in t.jobs && x.job.companyId == company
       && JobTypeById(t, x.job.typeId) == Some(JobType(x.job.typeId, x.typeName))
       && x.applicationCount == ApplicationCount(t, x.job.id)
    {
      assert f(x.job) == Some(x);
    }
  }

  /** A successful application to a job counts once more in that job's application count, and
      in no other job's. */
  lemma ApplyCountsOnce(t: Tables, header: Option<string>, verify: Verifier, jobId: Option<int>,
                        coverLetter: Option<string>, now: int, other: int)
    requires ApplyRoute.Apply(t, header, verify, jobId, coverLetter, now).0.Success?
    ensures var t' := ApplyRoute.Apply(t, header, verify, jobId, coverLetter, now).1;
      && ApplicationCount(t', jobId.value) == ApplicationCount(t, jobId.value) + 1
      && (other != jobId.value ==> ApplicationCount(t', other) == ApplicationCount(t, other))
  {
    var (resp, t') := ApplyRoute.Apply(t, header, verify, jobId, coverLetter, now);
    ApplyRoute.ApplyAddsOneRequest(t, header, verify, jobId, coverLetter, now);
    var added := t'.requests[|t.requests|];
    assert t'.requests == t.requests + [added];
    FilterAppend(t.requests, [added], ForJob(jobId.value));
    FilterAppend(t.requests, [added], ForJob(other));
  }
}
