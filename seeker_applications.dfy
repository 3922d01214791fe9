/** GET /api/jobseeker/applications: the caller's own applications, newest first. */
module SeekerApplicationsRoute {
  import opened Wrappers
  import opened Lists
  import opened Http
  import opened Schema
  import opened Auth

  /** One application with its job, company and job type. */
  datatype Application = Application(
    requestId: int, date: int, status: string, coverLetter: Option<string>, response: Option<string>,
    responseDate: Option<int>, jobId: int, jobName: string, location: Option<string>,
    companyName: string, typeName: string)

  /** The request joined with its job, the job's company and the job's type; None when one of
      them is missing (an inner join drops the row). */
  function Joined(t: Tables, r: JobRequest): Option<Application> {
    match JobById(t, r.jobId)
    case None => None
    case Some(j) =>
      match (CompanyById(t, j.companyId), JobTypeById(t, j.typeId))
      case (Some(c), Some(jt)) =>
        Some(Application(r.id, r.date, r.status, r.coverLetter, r.response, r.responseDate,
                         j.id, j.name, j.location, c.name, jt.name))
      case _ => None
  }

  /** `WHERE jr.job_seeker_id = $1` on the joined rows. */
  function RowOf(t: Tables, seekerId: int): JobRequest -> Option<Application> {
    (r: JobRequest) => if r.seekerId == seekerId then Joined(t, r) else None
  }

  /** ORDER BY jr.request_date DESC. */
  function NewestFirst(x: Application): seq<int> {
    [-x.date]
  }

  const Failed := "Failed to fetch job applications"

  function Applications(t: Tables, header: Option<string>, verify: Verifier): (r: Response<seq<Application>>)
    ensures Authenticate(header, verify).NoToken? ==> r == Fail(401, TokenRequired)
    ensures Authenticate(header, verify).BadToken? ==> r == Fail(500, Failed)
    ensures Authenticate(header, verify).Caller? ==>
      (r == Fail(404, "Job seeker profile not found") <==>
       SeekerOf(t, Authenticate(header, verify).payload.userId).None?)
    ensures (Authenticate(header, verify).Caller?
             && SeekerOf(t, Authenticate(header, verify).payload.userId).Some?) ==> r.Success? && r.status == 200
    ensures r.Success? ==>
      && Authenticate(header, verify).Caller?
      && SeekerOf(t, Authenticate(header, verify).payload.userId).Some?
      && SortedBy(r.body, NewestFirst)
  {
    match Authenticate(header, verify)
    case NoToken => Fail(401, TokenRequired)
    case BadToken => Fail(500, Failed)
    case Caller(p) =>
      match SeekerOf(t, p.userId)
      case None => Fail(404, "Job seeker profile not found")
      case Some(s) => Success(200, SortBy(Collect(t.requests, RowOf(t, s.id)), NewestFirst))
  }

  /** The list holds exactly the caller's applications whose job, company and job type exist. */
  lemma OwnApplicationsOnly(t: Tables, header: Option<string>, verify: Verifier, x: Application)
    requires Applications(t, header, verify).Success?
    ensures var seeker := SeekerOf(t, Authenticate(header, verify).payload.userId).value;
      x in Applications(t, header, verify).body <==>
        exists r :: r in t.requests && r.seekerId == seeker.id && Joined(t, r) == Some(x)
  {
    var seeker := SeekerOf(t, Authenticate(header, verify).payload.userId).value;
    var f := RowOf(t, seeker.id);
    var rows := Collect(t.requests, f);
    var body := Applications(t, header, verify).body;
    assert body == SortBy(rows, NewestFirst);
    assert x in body <==> x in rows by {
      assert x in body <==> x in multiset(body);
      assert x in rows <==> x in multiset(rows);
    }
    CollectMember(t.requests, f, x);
    assert forall r :: f(r) == Some(x) <==> r.seekerId == seeker.id && Joined(t, r) == Some(x);
  }

  /** No application is listed before a newer one. */
  lemma NewestApplicationsFirst(t: Tables, header: Option<string>, verify: Verifier, i: nat, j: nat)
    requires Applications(t, header, verify).Success?
    requires i < j < |Applications(t, header, verify).body|
    ensures Applications(t, header, verify).body[i].date >= Applications(t, header, verify).body[j].date
  {
    SortedFirstComponent(Applications(t, header, verify).body, NewestFirst, i, j);
  }
}
