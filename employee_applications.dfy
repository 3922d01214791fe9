/** GET /api/employee/applications: the applications to the jobs of the caller's company,
    newest first. */
module EmployeeApplicationsRoute {
  import opened Wrappers
  import opened Lists
  import opened Http
  import opened Schema
  import opened Auth

  /** One application with its job and the applicant's name and e-mail. */
  datatype Applicant = Applicant(
    requestId: int, date: int, status: string, coverLetter: Option<string>, response: Option<string>,
    responseDate: Option<int>, jobId: int, jobName: string, applicantName: Option<string>,
    applicantEmail: string)

  /** `p.first_name || ' ' || p.last_name`: NULL when either name is NULL. */
  function FullName(p: Person): (r: Option<string>)
    ensures r.Some? <==> p.firstName.Some? && p.lastName.Some?
    ensures r.Some? ==> r.value == p.firstName.value + " " + p.lastName.value
  {
    if p.firstName.Some? && p.lastName.Some? then Some(p.firstName.value + " " + p.lastName.value) else None
  }

  /** The request joined with its job (which must belong to the company), the job seeker, the
      seeker's person and the seeker's account; None when the row drops out. */
  function Joined(t: Tables, companyId: int, r: JobRequest): Option<Applicant> {
    match (JobById(t, r.jobId), SeekerById(t, r.seekerId))
    case (Some(j), Some(s)) =>
      if j.companyId != companyId then None
      else
        (match (PersonById(t, s.personId), AccountById(t, s.accountId))
         case (Some(p), Some(a)) =>
           Some(Applicant(r.id, r.date, r.status, r.coverLetter, r.response, r.responseDate,
                          j.id, j.name, FullName(p), a.email))
         case _ => None)
    case _ => None
  }

  function RowOf(t: Tables, companyId: int): JobRequest -> Option<Applicant> {
    (r: JobRequest) => Joined(t, companyId, r)
  }

  /** ORDER BY jr.request_date DESC. */
  function NewestFirst(x: Applicant): seq<int> {
    [-x.date]
  }

  const Failed := "Failed to fetch job requests"

  function Applicants(t: Tables, header: Option<string>, verify: Verifier): (r: Response<seq<Applicant>>)
    ensures Authenticate(header, verify).NoToken? ==> r == Fail(401, TokenRequired)
    ensures Authenticate(header, verify).BadToken? ==> r == Fail(500, Failed)
    ensures Authenticate(header, verify).Caller? ==>
      (r == Fail(404, "Employee not found") <==>
       EmployeeOf(t, Authenticate(header, verify).payload.userId).None?)
    ensures (Authenticate(header, verify).Caller?
             && EmployeeOf(t, Authenticate(header, verify).payload.userId).Some?) ==> r.Success? && r.status == 200
    ensures r.Success? ==>
      && Authenticate(header, verify).Caller?
      && EmployeeOf(t, Authenticate(header, verify).payload.userId).Some?
      && SortedBy(r.body, NewestFirst)
  {
    match Authenticate(header, verify)
    case NoToken => Fail(401, TokenRequired)
    case BadToken => Fail(500, Failed)
    case Caller(p) =>
      match EmployeeOf(t, p.userId)
      case None => Fail(404, "Employee not found")
      case Some(e) => Success(200, SortBy(Collect(t.requests, RowOf(t, e.companyId)), NewestFirst))
  }

  /** The list holds exactly the applications to jobs of the caller's company whose applicant
      has a person and an account. */
  lemma CompanyApplicationsOnly(t: Tables, header: Option<string>, verify: Verifier, x: Applicant)
    requires Applicants(t, header, verify).Success?
    ensures var company := EmployeeOf(t, Authenticate(header, verify).payload.userId).value.companyId;
      x in Applicants(t, header, verify).body <==>
        exists r :: r in t.requests && Joined(t, company, r) == Some(x)
  {
    var company := EmployeeOf(t, Authenticate(header, verify).payload.userId).value.companyId;
    var rows := Collect(t.requests, RowOf(t, company));
    var body := Applicants(t, header, verify).body;
    assert multiset(body) == multiset(rows);
    assert x in body <==> x in multiset(body);
    CollectMember(t.requests, RowOf(t, company), x);
  }

  /** A joined row names a job of the company and the request's applicant. */
  lemma JoinedIsCompanyJob(t: Tables, companyId: int, r: JobRequest)
    requires Joined(t, companyId, r).Some?
    ensures var x := Joined(t, companyId, r).value;
      && x.requestId == r.id && x.date == r.date && x.status == r.status
      && (exists j :: j in t.jobs && j.id == x.jobId == r.jobId && j.companyId == companyId)
      && (exists s :: s in t.seekers && s.id == r.seekerId)
  {
    var j := JobById(t, r.jobId).value;
    var s := SeekerById(t, r.seekerId).value;
    assert j in t.jobs && s in t.seekers;
  }

  /** No application is listed before a newer one. */
  lemma NewestApplicantsFirst(t: Tables, header: Option<string>, verify: Verifier, i: nat, j: nat)
    requires Applicants(t, header, verify).Success?
    requires i < j < |Applicants(t, header, verify).body|
    ensures Applicants(t, header, verify).body[i].date >= Applicants(t, header, verify).body[j].date
  {
    SortedFirstComponent(Applicants(t, header, verify).body, NewestFirst, i, j);
  }
}
