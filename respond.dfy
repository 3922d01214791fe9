/** POST /api/employee/applications/respond: an employee of the company that posted a job
    accepts or rejects an application to it. */
module RespondRoute {
  import opened Wrappers
  import opened Lists
  import opened Http
  import opened Schema
  import opened Auth

  datatype Responded = Responded(message: string, status: string)

  /** The permission join: the request's job belongs to a company that employs the account. */
  predicate MayRespond(t: Tables, requestId: int, accountId: int) {
    exists r, j, e :: r in t.requests && j in t.jobs && e in t.employees
      && r.id == requestId && j.id == r.jobId && e.companyId == j.companyId && e.accountId == accountId
  }

  function RequestIdIs(id: int): JobRequest -> bool {
    (r: JobRequest) => r.id == id
  }

  /** `SET request_status = status, employee_response = response, response_date = now`. */
  function AnswerWith(status: string, response: Option<string>, now: int): JobRequest -> JobRequest {
    (r: JobRequest) => r.(status := status, response := response, responseDate := Some(now))
  }

  predicate ValidStatus(status: Option<string>) {
    status == Some("accepted") || status == Some("rejected")
  }

  const Invalid := "Valid application ID and status are required"
  const Forbidden := "Unauthorized to respond to this request"
  const RespondFailed := "Failed to respond to job request"

  function Respond(t: Tables, header: Option<string>, verify: Verifier, applicationId: Option<int>,
                   status: Option<string>, response: Option<string>, now: int): (out: (Response<Responded>, Tables))
    ensures out.0.Fail? ==> out.1 == t
    ensures Authenticate(header, verify).NoToken? ==> out.0 == Fail(401, TokenRequired)
    ensures Authenticate(header, verify).BadToken? ==> out.0 == Fail(500, RespondFailed)
    ensures (Authenticate(header, verify).Caller? && !(TruthyId(applicationId) && ValidStatus(status)))
              ==> out.0 == Fail(400, Invalid)
    ensures (Authenticate(header, verify).Caller? && TruthyId(applicationId) && ValidStatus(status)
             && !MayRespond(t, applicationId.value, Authenticate(header, verify).payload.userId))
              ==> out.0 == Fail(403, Forbidden)
    ensures out.0.Success? <==> (
      && Authenticate(header, verify).Caller? && TruthyId(applicationId) && ValidStatus(status)
      && MayRespond(t, applicationId.value, Authenticate(header, verify).payload.userId))
    ensures out.0.Success? ==> out.0.status == 200 && out.0.body.status == status.value
  {
    match Authenticate(header, verify)
    case NoToken => (Fail(401, TokenRequired), t)
    case BadToken => (Fail(500, RespondFailed), t)
    case Caller(p) =>
      if !TruthyId(applicationId) || !ValidStatus(status) then (Fail(400, Invalid), t)
      else if !MayRespond(t, applicationId.value, p.userId) then (Fail(403, Forbidden), t)
      else
        (Success(200, Responded("Job request " + status.value + " successfully", status.value)),
         t.(requests := UpdateWhere(t.requests, RequestIdIs(applicationId.value), AnswerWith(status.value, response, now))))
  }

  /** Only the answered request's status, response and response date change; its job, applicant,
      cover letter and date stay, and so does every other row and table. */
  lemma RespondChangesOnlyThatRequest(t: Tables, header: Option<string>, verify: Verifier,
                                      applicationId: Option<int>, status: Option<string>,
                                      response: Option<string>, now: int)
    requires Respond(t, header, verify, applicationId, status, response, now).0.Success?
    ensures var t' := Respond(t, header, verify, applicationId, status, response, now).1;
      && t'.(requests := t.requests) == t
      && |t'.requests| == |t.requests|
      && forall k :: 0 <= k < |t.requests| ==>
           && t'.requests[k].(status := t.requests[k].status, response := t.requests[k].response,
                              responseDate := t.requests[k].responseDate) == t.requests[k]
           && (t.requests[k].id != applicationId.value ==> t'.requests[k] == t.requests[k])
           && (t.requests[k].id == applicationId.value ==>
                 t'.requests[k].status == status.value && t'.requests[k].response == response
                 && t'.requests[k].responseDate == Some(now))
  {
  }

  /** The current status is not consulted: once answered, the same employee may answer again
      with any valid status. */
  lemma RespondAgain(t: Tables, header: Option<string>, verify: Verifier, applicationId: Option<int>,
                     status: Option<string>, response: Option<string>, now: int,
                     status2: Option<string>, response2: Option<string>, now2: int)
    requires Respond(t, header, verify, applicationId, status, response, now).0.Success?
    requires ValidStatus(status2)
    ensures var t' := Respond(t, header, verify, applicationId, status, response, now).1;
            Respond(t', header, verify, applicationId, status2, response2, now2).0.Success?
  {
    var t' := Respond(t, header, verify, applicationId, status, response, now).1;
    var accountId := Authenticate(header, verify).payload.userId;
    var r, j, e :| r in t.requests && j in t.jobs && e in t.employees
      && r.id == applicationId.value && j.id == r.jobId && e.companyId == j.companyId && e.accountId == accountId;
    var k :| 0 <= k < |t.requests| && t.requests[k] == r;
    var r' := t'.requests[k];
    assert r' in t'.requests && r'.id == r.id && r'.jobId == r.jobId;
  }

  method Post(db: Database, header: Option<string>, verify: Verifier, applicationId: Option<int>,
              status: Option<string>, response: Option<string>, now: int) returns (resp: Response<Responded>)
    modifies db
    ensures (resp, db.t) == Respond(old(db.t), header, verify, applicationId, status, response, now)
  {
    var session := Authenticate(header, verify);
    if session.NoToken? {
      return Fail(401, TokenRequired);
    }
    if session.BadToken? {
      return Fail(500, RespondFailed);
    }
    if !TruthyId(applicationId) || !ValidStatus(status) {
      return Fail(400, Invalid);
    }
    if !MayRespond(db.t, applicationId.value, session.payload.userId) {
      return Fail(403, Forbidden);
    }
    db.t := db.t.(requests := UpdateWhere(db.t.requests, RequestIdIs(applicationId.value), AnswerWith(status.value, response, now)));
    resp := Success(200, Responded("Job request " + status.value + " successfully", status.value));
  }
}
