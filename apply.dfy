/** POST /api/jobs/apply: a job seeker applies to an active job at most once. */
module ApplyRoute {
  import opened Wrappers
  import opened Lists
  import opened Http
  import opened Schema
  import opened Auth

  datatype Applied = Applied(message: string, requestId: int, requestDate: int)

  /** The row test of `WHERE job_id = $1 AND job_seeker_id = $2`. */
  function AppliedBy(jobId: int, seekerId: int): JobRequest -> bool {
    (r: JobRequest) => r.jobId == jobId && r.seekerId == seekerId
  }

  /** The rule the duplicate check keeps: at most one request per (job, seeker) pair. */
  predicate OnePerPair(rows: seq<JobRequest>) {
    forall i, j :: 0 <= i < j < |rows| ==> !(rows[i].jobId == rows[j].jobId && rows[i].seekerId == rows[j].seekerId)
  }

  const Failed := "Failed to submit job application"
  const NoJobId := "Job ID is required"
  const NoSeeker := "Job seeker profile not found"
  const NoJob := "Job not found"
  const Closed := "This job is no longer accepting applications"
  const AlreadyApplied := "You have already applied for this job"
  const Submitted := "Job application submitted successfully"

  /** The handler; `now` is the request_date the INSERT stamps. */
  function Apply(t: Tables, header: Option<string>, verify: Verifier, jobId: Option<int>,
                 coverLetter: Option<string>, now: int): (out: (Response<Applied>, Tables))
    ensures out.0.Fail? ==> out.1 == t
    ensures Authenticate(header, verify).NoToken? ==> out.0 == Fail(401, TokenRequired)
    ensures Authenticate(header, verify).BadToken? ==> out.0 == Fail(500, Failed)
    ensures Authenticate(header, verify).Caller? && !TruthyId(jobId) ==> out.0 == Fail(400, NoJobId)
    ensures Authenticate(header, verify).Caller? && TruthyId(jobId) ==>
      var seeker := SeekerOf(t, Authenticate(header, verify).payload.userId);
      var job := JobById(t, jobId.value);
      && (seeker.None? ==> out.0 == Fail(404, NoSeeker))
      && (seeker.Some? && job.None? ==> out.0 == Fail(404, NoJob))
      && (seeker.Some? && job.Some? && !job.value.active ==> out.0 == Fail(400, Closed))
      && ((seeker.Some? && job.Some? && job.value.active
           && Find(t.requests, AppliedBy(jobId.value, seeker.value.id)).Some?)
            ==> out.0 == Fail(409, AlreadyApplied))
    ensures out.0.Success? <==> (
      && Authenticate(header, verify).Caller? && TruthyId(jobId)
      && var seeker := SeekerOf(t, Authenticate(header, verify).payload.userId);
      && seeker.Some? && JobById(t, jobId.value).Some? && JobById(t, jobId.value).value.active
      && Find(t.requests, AppliedBy(jobId.value, seeker.value.id)).None?)
  {
    match Authenticate(header, verify)
    case NoToken => (Fail(401, TokenRequired), t)
    case BadToken => (Fail(500, Failed), t)
    case Caller(p) =>
      if !TruthyId(jobId) then (Fail(400, NoJobId), t)
      else match SeekerOf(t, p.userId)
        case None => (Fail(404, NoSeeker), t)
        case Some(seeker) =>
          match JobById(t, jobId.value)
          case None => (Fail(404, NoJob), t)
          case Some(job) =>
            if !job.active then (Fail(400, Closed), t)
            else if Find(t.requests, AppliedBy(jobId.value, seeker.id)).Some? then
              (Fail(409, AlreadyApplied), t)
            else
              var id := NextId(RequestIds(t.requests));
              (Success(200, Applied(Submitted, id, now)),
               t.(requests := t.requests + [JobRequest(id, jobId.value, seeker.id, coverLetter, Pending,
                                                       None, None, now)]))
  }

  /** A successful application adds exactly one pending request, with a fresh id, for the job,
      the caller's job-seeker row and the cover letter; nothing else changes. */
  lemma ApplyAddsOneRequest(t: Tables, header: Option<string>, verify: Verifier, jobId: Option<int>,
                            coverLetter: Option<string>, now: int)
    requires Apply(t, header, verify, jobId, coverLetter, now).0.Success?
    ensures var (resp, t') := Apply(t, header, verify, jobId, coverLetter, now);
      var seeker := SeekerOf(t, Authenticate(header, verify).payload.userId).value;
      && t'.(requests := t.requests) == t
      && t'.requests == t.requests + [JobRequest(resp.body.requestId, jobId.value, seeker.id, coverLetter,
                                                 Pending, None, None, now)]
      && resp.body.requestId !in RequestIds(t.requests)
  {
  }

  /** The duplicate check keeps OnePerPair. */
  lemma ApplyKeepsOnePerPair(t: Tables, header: Option<string>, verify: Verifier, jobId: Option<int>,
                             coverLetter: Option<string>, now: int)
    requires OnePerPair(t.requests)
    ensures OnePerPair(Apply(t, header, verify, jobId, coverLetter, now).1.requests)
  {
    var (resp, t') := Apply(t, header, verify, jobId, coverLetter, now);
    if resp.Success? {
      var seeker := SeekerOf(t, Authenticate(header, verify).payload.userId).value;
      var p := AppliedBy(jobId.value, seeker.id);
      assert forall k :: 0 <= k < |t.requests| ==> !p(t.requests[k]);
      var n := |t.requests|;
      assert forall i :: 0 <= i < n ==> t'.requests[i] == t.requests[i];
      assert t'.requests[n].jobId == jobId.value && t'.requests[n].seekerId == seeker.id;
    }
  }

  /** Applying again to the same job answers 409 and changes nothing. */
  lemma ApplyTwice(t: Tables, header: Option<string>, verify: Verifier, jobId: Option<int>,
                   c1: Option<string>, c2: Option<string>, now1: int, now2: int)
    requires Apply(t, header, verify, jobId, c1, now1).0.Success?
    ensures var t' := Apply(t, header, verify, jobId, c1, now1).1;
            Apply(t', header, verify, jobId, c2, now2) == (Fail(409, AlreadyApplied), t')
  {
    var (resp, t') := Apply(t, header, verify, jobId, c1, now1);
    var seeker := SeekerOf(t, Authenticate(header, verify).payload.userId).value;
    assert t'.requests[|t.requests|] in t'.requests;
  }

  method Post(db: Database, header: Option<string>, verify: Verifier, jobId: Option<int>,
              coverLetter: Option<string>, now: int) returns (resp: Response<Applied>)
    modifies db
    ensures (resp, db.t) == Apply(old(db.t), header, verify, jobId, coverLetter, now)
  {
    var session := Authenticate(header, verify);
    if session.NoToken? {
      return Fail(401, TokenRequired);
    }
    if session.BadToken? {
      return Fail(500, Failed);
    }
    if !TruthyId(jobId) {
      return Fail(400, NoJobId);
    }
    var seeker := SeekerOf(db.t, session.payload.userId);
    if seeker.None? {
      return Fail(404, NoSeeker);
    }
    var job := JobById(db.t, jobId.value);
    if job.None? {
      return Fail(404, NoJob);
    }
    if !job.value.active {
      return Fail(400, Closed);
    }
    if Find(db.t.requests, AppliedBy(jobId.value, seeker.value.id)).Some? {
      return Fail(409, AlreadyApplied);
    }
    var id := NextId(RequestIds(db.t.requests));
    db.t := db.t.(requests := db.t.requests + [JobRequest(id, jobId.value, seeker.value.id, coverLetter,
                                                          Pending, None, None, now)]);
    resp := Success(200, Applied(Submitted, id, now));
  }
}
