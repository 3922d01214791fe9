/** The employer's posting history page: the status filter, the counts on its buttons, and the
    status a toggle asks for. */
module PostingHistoryPage {
  import opened Wrappers
  import opened Lists
  import opened Schema
  import opened Http
  import opened MeRoute
  import opened JobHistoryRoute
  import Landing

  function IsActivePosting(x: Posting): bool { x.job.active }
  function IsInactivePosting(x: Posting): bool { !x.job.active }

  /** `job.job_closing_date && new Date(job.job_closing_date) < new Date()`. */
  function Expired(now: int): Posting -> bool {
    (x: Posting) => x.job.closing.Some? && x.job.closing.value < now
  }

  /** `filterJobs`: 'active', 'inactive' and 'expired' keep the matching jobs in order; 'all' and
      any other value keep the whole list. */
  function FilterJobs(jobs: seq<Posting>, filter: string, now: int): (r: seq<Posting>)
    ensures filter !in {"active", "inactive", "expired"} ==> r == jobs
    ensures filter == "active" ==> forall x :: x in r <==> x in jobs && x.job.active
    ensures filter == "inactive" ==> forall x :: x in r <==> x in jobs && !x.job.active
    ensures filter == "expired" ==> forall x :: x in r <==>
      x in jobs && x.job.closing.Some? && x.job.closing.value < now
    ensures multiset(r) <= multiset(jobs)
  {
    if filter == "all" then jobs
    else if filter == "active" then Filter(jobs, IsActivePosting)
    else if filter == "inactive" then Filter(jobs, IsInactivePosting)
    else if filter == "expired" then Filter(jobs, Expired(now))
    else jobs
  }

  /** Whether the list under `filter` shows the job `x`. */
  predicate Shows(filter: string, now: int, x: Posting) {
    if filter == "active" then x.job.active
    else if filter == "inactive" then !x.job.active
    else if filter == "expired" then x.job.closing.Some? && x.job.closing.value < now
    else true
  }

  /** The filter decides job by job: it keeps `x` alone exactly when `x` shows, and it splits
      over concatenation, so the shown list keeps the jobs' order. */
  lemma FilterJobsAppend(a: seq<Posting>, b: seq<Posting>, x: Posting, filter: string, now: int)
    ensures FilterJobs(a + b, filter, now) == FilterJobs(a, filter, now) + FilterJobs(b, filter, now)
    ensures FilterJobs([x], filter, now) == if Shows(filter, now, x) then [x] else []
  {
    if filter == "active" {
      FilterAppend(a, b, IsActivePosting);
    } else if filter == "inactive" {
      FilterAppend(a, b, IsInactivePosting);
    } else if filter == "expired" {
      FilterAppend(a, b, Expired(now));
    }
    FilterJobsOne(x, filter, now);
  }

  lemma FilterJobsOne(x: Posting, filter: string, now: int)
    ensures FilterJobs([x], filter, now) == if Shows(filter, now, x) then [x] else []
  {
    assert [x][1..] == [];
  }

  /** The numbers the four filter buttons show. */
  datatype ButtonCounts = ButtonCounts(all: nat, active: nat, inactive: nat, expired: nat)

  function Counts(jobs: seq<Posting>, now: int): ButtonCounts {
    ButtonCounts(|jobs|, |Filter(jobs, IsActivePosting)|, |Filter(jobs, IsInactivePosting)|,
                 |Filter(jobs, Expired(now))|)
  }

  /** Each button's count is the length of the list its filter shows, and the active and inactive
      lists split the jobs between them. */
  lemma CountsMatchFilters(jobs: seq<Posting>, now: int)
    ensures var c := Counts(jobs, now);
      && c.all == |FilterJobs(jobs, "all", now)|
      && c.active == |FilterJobs(jobs, "active", now)|
      && c.inactive == |FilterJobs(jobs, "inactive", now)|
      && c.expired == |FilterJobs(jobs, "expired", now)|
      && c.active + c.inactive == c.all
      && multiset(FilterJobs(jobs, "active", now)) + multiset(FilterJobs(jobs, "inactive", now)) == multiset(jobs)
  {
    FilterComplement(jobs, IsActivePosting, IsInactivePosting);
  }

  /** The body `toggleJobStatus` posts, and the message shown when it succeeds. */
  datatype ToggleRequest = ToggleRequest(jobId: int, isActive: bool)

  function ToggleStatus(jobId: int, currentStatus: bool): (r: ToggleRequest)
    ensures r.jobId == jobId && r.isActive == !currentStatus
  {
    ToggleRequest(jobId, !currentStatus)
  }

  function ToggleMessage(currentStatus: bool): string {
    if !currentStatus then "Job activated successfully" else "Job deactivated successfully"
  }

  /** Two toggles from the status the first one asks for come back to the starting status. */
  lemma ToggleTwice(jobId: int, currentStatus: bool)
    ensures ToggleStatus(jobId, ToggleStatus(jobId, currentStatus).isActive).isActive == currentStatus
    ensures ToggleMessage(currentStatus) == "Job activated successfully" <==> ToggleStatus(jobId, currentStatus).isActive
  {
  }

  predicate IsEmployee(m: Me) { m.isEmployee }

  /** `checkAuthAndLoadData`: the page is shown only to employees. */
  function Arrive(token: Option<string>, me: Response<Me>): (r: Landing.Route)
    ensures r == Landing.Show <==> token.Some? && me.Success? && me.body.isEmployee
    ensures r.Redirect? ==> r.path == "/jobseeker/dashboard"
  {
    Landing.Guard(token, me, IsEmployee, "/jobseeker/dashboard")
  }
}
