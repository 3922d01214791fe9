/** The job seeker's dashboard: application statistics, the shortened lists, and who may see it. */
module SeekerDashboardPage {
  import opened Wrappers
  import opened Text
  import opened Lists
  import opened Http
  import opened Schema
  import opened Auth
  import opened MeRoute
  import opened SeekerApplicationsRoute
  import Landing

  datatype Stats = Stats(total: nat, pending: nat, accepted: nat, rejected: nat)

  const AcceptedStatus: string := "accepted"
  const RejectedStatus: string := "rejected"

  function StatusIs(status: string): Application -> bool {
    (a: Application) => a.status == status
  }

  /** The statistics `loadJobSeekerData` computes from the applications: the total, and for each
      of the three statuses the number of applications that carry it. */
  function StatsOf(apps: seq<Application>): (r: Stats)
    ensures r.total == |apps|
    ensures r.pending == Count(apps, StatusIs(Pending))
    ensures r.accepted == Count(apps, StatusIs(AcceptedStatus))
    ensures r.rejected == Count(apps, StatusIs(RejectedStatus))
  {
    FilterLength(apps, StatusIs(Pending));
    FilterLength(apps, StatusIs(AcceptedStatus));
    FilterLength(apps, StatusIs(RejectedStatus));
    Stats(|apps|, |Filter(apps, StatusIs(Pending))|, |Filter(apps, StatusIs(AcceptedStatus))|,
          |Filter(apps, StatusIs(RejectedStatus))|)
  }

  /** The three status counts never exceed the total, and reach it exactly when every
      application is pending, accepted or rejected. */
  lemma StatusCountsWithinTotal(apps: seq<Application>)
    ensures var s := StatsOf(apps);
      && s.pending + s.accepted + s.rejected <= s.total
      && (s.pending + s.accepted + s.rejected == s.total <==>
          forall a :: a in apps ==> a.status in {Pending, AcceptedStatus, RejectedStatus})
  {
    StatusPartition(apps);
    var others := Filter(apps, OtherStatus);
    if |others| > 0 {
      assert others[0] in others;
    }
  }

  /** Applications whose status is none of the three the dashboard counts. */
  function OtherStatus(a: Application): bool {
    a.status !in {Pending, AcceptedStatus, RejectedStatus}
  }

  /** Every application is counted once: under its status, or among the others. */
  lemma {:induction false} StatusPartition(apps: seq<Application>)
    ensures var s := StatsOf(apps);
      s.pending + s.accepted + s.rejected + |Filter(apps, OtherStatus)| == s.total
  {
    if |apps| > 0 {
      var x, rest := apps[0], apps[1..];
      StatusPartition(rest);
      assert apps == [x] + rest;
      PartitionStep(x, rest);
    }
  }

  /** One more application adds one to exactly one of the four counts. */
  lemma PartitionStep(x: Application, rest: seq<Application>)
    ensures var (s, s') := (StatsOf(rest), StatsOf([x] + rest));
      s'.pending + s'.accepted + s'.rejected + |Filter([x] + rest, OtherStatus)|
        == s.pending + s.accepted + s.rejected + |Filter(rest, OtherStatus)| + 1
  {
    StatusStep(x, rest, Pending);
    StatusStep(x, rest, AcceptedStatus);
    StatusStep(x, rest, RejectedStatus);
    assert ([x] + rest)[1..] == rest;
  }

  /** One application adds one to the count of its own status and nothing to the others. */
  lemma StatusStep(x: Application, rest: seq<Application>, status: string)
    ensures |Filter([x] + rest, StatusIs(status))| ==
      |Filter(rest, StatusIs(status))| + (if x.status == status then 1 else 0)
  {
    assert ([x] + rest)[1..] == rest;
  }

  /** `jobsData.slice(0, 5)`: the first five search results, or all of them. */
  function RecentJobs<T>(jobs: seq<T>): (r: seq<T>)
    ensures |r| == if |jobs| < 5 then |jobs| else 5
    ensures r == jobs[..|r|]
  {
    JsSlice(jobs, 0, 5)
  }

  /** `applications.slice(0, 3)`: the applications listed on the dashboard. */
  function ShownApplications(apps: seq<Application>): (r: seq<Application>)
    ensures |r| == if |apps| < 3 then |apps| else 3
    ensures r == apps[..|r|]
  {
    JsSlice(apps, 0, 3)
  }

  predicate IsJobSeeker(m: Me) { m.isJobSeeker }

  /** The page is shown only to job seekers; others are sent to the employee dashboard. */
  function Arrive(token: Option<string>, me: Response<Me>): (r: Landing.Route)
    ensures r == Landing.Show <==> token.Some? && me.Success? && me.body.isJobSeeker
    ensures r.Redirect? ==> r.path == "/employee/dashboard"
  {
    Landing.Guard(token, me, IsJobSeeker, "/employee/dashboard")
  }

  /** With the token the browser stores, the dashboard is shown exactly to accounts that have a
      (truthy) job seeker row. */
  lemma ShownToJobSeekers(t: Tables, token: string, verify: Verifier)
    requires token in verify
    requires ' ' !in token
    ensures var me := GetMe(t, Some(BearerPrefix + token), verify);
      var id := verify[token].userId;
      Arrive(Some(token), me) == Landing.Show <==>
        && AccountById(t, id).Some? && AccountTypeById(t, AccountById(t, id).value.typeId).Some?
        && SeekerOf(t, id).Some? && SeekerOf(t, id).value.id != 0
  {
    BearerOfToken(token);
  }

  /** The header the browser sends carries exactly the stored token. */
  lemma BearerOfToken(token: string)
    requires ' ' !in token
    ensures BearerToken(Some(BearerPrefix + token)) == Some(token)
  {
    var h := BearerPrefix + token;
    assert h[..7] == BearerPrefix;
    BearerTokenIsSecondWord(h);
    var t := BearerToken(Some(h)).value;
    assert h[7..] == token;
    assert t == token[..|t|] by {
      assert h[..7 + |t|] == BearerPrefix + t;
    }
    assert t == token;
  }
}
